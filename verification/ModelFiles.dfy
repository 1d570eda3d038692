/** Model file identities and requirements: what a task needs, what a node holds, what it runs. */
module ModelFiles {
  import opened Basics
  import opened Model
  import opened Sorting
  import opened HashList
  import opened CanonicalJson
  import opened JsonParser

  // ---------- Identities ----------

  datatype ModelFileEntry = ModelFileEntry(
    sourceType: string,
    repository: string,
    revision: string,
    format: string,
    formatKwargs: map<string, Json>)

  function Lower(s: string): string {
    if s == "" then "" else
      [if 'A' <= s[0] <= 'Z' then (s[0] as int + 32) as char else s[0]] + Lower(s[1..])
  }

  predicate IsCommitSHA(revision: string) {
    && |revision| == 40
    && forall i | 0 <= i < 40 :: '0' <= revision[i] <= '9' || 'a' <= revision[i] <= 'f' || 'A' <= revision[i] <= 'F'
  }

  function Repository(s: string): string {
    if StartsWith(s, "http://") || StartsWith(s, "https://") then s else Lower(s)
  }

  function Revision(s: string): string {
    if IsCommitSHA(s) then Lower(s) else s
  }

  function Normalized(e: ModelFileEntry): ModelFileEntry {
    e.(repository := Repository(e.repository), revision := Revision(e.revision))
  }

  function CanonicalObject(e: ModelFileEntry, withRevision: bool): Json {
    var n := Normalized(e);
    var obj := map["source_type" := Str(n.sourceType), "repository" := Str(n.repository),
                   "format" := Str(n.format), "format_kwargs" := Obj(n.formatKwargs)];
    Obj(if withRevision then obj["revision" := Str(n.revision)] else obj)
  }

  // An entry with a revision is required exactly; one without, by its source.
  function Identity(e: ModelFileEntry): Json {
    CanonicalObject(e, e.revision != "")
  }

  predicate EntryOk(e: ModelFileEntry) {
    Valid(Obj(e.formatKwargs))
  }

  lemma IdentityValid(e: ModelFileEntry)
    requires EntryOk(e)
    ensures Valid(Identity(e))
  {
    var fields := Identity(e).fields;
    forall k | k in fields ensures Valid(fields[k]) {}
  }

  /** An exact identity is never a source identity, so their printed forms differ. */
  lemma ExactIsNeverSource(e: ModelFileEntry, f: ModelFileEntry)
    requires EntryOk(e) && EntryOk(f) && e.revision != "" && f.revision == ""
    ensures Print(Identity(e)) != Print(Identity(f))
  {
    hide Print, Normalized;
    IdentityValid(e);
    IdentityValid(f);
    assert "revision" in Identity(e).fields && "revision" !in Identity(f).fields;
    if Print(Identity(e)) == Print(Identity(f)) {
      PrintInjective(Identity(e), Identity(f));
    }
  }

  // ---------- When two entries name the same file ----------

  // The same but for the case of letters A to Z.
  predicate SameLetter(a: char, b: char) {
    || a == b
    || ('A' <= a <= 'Z' && b as int == a as int + 32)
    || ('A' <= b <= 'Z' && a as int == b as int + 32)
  }

  predicate SameButCase(a: string, b: string) {
    |a| == |b| && forall i | 0 <= i < |a| :: SameLetter(a[i], b[i])
  }

  predicate NoCapitals(s: string) {
    forall i | 0 <= i < |s| :: !('A' <= s[i] <= 'Z')
  }

  predicate IsURL(s: string) {
    (|s| >= 7 && s[..7] == "http://") || (|s| >= 8 && s[..8] == "https://")
  }

  predicate HexDigits40(s: string) {
    |s| == 40 && forall i | 0 <= i < 40 :: s[i] in "0123456789abcdefABCDEF"
  }

  lemma {:induction false} LowerAt(s: string, i: nat)
    ensures |Lower(s)| == |s|
    ensures i < |s| ==> Lower(s)[i] == if 'A' <= s[i] <= 'Z' then (s[i] as int + 32) as char else s[i]
  {
    if s != "" {
      LowerAt(s[1..], if i == 0 then 0 else i - 1);
    }
  }

  lemma LowerSame(a: string, b: string)
    ensures Lower(a) == Lower(b) <==> SameButCase(a, b)
    ensures Lower(a) == b <==> SameButCase(a, b) && NoCapitals(b)
  {
    hide Lower;
    LowerAt(a, 0);
    LowerAt(b, 0);
    forall i: nat | i < |a| == |b|
      ensures Lower(a)[i] == Lower(b)[i] <==> SameLetter(a[i], b[i])
      ensures Lower(a)[i] == b[i] <==> SameLetter(a[i], b[i]) && !('A' <= b[i] <= 'Z')
    {
      LowerAt(a, i);
      LowerAt(b, i);
    }
  }

  lemma ShaIff(s: string)
    ensures IsCommitSHA(s) <==> HexDigits40(s)
  {
    forall i | 0 <= i < |s|
      ensures s[i] in "0123456789abcdefABCDEF" <==>
                ('0' <= s[i] <= '9' || 'a' <= s[i] <= 'f' || 'A' <= s[i] <= 'F')
    {
      HexIs(s[i]);
    }
  }

  lemma HexIs(c: char)
    ensures c in "0123456789abcdefABCDEF" <==> ('0' <= c <= '9' || 'a' <= c <= 'f' || 'A' <= c <= 'F')
  {
    var s := "0123456789abcdefABCDEF";
    if '0' <= c <= '9' {
      assert s[c as int - '0' as int] == c;
    } else if 'a' <= c <= 'f' {
      assert s[c as int - 'a' as int + 10] == c;
    } else if 'A' <= c <= 'F' {
      assert s[c as int - 'A' as int + 16] == c;
    }
  }

  // Two repositories are one: a URL only if it is the same, any other name whatever its case.
  predicate SameRepository(a: string, b: string) {
    && SameButCase(a, b)
    && (IsURL(a) && IsURL(b) ==> a == b) && (IsURL(a) && !IsURL(b) ==> NoCapitals(a))
    && (IsURL(b) && !IsURL(a) ==> NoCapitals(b))
  }

  // Two revisions are one: a commit hash whatever its case, any other name only if it is the same.
  predicate SameRevision(a: string, b: string) {
    a == b || (HexDigits40(a) && HexDigits40(b) && SameButCase(a, b))
  }

  /** Two entries have one identity exactly when they agree in source type, format and arguments, name the same
      repository, and name the same revision or both none. */
  lemma IdentityIff(e: ModelFileEntry, f: ModelFileEntry)
    ensures Identity(e) == Identity(f)
       <==> && e.sourceType == f.sourceType && e.format == f.format && e.formatKwargs == f.formatKwargs
            && SameRepository(e.repository, f.repository)
            && (e.revision == "" <==> f.revision == "") && SameRevision(e.revision, f.revision)
  {
    hide Lower, SameButCase, NoCapitals, IsCommitSHA, HexDigits40, IsURL;
    RepositoriesAgree(e.repository, f.repository);
    RevisionsAgree(e.revision, f.revision);
    FieldsAgree(e, f);
  }

  lemma FieldsAgree(e: ModelFileEntry, f: ModelFileEntry)
    ensures Identity(e) == Identity(f)
       <==> var m, n := Normalized(e), Normalized(f);
            && m.sourceType == n.sourceType && m.format == n.format && m.formatKwargs == n.formatKwargs
            && m.repository == n.repository && (e.revision == "" <==> f.revision == "")
            && (e.revision != "" ==> m.revision == n.revision)
  {
    hide Normalized;
    var a, b := Identity(e).fields, Identity(f).fields;
    assert "revision" in a <==> e.revision != "";
    assert "revision" in b <==> f.revision != "";
    if a == b {
      assert a["source_type"] == b["source_type"] && a["repository"] == b["repository"];
      assert a["format"] == b["format"] && a["format_kwargs"] == b["format_kwargs"];
    }
  }

  lemma RepositoriesAgree(a: string, b: string)
    ensures Repository(a) == Repository(b) <==> SameRepository(a, b)
  {
    hide Lower;
    LowerSame(a, b);
    LowerSame(b, a);
  }

  lemma RevisionsAgree(a: string, b: string)
    ensures Revision(a) == Revision(b) <==> SameRevision(a, b)
  {
    hide Lower;
    ShaIff(a);
    ShaIff(b);
    LowerSame(a, b);
    LowerSame(b, a);
    LowerAt(a, 0);
    LowerAt(b, 0);
  }

  // ---------- Required hashes ----------

  ghost function HashOf(sha: string -> Hash, e: ModelFileEntry): Hash {
    sha(Print(Identity(e)))
  }

  ghost function HashesOf(sha: string -> Hash, es: seq<ModelFileEntry>, exact: bool): seq<Hash> {
    if es == [] then [] else
      var n := |es| - 1;
      HashesOf(sha, es[..n], exact) + if (es[n].revision != "") == exact then [HashOf(sha, es[n])] else []
  }

  // An entry required the given way, with the given hash.
  ghost predicate Requires(sha: string -> Hash, e: ModelFileEntry, exact: bool, h: Hash) {
    (e.revision != "") == exact && h == HashOf(sha, e)
  }

  lemma {:induction false} HashesOfIs(sha: string -> Hash, es: seq<ModelFileEntry>, exact: bool, h: Hash)
    ensures h in HashesOf(sha, es, exact) <==> exists e | e in es :: Requires(sha, e, exact, h)
  {
    hide HashOf;
    if es != [] {
      var front, last := es[..|es| - 1], es[|es| - 1];
      HashesOfIs(sha, front, exact, h);
      assert es == front + [last];
      if e :| e in es && Requires(sha, e, exact, h) {
        assert e in front || e == last;
      }
      if e :| e in front && Requires(sha, e, exact, h) {
        assert e in es;
      }
      if Requires(sha, last, exact, h) {
        assert last in es;
      }
    }
  }

  ghost function RequiredHashes(sha: string -> Hash, es: seq<ModelFileEntry>, exact: bool): seq<Hash> {
    SortedUnique(HashesOf(sha, es, exact))
  }

  /** The exact and source hash sets, rebuilt from the entries; sha stands for SHA-256 of the UTF-8 text. */
  method DeriveRequiredHashes(sha: string -> Hash, entries: seq<ModelFileEntry>)
    returns (exact: seq<Hash>, source: seq<Hash>)
    ensures exact == RequiredHashes(sha, entries, true) && source == RequiredHashes(sha, entries, false)
  {
    hide Print, Identity, SortedUnique;
    exact, source := [], [];
    for i := 0 to |entries|
      invariant exact == HashesOf(sha, entries[..i], true) && source == HashesOf(sha, entries[..i], false)
    {
      assert entries[..i + 1][..i] == entries[..i];
      var buf := new Buffer();
      buf.WriteCanonicalValue(Identity(entries[i]));
      assert buf.text == Print(Identity(entries[i]));
      if entries[i].revision != "" {
        exact := exact + [sha(buf.text)];
      } else {
        source := source + [sha(buf.text)];
      }
    }
    assert entries[..|entries|] == entries;
    exact := SortedUniqueHashes(exact);
    source := SortedUniqueHashes(source);
  }

  // ---------- The distribution key ----------

  function DistributionKey(sha: seq<Byte> -> Hash, exact: seq<Hash>, source: seq<Hash>): Hash {
    sha(EncodeHashList(exact + source))
  }

  ghost predicate CollisionFree<T(!new)>(sha: T -> Hash, inputs: set<T>) {
    forall x, y | x in inputs && y in inputs && sha(x) == sha(y) :: x == y
  }

  ghost function Identities(es: seq<ModelFileEntry>): set<Json> {
    set e | e in es :: Identity(e)
  }

  ghost function Texts(es: seq<ModelFileEntry>): set<string> {
    set e | e in es :: Print(Identity(e))
  }

  ghost function Image(sha: string -> Hash, ts: set<string>): set<Hash> {
    set t | t in ts :: sha(t)
  }

  lemma RequiredMembers(sha: string -> Hash, es: seq<ModelFileEntry>)
    ensures Members(RequiredHashes(sha, es, true) + RequiredHashes(sha, es, false)) == Image(sha, Texts(es))
  {
    hide Print, Identity;
    var exact, source := HashesOf(sha, es, true), HashesOf(sha, es, false);
    SortedUniqueIs(exact);
    SortedUniqueIs(source);
    MembersConcat(SortedUnique(exact), SortedUnique(source));
    forall h ensures h in Members(exact) + Members(source) <==> exists t | t in Texts(es) :: h == sha(t) {
      assert h in Members(exact) <==> h in exact;
      assert h in Members(source) <==> h in source;
      HashesOfIs(sha, es, true, h);
      HashesOfIs(sha, es, false, h);
      if h in exact || h in source {
        var e :| e in es && h == HashOf(sha, e);
        assert Print(Identity(e)) in Texts(es);
      }
      if t :| t in Texts(es) && h == sha(t) {
        var e :| e in es && t == Print(Identity(e));
        assert Requires(sha, e, e.revision != "", h);
      }
    }
  }

  lemma ImagesAgree(sha: string -> Hash, a: set<string>, b: set<string>)
    requires CollisionFree(sha, a + b)
    ensures Image(sha, a) == Image(sha, b) <==> a == b
  {
    if Image(sha, a) == Image(sha, b) {
      ImageWithin(sha, a, b);
      ImageWithin(sha, b, a);
    }
  }

  lemma ImageWithin(sha: string -> Hash, a: set<string>, b: set<string>)
    requires CollisionFree(sha, a + b) && Image(sha, a) <= Image(sha, b)
    ensures a <= b
  {
    forall t | t in a ensures t in b {
      assert sha(t) in Image(sha, b);
      var u :| u in b && sha(u) == sha(t);
    }
  }

  lemma TextsAgree(es: seq<ModelFileEntry>, fs: seq<ModelFileEntry>)
    requires forall e | e in es + fs :: EntryOk(e)
    ensures Texts(es) == Texts(fs) <==> Identities(es) == Identities(fs)
  {
    hide Print, Identity, EntryOk;
    if Texts(es) == Texts(fs) {
      TextsWithin(es, fs);
      TextsWithin(fs, es);
    }
    if Identities(es) == Identities(fs) {
      forall t | t in Texts(es) ensures t in Texts(fs) {
        var e :| e in es && t == Print(Identity(e));
        assert Identity(e) in Identities(es);
        var f :| f in fs && Identity(f) == Identity(e);
      }
      forall t | t in Texts(fs) ensures t in Texts(es) {
        var f :| f in fs && t == Print(Identity(f));
        assert Identity(f) in Identities(fs);
        var e :| e in es && Identity(e) == Identity(f);
      }
    }
  }

  lemma TextsWithin(es: seq<ModelFileEntry>, fs: seq<ModelFileEntry>)
    requires (forall e | e in es :: EntryOk(e)) && (forall e | e in fs :: EntryOk(e)) && Texts(es) <= Texts(fs)
    ensures Identities(es) <= Identities(fs)
  {
    hide Print, Identity, EntryOk;
    forall e | e in es ensures Identity(e) in Identities(fs) {
      assert Print(Identity(e)) in Texts(es);
      var f :| f in fs && Print(Identity(f)) == Print(Identity(e));
      IdentityValid(e);
      IdentityValid(f);
      PrintInjective(Identity(e), Identity(f));
    }
  }

  /** While the hashes at hand do not collide, two requirements share a distribution key exactly when they
      ask for the same exact files and the same sources. */
  lemma DistributionKeyIff(text: string -> Hash, bytes: seq<Byte> -> Hash, es: seq<ModelFileEntry>,
                           fs: seq<ModelFileEntry>)
    requires forall e | e in es + fs :: EntryOk(e)
    requires CollisionFree(text, Texts(es) + Texts(fs))
    requires CollisionFree(bytes, {EncodeHashList(RequiredHashes(text, es, true) + RequiredHashes(text, es, false)),
                                   EncodeHashList(RequiredHashes(text, fs, true) + RequiredHashes(text, fs, false))})
    ensures DistributionKey(bytes, RequiredHashes(text, es, true), RequiredHashes(text, es, false))
              == DistributionKey(bytes, RequiredHashes(text, fs, true), RequiredHashes(text, fs, false))
            <==> Identities(es) == Identities(fs)
  {
    hide Print, Identity, EntryOk, EncodeHashList, SortedUnique, RequiredHashes, Members, Texts, Identities, HashesOf;
    RequiredMembers(text, es);
    RequiredMembers(text, fs);
    EncodingIsOfTheSet(RequiredHashes(text, es, true) + RequiredHashes(text, es, false),
                       RequiredHashes(text, fs, true) + RequiredHashes(text, fs, false));
    ImagesAgree(text, Texts(es), Texts(fs));
    TextsAgree(es, fs);
  }

  /** And then no hash required exactly is a hash required by source. */
  lemma ExactAndSourceDisjoint(text: string -> Hash, es: seq<ModelFileEntry>)
    requires forall e | e in es :: EntryOk(e)
    requires CollisionFree(text, Texts(es))
    ensures Members(RequiredHashes(text, es, true)) !! Members(RequiredHashes(text, es, false))
  {
    hide Print, Identity, EntryOk;
    var exact, source := HashesOf(text, es, true), HashesOf(text, es, false);
    SortedUniqueIs(exact);
    SortedUniqueIs(source);
    forall h | h in Members(exact) && h in Members(source) ensures false {
      assert h in exact && h in source;
      HashesOfIs(text, es, true, h);
      HashesOfIs(text, es, false, h);
      var e :| e in es && Requires(text, e, true, h);
      var f :| f in es && Requires(text, f, false, h);
      assert Print(Identity(e)) in Texts(es) && Print(Identity(f)) in Texts(es);
      ExactIsNeverSource(e, f);
    }
  }

  // ---------- What a node holds and runs ----------

  datatype FileRow = FileRow(hash: Hash, source: Hash)

  function Held(files: seq<FileRow>): set<Hash> {
    set f | f in files :: f.hash
  }

  function HeldSources(files: seq<FileRow>): set<Hash> {
    set f | f in files :: f.source
  }

  // Every exact file, and at least one file of every source.
  predicate Covered(held: set<Hash>, sources: set<Hash>, exact: seq<Hash>, source: seq<Hash>) {
    (forall h | h in exact :: h in held) && (forall h | h in source :: h in sources)
  }

  method ModelFilesCovered(held: set<Hash>, sources: set<Hash>, exact: seq<Hash>, source: seq<Hash>) returns (ok: bool)
    ensures ok == Covered(held, sources, exact, source)
  {
    for i := 0 to |exact|
      invariant forall j | 0 <= j < i :: exact[j] in held
    {
      if exact[i] !in held {
        return false;
      }
    }
    for i := 0 to |source|
      invariant forall j | 0 <= j < i :: source[j] in sources
    {
      if source[i] !in sources {
        return false;
      }
    }
    ok := true;
  }

  function FilesOf(files: seq<FileRow>, source: Hash): (r: seq<Hash>)
    ensures forall h :: h in r <==> FileRow(h, source) in files
  {
    if files == [] then [] else
      var n := |files| - 1;
      FilesOf(files[..n], source) + if files[n].source == source then [files[n].hash] else []
  }

  // The file a source requirement runs with: one in memory if there is one, else any; the smallest of those.
  ghost predicate Chosen(files: seq<FileRow>, current: set<Hash>, source: Hash, h: Hash) {
    && FileRow(h, source) in files
    && (forall g | FileRow(g, source) in files && (h in current ==> g in current) :: !HashLess(g, h))
    && (h !in current ==> forall g | FileRow(g, source) in files :: g !in current)
  }

  ghost predicate Resolved(files: seq<FileRow>, current: set<Hash>, exact: seq<Hash>, source: seq<Hash>, r: seq<Hash>) {
    && StrictlyAscending(HashLess, r)
    && (forall h | h in r :: h in Held(files))
    && (forall h | h in exact :: h in r)
    && (forall src | src in source :: exists h | h in r :: Chosen(files, current, src, h))
    && (forall h | h in r :: h in exact || exists src | src in source :: Chosen(files, current, src, h))
  }

  method Choose(files: seq<FileRow>, current: set<Hash>, source: Hash) returns (r: Option<Hash>)
    ensures r.Some? <==> source in HeldSources(files)
    ensures r.Some? ==> Chosen(files, current, source, r.value)
  {
    hide HashLess, SortedUnique;
    var candidates := SortedUniqueHashes(FilesOf(files, source));
    SortedUniqueIs(FilesOf(files, source));
    CandidatesAre(files, source, candidates);
    HashOrder();
    if |candidates| == 0 {
      return None;
    }
    for i := 0 to |candidates|
      invariant forall j | 0 <= j < i :: candidates[j] !in current
    {
      if candidates[i] in current {
        forall g | FileRow(g, source) in files && g in current ensures !HashLess(g, candidates[i]) {
          var j :| 0 <= j < |candidates| && candidates[j] == g;
        }
        return Some(candidates[i]);
      }
    }
    forall g | FileRow(g, source) in files ensures !HashLess(g, candidates[0]) && g !in current {
      var j :| 0 <= j < |candidates| && candidates[j] == g;
    }
    r := Some(candidates[0]);
  }

  lemma CandidatesAre(files: seq<FileRow>, source: Hash, candidates: seq<Hash>)
    requires Members(candidates) == Members(FilesOf(files, source))
    ensures forall h :: FileRow(h, source) in files <==> exists j | 0 <= j < |candidates| :: candidates[j] == h
    ensures candidates == [] <==> source !in HeldSources(files)
  {
    var fs := FilesOf(files, source);
    forall h ensures FileRow(h, source) in files <==> exists j | 0 <= j < |candidates| :: candidates[j] == h {
      assert h in fs <==> h in Members(fs);
    }
    assert candidates != [] ==> FileRow(candidates[0], source) in files;
    if source in HeldSources(files) {
      var f :| f in files && f.source == source;
      assert FileRow(f.hash, source) in files;
    }
  }

  /** A start resolves its files exactly when the matching gate would have let the node through. */
  method ResolveExecutionFiles(files: seq<FileRow>, current: set<Hash>, exact: seq<Hash>, source: seq<Hash>)
    returns (r: Option<seq<Hash>>)
    ensures r.Some? <==> Covered(Held(files), HeldSources(files), exact, source)
    ensures r.Some? ==> Resolved(files, current, exact, source, r.value)
  {
    hide HashLess, Chosen, SortedUnique, Held, HeldSources;
    var held := Held(files);
    var resolved: seq<Hash> := [];
    for i := 0 to |exact|
      invariant resolved == exact[..i] && forall j | 0 <= j < i :: exact[j] in held
    {
      if exact[i] !in held {
        return None;
      }
      resolved := resolved + [exact[i]];
    }
    assert resolved == exact;
    ghost var chosen: seq<Hash> := [];
    for i := 0 to |source|
      invariant resolved == exact + chosen && |chosen| == i
      invariant forall j | 0 <= j < i :: source[j] in HeldSources(files) && Chosen(files, current, source[j], chosen[j])
    {
      var selected := Choose(files, current, source[i]);
      if selected.None? {
        return None;
      }
      resolved := resolved + [selected.value];
      chosen := chosen + [selected.value];
    }
    var unique := SortedUniqueHashes(resolved);
    ResolvedIs(files, current, exact, source, chosen);
    r := Some(unique);
  }

  lemma ResolvedIs(files: seq<FileRow>, current: set<Hash>, exact: seq<Hash>, source: seq<Hash>, chosen: seq<Hash>)
    requires (forall h | h in exact :: h in Held(files)) && |chosen| == |source|
    requires forall j | 0 <= j < |source| :: Chosen(files, current, source[j], chosen[j])
    ensures Resolved(files, current, exact, source, SortedUnique(exact + chosen))
  {
    hide HashLess, SortedUnique;
    var all := exact + chosen;
    var r := SortedUnique(all);
    SortedUniqueIs(all);
    forall h ensures h in r <==> h in all {
      assert h in r <==> h in Members(r);
      assert h in all <==> h in Members(all);
    }
    forall h | h in r
      ensures h in Held(files) && (h in exact || exists src | src in source :: Chosen(files, current, src, h))
    {
      if h !in exact {
        var j :| 0 <= j < |chosen| && chosen[j] == h;
        assert source[j] in source && Chosen(files, current, source[j], h);
        assert FileRow(h, source[j]).hash in Held(files);
      }
    }
    forall src | src in source ensures exists h | h in r :: Chosen(files, current, src, h) {
      var j :| 0 <= j < |source| && source[j] == src;
      assert chosen[j] in all;
    }
  }
}

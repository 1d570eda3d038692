/** Sets of 32-byte hashes: sorted, de-duplicated in place, and stored as one byte string. */
module HashList {
  import opened Basics
  import opened Model
  import opened Sorting

  const HASH_SIZE := 32

  type Hash = h: seq<Byte> | |h| == HASH_SIZE
    witness seq(HASH_SIZE, _ => 0)

  predicate ByteLess(a: Byte, b: Byte) {
    a < b
  }

  predicate HashLess(a: Hash, b: Hash) {
    LexLess(ByteLess, a, b)
  }

  lemma HashOrder()
    ensures StrictOrder(HashLess)
  {
    assert StrictOrder(ByteLess);
    forall a: Hash, b: Hash
      ensures !(HashLess(a, b) && HashLess(b, a)) && (a == b || HashLess(a, b) || HashLess(b, a))
    {
      LexTotal(ByteLess, a, b);
    }
    forall a: Hash, b: Hash, c: Hash | HashLess(a, b) && HashLess(b, c) ensures HashLess(a, c) {
      LexTransitive(ByteLess, a, b, c);
    }
  }

  // Where two hashes first differ, the first has the smaller byte.
  predicate SmallerAt(a: Hash, b: Hash, i: nat) {
    i < 32 && a[..i] == b[..i] && a[i] < b[i]
  }

  ghost predicate ComesBefore(a: Hash, b: Hash) {
    exists i: nat :: SmallerAt(a, b, i)
  }

  lemma HashLessIff(a: Hash, b: Hash)
    ensures HashLess(a, b) <==> ComesBefore(a, b)
  {
    LexIs(ByteLess, a, b);
    forall i: nat ensures DiffersAt(ByteLess, a, b, i) == SmallerAt(a, b, i) {}
  }

  // ---------- De-duplication ----------

  function Dedup(s: seq<Hash>): (r: seq<Hash>)
    ensures |r| <= |s|
  {
    if s == [] then [] else
      var n := |s| - 1;
      if n > 0 && s[n] == s[n - 1] then Dedup(s[..n]) else Dedup(s[..n]) + [s[n]]
  }

  function SortedUnique(s: seq<Hash>): seq<Hash> {
    Dedup(Sort(HashLess, s))
  }

  lemma {:induction false} DedupStrict(s: seq<Hash>)
    requires StrictOrder(HashLess) && Ascending(HashLess, s)
    ensures StrictlyAscending(HashLess, Dedup(s)) && Members(Dedup(s)) == Members(s)
    ensures s != [] ==> Dedup(s) != [] && Dedup(s)[|Dedup(s)| - 1] == s[|s| - 1]
  {
    hide HashLess, Members;
    if s != [] {
      var n := |s| - 1;
      var front := s[..n];
      DedupStrict(front);
      assert s == front + [s[n]];
      MembersConcat(front, [s[n]]);
      MembersOne(s[n]);
      if n > 0 && s[n] == s[n - 1] {
        MemberAt(front, n - 1);
      } else {
        MembersConcat(Dedup(front), [s[n]]);
        if n > 0 {
          assert HashLess(s[n - 1], s[n]);
          StrictMore(Dedup(front), s[n]);
        }
      }
    }
  }

  lemma MemberAt(s: seq<Hash>, i: nat)
    requires i < |s|
    ensures Members(s) + {s[i]} == Members(s)
  {
    assert s[i] in Members(s);
  }

  lemma StrictMore(r: seq<Hash>, h: Hash)
    requires StrictOrder(HashLess) && StrictlyAscending(HashLess, r) && r != [] && HashLess(r[|r| - 1], h)
    ensures StrictlyAscending(HashLess, r + [h])
  {
    hide HashLess;
    forall i | 0 <= i < |r| ensures HashLess(r[i], h) {
      assert i < |r| - 1 ==> HashLess(r[i], r[|r| - 1]);
    }
  }

  /** Strictly ascending, and exactly the members of the input. */
  lemma SortedUniqueIs(s: seq<Hash>)
    ensures StrictlyAscending(HashLess, SortedUnique(s)) && Members(SortedUnique(s)) == Members(s)
  {
    HashOrder();
    SortSorts(HashLess, s);
    DedupStrict(Sort(HashLess, s));
  }

  lemma DedupStep(s: seq<Hash>, i: nat)
    requires i < |s|
    ensures Dedup(s[..i + 1]) == if i > 0 && s[i] == s[i - 1] then Dedup(s[..i]) else Dedup(s[..i]) + [s[i]]
  {
    assert s[..i + 1][..i] == s[..i];
  }

  /** The copy is sorted, then compacted over itself: the slice being written shares the array being read. */
  method SortedUniqueHashes(hashes: seq<Hash>) returns (unique: seq<Hash>)
    ensures unique == SortedUnique(hashes)
  {
    hide HashLess, Sort, LexLess, Dedup;
    var all := Sort(HashLess, hashes);
    var sorted := new Hash[|all|](i requires 0 <= i < |all| => all[i]);
    assert sorted[..] == all;
    var n := 0;
    for i := 0 to sorted.Length
      invariant n <= i
      invariant sorted[..n] == Dedup(all[..i])
      invariant forall j | n <= j < sorted.Length :: sorted[j] == all[j]
      invariant i > 0 ==> n > 0 && sorted[n - 1] == all[i - 1]
    {
      var h := sorted[i];
      DedupStep(all, i);
      if i > 0 && h == sorted[i - 1] {
        continue;
      }
      sorted[n] := h;
      n := n + 1;
    }
    assert all[..|all|] == all;
    unique := sorted[..n];
  }

  // ---------- The stored form ----------

  function Concat(hs: seq<Hash>): (r: seq<Byte>)
    ensures |r| == HASH_SIZE * |hs|
  {
    if hs == [] then [] else Concat(hs[..|hs| - 1]) + hs[|hs| - 1]
  }

  function EncodeHashList(hs: seq<Hash>): seq<Byte> {
    Concat(SortedUnique(hs))
  }

  function Chunks(data: seq<Byte>): (r: seq<Hash>)
    requires |data| % HASH_SIZE == 0
    ensures |r| == |data| / HASH_SIZE
  {
    if data == [] then [] else
      var n := |data| - HASH_SIZE;
      Chunks(data[..n]) + [data[n..]]
  }

  datatype DecodeError = NotAMultiple(length: nat)

  function DecodeHashList(data: seq<Byte>): Result<seq<Hash>, DecodeError> {
    if |data| % HASH_SIZE != 0 then Err(NotAMultiple(|data|)) else Ok(Chunks(data))
  }

  lemma {:induction false} ChunksConcat(hs: seq<Hash>)
    ensures Chunks(Concat(hs)) == hs
  {
    if hs != [] {
      var front, last := hs[..|hs| - 1], hs[|hs| - 1];
      ChunksConcat(front);
      var data := Concat(hs);
      assert data[..|data| - HASH_SIZE] == Concat(front) && data[|data| - HASH_SIZE..] == last;
    }
  }

  lemma {:induction false} ConcatChunks(data: seq<Byte>)
    requires |data| % HASH_SIZE == 0
    ensures Concat(Chunks(data)) == data
  {
    if data != [] {
      var n := |data| - HASH_SIZE;
      ConcatChunks(data[..n]);
      var c := Chunks(data);
      assert c[..|c| - 1] == Chunks(data[..n]);
      assert data == data[..n] + data[n..];
    }
  }

  lemma {:induction false} StoredAt(hs: seq<Hash>, i: nat, j: nat)
    requires i < |hs| && j < 32
    ensures Concat(hs)[32 * i + j] == hs[i][j]
  {
    if i < |hs| - 1 {
      StoredAt(hs[..|hs| - 1], i, j);
    }
  }

  /** The stored form of a list: its hashes one after another, 32 bytes each, in ascending order, each once. */
  lemma StoredForm(hs: seq<Hash>)
    ensures var stored, unique := EncodeHashList(hs), SortedUnique(hs);
            && |stored| == 32 * |unique| && Members(unique) == Members(hs)
            && (forall i, j | 0 <= i < |unique| && 0 <= j < 32 :: stored[32 * i + j] == unique[i][j])
            && (forall i, j | 0 <= i < j < |unique| :: ComesBefore(unique[i], unique[j]))
  {
    hide SortedUnique, ComesBefore, HashLess, Concat;
    SortedUniqueIs(hs);
    var unique := SortedUnique(hs);
    forall i, j | 0 <= i < |unique| && 0 <= j < 32 ensures EncodeHashList(hs)[32 * i + j] == unique[i][j] {
      StoredAt(unique, i, j);
    }
    forall i, j | 0 <= i < j < |unique| ensures ComesBefore(unique[i], unique[j]) {
      assert HashLess(unique[i], unique[j]);
      HashLessIff(unique[i], unique[j]);
    }
  }

  /** Decoding undoes encoding, up to order and repetition. */
  lemma DecodeUndoesEncode(hs: seq<Hash>)
    ensures DecodeHashList(EncodeHashList(hs)) == Ok(SortedUnique(hs))
  {
    ChunksConcat(SortedUnique(hs));
  }

  /** Encoding undoes decoding exactly on the canonical byte strings. */
  lemma EncodeUndoesDecodeIff(data: seq<Byte>)
    requires DecodeHashList(data).Ok?
    ensures EncodeHashList(DecodeHashList(data).value) == data <==>
              StrictlyAscending(HashLess, DecodeHashList(data).value)
  {
    var hs := Chunks(data);
    ConcatChunks(data);
    SortedUniqueIs(hs);
    HashOrder();
    if EncodeHashList(hs) == data {
      ChunksConcat(SortedUnique(hs));
    }
    if StrictlyAscending(HashLess, hs) {
      StrictUnique(HashLess, SortedUnique(hs), hs);
    }
  }

  /** Two lists are stored alike exactly when they have the same members. */
  lemma EncodingIsOfTheSet(a: seq<Hash>, b: seq<Hash>)
    ensures EncodeHashList(a) == EncodeHashList(b) <==> Members(a) == Members(b)
  {
    SortedUniqueIs(a);
    SortedUniqueIs(b);
    HashOrder();
    if EncodeHashList(a) == EncodeHashList(b) {
      ChunksConcat(SortedUnique(a));
      ChunksConcat(SortedUnique(b));
    } else if Members(a) == Members(b) {
      StrictUnique(HashLess, SortedUnique(a), SortedUnique(b));
    }
  }

  method Encode(hashes: seq<Hash>) returns (encoded: seq<Byte>)
    ensures encoded == EncodeHashList(hashes)
  {
    var unique := SortedUniqueHashes(hashes);
    encoded := [];
    for i := 0 to |unique|
      invariant encoded == Concat(unique[..i])
    {
      assert unique[..i + 1][..i] == unique[..i];
      encoded := encoded + unique[i];
    }
    assert unique[..|unique|] == unique;
  }

  method Decode(data: seq<Byte>) returns (r: Result<seq<Hash>, DecodeError>)
    ensures r == DecodeHashList(data)
  {
    if |data| % HASH_SIZE != 0 {
      return Err(NotAMultiple(|data|));
    }
    var hashes: seq<Hash> := [];
    var offset := 0;
    while offset < |data|
      invariant offset <= |data| && offset % HASH_SIZE == 0
      invariant hashes == Chunks(data[..offset])
    {
      var next := data[..offset + HASH_SIZE];
      assert next[..offset] == data[..offset] && next[offset..] == data[offset..offset + HASH_SIZE];
      hashes := hashes + [data[offset..offset + HASH_SIZE]];
      offset := offset + HASH_SIZE;
    }
    assert data[..|data|] == data;
    r := Ok(hashes);
  }
}

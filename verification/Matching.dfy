/** One matching round: queued tasks, page by page in priority order, paired with nodes of a fixed snapshot. */
module Matching {
  import opened Basics
  import opened Model
  import opened HashList
  import opened ModelFiles
  import opened Signature

  // ---------- Node compatibility ----------

  // A node in the scheduling index; health and the node name policy are verdicts about it.
  datatype Entry = Entry(
    address: Addr,
    status: NodeStatus,
    hasCurrentTask: bool,
    healthExcluded: bool,
    nameAllowed: bool,
    gpuName: string,
    gpuVram: nat,
    version: (nat, nat, nat),
    held: set<Hash>,
    heldSources: set<Hash>)

  const LLM_TASK := 1

  // Unicode's White_Space property.
  predicate Space(c: char) {
    var n := c as int;
    || 9 <= n <= 13 || n == 0x20 || n == 0x85 || n == 0xA0 || n == 0x1680 || 0x2000 <= n <= 0x200A
    || n == 0x2028 || n == 0x2029 || n == 0x202F || n == 0x205F || n == 0x3000
  }

  function TrimSpace(s: string): string {
    if s == "" then ""
    else if Space(s[0]) then TrimSpace(s[1..])
    else if Space(s[|s| - 1]) then TrimSpace(s[..|s| - 1])
    else s
  }

  // What follows the first plus sign.
  function Platform(gpuName: string): Option<string> {
    if gpuName == "" then None
    else if gpuName[0] == '+' then Some(TrimSpace(gpuName[1..]))
    else Platform(gpuName[1..])
  }

  predicate Darwin(gpuName: string) {
    Platform(gpuName).None? || Platform(gpuName).value == "Darwin"
  }

  predicate LinuxCuda(gpuName: string) {
    Platform(gpuName).Some? && Platform(gpuName).value in {"docker", "Linux"}
  }

  lemma {:induction false} NoPlatform(gpuName: string)
    ensures Platform(gpuName).None? <==> '+' !in gpuName
  {
    if gpuName != "" {
      NoPlatform(gpuName[1..]);
      assert gpuName == [gpuName[0]] + gpuName[1..];
    }
  }

  lemma {:induction false} PlatformAt(gpuName: string, i: nat)
    requires i < |gpuName| && gpuName[i] == '+' && '+' !in gpuName[..i]
    ensures Platform(gpuName) == Some(TrimSpace(gpuName[i + 1..]))
  {
    if i > 0 {
      assert gpuName[..i][0] == gpuName[0];
      assert gpuName[1..][..i - 1] == gpuName[..i][1..];
      PlatformAt(gpuName[1..], i - 1);
      assert gpuName[1..][i..] == gpuName[i + 1..];
    }
  }

  // The code points of the Unicode White_Space property, one by one.
  predicate White(c: char) {
    c as int in {0x09, 0x0A, 0x0B, 0x0C, 0x0D, 0x20, 0x85, 0xA0, 0x1680, 0x2000, 0x2001, 0x2002, 0x2003, 0x2004, 0x2005,
                 0x2006, 0x2007, 0x2008, 0x2009, 0x200A, 0x2028, 0x2029, 0x202F, 0x205F, 0x3000}
  }

  lemma SpaceIff(c: char)
    ensures Space(c) <==> White(c)
  {}

  // t is s from i to j, with only spaces cut off and none left at either end.
  predicate Trims(s: string, t: string, i: nat, j: nat) {
    && i <= j <= |s| && t == s[i..j]
    && (forall k | 0 <= k < i :: White(s[k])) && (forall k | j <= k < |s| :: White(s[k]))
    && (i < j ==> !White(s[i]) && !White(s[j - 1]))
  }

  lemma {:induction false} TrimIs(s: string) returns (i: nat, j: nat)
    ensures Trims(s, TrimSpace(s), i, j)
  {
    hide Space, White;
    if s != "" {
      SpaceIff(s[0]);
      SpaceIff(s[|s| - 1]);
    }
    if s == "" {
      i, j := 0, 0;
    } else if Space(s[0]) {
      i, j := TrimIs(s[1..]);
      i, j := i + 1, j + 1;
    } else if Space(s[|s| - 1]) {
      i, j := TrimIs(s[..|s| - 1]);
    } else {
      i, j := 0, |s|;
    }
  }

  predicate VersionServes(node: (nat, nat, nat), task: (nat, nat, nat)) {
    node.0 == task.0 && (node.1 > task.1 || (node.1 == task.1 && node.2 >= task.2))
  }

  // The hard filters that need no model files.
  predicate PassesFilters(r: Requirement, version: (nat, nat, nat), e: Entry) {
    && e.status.Available? && !e.hasCurrentTask && !e.healthExcluded
    && VersionServes(e.version, version)
    && (r.linuxCuda ==> LinuxCuda(e.gpuName))
    && (if r.gpu != "" then e.gpuName == r.gpu && e.gpuVram == r.gpuVram
        else e.gpuVram >= r.minVram && !(r.kind == LLM_TASK && Darwin(e.gpuName)))
    && e.nameAllowed
  }

  /** The filters as they are checked, one after another. */
  method CheckEntry(r: Requirement, version: (nat, nat, nat), e: Entry) returns (ok: bool)
    ensures ok == PassesFilters(r, version, e)
  {
    if e.status != Available || e.hasCurrentTask || e.healthExcluded {
      return false;
    }
    if e.version.0 != version.0 || e.version.1 < version.1 || (e.version.1 == version.1 && e.version.2 < version.2) {
      return false;
    }
    if r.linuxCuda && !LinuxCuda(e.gpuName) {
      return false;
    }
    if |r.gpu| > 0 {
      if e.gpuName != r.gpu || e.gpuVram != r.gpuVram {
        return false;
      }
    } else {
      if e.gpuVram < r.minVram {
        return false;
      }
      if r.kind == 1 && Darwin(e.gpuName) {
        return false;
      }
    }
    ok := e.nameAllowed;
  }

  // Whether the stored hash columns decode; a round that meets one that does not ends with an error.
  predicate Decodable(r: Requirement) {
    DecodeHashList(r.files).Ok? && DecodeHashList(r.sources).Ok? && |r.cacheHash| == HASH_SIZE
  }

  predicate Compatible(r: Requirement, e: Entry) {
    && ParseVersion(r.version).Some? && PassesFilters(r, ParseVersion(r.version).value, e)
    && Decodable(r) && Covered(e.held, e.heldSources, DecodeHashList(r.files).value, DecodeHashList(r.sources).value)
  }

  /** A node that serves a task serves it with more memory too, if no GPU is required, and with any later version of the
      same major one. */
  lemma BetterNodeServes(r: Requirement, e: Entry, f: Entry)
    requires Compatible(r, e) && f == e.(gpuVram := f.gpuVram, version := f.version)
    requires f.gpuVram >= e.gpuVram && (r.gpu != "" ==> f.gpuVram == e.gpuVram)
    requires f.version.0 == e.version.0
    requires f.version.1 > e.version.1 || (f.version.1 == e.version.1 && f.version.2 >= e.version.2)
    ensures Compatible(r, f)
  {
    hide ParseVersion, Decodable, Covered, LinuxCuda, Darwin;
  }

  /** What a compatible node is: idle, healthy and allowed, of the task's major version and no older, with the GPU the
      task requires or memory enough and no Mac for a language model, on Linux with CUDA if asked, with every file and a
      file of every source; and the task's hash columns are whole. */
  lemma CompatibleIff(r: Requirement, e: Entry)
    ensures Compatible(r, e) <==>
              && ParseVersion(r.version).Some?
              && (var v := ParseVersion(r.version).value;
                  e.version.0 == v.0 && (e.version.1 > v.1 || (e.version.1 == v.1 && e.version.2 >= v.2)))
              && e.status == Available && !e.hasCurrentTask && !e.healthExcluded && e.nameAllowed
              && (r.linuxCuda ==> Platform(e.gpuName) == Some("docker") || Platform(e.gpuName) == Some("Linux"))
              && (r.gpu != "" ==> e.gpuName == r.gpu && e.gpuVram == r.gpuVram)
              && (r.gpu == "" ==> e.gpuVram >= r.minVram)
              && (r.gpu == "" && r.kind == 1 ==> '+' in e.gpuName && Platform(e.gpuName) != Some("Darwin"))
              && |r.files| % 32 == 0 && |r.sources| % 32 == 0 && |r.cacheHash| == 32
              && (forall i | 0 <= i < |r.files| / 32 :: Nth(r.files, i) in e.held)
              && (forall i | 0 <= i < |r.sources| / 32 :: Nth(r.sources, i) in e.heldSources)
  {
    hide ParseVersion, Platform, Chunks;
    NoPlatform(e.gpuName);
    if |r.files| % 32 == 0 && |r.sources| % 32 == 0 {
      ChunksAre(r.files);
      ChunksAre(r.sources);
    }
  }

  // The i-th hash of a stored list.
  function Nth(data: seq<Byte>, i: nat): seq<Byte>
    requires 32 * i + 32 <= |data|
  {
    data[32 * i..32 * i + 32]
  }

  lemma ChunksAre(data: seq<Byte>)
    requires |data| % 32 == 0
    ensures |Chunks(data)| == |data| / 32 && forall i | 0 <= i < |data| / 32 :: Chunks(data)[i] == Nth(data, i)
  {
    hide Chunks;
    forall i: nat | i < |data| / 32 ensures Chunks(data)[i] == Nth(data, i) {
      ChunkAt(data, i);
    }
  }

  lemma {:induction false} ChunkAt(data: seq<Byte>, i: nat)
    requires |data| % 32 == 0 && i < |data| / 32
    ensures Chunks(data)[i] == Nth(data, i)
  {
    var n := |data| - 32;
    if 32 * i < n {
      ChunkAt(data[..n], i);
    }
  }

  function Candidates(r: Requirement, entries: seq<Entry>): (c: seq<Entry>)
    ensures forall e :: e in c <==> e in entries && Compatible(r, e)
  {
    if entries == [] then [] else
      var n := |entries| - 1;
      Candidates(r, entries[..n]) + if Compatible(r, entries[n]) then [entries[n]] else []
  }

  method BuildCandidateSet(r: Requirement, entries: seq<Entry>) returns (c: Option<seq<Entry>>)
    requires ParseVersion(r.version).Some?
    ensures c.Some? <==> Decodable(r)
    ensures c.Some? ==> c.value == Candidates(r, entries)
  {
    hide PassesFilters, ParseVersion;
    if !Decodable(r) {
      return None;
    }
    var exact, source := DecodeHashList(r.files).value, DecodeHashList(r.sources).value;
    var ready: seq<Entry> := [];
    for i := 0 to |entries|
      invariant ready == Candidates(r, entries[..i])
    {
      assert entries[..i + 1][..i] == entries[..i];
      var passes := CheckEntry(r, ParseVersion(r.version).value, entries[i]);
      if passes {
        var covered := ModelFilesCovered(entries[i].held, entries[i].heldSources, exact, source);
        if covered {
          ready := ready + [entries[i]];
        }
      }
    }
    assert entries[..|entries|] == entries;
    c := Some(ready);
  }

  // ---------- The queue ----------

  datatype QueuedTask = QueuedTask(id: nat, priority: int, requirement: Requirement, timedOut: bool, allowed: bool)

  predicate Live(t: QueuedTask) {
    !t.timedOut && t.allowed
  }

  predicate Before(a: QueuedTask, b: QueuedTask) {
    a.priority > b.priority || (a.priority == b.priority && a.id < b.id)
  }

  predicate Ordered(queue: seq<QueuedTask>) {
    forall i, j | 0 <= i < j < |queue| :: Before(queue[i], queue[j])
  }

  // The first tasks after the cursor, at most limit of them.
  function FetchPage(queue: seq<QueuedTask>, cursor: Option<QueuedTask>, limit: nat): seq<QueuedTask> {
    var after := After(queue, cursor);
    if |after| <= limit then after else after[..limit]
  }

  function After(queue: seq<QueuedTask>, cursor: Option<QueuedTask>): seq<QueuedTask> {
    if queue == [] then [] else
      (if cursor.None? || Before(cursor.value, queue[0]) then [queue[0]] else []) + After(queue[1..], cursor)
  }

  /** In an ordered queue, what follows the cursor is what follows its position. */
  lemma {:induction false} AfterIs(queue: seq<QueuedTask>, n: nat)
    requires Ordered(queue) && n <= |queue|
    ensures After(queue, if n == 0 then None else Some(queue[n - 1])) == queue[n..]
  {
    if n == 0 {
      AfterNone(queue);
    } else {
      AfterFrom(queue, queue[n - 1], n);
    }
  }

  lemma {:induction false} AfterNone(queue: seq<QueuedTask>)
    ensures After(queue, None) == queue
  {
    if queue != [] {
      AfterNone(queue[1..]);
    }
  }

  lemma {:induction false} AfterFrom(queue: seq<QueuedTask>, c: QueuedTask, n: nat)
    requires Ordered(queue) && n <= |queue|
    requires forall i | 0 <= i < |queue| :: Before(c, queue[i]) <==> i >= n
    ensures After(queue, Some(c)) == queue[n..]
  {
    if queue != [] {
      AfterFrom(queue[1..], c, if n == 0 then 0 else n - 1);
    }
  }

  // ---------- What a round promises ----------

  datatype Pair = Pair(task: QueuedTask, node: Entry)

  predicate DistinctNodes(entries: seq<Entry>) {
    forall i, j | 0 <= i < j < |entries| :: entries[i].address != entries[j].address
  }

  /** Each pair is a live queued task with a compatible node, and no task or node appears twice. */
  predicate Safe(queue: seq<QueuedTask>, entries: seq<Entry>, pairs: seq<Pair>) {
    && (forall p | p in pairs ::
         p.task in queue && Live(p.task) && p.node in entries && Compatible(p.task.requirement, p.node))
    && (forall i, j | 0 <= i < j < |pairs| ::
         pairs[i].task.id != pairs[j].task.id && pairs[i].node.address != pairs[j].node.address)
  }

  predicate Matched(pairs: seq<Pair>, t: QueuedTask) {
    exists p | p in pairs :: p.task == t
  }

  // Some task ahead of t in the queue holds the node.
  predicate TakenBefore(pairs: seq<Pair>, t: QueuedTask, e: Entry) {
    exists p | p in pairs :: p.node == e && Before(p.task, t)
  }

  /** A live task is left unmatched only when every node compatible with it went to a task ahead of it. */
  predicate Greedy(queue: seq<QueuedTask>, entries: seq<Entry>, pairs: seq<Pair>) {
    forall t, e | t in queue && Live(t) && !Matched(pairs, t) && e in entries && Compatible(t.requirement, e) ::
      TakenBefore(pairs, t, e)
  }

  function Reserved(pairs: seq<Pair>): set<Addr> {
    set p | p in pairs :: p.node.address
  }

  /** So no compatible pair of a live unmatched task and an unreserved node is left. */
  lemma NothingLeft(queue: seq<QueuedTask>, entries: seq<Entry>, pairs: seq<Pair>, t: QueuedTask, e: Entry)
    requires Greedy(queue, entries, pairs) && t in queue && Live(t) && !Matched(pairs, t)
    requires e in entries && e.address !in Reserved(pairs)
    ensures !Compatible(t.requirement, e)
  {
    hide Compatible;
    assert !TakenBefore(pairs, t, e) by {
      assert forall p | p in pairs :: p.node.address in Reserved(pairs);
    }
  }

  /** And no node went to a task behind one that could have used it. */
  lemma NoPriorityInversion(queue: seq<QueuedTask>, entries: seq<Entry>, pairs: seq<Pair>, t: QueuedTask, p: Pair)
    requires Safe(queue, entries, pairs) && Greedy(queue, entries, pairs)
    requires t in queue && !t.timedOut && t.allowed && !Matched(pairs, t) && p in pairs
    requires t.priority > p.task.priority || (t.priority == p.task.priority && t.id < p.task.id)
    ensures !Compatible(t.requirement, p.node)
  {
    hide Compatible;
    forall q | q in pairs && q.node == p.node ensures q == p {
      var i :| 0 <= i < |pairs| && pairs[i] == p;
      var j :| 0 <= j < |pairs| && pairs[j] == q;
      assert i == j;
    }
    assert !TakenBefore(pairs, t, p.node);
  }

  // ---------- The round ----------

  // The state of a round after the first n tasks of the queue.
  ghost predicate Progress(queue: seq<QueuedTask>, n: nat, entries: seq<Entry>, pairs: seq<Pair>)
    requires n <= |queue|
  {
    Safe(queue[..n], entries, pairs) && Greedy(queue[..n], entries, pairs)
  }

  ghost predicate MemoOk(queue: seq<QueuedTask>, entries: seq<Entry>, memo: map<string, seq<Entry>>) {
    forall t | t in queue && RequirementSignature(t.requirement) in memo ::
      Decodable(t.requirement) && memo[RequirementSignature(t.requirement)] == Candidates(t.requirement, entries)
  }

  ghost predicate Versioned(queue: seq<QueuedTask>) {
    forall t | t in queue :: ParseVersion(t.requirement.version).Some?
  }

  /** Reusing a set by signature is the same as computing it. */
  lemma Memoised(queue: seq<QueuedTask>, entries: seq<Entry>, memo: map<string, seq<Entry>>, t: QueuedTask)
    requires Versioned(queue) && MemoOk(queue, entries, memo) && t in queue && Decodable(t.requirement)
    ensures MemoOk(queue, entries, memo[RequirementSignature(t.requirement) := Candidates(t.requirement, entries)])
  {
    hide RequirementSignature, ParseVersion, Decodable, Candidates;
    forall u | u in queue && RequirementSignature(u.requirement) == RequirementSignature(t.requirement)
      ensures u.requirement == t.requirement
    {
      SignatureInjective(u.requirement, t.requirement);
    }
  }

  lemma Skipped(queue: seq<QueuedTask>, n: nat, entries: seq<Entry>, pairs: seq<Pair>)
    requires n < |queue| && Progress(queue, n, entries, pairs) && !Live(queue[n])
    ensures Progress(queue, n + 1, entries, pairs)
  {
    hide Compatible, TakenBefore, Matched;
    assert queue[..n + 1] == queue[..n] + [queue[n]];
  }

  lemma LeftUnmatched(queue: seq<QueuedTask>, n: nat, entries: seq<Entry>, pairs: seq<Pair>)
    requires n < |queue| && Progress(queue, n, entries, pairs) && Ordered(queue) && DistinctNodes(entries)
    requires forall e | e in entries && Compatible(queue[n].requirement, e) :: e.address in Reserved(pairs)
    ensures Progress(queue, n + 1, entries, pairs)
  {
    hide Compatible;
    assert queue[..n + 1] == queue[..n] + [queue[n]];
    forall e | e in entries && Compatible(queue[n].requirement, e) ensures TakenBefore(pairs, queue[n], e) {
      ReservedTakenBefore(queue, n, n, entries, pairs, e);
    }
  }

  // A reserved node was taken by a task of the prefix, which is ahead of every later task.
  lemma ReservedTakenBefore(queue: seq<QueuedTask>, n: nat, i: nat, entries: seq<Entry>, pairs: seq<Pair>, e: Entry)
    requires n <= i < |queue| && Safe(queue[..n], entries, pairs) && Ordered(queue) && DistinctNodes(entries)
    requires e in entries && e.address in Reserved(pairs)
    ensures TakenBefore(pairs, queue[i], e)
  {
    hide Compatible;
    var p :| p in pairs && p.node.address == e.address;
    var a :| 0 <= a < |entries| && entries[a] == e;
    var b :| 0 <= b < |entries| && entries[b] == p.node;
    assert a == b;
    assert p.task in queue[..n];
    var k :| 0 <= k < n && queue[k] == p.task;
  }

  lemma MatchedOne(queue: seq<QueuedTask>, n: nat, entries: seq<Entry>, pairs: seq<Pair>, e: Entry)
    requires n < |queue| && Progress(queue, n, entries, pairs) && Ordered(queue) && Live(queue[n]) && DistinctIds(queue)
    requires e in entries && Compatible(queue[n].requirement, e) && e.address !in Reserved(pairs)
    ensures Progress(queue, n + 1, entries, pairs + [Pair(queue[n], e)])
  {
    hide Compatible;
    var t, pairs' := queue[n], pairs + [Pair(queue[n], e)];
    assert queue[..n + 1] == queue[..n] + [t];
    assert forall p | p in pairs :: p.node.address in Reserved(pairs);
    assert forall i | 0 <= i < |pairs| :: pairs[i] in pairs;
    SafeOne(queue, n, entries, pairs, e);
    forall u, f | u in queue[..n + 1] && Live(u) && !Matched(pairs', u) && f in entries && Compatible(u.requirement, f)
      ensures TakenBefore(pairs', u, f)
    {
      assert Pair(t, e) in pairs';
      assert u != t;
      assert forall p | p in pairs :: p in pairs';
      assert !Matched(pairs, u);
      assert TakenBefore(pairs, u, f);
    }
  }

  predicate DistinctIds(queue: seq<QueuedTask>) {
    forall i, j | 0 <= i < j < |queue| :: queue[i].id != queue[j].id
  }

  lemma SafeOne(queue: seq<QueuedTask>, n: nat, entries: seq<Entry>, pairs: seq<Pair>, e: Entry)
    requires n < |queue| && Safe(queue[..n], entries, pairs) && Live(queue[n]) && DistinctIds(queue)
    requires e in entries && Compatible(queue[n].requirement, e) && e.address !in Reserved(pairs)
    ensures Safe(queue[..n + 1], entries, pairs + [Pair(queue[n], e)])
  {
    hide Compatible;
    var pairs' := pairs + [Pair(queue[n], e)];
    assert queue[..n + 1] == queue[..n] + [queue[n]];
    forall i | 0 <= i < |pairs| ensures pairs[i].task.id != queue[n].id && pairs[i].node.address != e.address {
      assert pairs[i] in pairs && pairs[i].task in queue[..n];
      var k :| 0 <= k < n && queue[k] == pairs[i].task;
    }
  }

  // Once every available node is reserved, the rest of the queue cannot be served.
  lemma Exhausted(queue: seq<QueuedTask>, n: nat, entries: seq<Entry>, pairs: seq<Pair>)
    requires n <= |queue| && Progress(queue, n, entries, pairs) && Ordered(queue) && DistinctNodes(entries)
    requires forall e | e in entries && e.status.Available? && !e.hasCurrentTask :: e.address in Reserved(pairs)
    ensures Progress(queue, |queue|, entries, pairs)
  {
    hide ParseVersion, Decodable, Covered;
    assert queue[..|queue|] == queue;
    forall t, e | t in queue && Live(t) && !Matched(pairs, t) && e in entries && Compatible(t.requirement, e)
      ensures TakenBefore(pairs, t, e)
    {
      var i :| 0 <= i < |queue| && queue[i] == t;
      if i < n {
        assert queue[..n][i] == t;
      } else {
        ReservedTakenBefore(queue, n, i, entries, pairs, e);
      }
    }
    forall p | p in pairs ensures p.task in queue {
      assert p.task in queue[..n];
    }
  }

  lemma SafeWhole(queue: seq<QueuedTask>, n: nat, entries: seq<Entry>, pairs: seq<Pair>)
    requires n <= |queue| && Safe(queue[..n], entries, pairs)
    ensures Safe(queue, entries, pairs)
  {
    forall p | p in pairs ensures p.task in queue {
      assert p.task in queue[..n];
    }
  }

  // One unreserved candidate, if any; weighted sampling is an arbitrary choice among them.
  method MatchFromCandidateSet(candidates: seq<Entry>, reserved: set<Addr>) returns (r: Option<Entry>)
    ensures r.Some? ==> r.value in candidates && r.value.address !in reserved
    ensures r.None? ==> forall e | e in candidates :: e.address in reserved
  {
    var available: seq<Entry> := [];
    for i := 0 to |candidates|
      invariant forall e | e in available :: e in candidates && e.address !in reserved
      invariant forall e | e in candidates[..i] :: e.address in reserved || e in available
    {
      if candidates[i].address in reserved {
        continue;
      }
      available := available + [candidates[i]];
    }
    assert candidates[..|candidates|] == candidates;
    if |available| == 0 {
      return None;
    }
    var index :| 0 <= index < |available|;
    r := Some(available[index]);
  }

  method HasUnreservedEligibleNode(entries: seq<Entry>, reserved: set<Addr>) returns (found: bool)
    ensures found <==> exists e | e in entries :: e.status.Available? && !e.hasCurrentTask && e.address !in reserved
  {
    for i := 0 to |entries|
      invariant forall e | e in entries[..i] :: !(e.status.Available? && !e.hasCurrentTask && e.address !in reserved)
    {
      if entries[i].status.Available? && !entries[i].hasCurrentTask && entries[i].address !in reserved {
        return true;
      }
    }
    assert entries[..|entries|] == entries;
    found := false;
  }

  // A task that may be matched but whose hash columns are not whole hashes.
  predicate Broken(t: QueuedTask) {
    && !t.timedOut && t.allowed
    && (|t.requirement.files| % 32 != 0 || |t.requirement.sources| % 32 != 0 || |t.requirement.cacheHash| != 32)
  }

  lemma BrokenIs(t: QueuedTask)
    requires Live(t) && !Decodable(t.requirement)
    ensures Broken(t)
  {}

  method MatchPage(queue: seq<QueuedTask>, ghost n: nat, page: seq<QueuedTask>, entries: seq<Entry>,
                   pairs0: seq<Pair>, reserved0: set<Addr>, memo0: map<string, seq<Entry>>)
    returns (pairs: seq<Pair>, reserved: set<Addr>, memo: map<string, seq<Entry>>, failed: bool)
    requires Ordered(queue) && DistinctIds(queue) && Versioned(queue) && DistinctNodes(entries)
    requires n + |page| <= |queue| && page == queue[n..n + |page|]
    requires Progress(queue, n, entries, pairs0) && MemoOk(queue, entries, memo0) && reserved0 == Reserved(pairs0)
    ensures !failed ==>
              Progress(queue, n + |page|, entries, pairs) && MemoOk(queue, entries, memo) && reserved == Reserved(pairs)
    ensures Safe(queue, entries, pairs)
    ensures failed ==> exists t | t in queue :: Broken(t)
  {
    hide Progress, MemoOk, RequirementSignature, ParseVersion, Compatible, Safe, Ordered, DistinctIds, DistinctNodes,
         Decodable, Broken;
    pairs, reserved, memo, failed := pairs0, reserved0, memo0, false;
    for i := 0 to |page|
      invariant Progress(queue, n + i, entries, pairs) && MemoOk(queue, entries, memo) && reserved == Reserved(pairs)
    {
      var t := page[i];
      assert t == queue[n + i];
      if t.timedOut || !t.allowed {
        Skipped(queue, n + i, entries, pairs);
        continue;
      }
      var signature := RequirementSignature(t.requirement);
      if signature !in memo {
        var built := BuildCandidateSet(t.requirement, entries);
        if built.None? {
          failed := true;
          BrokenIs(t);
          assert t in queue;
          ProgressSafe(queue, n + i, entries, pairs);
          return;
        }
        Memoised(queue, entries, memo, t);
        memo := memo[signature := built.value];
      }
      MemoGives(queue, entries, memo, t);
      var selected := MatchFromCandidateSet(memo[signature], reserved);
      if selected.None? {
        LeftUnmatched(queue, n + i, entries, pairs);
        continue;
      }
      MatchedOne(queue, n + i, entries, pairs, selected.value);
      reserved := reserved + {selected.value.address};
      pairs := pairs + [Pair(t, selected.value)];
    }
    ProgressSafe(queue, n + |page|, entries, pairs);
  }

  lemma MemoGives(queue: seq<QueuedTask>, entries: seq<Entry>, memo: map<string, seq<Entry>>, t: QueuedTask)
    requires MemoOk(queue, entries, memo) && t in queue && RequirementSignature(t.requirement) in memo
    ensures memo[RequirementSignature(t.requirement)] == Candidates(t.requirement, entries)
  {}

  lemma ProgressSafe(queue: seq<QueuedTask>, n: nat, entries: seq<Entry>, pairs: seq<Pair>)
    requires n <= |queue| && Progress(queue, n, entries, pairs)
    ensures Safe(queue, entries, pairs)
  {
    SafeWhole(queue, n, entries, pairs);
  }

  /** A round over a fixed queue and node snapshot pairs safely, and, when it meets no error, greedily. */
  method RunMatchingRound(queue: seq<QueuedTask>, entries: seq<Entry>, batchSize: nat)
    returns (pairs: seq<Pair>, failed: bool)
    requires batchSize > 0 && Ordered(queue) && DistinctIds(queue) && Versioned(queue) && DistinctNodes(entries)
    ensures Safe(queue, entries, pairs)
    ensures !failed ==> Greedy(queue, entries, pairs)
    ensures failed ==> exists t | t in queue :: Broken(t)
  {
    hide Broken, MemoOk, RequirementSignature, ParseVersion, Compatible, Safe, Ordered, DistinctIds, DistinctNodes,
         Greedy, Matched, TakenBefore, Versioned, After;
    pairs, failed := [], false;
    var reserved: set<Addr> := {};
    var memo: map<string, seq<Entry>> := map[];
    var cursor: Option<QueuedTask> := None;
    ghost var n := 0;
    StartRound(queue, entries);
    while true
      invariant n <= |queue| && cursor == if n == 0 then None else Some(queue[n - 1])
      invariant Progress(queue, n, entries, pairs) && MemoOk(queue, entries, memo) && reserved == Reserved(pairs)
      decreases |queue| - n
    {
      var page := FetchPage(queue, cursor, batchSize);
      AfterIs(queue, n);
      assert page == queue[n..n + |page|];
      assert queue[..|queue|] == queue;
      if |page| == 0 {
        return;
      }
      pairs, reserved, memo, failed := MatchPage(queue, n, page, entries, pairs, reserved, memo);
      if failed {
        return;
      }
      n := n + |page|;
      if |page| < batchSize {
        return;
      }
      var more := HasUnreservedEligibleNode(entries, reserved);
      if !more {
        Exhausted(queue, n, entries, pairs);
        return;
      }
      cursor := Some(page[|page| - 1]);
    }
  }

  lemma StartRound(queue: seq<QueuedTask>, entries: seq<Entry>)
    ensures Progress(queue, 0, entries, []) && MemoOk(queue, entries, map[])
  {}
}

/** Comparing the members of a validation group and deciding what becomes of each. */
module Validation {
  import opened Basics
  import opened Model

  // ---------- Score comparison ----------

  // Bits in which two bytes differ, over their low n bits.
  function BitDifference(x: nat, y: nat, n: nat): nat {
    if n == 0 then 0 else
      (if x % 2 != y % 2 then 1 else 0) + BitDifference(x / 2, y / 2, n - 1)
  }

  function HammingDistance(a: seq<Byte>, b: seq<Byte>): nat
    requires |a| == |b|
  {
    if a == [] then 0 else
      HammingDistance(a[..|a| - 1], b[..|b| - 1]) + BitDifference(a[|a| - 1], b[|b| - 1], 8)
  }

  const POWERS: seq<nat> := [1, 2, 4, 8, 16, 32, 64, 128]

  // The places, byte and bit, at which two hashes differ.
  ghost function DifferingBits(a: seq<Byte>, b: seq<Byte>): set<(nat, nat)>
    requires |a| == |b|
  {
    set i: nat, j: nat | i < |a| && j < 8 && a[i] / POWERS[j] % 2 != b[i] / POWERS[j] % 2 :: (i, j)
  }

  // The places of one byte, among its low n bits.
  ghost function DifferingIn(i: nat, x: Byte, y: Byte, n: nat): set<(nat, nat)>
    requires n <= 8
  {
    set j: nat | j < n && x / POWERS[j] % 2 != y / POWERS[j] % 2 :: (i, j)
  }

  lemma Halved(x: nat, n: nat)
    requires n < 7
    ensures x / POWERS[n] / 2 == x / POWERS[n + 1]
  {
    assert n == 0 || n == 1 || n == 2 || n == 3 || n == 4 || n == 5 || n == 6;
  }

  lemma NextBit(i: nat, x: Byte, y: Byte, n: nat)
    requires n < 8
    ensures |DifferingIn(i, x, y, n + 1)|
              == |DifferingIn(i, x, y, n)| + if x / POWERS[n] % 2 != y / POWERS[n] % 2 then 1 else 0
  {
    assert DifferingIn(i, x, y, n + 1)
      == DifferingIn(i, x, y, n) + if x / POWERS[n] % 2 != y / POWERS[n] % 2 then {(i, n)} else {};
  }

  lemma {:induction false} LowBits(i: nat, x: Byte, y: Byte, n: nat)
    requires n < 8
    ensures BitDifference(x, y, 8) == |DifferingIn(i, x, y, n)| + BitDifference(x / POWERS[n], y / POWERS[n], 8 - n)
  {
    if n == 0 {
      assert DifferingIn(i, x, y, 0) == {};
    } else {
      LowBits(i, x, y, n - 1);
      NextBit(i, x, y, n - 1);
      Halved(x, n - 1);
      Halved(y, n - 1);
    }
  }

  lemma BitsOfByte(i: nat, x: Byte, y: Byte)
    ensures BitDifference(x, y, 8) == |DifferingIn(i, x, y, 8)|
  {
    LowBits(i, x, y, 7);
    NextBit(i, x, y, 7);
  }

  lemma LastByte(a: seq<Byte>, b: seq<Byte>)
    requires |a| == |b| > 0
    ensures var n := |a| - 1;
            |DifferingBits(a, b)| == |DifferingBits(a[..n], b[..n])| + |DifferingIn(n, a[n], b[n], 8)|
  {
    var n := |a| - 1;
    assert DifferingBits(a, b) == DifferingBits(a[..n], b[..n]) + DifferingIn(n, a[n], b[n], 8);
  }

  /** The distance is the number of places at which the hashes differ. */
  lemma {:induction false} DistanceCounts(a: seq<Byte>, b: seq<Byte>)
    requires |a| == |b|
    ensures HammingDistance(a, b) == |DifferingBits(a, b)|
  {
    hide BitDifference, DifferingIn;
    if a == [] {
      assert DifferingBits(a, b) == {};
    } else {
      var n := |a| - 1;
      DistanceCounts(a[..n], b[..n]);
      BitsOfByte(n, a[n], b[n]);
      LastByte(a, b);
    }
  }

  /** The distance as it is added up, byte by byte. */
  method CountDifferences(a: seq<Byte>, b: seq<Byte>) returns (distance: nat)
    requires |a| == |b|
    ensures distance == |DifferingBits(a, b)|
  {
    hide BitDifference, DifferingBits;
    distance := 0;
    for i := 0 to |a|
      invariant distance == HammingDistance(a[..i], b[..i])
    {
      assert a[..i + 1][..i] == a[..i] && b[..i + 1][..i] == b[..i];
      distance := distance + BitDifference(a[i], b[i], 8);
    }
    assert a[..|a|] == a && b[..|b|] == b;
    DistanceCounts(a, b);
  }

  function Block(h: seq<Byte>, i: nat): (r: seq<Byte>)
    requires |h| % 8 == 0 && i < |h| / 8
    ensures |r| == 8 && forall j | 0 <= j < 8 :: r[j] == h[8 * i + j]
  {
    h[8 * i..8 * i + 8]
  }

  /** Equal length, whole 8-byte blocks, and every pair of blocks closer than the threshold. */
  predicate Close(a: seq<Byte>, b: seq<Byte>, threshold: nat) {
    && |a| == |b|
    && |a| % 8 == 0
    && forall i: nat | i < |a| / 8 :: HammingDistance(Block(a, i), Block(b, i)) < threshold
  }

  /** Two hashes are close exactly when every pair of 8-byte blocks differs in fewer places than the threshold. */
  lemma CloseIff(a: seq<Byte>, b: seq<Byte>, threshold: nat)
    ensures Close(a, b, threshold)
       <==> |a| == |b| && |a| % 8 == 0 && forall i: nat | i < |a| / 8 ::
              |DifferingBits(Block(a, i), Block(b, i))| < threshold
  {
    hide HammingDistance, DifferingBits;
    if |a| == |b| && |a| % 8 == 0 {
      forall i: nat | i < |a| / 8
        ensures HammingDistance(Block(a, i), Block(b, i)) == |DifferingBits(Block(a, i), Block(b, i))|
      {
        DistanceCounts(Block(a, i), Block(b, i));
      }
    }
  }

  method CheckHammingDistance(a: seq<Byte>, b: seq<Byte>, threshold: nat) returns (close: bool)
    ensures close == Close(a, b, threshold)
    ensures close <==> |a| == |b| && |a| % 8 == 0 && forall i: nat | i < |a| / 8 ::
                         |DifferingBits(Block(a, i), Block(b, i))| < threshold
  {
    hide HammingDistance, DifferingBits;
    CloseIff(a, b, threshold);
    if |a| != |b| || |a| % 8 != 0 {
      return false;
    }
    var i := 0;
    while i < |a|
      invariant 0 <= i <= |a| && i % 8 == 0
      invariant forall j: nat | j < i / 8 :: |DifferingBits(Block(a, j), Block(b, j))| < threshold
    {
      assert a[i..i + 8] == Block(a, i / 8) && b[i..i + 8] == Block(b, i / 8);
      var distance := CountDifferences(a[i..i + 8], b[i..i + 8]);
      if distance >= threshold {
        return false;
      }
      i := i + 8;
    }
    return true;
  }

  predicate SameScore(t: Task, u: Task, threshold: nat) {
    && t.kind == u.kind
    && t.status == u.status
    && (t.status.ScoreReady? ==>
          if t.kind.LLM? then t.score == u.score else Close(t.score, u.score, threshold))
  }

  /** Two members compare equal exactly when they are of one kind and status and, if scored, have the same text
      or hashes that differ in fewer places than the threshold in every block. */
  lemma SameScoreIff(t: Task, u: Task, threshold: nat)
    ensures SameScore(t, u, threshold)
       <==> && t.kind == u.kind && t.status == u.status
            && (t.status == ScoreReady && t.kind == LLM ==> t.score == u.score)
            && (t.status == ScoreReady && t.kind != LLM ==>
                  && |t.score| == |u.score| && |t.score| % 8 == 0
                  && forall i: nat | i < |t.score| / 8 ::
                       |DifferingBits(Block(t.score, i), Block(u.score, i))| < threshold)
  {
    hide Close, DifferingBits;
    CloseIff(t.score, u.score, threshold);
  }

  lemma BitDifferenceSymmetric(x: nat, y: nat, n: nat)
    ensures BitDifference(x, y, n) == BitDifference(y, x, n)
  {}

  lemma {:induction false} DistanceSymmetric(a: seq<Byte>, b: seq<Byte>)
    requires |a| == |b|
    ensures HammingDistance(a, b) == HammingDistance(b, a)
  {
    if a != [] {
      DistanceSymmetric(a[..|a| - 1], b[..|b| - 1]);
      BitDifferenceSymmetric(a[|a| - 1], b[|b| - 1], 8);
    }
  }

  lemma SameScoreSymmetric(t: Task, u: Task, threshold: nat)
    ensures SameScore(t, u, threshold) == SameScore(u, t, threshold)
  {
    if |t.score| == |u.score| && |t.score| % 8 == 0 {
      forall i: nat | i < |t.score| / 8
        ensures HammingDistance(Block(t.score, i), Block(u.score, i))
                  == HammingDistance(Block(u.score, i), Block(t.score, i))
      {
        DistanceSymmetric(Block(t.score, i), Block(u.score, i));
      }
    }
  }

  // ---------- Order and scores ----------

  const MAX_DURATION := 0x7FFF_FFFF_FFFF_FFFF

  function ExecutionTime(t: Task): int {
    if t.startTime.Some? && t.scoreTime.Some? then t.scoreTime.value - t.startTime.value else MAX_DURATION
  }

  predicate Faster(t: Task, u: Task) {
    var a, b := ExecutionTime(t), ExecutionTime(u);
    if a == b then t.key < u.key else a < b
  }

  function InsertByTime(ts: seq<Task>, t: Task): (r: seq<Task>)
    ensures multiset(r) == multiset(ts) + multiset{t}
  {
    if ts == [] then [t]
    else if Faster(t, ts[|ts| - 1]) then
      assert ts == ts[..|ts| - 1] + [ts[|ts| - 1]];
      InsertByTime(ts[..|ts| - 1], t) + [ts[|ts| - 1]]
    else ts + [t]
  }

  function SortByTime(ts: seq<Task>): (r: seq<Task>)
    ensures multiset(r) == multiset(ts)
    ensures |r| == |ts|
  {
    if ts == [] then [] else
      assert ts == ts[..|ts| - 1] + [ts[|ts| - 1]];
      var r := InsertByTime(SortByTime(ts[..|ts| - 1]), ts[|ts| - 1]);
      assert |multiset(r)| == |multiset(ts)|;
      r
  }

  predicate SortedByTime(ts: seq<Task>) {
    forall i, j | 0 <= i < j < |ts| :: !Faster(ts[j], ts[i])
  }

  lemma {:induction false} InsertKeepsSorted(ts: seq<Task>, t: Task)
    requires SortedByTime(ts)
    ensures SortedByTime(InsertByTime(ts, t))
  {
    if ts != [] && Faster(t, ts[|ts| - 1]) {
      var front, last := ts[..|ts| - 1], ts[|ts| - 1];
      InsertKeepsSorted(front, t);
      var r := InsertByTime(front, t);
      forall i | 0 <= i < |r| ensures !Faster(last, r[i]) {
        assert r[i] in multiset(front) + multiset{t};
      }
    }
  }

  lemma {:induction false} SortSorts(ts: seq<Task>)
    ensures SortedByTime(SortByTime(ts))
  {
    if ts != [] {
      SortSorts(ts[..|ts| - 1]);
      InsertKeepsSorted(SortByTime(ts[..|ts| - 1]), ts[|ts| - 1]);
    }
  }

  lemma SortedMembers(ts: seq<Task>)
    requires |ts| == 3 && ts[0].key != ts[1].key && ts[0].key != ts[2].key && ts[1].key != ts[2].key
    ensures var s := SortByTime(ts);
            && |s| == 3 && s[0] in ts && s[1] in ts && s[2] in ts
            && s[0].key != s[1].key && s[0].key != s[2].key && s[1].key != s[2].key
            && (forall t | t in ts :: t == s[0] || t == s[1] || t == s[2])
  {
    hide SortByTime;
    var s := SortByTime(ts);
    SameThree(ts, s, s[0]);
    SameThree(ts, s, s[1]);
    SameThree(ts, s, s[2]);
    SameThree(ts, s, ts[0]);
    SameThree(ts, s, ts[1]);
    SameThree(ts, s, ts[2]);
  }

  const REWARDS: seq<nat> := [10, 5, 2]

  predicate Aborted(t: Task) { t.status.EndAborted? }

  function Finished(ts: seq<Task>): (r: seq<Task>)
    ensures |r| <= |ts|
    ensures forall t :: t in r <==> t in ts && !Aborted(t)
  {
    if ts == [] then [] else
      var n := |ts| - 1;
      Finished(ts[..n]) + (if Aborted(ts[n]) then [] else [ts[n]])
  }

  // A member's reward by its rank among the finished members before it; aborted members get zero.
  function RankScore(ts: seq<Task>, i: nat): nat
    requires i < |ts| <= 3
  {
    if Aborted(ts[i]) then 0 else REWARDS[|Finished(ts[..i])|]
  }

  /** Rank rewards in time order, or none at all when every member aborted. */
  function QosOf(ts: seq<Task>, i: nat): Option<nat>
    requires i < |ts| <= 3
  {
    if Finished(ts) == [] then None else Some(RankScore(ts, i))
  }

  lemma NobodyFinished(ts: seq<Task>)
    ensures Finished(ts[..0]) == []
  {}

  lemma FinishedSnoc(ts: seq<Task>, i: nat)
    requires i < |ts|
    ensures |Finished(ts[..i + 1])| == |Finished(ts[..i])| + if Aborted(ts[i]) then 0 else 1
  {
    assert ts[..i + 1][..i] == ts[..i];
  }

  method AssignQosScores(ts: seq<Task>) returns (scores: seq<Option<nat>>)
    requires |ts| <= 3
    ensures |scores| == |ts|
    ensures forall i: nat | i < |ts| :: scores[i] == QosOf(ts, i)
  {
    hide Finished;
    var order, finishedCount := 0, 0;
    scores := [];
    NobodyFinished(ts);
    for i := 0 to |ts|
      invariant |scores| == i && order == finishedCount == |Finished(ts[..i])|
      invariant forall j: nat | j < i :: scores[j] == Some(RankScore(ts, j))
    {
      FinishedSnoc(ts, i);
      if !ts[i].status.EndAborted? {
        scores := scores + [Some(REWARDS[order])];
        order, finishedCount := order + 1, finishedCount + 1;
      } else {
        scores := scores + [Some(0)];
      }
    }
    assert ts[..|ts|] == ts;
    if finishedCount == 0 {
      for i := 0 to |scores|
        invariant |scores| == |ts|
        invariant forall j: nat | j < i :: scores[j] == None
      {
        scores := scores[i := None];
      }
    }
  }

  /** Whoever finished is paid a positive weight, so the payout never divides by zero. */
  lemma FinishedScorePositive(ts: seq<Task>, i: nat)
    requires i < |ts| <= 3 && !Aborted(ts[i])
    ensures QosOf(ts, i).Some? && QosOf(ts, i).value > 0
  {
    assert ts[i] in Finished(ts);
  }

  // ---------- The decision ----------

  function Defaults(ts: seq<Task>): (r: map<Key, TaskStatus>)
    ensures forall t | t in ts :: t.key in r
    ensures forall k | k in r :: r[k].EndAborted?
  {
    map t | t in ts :: t.key := EndAborted
  }

  lemma NoDefaults()
    ensures Defaults([]) == map[]
  {}

  lemma DefaultsSnoc(ts: seq<Task>, t: Task)
    ensures Defaults(ts + [t]) == Defaults(ts)[t.key := EndAborted]
  {
    forall k ensures k in Defaults(ts + [t]) <==> k in Defaults(ts) || k == t.key {
      if k in Defaults(ts) {
        var u :| u in ts && u.key == k;
        assert u in ts + [t];
      }
      assert t in ts + [t];
    }
  }

  // Next status of every member, in time order.
  function Decide(ts: seq<Task>, threshold: nat): (r: map<Key, TaskStatus>)
    ensures forall t | t in ts :: t.key in r
  {
    var start := Defaults(ts);
    var f := Finished(ts);
    if |f| == 2 then
      if SameScore(f[0], f[1], threshold) && f[0].status.ScoreReady? then
        start[f[0].key := GroupValidated][f[1].key := EndGroupRefund]
      else start
    else if |f| == 3 then
      var same1 := SameScore(f[0], f[1], threshold);
      var same2 := SameScore(f[0], f[2], threshold);
      var same3 := SameScore(f[1], f[2], threshold);
      if same1 then
        var m := if f[0].status.ScoreReady? then start[f[0].key := GroupValidated][f[1].key := EndGroupRefund]
            else start;
        m[f[2].key := if same2 then EndGroupRefund else EndInvalidated]
      else if same2 then
        var m := if f[0].status.ScoreReady? then start[f[0].key := GroupValidated][f[2].key := EndGroupRefund]
            else start;
        m[f[1].key := EndInvalidated]
      else if same3 then
        var m := if f[1].status.ScoreReady? then start[f[1].key := GroupValidated][f[2].key := EndGroupRefund]
            else start;
        m[f[0].key := EndInvalidated]
      else start
    else start
  }

  /** The decision as it is built up, status by status. */
  method DecideGroup(ts: seq<Task>, threshold: nat) returns (next: map<Key, TaskStatus>, finished: seq<Task>)
    ensures next == Decide(ts, threshold) && finished == Finished(ts)
  {
    hide SameScore;
    next, finished := StartDecision(ts);
    if |finished| == 2 {
      if SameScore(finished[0], finished[1], threshold) && finished[0].status.ScoreReady? {
        next := next[finished[0].key := GroupValidated];
        next := next[finished[1].key := EndGroupRefund];
      }
    } else if |finished| == 3 {
      var same1 := SameScore(finished[0], finished[1], threshold);
      var same2 := SameScore(finished[0], finished[2], threshold);
      var same3 := SameScore(finished[1], finished[2], threshold);
      if same1 {
        if finished[0].status.ScoreReady? {
          next := next[finished[0].key := GroupValidated];
          next := next[finished[1].key := EndGroupRefund];
        }
        next := next[finished[2].key := if same2 then EndGroupRefund else EndInvalidated];
      } else if same2 {
        if finished[0].status.ScoreReady? {
          next := next[finished[0].key := GroupValidated];
          next := next[finished[2].key := EndGroupRefund];
        }
        next := next[finished[1].key := EndInvalidated];
      } else if same3 {
        if finished[1].status.ScoreReady? {
          next := next[finished[1].key := GroupValidated];
          next := next[finished[2].key := EndGroupRefund];
        }
        next := next[finished[0].key := EndInvalidated];
      }
    }
  }

  method StartDecision(ts: seq<Task>) returns (next: map<Key, TaskStatus>, finished: seq<Task>)
    ensures next == Defaults(ts)
    ensures finished == Finished(ts)
  {
    hide Defaults;
    next, finished := map[], [];
    NoDefaults();
    for i := 0 to |ts|
      invariant next == Defaults(ts[..i])
      invariant finished == Finished(ts[..i])
    {
      assert ts[..i + 1][..i] == ts[..i];
      assert ts[..i + 1] == ts[..i] + [ts[i]];
      DefaultsSnoc(ts[..i], ts[i]);
      next := next[ts[i].key := EndAborted];
      if !ts[i].status.EndAborted? {
        finished := finished + [ts[i]];
      }
    }
    assert ts[..|ts|] == ts;
  }

  // Three distinct members, each scored, failed or already aborted.
  predicate Group(ts: seq<Task>) {
    && |ts| == 3
    && (forall i, j | 0 <= i < j < 3 :: ts[i].key != ts[j].key)
    && forall i | 0 <= i < 3 :: ts[i].status.ScoreReady? || ts[i].status.ErrorReported? || Aborted(ts[i])
  }

  predicate Agree(ts: seq<Task>, i: nat, j: nat, threshold: nat)
    requires i < |ts| && j < |ts|
  {
    i != j && !Aborted(ts[i]) && !Aborted(ts[j]) && SameScore(ts[i], ts[j], threshold)
  }

  predicate AgreesWithAnother(ts: seq<Task>, i: nat, threshold: nat)
    requires i < |ts|
  {
    exists j: nat | j < |ts| :: Agree(ts, i, j, threshold)
  }

  // The fastest member that agrees with another one.
  predicate FirstAgreeing(ts: seq<Task>, i: nat, threshold: nat)
    requires i < |ts|
  {
    AgreesWithAnother(ts, i, threshold) && forall h: nat | h < i :: !AgreesWithAnother(ts, h, threshold)
  }

  // Three failures of one task type: the only group whose decision is not acceptable.
  predicate Stuck(ts: seq<Task>)
    requires |ts| == 3
  {
    (forall i | 0 <= i < 3 :: ts[i].status.ErrorReported?) && ts[0].kind == ts[1].kind == ts[2].kind
  }

  function Next(ts: seq<Task>, i: nat, threshold: nat): TaskStatus
    requires i < |ts|
  {
    Decide(ts, threshold)[ts[i].key]
  }

  function Keep(t: Task): seq<Task> {
    if Aborted(t) then [] else [t]
  }

  lemma FinishedOfThree(ts: seq<Task>)
    requires |ts| == 3
    ensures Finished(ts) == Keep(ts[0]) + Keep(ts[1]) + Keep(ts[2])
  {
    assert ts[..2][..1] == ts[..1];
    assert Finished(ts[..1]) == Keep(ts[0]) by { assert ts[..1][..0] == []; }
    assert Finished(ts[..2]) == Keep(ts[0]) + Keep(ts[1]);
  }

  // The decision written out when nobody, one member, or more have aborted.
  lemma DecideAllFinished(ts: seq<Task>, threshold: nat)
    requires Group(ts) && forall i | 0 <= i < 3 :: !Aborted(ts[i])
    ensures var same1, same2, same3 :=
              SameScore(ts[0], ts[1], threshold), SameScore(ts[0], ts[2], threshold),
              SameScore(ts[1], ts[2], threshold);
            var ready0, ready1 := ts[0].status.ScoreReady?, ts[1].status.ScoreReady?;
            && Next(ts, 0, threshold) == (if same1 || same2 then (if ready0 then GroupValidated else EndAborted)
                                          else if same3 then EndInvalidated else EndAborted)
            && Next(ts, 1, threshold) == (if same1 then (if ready0 then EndGroupRefund else EndAborted)
                                          else if same2 then EndInvalidated
                                          else if same3 && ready1 then GroupValidated else EndAborted)
            && Next(ts, 2, threshold) == (if same1 then (if same2 then EndGroupRefund else EndInvalidated)
                                          else if same2 && ready0 then EndGroupRefund
                                          else if !same2 && same3 && ready1 then EndGroupRefund else EndAborted)
  {
    hide SameScore, Defaults;
    FinishedOfThree(ts);
    assert Finished(ts) == ts;
  }

  predicate TwoFinishedVerdict(ts: seq<Task>, i: nat, j: nat, threshold: nat)
    requires i < |ts| && j < |ts| && |ts| == 3
  {
    var agreed := SameScore(ts[i], ts[j], threshold) && ts[i].status.ScoreReady?;
    forall k: nat | k < 3 :: Next(ts, k, threshold) ==
      (if agreed && k == i then GroupValidated else if agreed && k == j then EndGroupRefund else EndAborted)
  }

  lemma DecideTwoFinished(ts: seq<Task>, i: nat, j: nat, threshold: nat)
    requires Group(ts) && i < j < 3 && !Aborted(ts[i]) && !Aborted(ts[j])
    requires forall k | 0 <= k < 3 && k != i && k != j :: Aborted(ts[k])
    ensures TwoFinishedVerdict(ts, i, j, threshold)
  {
    hide SameScore, Defaults;
    FinishedOfThree(ts);
    assert Finished(ts) == [ts[i], ts[j]];
  }

  lemma DecideFewFinished(ts: seq<Task>, i: nat, j: nat, threshold: nat)
    requires Group(ts) && i < j < 3 && Aborted(ts[i]) && Aborted(ts[j])
    ensures forall k: nat | k < 3 :: Next(ts, k, threshold).EndAborted?
  {
    hide SameScore, Defaults;
    FinishedOfThree(ts);
  }

  // Which of the three shapes a group has.
  lemma DecideCases(ts: seq<Task>, threshold: nat)
    requires Group(ts)
    ensures (Aborted(ts[0]) && (Aborted(ts[1]) || Aborted(ts[2]))) || (Aborted(ts[1]) && Aborted(ts[2])) ==>
              forall k: nat | k < 3 :: Next(ts, k, threshold).EndAborted?
    ensures Aborted(ts[0]) && !Aborted(ts[1]) && !Aborted(ts[2]) ==> TwoFinishedVerdict(ts, 1, 2, threshold)
    ensures !Aborted(ts[0]) && Aborted(ts[1]) && !Aborted(ts[2]) ==> TwoFinishedVerdict(ts, 0, 2, threshold)
    ensures !Aborted(ts[0]) && !Aborted(ts[1]) && Aborted(ts[2]) ==> TwoFinishedVerdict(ts, 0, 1, threshold)
  {
    if Aborted(ts[0]) && Aborted(ts[1]) { DecideFewFinished(ts, 0, 1, threshold); }
    else if Aborted(ts[0]) && Aborted(ts[2]) { DecideFewFinished(ts, 0, 2, threshold); }
    else if Aborted(ts[1]) && Aborted(ts[2]) { DecideFewFinished(ts, 1, 2, threshold); }
    else if Aborted(ts[0]) { DecideTwoFinished(ts, 1, 2, threshold); }
    else if Aborted(ts[1]) { DecideTwoFinished(ts, 0, 2, threshold); }
    else if Aborted(ts[2]) { DecideTwoFinished(ts, 0, 1, threshold); }
  }

  lemma AgreementOfThree(ts: seq<Task>, threshold: nat)
    requires |ts| == 3
    ensures AgreesWithAnother(ts, 0, threshold) == (Agree(ts, 0, 1, threshold) || Agree(ts, 0, 2, threshold))
    ensures AgreesWithAnother(ts, 1, threshold) == (Agree(ts, 0, 1, threshold) || Agree(ts, 1, 2, threshold))
    ensures AgreesWithAnother(ts, 2, threshold) == (Agree(ts, 0, 2, threshold) || Agree(ts, 1, 2, threshold))
    ensures Agree(ts, 1, 0, threshold) == Agree(ts, 0, 1, threshold)
    ensures Agree(ts, 2, 0, threshold) == Agree(ts, 0, 2, threshold)
    ensures Agree(ts, 2, 1, threshold) == Agree(ts, 1, 2, threshold)
  {
    SameScoreSymmetric(ts[0], ts[1], threshold);
    SameScoreSymmetric(ts[0], ts[2], threshold);
    SameScoreSymmetric(ts[1], ts[2], threshold);
    assert Agree(ts, 1, 0, threshold) == Agree(ts, 0, 1, threshold);
    assert Agree(ts, 2, 0, threshold) == Agree(ts, 0, 2, threshold);
    assert Agree(ts, 2, 1, threshold) == Agree(ts, 1, 2, threshold);
  }

  /** The representative is exactly the fastest scored member that agrees with another. */
  lemma GroupValidatedIff(ts: seq<Task>, i: nat, threshold: nat)
    requires Group(ts) && i < 3
    ensures Next(ts, i, threshold).GroupValidated?
       <==> ts[i].status.ScoreReady? && FirstAgreeing(ts, i, threshold)
  {
    hide Next, Decide, SameScore;
    AgreementOfThree(ts, threshold);
    DecideCases(ts, threshold);
    if forall j | 0 <= j < 3 :: !Aborted(ts[j]) {
      DecideAllFinished(ts, threshold);
    }
  }

  /** Unless the group is stuck, refunded members are exactly those agreeing with the representative. */
  lemma GroupRefundIff(ts: seq<Task>, i: nat, threshold: nat)
    requires Group(ts) && i < 3 && !Stuck(ts)
    ensures Next(ts, i, threshold).EndGroupRefund?
       <==> exists r: nat | r < 3 :: Next(ts, r, threshold).GroupValidated? && Agree(ts, r, i, threshold)
  {
    hide Next, Decide;
    AgreementOfThree(ts, threshold);
    DecideCases(ts, threshold);
    if forall j | 0 <= j < 3 :: !Aborted(ts[j]) {
      DecideAllFinished(ts, threshold);
    }
  }

  /** Invalidated members are exactly those of a fully finished group at odds with its first agreeing member. */
  lemma InvalidatedIff(ts: seq<Task>, i: nat, threshold: nat)
    requires Group(ts) && i < 3
    ensures Next(ts, i, threshold).EndInvalidated?
       <==> && (forall j | 0 <= j < 3 :: !Aborted(ts[j]))
            && exists f: nat | f < 3 :: f != i && FirstAgreeing(ts, f, threshold) && !Agree(ts, f, i, threshold)
  {
    hide Next, Decide, SameScore;
    AgreementOfThree(ts, threshold);
    DecideCases(ts, threshold);
    if forall j | 0 <= j < 3 :: !Aborted(ts[j]) {
      DecideAllFinished(ts, threshold);
    }
  }

  /** At most one representative and at most one invalidated member. */
  lemma DecisionUnique(ts: seq<Task>, i: nat, j: nat, threshold: nat)
    requires Group(ts) && i < j < 3
    ensures !(Next(ts, i, threshold).GroupValidated? && Next(ts, j, threshold).GroupValidated?)
    ensures !(Next(ts, i, threshold).EndInvalidated? && Next(ts, j, threshold).EndInvalidated?)
  {
    hide Next, Decide, SameScore;
    DecideCases(ts, threshold);
    if forall k | 0 <= k < 3 :: !Aborted(ts[k]) {
      DecideAllFinished(ts, threshold);
    }
  }

  /** A representative always leaves somebody to refund. */
  lemma RepresentativeHasRefund(ts: seq<Task>, r: nat, threshold: nat) returns (i: nat)
    requires Group(ts) && r < 3 && !Stuck(ts) && Next(ts, r, threshold).GroupValidated?
    ensures i < 3 && Agree(ts, r, i, threshold) && Next(ts, i, threshold).EndGroupRefund?
  {
    GroupValidatedIff(ts, r, threshold);
    i :| i < 3 && Agree(ts, r, i, threshold);
    GroupRefundIff(ts, i, threshold);
  }

  // What the transition to each decided status demands of the member's current one.
  predicate Accepts(current: TaskStatus, next: TaskStatus) {
    match next
    case GroupValidated | EndGroupRefund => current.ScoreReady?
    case EndInvalidated => current.ScoreReady? || current.EndAborted? || current.ErrorReported?
    case _ => current.EndAborted? || !Terminal(current)
  }

  lemma GuardsAcceptFinished(ts: seq<Task>, threshold: nat)
    requires Group(ts) && forall k | 0 <= k < 3 :: !Aborted(ts[k])
    ensures Accepts(ts[0].status, Next(ts, 0, threshold)) && Accepts(ts[1].status, Next(ts, 1, threshold))
    ensures Accepts(ts[2].status, Next(ts, 2, threshold)) <==> !Stuck(ts)
  {
    hide Next, Decide;
    DecideAllFinished(ts, threshold);
  }

  /** Every transition of the decision is accepted, except in the one group that is stuck. */
  lemma GuardsAcceptIff(ts: seq<Task>, threshold: nat)
    requires Group(ts)
    ensures (forall i: nat | i < 3 :: Accepts(ts[i].status, Next(ts, i, threshold))) <==> !Stuck(ts)
  {
    hide Next, Decide;
    if forall k | 0 <= k < 3 :: !Aborted(ts[k]) {
      GuardsAcceptFinished(ts, threshold);
    } else {
      DecideCases(ts, threshold);
    }
  }

  // ---------- Does the verdict depend on timing? ----------

  predicate TransitiveScores(ts: seq<Task>, threshold: nat) {
    forall t, u, v | t in ts && u in ts && v in ts ::
      SameScore(t, u, threshold) && SameScore(u, v, threshold) ==> SameScore(t, v, threshold)
  }

  // Two other members agree with each other and with nobody else; says nothing about order.
  predicate Outvoted(ts: seq<Task>, t: Task, threshold: nat) {
    && (forall u | u in ts :: !Aborted(u))
    && exists u, v | u in ts && v in ts :: OutvotedBy(t, u, v, threshold)
  }

  predicate OutvotedBy(t: Task, u: Task, v: Task, threshold: nat) {
    && t.key != u.key && t.key != v.key && u.key != v.key
    && SameScore(u, v, threshold) && !SameScore(t, u, threshold) && !SameScore(t, v, threshold)
  }

  /** Where comparison is transitive, a member is invalidated exactly when both others outvote it. */
  lemma InvalidatedIffOutvoted(ts: seq<Task>, i: nat, threshold: nat)
    requires Group(ts) && i < 3 && TransitiveScores(ts, threshold)
    ensures Next(ts, i, threshold).EndInvalidated? <==> Outvoted(ts, ts[i], threshold)
  {
    hide Next, Decide, SameScore;
    DecideCases(ts, threshold);
    if forall k | 0 <= k < 3 :: !Aborted(ts[k]) {
      DecideAllFinished(ts, threshold);
      SameScoreSymmetric(ts[0], ts[1], threshold);
      SameScoreSymmetric(ts[0], ts[2], threshold);
      SameScoreSymmetric(ts[1], ts[2], threshold);
      assert ts[0] in ts && ts[1] in ts && ts[2] in ts;
      assert OutvotedBy(ts[0], ts[1], ts[2], threshold) ==> Outvoted(ts, ts[0], threshold);
      assert OutvotedBy(ts[1], ts[0], ts[2], threshold) ==> Outvoted(ts, ts[1], threshold);
      assert OutvotedBy(ts[2], ts[0], ts[1], threshold) ==> Outvoted(ts, ts[2], threshold);
    } else {
      var k :| 0 <= k < 3 && Aborted(ts[k]);
      assert ts[k] in ts;
    }
  }

  /** Language-model groups are transitive: their scores are compared for equality. */
  lemma LanguageModelsTransitive(ts: seq<Task>, threshold: nat)
    requires forall t | t in ts :: t.kind.LLM?
    ensures TransitiveScores(ts, threshold)
  {}
}

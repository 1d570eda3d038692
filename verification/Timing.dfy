/** What execution times have to do with a group's verdicts. */
module Timing {
  import opened Basics
  import opened Model
  import opened Lifecycle
  import opened Validation

  // ---------- The verdicts of a loaded group ----------

  // What a loaded group's members are sent to: the decision on them ranked by their execution times.
  function Verdicts(ts: seq<Task>, ids: TaskId, threshold: nat): map<Key, TaskStatus>
    requires |ts| == 3
  {
    Decide(RankGroup(ts, ids), threshold)
  }

  predicate Agrees(t: Task, u: Task, threshold: nat) {
    t.key != u.key && !Aborted(t) && !Aborted(u) && SameScore(t, u, threshold)
  }

  predicate AgreesWithin(ts: seq<Task>, t: Task, threshold: nat) {
    exists u | u in ts :: Agrees(t, u, threshold)
  }

  // Of the members that agree with another, the one with the shortest execution time, by row id on a tie.
  predicate FastestAgreeing(ts: seq<Task>, t: Task, threshold: nat) {
    AgreesWithin(ts, t, threshold) && forall u | u in ts && Faster(u, t) :: !AgreesWithin(ts, u, threshold)
  }

  // The three members in time order.
  predicate InOrder(ts: seq<Task>, s: seq<Task>) {
    && Group(s) && s[0] in ts && s[1] in ts && s[2] in ts
    && (forall t | t in ts :: t == s[0] || t == s[1] || t == s[2])
    && Faster(s[0], s[1]) && Faster(s[0], s[2]) && Faster(s[1], s[2])
  }

  lemma FasterTotal(t: Task, u: Task)
    requires t.key != u.key
    ensures Faster(t, u) <==> !Faster(u, t)
  {}

  lemma SortedInOrder(ts: seq<Task>)
    requires Group(ts)
    ensures InOrder(ts, SortByTime(ts))
  {
    hide SortByTime, Faster;
    SortedMembers(ts);
    SortSorts(ts);
    var s := SortByTime(ts);
    FasterTotal(s[0], s[1]);
    FasterTotal(s[0], s[2]);
    FasterTotal(s[1], s[2]);
  }

  /** A time order is unique. */
  lemma OrderUnique(ts: seq<Task>, s: seq<Task>)
    requires Group(ts) && InOrder(ts, s)
    ensures SortByTime(ts) == s
  {
    hide SortByTime, Group, Faster;
    SortedInOrder(ts);
    var r := SortByTime(ts);
    OrderDetermines(ts, r, s);
    assert r == [r[0], r[1], r[2]] && s == [s[0], s[1], s[2]];
  }

  lemma OrderDetermines(ts: seq<Task>, r: seq<Task>, s: seq<Task>)
    requires InOrder(ts, r) && InOrder(ts, s)
    ensures |r| == |s| == 3 && r[0] == s[0] && r[1] == s[1] && r[2] == s[2]
  {
    hide Faster;
    FasterTotal(r[0], r[1]);
    FasterTotal(r[0], r[2]);
    FasterTotal(r[1], r[2]);
  }

  // A member as the decision sees it.
  predicate Marked(t: Task, u: Task) {
    u == t.(taskId := u.taskId, qos := u.qos)
  }

  lemma RankedInOrder(ts: seq<Task>, ids: TaskId)
    requires Group(ts)
    ensures var s, r := SortByTime(ts), RankGroup(ts, ids);
            InOrder(ts, s) && Group(r) && Marked(s[0], r[0]) && Marked(s[1], r[1]) && Marked(s[2], r[2])
  {
    hide SortByTime, QosOf, Faster;
    SortedInOrder(ts);
  }

  lemma MarkedAgree(s: seq<Task>, r: seq<Task>, i: nat, j: nat, threshold: nat)
    requires Group(s) && Group(r) && i < 3 && j < 3 && Marked(s[i], r[i]) && Marked(s[j], r[j])
    ensures Agree(r, i, j, threshold) <==> Agrees(s[i], s[j], threshold)
  {
    hide Close;
  }

  lemma AgreementWithin(ts: seq<Task>, s: seq<Task>, threshold: nat)
    requires InOrder(ts, s)
    ensures AgreesWithin(ts, s[0], threshold) == (Agrees(s[0], s[1], threshold) || Agrees(s[0], s[2], threshold))
    ensures AgreesWithin(ts, s[1], threshold) == (Agrees(s[1], s[0], threshold) || Agrees(s[1], s[2], threshold))
    ensures AgreesWithin(ts, s[2], threshold) == (Agrees(s[2], s[0], threshold) || Agrees(s[2], s[1], threshold))
  {
    hide SameScore, Faster;
  }

  lemma FirstIsFastest(ts: seq<Task>, s: seq<Task>, r: seq<Task>, i: nat, threshold: nat)
    requires InOrder(ts, s) && Group(r) && i < 3 && Marked(s[0], r[0]) && Marked(s[1], r[1]) && Marked(s[2], r[2])
    ensures AgreesWithAnother(r, i, threshold) == AgreesWithin(ts, s[i], threshold)
    ensures FirstAgreeing(r, i, threshold) == FastestAgreeing(ts, s[i], threshold)
  {
    hide SameScore, Faster, Marked, Agrees, Agree, AgreesWithAnother, AgreesWithin;
    AgreementOfThree(r, threshold);
    AgreementWithin(ts, s, threshold);
    MarkedAgree(s, r, 0, 1, threshold);
    MarkedAgree(s, r, 1, 0, threshold);
    MarkedAgree(s, r, 0, 2, threshold);
    MarkedAgree(s, r, 2, 0, threshold);
    MarkedAgree(s, r, 1, 2, threshold);
    MarkedAgree(s, r, 2, 1, threshold);
    FasterTotal(s[0], s[1]);
    FasterTotal(s[0], s[2]);
    FasterTotal(s[1], s[2]);
    NotFasterThanItself(s[0]);
    NotFasterThanItself(s[1]);
    NotFasterThanItself(s[2]);
  }

  lemma NotFasterThanItself(t: Task)
    ensures !Faster(t, t)
  {}

  // Everything the verdict lemmas need about one ranked member.
  lemma MemberIndex(ts: seq<Task>, ids: TaskId, t: Task) returns (i: nat)
    requires Group(ts) && t in ts
    ensures i < 3 && t == SortByTime(ts)[i]
    ensures t.status == RankGroup(ts, ids)[i].status && t.key == RankGroup(ts, ids)[i].key
    ensures forall threshold :: t.key in Verdicts(ts, ids, threshold)
              && Verdicts(ts, ids, threshold)[t.key] == Next(RankGroup(ts, ids), i, threshold)
  {
    hide SortByTime, RankGroup, Decide, Faster;
    RankedInOrder(ts, ids);
    var s := SortByTime(ts);
    i := if t == s[0] then 0 else if t == s[1] then 1 else 2;
  }

  /** The representative is exactly the scored member with the shortest execution time of those that
      agree with another. */
  lemma RepresentativeIff(ts: seq<Task>, ids: TaskId, t: Task, threshold: nat)
    requires Group(ts) && t in ts
    ensures t.key in Verdicts(ts, ids, threshold)
    ensures Verdicts(ts, ids, threshold)[t.key].GroupValidated? <==>
              t.status.ScoreReady? && FastestAgreeing(ts, t, threshold)
  {
    hide SortByTime, RankGroup, Decide, Verdicts, Next, FastestAgreeing, FirstAgreeing;
    RankedInOrder(ts, ids);
    var i := MemberIndex(ts, ids, t);
    FirstIsFastest(ts, SortByTime(ts), RankGroup(ts, ids), i, threshold);
    GroupValidatedIff(RankGroup(ts, ids), i, threshold);
  }

  predicate RefundedWith(ts: seq<Task>, r: Task, t: Task, threshold: nat) {
    r in ts && r.status.ScoreReady? && FastestAgreeing(ts, r, threshold) && Agrees(r, t, threshold)
  }

  /** Unless all three failed alike, the refunded members are exactly those agreeing with the representative. */
  lemma RefundedIff(ts: seq<Task>, ids: TaskId, t: Task, threshold: nat)
    requires Group(ts) && t in ts && !Stuck(ts)
    ensures t.key in Verdicts(ts, ids, threshold)
    ensures Verdicts(ts, ids, threshold)[t.key].EndGroupRefund? <==> exists r :: RefundedWith(ts, r, t, threshold)
  {
    hide SortByTime, RankGroup, Decide, Verdicts, Next, FastestAgreeing, FirstAgreeing, Agrees, Agree, Faster;
    RankedInOrder(ts, ids);
    var s, r := SortByTime(ts), RankGroup(ts, ids);
    var i := MemberIndex(ts, ids, t);
    StuckRanked(ts, s, r);
    GroupRefundIff(r, i, threshold);
    forall j: nat | j < 3
      ensures (Next(r, j, threshold).GroupValidated? && Agree(r, j, i, threshold)) <==>
                RefundedWith(ts, s[j], t, threshold)
    {
      GroupValidatedIff(r, j, threshold);
      FirstIsFastest(ts, s, r, j, threshold);
      MarkedAgree(s, r, j, i, threshold);
    }
    if u :| RefundedWith(ts, u, t, threshold) {
      assert u == s[0] || u == s[1] || u == s[2];
    }
  }

  lemma StuckRanked(ts: seq<Task>, s: seq<Task>, r: seq<Task>)
    requires Group(ts) && InOrder(ts, s) && Group(r) && Marked(s[0], r[0]) && Marked(s[1], r[1]) && Marked(s[2], r[2])
    ensures Stuck(ts) == Stuck(r)
  {
    hide Faster;
    assert ts[0] in ts && ts[1] in ts && ts[2] in ts;
  }

  predicate AtOdds(ts: seq<Task>, f: Task, t: Task, threshold: nat) {
    f in ts && f.key != t.key && FastestAgreeing(ts, f, threshold) && !Agrees(f, t, threshold)
  }

  /** The invalidated members are exactly those of a fully finished group at odds with its fastest agreeing member. */
  lemma InvalidatedAtOdds(ts: seq<Task>, ids: TaskId, t: Task, threshold: nat)
    requires Group(ts) && t in ts
    ensures t.key in Verdicts(ts, ids, threshold)
    ensures Verdicts(ts, ids, threshold)[t.key].EndInvalidated?
       <==> (forall u | u in ts :: !Aborted(u)) && exists f :: AtOdds(ts, f, t, threshold)
  {
    hide SortByTime, RankGroup, Decide, Verdicts, Next, FastestAgreeing, FirstAgreeing, Agrees, Agree, Faster;
    RankedInOrder(ts, ids);
    var s, r := SortByTime(ts), RankGroup(ts, ids);
    var i := MemberIndex(ts, ids, t);
    InvalidatedIff(r, i, threshold);
    forall j: nat | j < 3
      ensures (j != i && FirstAgreeing(r, j, threshold) && !Agree(r, j, i, threshold)) <==>
                AtOdds(ts, s[j], t, threshold)
    {
      FirstIsFastest(ts, s, r, j, threshold);
      MarkedAgree(s, r, j, i, threshold);
    }
    assert (forall u | u in ts :: !Aborted(u)) <==> forall j: nat | j < 3 :: !Aborted(r[j]);
    if f :| AtOdds(ts, f, t, threshold) {
      assert f == s[0] || f == s[1] || f == s[2];
    }
  }

  // ---------- The scores by rank ----------

  // u ran for a shorter time than t, or as long with a smaller id.
  predicate RanFaster(u: Task, t: Task) {
    && u.startTime.Some? && u.scoreTime.Some? && t.startTime.Some? && t.scoreTime.Some?
    && var x, y := u.scoreTime.value - u.startTime.value, t.scoreTime.value - t.startTime.value;
       x < y || (x == y && u.key < t.key)
  }

  function FinishedAhead(ts: seq<Task>, t: Task): set<Task> {
    set u | u in ts && u.status != EndAborted && RanFaster(u, t)
  }

  // 10 for the fastest finished member, then 5 and 2; nothing for an aborted one, or if all were aborted.
  function Reward(ts: seq<Task>, t: Task): Option<nat> {
    if forall u | u in ts :: u.status == EndAborted then None
    else if t.status == EndAborted then Some(0)
    else match |FinishedAhead(ts, t)|
      case 0 => Some(10)
      case 1 => Some(5)
      case _ => Some(2)
  }

  predicate Clocked(ts: seq<Task>) {
    forall t | t in ts && t.status != EndAborted :: t.startTime.Some? && t.scoreTime.Some?
  }

  lemma FasterIs(ts: seq<Task>, u: Task, t: Task)
    requires Clocked(ts) && u in ts && t in ts && !Aborted(u) && !Aborted(t)
    ensures Faster(u, t) <==> RanFaster(u, t)
  {}

  lemma AheadAre(ts: seq<Task>, s: seq<Task>, i: nat)
    requires Group(ts) && Clocked(ts) && InOrder(ts, s) && i < 3 && !Aborted(s[i])
    ensures i == 0 ==> FinishedAhead(ts, s[0]) == {}
    ensures i == 1 ==> FinishedAhead(ts, s[1]) == if Aborted(s[0]) then {} else {s[0]}
    ensures i == 2 ==>
              FinishedAhead(ts, s[2])
              == (if Aborted(s[0]) then {} else {s[0]}) + (if Aborted(s[1]) then {} else {s[1]})
  {
    hide Faster, RanFaster;
    forall u | u in ts && u.status != EndAborted ensures RanFaster(u, s[i]) <==> Faster(u, s[i]) {
      FasterIs(ts, u, s[i]);
    }
    FasterTotal(s[0], s[1]);
    FasterTotal(s[0], s[2]);
    FasterTotal(s[1], s[2]);
    NotFasterThanItself(s[i]);
  }

  lemma FinishedBefore(s: seq<Task>)
    requires |s| == 3
    ensures |Finished(s[..0])| == 0
    ensures |Finished(s[..1])| == if Aborted(s[0]) then 0 else 1
    ensures |Finished(s[..2])| == (if Aborted(s[0]) then 0 else 1) + (if Aborted(s[1]) then 0 else 1)
  {
    hide Finished;
    NobodyFinished(s);
    FinishedSnoc(s, 0);
    FinishedSnoc(s, 1);
  }

  lemma RewardIs(ts: seq<Task>, s: seq<Task>, i: nat)
    requires Group(ts) && Clocked(ts) && InOrder(ts, s) && i < 3
    ensures QosOf(s, i) == Reward(ts, s[i])
  {
    hide Faster, RanFaster, FinishedAhead, Finished;
    FinishedBefore(s);
    assert Finished(s) == [] <==> forall u | u in ts :: u.status == EndAborted by {
      SomeoneFinished(ts, s);
    }
    if !Aborted(s[i]) {
      AheadAre(ts, s, i);
    }
  }

  lemma SomeoneFinished(ts: seq<Task>, s: seq<Task>)
    requires InOrder(ts, s)
    ensures Finished(s) == [] <==> forall u | u in ts :: u.status == EndAborted
  {
    hide Faster;
    assert s[0] in s && s[1] in s && s[2] in s;
    if Finished(s) != [] {
      assert Finished(s)[0] in Finished(s);
    }
  }

  /** A loaded group's members are ranked with 10, 5 and 2 for the finished ones by execution time, and nothing for the
      aborted ones. */
  lemma RankedByTime(ts: seq<Task>, ids: TaskId, t: Task) returns (i: nat)
    requires Group(ts) && Clocked(ts) && t in ts
    ensures i < 3 && RankGroup(ts, ids)[i] == t.(taskId := Some(ids), qos := Reward(ts, t))
    ensures forall threshold :: t.key in Verdicts(ts, ids, threshold)
              && Verdicts(ts, ids, threshold)[t.key] == Next(RankGroup(ts, ids), i, threshold)
  {
    hide SortByTime, Decide, Faster, QosOf, Reward, Clocked, Group;
    GroupHasThree(ts);
    i := MemberIndex(ts, ids, t);
    SortedInOrder(ts);
    RewardIs(ts, SortByTime(ts), i);
  }

  // ---------- Other execution times ----------

  // The same group had its members started and finished at other times.
  predicate Retimed(ts: seq<Task>, us: seq<Task>) {
    |ts| == |us| == 3 && forall i | 0 <= i < 3 ::
        us[i] == ts[i].(startTime := us[i].startTime, scoreTime := us[i].scoreTime)
  }

  // Finished members have run from a start to a later report.
  predicate WellTimed(ts: seq<Task>) {
    forall t | t in ts && !Aborted(t) :: t.startTime.Some? && t.scoreTime.Some? && t.startTime.value < t.scoreTime.value
  }

  function Invalidated(ts: seq<Task>, ids: TaskId, threshold: nat): set<Key>
    requires |ts| == 3
  {
    set k | k in Verdicts(ts, ids, threshold) && Verdicts(ts, ids, threshold)[k].EndInvalidated?
  }

  // What the comparison of two members looks at.
  predicate Alike(t: Task, u: Task) {
    t.key == u.key && t.kind == u.kind && t.status == u.status && t.score == u.score
  }

  predicate HasLook(us: seq<Task>, t: Task) {
    exists u | u in us :: Alike(t, u)
  }

  predicate LooksWithin(ts: seq<Task>, us: seq<Task>) {
    forall t | t in ts :: HasLook(us, t)
  }

  // The same members, as far as comparison goes.
  predicate SameLooks(ts: seq<Task>, us: seq<Task>) {
    LooksWithin(ts, us) && LooksWithin(us, ts)
  }

  lemma LookIn(ts: seq<Task>, us: seq<Task>, t: Task) returns (u: Task)
    requires SameLooks(ts, us) && t in ts
    ensures u in us && Alike(t, u)
  {
    assert HasLook(us, t);
    u :| u in us && Alike(t, u);
  }

  lemma LooksCompare(t: Task, u: Task, t': Task, u': Task, threshold: nat)
    requires Alike(t, t') && Alike(u, u')
    ensures SameScore(t, u, threshold) == SameScore(t', u', threshold)
  {
    hide Close;
  }

  lemma OutvotedAlike(ts: seq<Task>, us: seq<Task>, t: Task, u: Task, threshold: nat)
    requires SameLooks(ts, us) && Alike(t, u) && Outvoted(ts, t, threshold)
    ensures Outvoted(us, u, threshold)
  {
    hide SameScore, LooksWithin;
    var x, y :| x in ts && y in ts && OutvotedBy(t, x, y, threshold);
    var x' := LookIn(ts, us, x);
    var y' := LookIn(ts, us, y);
    LooksCompare(t, x, u, x', threshold);
    LooksCompare(t, y, u, y', threshold);
    LooksCompare(x, y, x', y', threshold);
    assert OutvotedBy(u, x', y', threshold);
    forall v | v in us ensures !Aborted(v) {
      var v' := LookIn(us, ts, v);
    }
  }

  lemma TransitiveAlike(ts: seq<Task>, us: seq<Task>, threshold: nat)
    requires SameLooks(ts, us) && TransitiveScores(ts, threshold)
    ensures TransitiveScores(us, threshold)
  {
    hide SameScore, LooksWithin, Alike;
    forall t, u, v | t in us && u in us && v in us && SameScore(t, u, threshold) && SameScore(u, v, threshold)
      ensures SameScore(t, v, threshold)
    {
      var t' := LookIn(us, ts, t);
      var u' := LookIn(us, ts, u);
      var v' := LookIn(us, ts, v);
      LooksCompare(t, u, t', u', threshold);
      LooksCompare(u, v, u', v', threshold);
      LooksCompare(t, v, t', v', threshold);
    }
  }

  lemma RankedLooks(ts: seq<Task>, ids: TaskId)
    requires Group(ts)
    ensures SameLooks(ts, RankGroup(ts, ids))
  {
    hide SortByTime, RankGroup, Faster;
    RankedInOrder(ts, ids);
    var s, r := SortByTime(ts), RankGroup(ts, ids);
    assert r[0] in r && r[1] in r && r[2] in r;
    assert Alike(s[0], r[0]) && Alike(s[1], r[1]) && Alike(s[2], r[2]);
    assert Alike(r[0], s[0]) && Alike(r[1], s[1]) && Alike(r[2], s[2]);
    forall t | t in ts ensures HasLook(r, t) {}
    forall u | u in r ensures HasLook(ts, u) {
      assert u == r[0] || u == r[1] || u == r[2];
    }
  }

  lemma RetimedLooks(ts: seq<Task>, us: seq<Task>)
    requires Retimed(ts, us)
    ensures SameLooks(ts, us) && (Group(ts) ==> Group(us))
  {
    forall t | t in ts ensures HasLook(us, t) {
      var i :| 0 <= i < 3 && ts[i] == t;
      assert Alike(t, us[i]);
    }
    forall u | u in us ensures HasLook(ts, u) {
      var i :| 0 <= i < 3 && us[i] == u;
      assert Alike(u, ts[i]);
    }
  }

  // ---------- When times do not matter ----------

  lemma DecidedKeys(r: seq<Task>, threshold: nat, k: Key)
    requires Group(r) && k in Decide(r, threshold)
    ensures k == r[0].key || k == r[1].key || k == r[2].key
  {
    hide SameScore, Group;
    DefaultKeys(r, threshold);
    var t :| t in r && t.key == k;
    GroupOfThree(r, t);
  }

  lemma GroupOfThree(r: seq<Task>, t: Task)
    requires Group(r) && t in r
    ensures |r| == 3 && (t == r[0] || t == r[1] || t == r[2])
  {}

  lemma DefaultKeys(r: seq<Task>, threshold: nat)
    ensures Decide(r, threshold).Keys == Defaults(r).Keys
  {
    hide SameScore, Defaults;
    var f := Finished(r);
    assert forall i | 0 <= i < |f| :: f[i] in f && f[i] in r;
  }

  lemma RankedOutvoted(ts: seq<Task>, ids: TaskId, i: nat, threshold: nat)
    requires Group(ts) && TransitiveScores(ts, threshold) && i < 3
    ensures Next(RankGroup(ts, ids), i, threshold).EndInvalidated? <==> Outvoted(ts, SortByTime(ts)[i], threshold)
  {
    hide SortByTime, RankGroup, Decide, Next, Faster, SameScore, Outvoted, TransitiveScores, LooksWithin;
    RankedInOrder(ts, ids);
    RankedLooks(ts, ids);
    var s, r := SortByTime(ts), RankGroup(ts, ids);
    TransitiveAlike(ts, r, threshold);
    InvalidatedIffOutvoted(r, i, threshold);
    if Outvoted(r, r[i], threshold) {
      OutvotedAlike(r, ts, r[i], s[i], threshold);
    }
    if Outvoted(ts, s[i], threshold) {
      OutvotedAlike(ts, r, s[i], r[i], threshold);
    }
  }

  // A member outvoted by the two others.
  predicate OutvotedKey(ts: seq<Task>, k: Key, threshold: nat) {
    exists t | t in ts :: t.key == k && Outvoted(ts, t, threshold)
  }

  /** Where comparison is transitive, the invalidated members are those outvoted by both others, whatever the times. */
  lemma InvalidatedAreOutvoted(ts: seq<Task>, ids: TaskId, threshold: nat, k: Key)
    requires Group(ts) && TransitiveScores(ts, threshold)
    ensures k in Invalidated(ts, ids, threshold) <==> OutvotedKey(ts, k, threshold)
  {
    hide SortByTime, RankGroup, Decide, Faster, SameScore, Outvoted, TransitiveScores;
    RankedInOrder(ts, ids);
    var s, r := SortByTime(ts), RankGroup(ts, ids);
    RankedOutvoted(ts, ids, 0, threshold);
    RankedOutvoted(ts, ids, 1, threshold);
    RankedOutvoted(ts, ids, 2, threshold);
    assert r[0] in r && r[1] in r && r[2] in r;
    if k in Decide(r, threshold) {
      DecidedKeys(r, threshold, k);
    }
  }

  lemma TimesIrrelevant(ts: seq<Task>, us: seq<Task>, ids: TaskId, threshold: nat)
    requires Group(ts) && Group(us) && SameLooks(ts, us) && TransitiveScores(ts, threshold)
    ensures Invalidated(ts, ids, threshold) == Invalidated(us, ids, threshold)
  {
    hide Outvoted, TransitiveScores, LooksWithin, Invalidated, OutvotedKey;
    TransitiveAlike(ts, us, threshold);
    forall k ensures k in Invalidated(ts, ids, threshold) <==> k in Invalidated(us, ids, threshold) {
      InvalidatedAreOutvoted(ts, ids, threshold, k);
      InvalidatedAreOutvoted(us, ids, threshold, k);
      OutvotedKeyAlike(ts, us, k, threshold);
      OutvotedKeyAlike(us, ts, k, threshold);
    }
  }

  lemma OutvotedKeyAlike(ts: seq<Task>, us: seq<Task>, k: Key, threshold: nat)
    requires SameLooks(ts, us)
    ensures OutvotedKey(ts, k, threshold) ==> OutvotedKey(us, k, threshold)
  {
    hide Outvoted, LooksWithin;
    if t :| t in ts && t.key == k && Outvoted(ts, t, threshold) {
      var u := LookIn(ts, us, t);
      OutvotedAlike(ts, us, t, u, threshold);
    }
  }

  // ---------- When times do matter ----------

  // A group run so that the first and the second named members are the two fastest.
  function Timed(t: Task, first: Key, second: Key): Task {
    t.(startTime := Some(0), scoreTime := Some(if t.key == first then 1 else if t.key == second then 2 else 3))
  }

  function TimedBy(ts: seq<Task>, first: Key, second: Key): seq<Task>
    requires |ts| == 3
  {
    [Timed(ts[0], first, second), Timed(ts[1], first, second), Timed(ts[2], first, second)]
  }

  // Three members of a group, all of them.
  predicate Three(ts: seq<Task>, x: Task, y: Task, z: Task) {
    Group(ts) && x in ts && y in ts && z in ts && x.key != y.key && x.key != z.key && y.key != z.key
  }

  lemma NoOther(ts: seq<Task>, x: Task, y: Task, z: Task, t: Task)
    requires Three(ts, x, y, z) && t in ts
    ensures t == x || t == y || t == z
  {
    GroupOfThree(ts, x);
    GroupOfThree(ts, y);
    GroupOfThree(ts, z);
    GroupOfThree(ts, t);
  }

  lemma TimedIsRetimed(ts: seq<Task>, first: Key, second: Key)
    requires Group(ts)
    ensures Retimed(ts, TimedBy(ts, first, second)) && WellTimed(TimedBy(ts, first, second)) &&
              Group(TimedBy(ts, first, second))
  {
    hide LooksWithin, Group;
    GroupHasThree(ts);
    var us := TimedBy(ts, first, second);
    assert Retimed(ts, us);
    RetimedLooks(ts, us);
  }

  lemma GroupHasThree(ts: seq<Task>)
    requires Group(ts)
    ensures |ts| == 3
  {}

  lemma TimedOrder(ts: seq<Task>, x: Task, y: Task, z: Task)
    requires Three(ts, x, y, z)
    ensures var us := TimedBy(ts, x.key, y.key);
            SortByTime(us) == [Timed(x, x.key, y.key), Timed(y, x.key, y.key), Timed(z, x.key, y.key)]
  {
    hide SortByTime, Group, Retimed, WellTimed;
    GroupHasThree(ts);
    var us := TimedBy(ts, x.key, y.key);
    var s := [Timed(x, x.key, y.key), Timed(y, x.key, y.key), Timed(z, x.key, y.key)];
    TimedIsRetimed(ts, x.key, y.key);
    forall t | t in ts ensures Timed(t, x.key, y.key) in us {
      GroupOfThree(ts, t);
    }
    forall u | u in us ensures u == s[0] || u == s[1] || u == s[2] {
      NoOther(ts, x, y, z, ts[0]);
      NoOther(ts, x, y, z, ts[1]);
      NoOther(ts, x, y, z, ts[2]);
    }
    TimedInOrder(us, s, x, y, z);
    OrderUnique(us, s);
  }

  lemma TimedInOrder(us: seq<Task>, s: seq<Task>, x: Task, y: Task, z: Task)
    requires s == [Timed(x, x.key, y.key), Timed(y, x.key, y.key), Timed(z, x.key, y.key)]
    requires Group(us) && x.key != y.key && x.key != z.key && y.key != z.key
    requires s[0] in us && s[1] in us && s[2] in us && forall u | u in us :: u == s[0] || u == s[1] || u == s[2]
    ensures InOrder(us, s)
  {
    GroupOfThree(us, s[0]);
    GroupOfThree(us, s[1]);
    GroupOfThree(us, s[2]);
  }

  // Scores that are close along a chain but not end to end.
  predicate Chained(x: Task, y: Task, z: Task, threshold: nat) {
    && x.status.ScoreReady? && y.status.ScoreReady? && z.status.ScoreReady?
    && SameScore(x, y, threshold) && SameScore(y, z, threshold) && !SameScore(x, z, threshold)
  }

  lemma ChainDecided(r: seq<Task>, threshold: nat)
    requires Group(r) && r[0].status.ScoreReady? && r[1].status.ScoreReady? && r[2].status.ScoreReady?
    requires SameScore(r[0], r[1], threshold)
    ensures r[2].key in Decide(r, threshold)
    ensures Decide(r, threshold)[r[2].key].EndInvalidated? <==> !SameScore(r[0], r[2], threshold)
  {
    hide SameScore, Decide;
    DecideAllFinished(r, threshold);
  }

  // The slowest member against the fastest, the two fastest agreeing.
  lemma SlowestJudged(ts: seq<Task>, ids: TaskId, x: Task, y: Task, z: Task, threshold: nat)
    requires Three(ts, x, y, z) && x.status.ScoreReady? && y.status.ScoreReady? && z.status.ScoreReady?
    requires SameScore(x, y, threshold)
    ensures |TimedBy(ts, x.key, y.key)| == 3
    ensures z.key in Invalidated(TimedBy(ts, x.key, y.key), ids, threshold) <==> !SameScore(x, z, threshold)
  {
    hide SortByTime, RankGroup, Decide, SameScore;
    var us := TimedBy(ts, x.key, y.key);
    TimedIsRetimed(ts, x.key, y.key);
    TimedOrder(ts, x, y, z);
    RankedInOrder(us, ids);
    var r := RankGroup(us, ids);
    LooksCompare(x, y, r[0], r[1], threshold);
    LooksCompare(x, z, r[0], r[2], threshold);
    ChainDecided(r, threshold);
  }

  /** A chain of close scores: with its end fastest the other end is invalidated, with its middle fastest it is not. */
  lemma ChainDependsOnTimes(ts: seq<Task>, ids: TaskId, x: Task, y: Task, z: Task, threshold: nat)
    requires Three(ts, x, y, z) && Chained(x, y, z, threshold)
    ensures z.key in Invalidated(TimedBy(ts, x.key, y.key), ids, threshold)
    ensures z.key !in Invalidated(TimedBy(ts, y.key, x.key), ids, threshold)
  {
    hide SameScore, Invalidated;
    SameScoreSymmetric(x, y, threshold);
    SlowestJudged(ts, ids, x, y, z, threshold);
    SlowestJudged(ts, ids, y, x, z, threshold);
  }

  lemma CloseToItself(t: Task, u: Task, threshold: nat)
    requires SameScore(t, u, threshold)
    ensures SameScore(t, t, threshold)
  {
    if t.status.ScoreReady? && !t.kind.LLM? {
      forall i: nat | i < |t.score| / 8 ensures HammingDistance(Block(t.score, i), Block(t.score, i)) < threshold {
        DistanceToSelf(Block(t.score, i));
        assert HammingDistance(Block(t.score, i), Block(u.score, i)) < threshold;
      }
    }
  }

  lemma ChainExists(ts: seq<Task>, threshold: nat) returns (x: Task, y: Task, z: Task)
    requires Group(ts) && !TransitiveScores(ts, threshold)
    ensures Three(ts, x, y, z) && Chained(x, y, z, threshold)
  {
    hide Close;
    x, y, z :| x in ts && y in ts && z in ts
               && SameScore(x, y, threshold) && SameScore(y, z, threshold) && !SameScore(x, z, threshold);
    CloseToItself(x, y, threshold);
    GroupOfThree(ts, x);
    GroupOfThree(ts, y);
    GroupOfThree(ts, z);
  }

  /** Who is invalidated is the same for all execution times exactly when comparison is transitive in the group. */
  lemma TimesMatterIff(ts: seq<Task>, ids: TaskId, threshold: nat)
    requires Group(ts)
    ensures TransitiveScores(ts, threshold)
       <==> forall us, vs | Retimed(ts, us) && Retimed(ts, vs) && WellTimed(us) && WellTimed(vs) ::
              Invalidated(us, ids, threshold) == Invalidated(vs, ids, threshold)
    ensures TransitiveScores(ts, threshold) ==>
              forall us | Retimed(ts, us) :: Invalidated(us, ids, threshold) == Invalidated(ts, ids, threshold)
  {
    hide WellTimed, TransitiveScores, Invalidated, TimedBy, Chained, Three, SameLooks;
    if TransitiveScores(ts, threshold) {
      forall us | Retimed(ts, us) ensures Invalidated(us, ids, threshold) == Invalidated(ts, ids, threshold) {
        RetimedLooks(ts, us);
        TimesIrrelevant(ts, us, ids, threshold);
      }
    } else {
      var x, y, z := ChainExists(ts, threshold);
      ChainDependsOnTimes(ts, ids, x, y, z, threshold);
      TimedIsRetimed(ts, x.key, y.key);
      TimedIsRetimed(ts, y.key, x.key);
    }
  }

  /** So for language model tasks times never decide who is invalidated. */
  lemma LanguageModelsIgnoreTimes(ts: seq<Task>, us: seq<Task>, ids: TaskId, threshold: nat)
    requires Group(ts) && Retimed(ts, us) && forall t | t in ts :: t.kind.LLM?
    ensures Invalidated(us, ids, threshold) == Invalidated(ts, ids, threshold)
  {
    LanguageModelsTransitive(ts, threshold);
    TimesMatterIff(ts, ids, threshold);
  }

  // ---------- An image group ----------

  const ZEROS: seq<Byte> := [0, 0, 0, 0, 0, 0, 0]

  // A scored image task on a node of its own, whose hash is zero but for its last byte.
  function Image(key: Key, node: Addr, last: Byte, seconds: int): Task {
    Task(key, "creator", 0, SD, Some(0), 0, 60, ScoreReady, Some(node), None, NoReason, ZEROS + [last],
         None, [], Some(0), Some(seconds), None, None)
  }

  lemma ImagesCompare(t: Task, x: Byte, u: Task, y: Byte, threshold: nat)
    requires t == Image(t.key, NodeOf(t), x, ExecutionTime(t)) && u == Image(u.key, NodeOf(u), y, ExecutionTime(u))
    ensures SameScore(t, u, threshold) <==> BitDifference(x, y, 8) < threshold
  {
    var a, b := ZEROS + [x], ZEROS + [y];
    assert Block(a, 0) == a && Block(b, 0) == b;
    assert a[..7] == ZEROS == b[..7];
    DistanceToSelf(ZEROS);
  }

  lemma BitsOfExample()
    ensures BitDifference(0, 1, 8) == 1
    ensures BitDifference(0, 3, 8) == 2 && BitDifference(1, 3, 8) == 1
  {
    BitDifferenceToSelf(0, 7);
    BitDifferenceToSelf(0, 6);
    assert BitDifference(0, 1, 7) == 1 by { BitDifferenceToSelf(0, 6); }
  }

  /** Three images with hashes ending in 0, 1 and 3 under threshold 2: the third is invalidated if the first was
      fastest, and nobody is if the second was. */
  lemma ImageVerdictDependsOnTimes()
    ensures var us := [Image(0, "a", 0, 1), Image(1, "b", 1, 2), Image(2, "c", 3, 3)];
            var vs := [Image(0, "a", 0, 2), Image(1, "b", 1, 1), Image(2, "c", 3, 3)];
            && Retimed(us, vs) && WellTimed(us) && WellTimed(vs)
            && 2 in Invalidated(us, [0, 1, 2], 2) && 2 !in Invalidated(vs, [0, 1, 2], 2)
  {
    hide Invalidated, Close, BitDifference;
    var us := [Image(0, "a", 0, 1), Image(1, "b", 1, 2), Image(2, "c", 3, 3)];
    ImagesCompare(us[0], 0, us[1], 1, 2);
    ImagesCompare(us[1], 1, us[2], 3, 2);
    ImagesCompare(us[0], 0, us[2], 3, 2);
    BitsOfExample();
    assert us[0] in us && us[1] in us && us[2] in us;
    ChainDependsOnTimes(us, [0, 1, 2], us[0], us[1], us[2], 2);
    assert TimedBy(us, 0, 1) == us;
    assert TimedBy(us, 1, 0) == [Image(0, "a", 0, 2), Image(1, "b", 1, 1), Image(2, "c", 3, 3)];
  }

  lemma {:induction false} DistanceToSelf(a: seq<Byte>)
    ensures HammingDistance(a, a) == 0
  {
    if a != [] {
      DistanceToSelf(a[..|a| - 1]);
      BitDifferenceToSelf(a[|a| - 1], 8);
    }
  }

  lemma BitDifferenceToSelf(x: nat, n: nat)
    ensures BitDifference(x, x, n) == 0
  {}
}

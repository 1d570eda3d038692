/** Applying the verdict of a validation group inside one transaction. */
module Verdicts {
  import opened Basics
  import opened Model
  import opened Lifecycle
  import opened Invariant
  import opened Moves
  import opened Rows
  import opened Transactions
  import Validation

  // ---------- The loaded group ----------

  // The loaded rows carry no task id yet: otherwise the whole group would.
  lemma LoadedRows(cfg: Config, w: World, ids: TaskId)
    requires Inv(cfg, w) && LoadGroup(w, ids).Ok?
    ensures GroupIds(ids) && (forall k | k in ids :: k in w.tasks)
    ensures LoadGroup(w, ids).value == [w.tasks[ids[0]], w.tasks[ids[1]], w.tasks[ids[2]]]
    ensures forall k | k in ids :: w.tasks[k].key == k && w.tasks[k].taskId.None?
    ensures forall k | k in ids ::
              w.tasks[k].status.ScoreReady? || w.tasks[k].status.ErrorReported? || w.tasks[k].status.EndAborted?
  {
    hide Inv;
    LoadedStatuses(w, ids);
    forall k | k in ids ensures w.tasks[k].key == k && w.tasks[k].taskId.None? {
      LoadedUnrevealed(cfg, w, ids, k);
    }
  }

  lemma LoadedStatuses(w: World, ids: TaskId)
    requires LoadGroup(w, ids).Ok?
    ensures GroupIds(ids) && (forall k | k in ids :: k in w.tasks)
    ensures LoadGroup(w, ids).value == [w.tasks[ids[0]], w.tasks[ids[1]], w.tasks[ids[2]]]
    ensures forall k | k in ids ::
              w.tasks[k].status.ScoreReady? || w.tasks[k].status.ErrorReported? || w.tasks[k].status.EndAborted?
    ensures forall k | k in ids :: w.tasks[k].taskId.Some? ==> w.tasks[k].taskId == Some(ids)
    ensures exists k | k in ids :: w.tasks[k].taskId != Some(ids)
  {
    assert ids[0] in ids && ids[1] in ids && ids[2] in ids;
    var ts := [w.tasks[ids[0]], w.tasks[ids[1]], w.tasks[ids[2]]];
    forall k | k in ids ensures w.tasks[k] in ts {}
  }

  lemma LoadedUnrevealed(cfg: Config, w: World, ids: TaskId, k: Key)
    requires Inv(cfg, w) && LoadGroup(w, ids).Ok? && k in ids && k in w.tasks
    ensures w.tasks[k].key == k && w.tasks[k].taskId.None?
  {
    hide Settled, EventsOk, RowsOk, NodeLink, LoadGroup;
    KeysMatch(w);
    LoadedStatuses(w, ids);
    assert !GroupOk(w.tasks, ids);
  }

  // A ranked member: its row with the revealed id and its score.
  predicate Ranked(tasks: map<Key, Task>, ids: TaskId, t: Task) {
    && t.key in ids && t.key in tasks && CopyOf(t, tasks[t.key]) && t.taskId == Some(ids)
    && (t.status.ScoreReady? || t.status.ErrorReported? || t.status.EndAborted?)
    && (!t.status.EndAborted? ==> t.qos.Some? && t.qos.value > 0)
  }

  lemma RankedGroup(tasks: map<Key, Task>, ids: TaskId)
    requires GroupIds(ids) && (forall k | k in ids :: k in tasks && tasks[k].key == k)
    requires forall k | k in ids ::
               tasks[k].status.ScoreReady? || tasks[k].status.ErrorReported? || tasks[k].status.EndAborted?
    ensures var r := RankGroup([tasks[ids[0]], tasks[ids[1]], tasks[ids[2]]], ids);
            && Validation.Group(r)
            && Ranked(tasks, ids, r[0]) && Ranked(tasks, ids, r[1]) && Ranked(tasks, ids, r[2])
            && (forall k | k in ids :: k == r[0].key || k == r[1].key || k == r[2].key)
  {
    hide Validation.SortByTime, Validation.QosOf, Ranked, RankGroup, Validation.Group, Member;
    var ts := [tasks[ids[0]], tasks[ids[1]], tasks[ids[2]]];
    LoadedMembers(tasks, ids);
    Validation.SortedMembers(ts);
    RankedAre(ts, ids);
    var s := Validation.SortByTime(ts);
    RankedMember(tasks, ids, s, 0);
    RankedMember(tasks, ids, s, 1);
    RankedMember(tasks, ids, s, 2);
    RankedIsGroup(tasks, ids, s, RankGroup(ts, ids));
    AllRanked(tasks, ids, s);
  }

  predicate Member(tasks: map<Key, Task>, ids: TaskId, t: Task) {
    && t.key in ids && t.key in tasks && t == tasks[t.key]
    && (t.status.ScoreReady? || t.status.ErrorReported? || t.status.EndAborted?)
  }

  lemma LoadedMembers(tasks: map<Key, Task>, ids: TaskId)
    requires GroupIds(ids) && (forall k | k in ids :: k in tasks && tasks[k].key == k)
    requires forall k | k in ids ::
               tasks[k].status.ScoreReady? || tasks[k].status.ErrorReported? || tasks[k].status.EndAborted?
    ensures var ts := [tasks[ids[0]], tasks[ids[1]], tasks[ids[2]]];
            && (forall t | t in ts :: Member(tasks, ids, t))
            && ts[0].key != ts[1].key && ts[0].key != ts[2].key && ts[1].key != ts[2].key
  {
    assert ids[0] in ids && ids[1] in ids && ids[2] in ids;
  }

  lemma AllRanked(tasks: map<Key, Task>, ids: TaskId, s: seq<Task>)
    requires GroupIds(ids) && (forall k | k in ids :: k in tasks && tasks[k].key == k) && |s| == 3
    requires forall t | t in [tasks[ids[0]], tasks[ids[1]], tasks[ids[2]]] :: t == s[0] || t == s[1] || t == s[2]
    ensures forall k | k in ids :: k == s[0].key || k == s[1].key || k == s[2].key
  {
    var ts := [tasks[ids[0]], tasks[ids[1]], tasks[ids[2]]];
    assert ts[0] in ts && ts[1] in ts && ts[2] in ts;
    forall k | k in ids ensures k == s[0].key || k == s[1].key || k == s[2].key {
      assert tasks[k] in ts;
    }
  }

  lemma RankedAre(ts: seq<Task>, ids: TaskId)
    requires |ts| == 3
    ensures var s, r := Validation.SortByTime(ts), RankGroup(ts, ids);
            |s| == 3 && forall i: nat | i < 3 :: r[i] == s[i].(taskId := Some(ids), qos := Validation.QosOf(s, i))
  {
    hide Validation.SortByTime, Validation.QosOf;
  }

  lemma RankedIsGroup(tasks: map<Key, Task>, ids: TaskId, s: seq<Task>, r: seq<Task>)
    requires |s| == |r| == 3 && s[0].key != s[1].key && s[0].key != s[2].key && s[1].key != s[2].key
    requires Member(tasks, ids, s[0]) && Member(tasks, ids, s[1]) && Member(tasks, ids, s[2])
    requires forall i: nat | i < 3 :: r[i] == s[i].(taskId := r[i].taskId, qos := r[i].qos)
    ensures Validation.Group(r)
  {
    assert r[0].key == s[0].key && r[1].key == s[1].key && r[2].key == s[2].key;
  }

  lemma RankedMember(tasks: map<Key, Task>, ids: TaskId, s: seq<Task>, i: nat)
    requires |s| == 3 && i < 3 && Member(tasks, ids, s[i])
    ensures Ranked(tasks, ids, s[i].(taskId := Some(ids), qos := Validation.QosOf(s, i)))
  {
    hide Validation.QosOf;
    if !s[i].status.EndAborted? {
      Validation.FinishedScorePositive(s, i);
    }
  }

  // ---------- One member ----------

  predicate Verdict(next: TaskStatus) {
    next.EndInvalidated? || next.GroupValidated? || next.EndGroupRefund? || next.EndAborted?
  }

  // An already aborted member only receives its id and score.
  lemma RecordAborted(cfg: Config, w: World, t: Task)
    requires Core(cfg, w) && t.key in w.tasks && CopyOf(t, w.tasks[t.key]) && t.status.EndAborted? && GroupMember(t)
    ensures var w' := SetTask(w, w.tasks[t.key].(qos := t.qos, taskId := t.taskId));
            Core(cfg, w') && OneRow(w, w', t.key)
  {
    hide RowOk, Settled, EventsOk, OneRow, NodeLink;
    var row := w.tasks[t.key];
    var u := row.(qos := t.qos, taskId := t.taskId);
    var w' := SetTask(w, u);
    assert TaskLink(w.nodes, t.key, row);
    RecordedRow(cfg, row, t);
    LinkedKeep(w, w', u);
    QuietSettles(t.key, t.fee);
    SameDue(w.tasks, row, u);
    assert w'.log == w.log + [];
    CoreMove(cfg, w, w', u, []);
  }

  lemma RecordedRow(cfg: Config, row: Task, t: Task)
    requires RowOk(cfg, row) && row.status.EndAborted? && CopyOf(t, row) && GroupMember(t)
    ensures Replaces(cfg, row, row.(qos := t.qos, taskId := t.taskId))
  {}

  lemma SameDue(tasks: map<Key, Task>, t: Task, u: Task)
    requires t.status.EndAborted? && u.status.EndAborted? && t.reason == u.reason
    ensures RefundsDue(t) == RefundsDue(u) && IncomeDue(tasks, t) == IncomeDue(tasks, u)
  {}

  /** A verdict its guard accepts always commits, and moves the member to the decided status. */
  lemma ApplyVerdictKeeps(cfg: Config, w: World, t: Task, next: TaskStatus, few: bool,
                          now: int, passive: bool, splits: Splits, kicked: set<Key>)
    requires Core(cfg, w) && t.taskId.Some? && GroupIds(t.taskId.value) && Ranked(w.tasks, t.taskId.value, t)
    requires Verdict(next) && Validation.Accepts(t.status, next) && (t.status.EndAborted? ==> next.EndAborted?)
    requires NoWinner(w.tasks, t.taskId.value)
    ensures var r := ApplyVerdict(cfg, w, t, next, few, now, passive, splits, kicked);
            && r.Ok? && Core(cfg, r.value) && OneRow(w, r.value, t.key)
            && r.value.tasks[t.key].status == next && r.value.tasks[t.key].taskId == t.taskId
  {
    hide Core, OneRow, NoWinner, Invalidate, Accept, Refund, Abort;
    if next.EndInvalidated? {
      InvalidateKeeps(cfg, w, t, now, passive, t.key in kicked);
    } else if next.GroupValidated? {
      AcceptKeeps(cfg, w, t, GroupValidated, now);
    } else if next.EndGroupRefund? {
      RefundKeeps(cfg, w, t, now, t.key in kicked);
    } else if t.status.EndAborted? {
      RecordAborted(cfg, w, t);
    } else {
      AbortRunningKeeps(cfg, w, t.(reason := if few then GroupTimeout else IncorrectResult, validatedTime := Some(now)),
                        splits, t.key in kicked);
    }
  }

  // ---------- All three ----------

  // Rows of the ranked members not yet reached are still as loaded.
  lemma RankedStays(w: World, w': World, ids: TaskId, t: Task, k: Key)
    requires Ranked(w.tasks, ids, t) && OneRow(w, w', k) && t.key != k
    ensures Ranked(w'.tasks, ids, t)
  {}

  lemma NoWinnerStays(w: World, w': World, ids: TaskId, k: Key)
    requires NoWinner(w.tasks, ids) && OneRow(w, w', k) && (k in w'.tasks ==> !w'.tasks[k].status.EndGroupSuccess?)
    ensures NoWinner(w'.tasks, ids)
  {}

  lemma DecidedVerdicts(ts: seq<Task>, i: nat, threshold: nat)
    requires Validation.Group(ts) && i < 3
    ensures Verdict(Validation.Next(ts, i, threshold))
    ensures ts[i].status.EndAborted? ==> Validation.Next(ts, i, threshold).EndAborted?
  {
    hide Validation.Decide, Validation.Next, Validation.SameScore;
    Validation.DecideCases(ts, threshold);
    if forall k | 0 <= k < 3 :: !Validation.Aborted(ts[k]) {
      Validation.DecideAllFinished(ts, threshold);
    }
  }

  lemma ApplyVerdictsOfThree(cfg: Config, w: World, ts: seq<Task>, next: map<Key, TaskStatus>, few: bool,
                             now: int, passive: bool, splits: Splits, kicked: set<Key>)
    requires |ts| == 3 && (forall t | t in ts :: t.key in next)
    ensures ts[0] in ts && ts[1] in ts && ts[2] in ts
    ensures var r1 := ApplyVerdict(cfg, w, ts[0], next[ts[0].key], few, now, passive, splits, kicked);
            ApplyVerdicts(cfg, w, ts, next, few, now, passive, splits, kicked) ==
            if r1.Err? then r1 else
              var r2 := ApplyVerdict(cfg, r1.value, ts[1], next[ts[1].key], few, now, passive, splits, kicked);
              if r2.Err? then r2 else
                ApplyVerdict(cfg, r2.value, ts[2], next[ts[2].key], few, now, passive, splits, kicked)
  {
    hide ApplyVerdict;
    var front := ts[..2];
    assert front[..1][..0] == [];
    assert ApplyVerdicts(cfg, w, front[..1], next, few, now, passive, splits, kicked)
        == ApplyVerdict(cfg, w, ts[0], next[ts[0].key], few, now, passive, splits, kicked);
  }

  // Only rows of the group changed, and all of them reached the decided status.
  ghost predicate Applied(w: World, w': World, ids: TaskId, ts: seq<Task>, threshold: nat)
    requires |ts| == 3
  {
    && Forward(w, w')
    && w'.tasks.Keys == w.tasks.Keys
    && (forall k | k in w.tasks && k !in ids :: w'.tasks[k] == w.tasks[k])
    && forall i: nat | i < 3 ::
         ts[i].key in w'.tasks && Reached(w'.tasks[ts[i].key], ids, Validation.Next(ts, i, threshold))
  }

  predicate Reached(u: Task, ids: TaskId, next: TaskStatus) {
    u.status == next && u.taskId == Some(ids)
  }

  // Rows only moved forward, the log only grew by task credits, vesting amounts stayed.
  ghost predicate Forward(w: World, w': World) {
    Evolves(w.tasks, w'.tasks) && Credited(w.log, w'.log) && VestingsKept(w.vestings, w'.vestings)
  }

  lemma ForwardTransitive(a: World, b: World, c: World)
    requires Forward(a, b) && Forward(b, c)
    ensures Forward(a, c)
  {
    EvolvesTransitive(a.tasks, b.tasks, c.tasks);
    CreditedTransitive(a.log, b.log, c.log);
  }

  lemma CreditedTransitive(a: seq<Event>, b: seq<Event>, c: seq<Event>)
    requires Credited(a, b) && Credited(b, c)
    ensures Credited(a, c)
  {
    assert c[..|a|] == c[..|b|][..|a|];
    forall i | |a| <= i < |c| ensures TaskCredit(c[i]) {
      if i < |b| {
        assert c[i] == c[..|b|][i] == b[i];
      }
    }
  }

  lemma OneRowForward(w: World, w': World, k: Key)
    requires OneRow(w, w', k)
    ensures Forward(w, w')
  {}

  // Three single-row moves over the three members.
  lemma ThreeMoves(w: World, w1: World, w2: World, w3: World, ids: TaskId, ts: seq<Task>, threshold: nat)
    requires Validation.Group(ts) && ts[0].key in ids && ts[1].key in ids && ts[2].key in ids
    requires ts[0].key in w.tasks && ts[1].key in w.tasks && ts[2].key in w.tasks
    requires OneRow(w, w1, ts[0].key) && Reached(w1.tasks[ts[0].key], ids, Validation.Next(ts, 0, threshold))
    requires OneRow(w1, w2, ts[1].key) && Reached(w2.tasks[ts[1].key], ids, Validation.Next(ts, 1, threshold))
    requires OneRow(w2, w3, ts[2].key) && Reached(w3.tasks[ts[2].key], ids, Validation.Next(ts, 2, threshold))
    ensures Applied(w, w3, ids, ts, threshold)
  {
    hide Validation.Next, Evolves, Credited, VestingsKept;
    OneRowForward(w, w1, ts[0].key);
    OneRowForward(w1, w2, ts[1].key);
    OneRowForward(w2, w3, ts[2].key);
    ForwardTransitive(w, w1, w2);
    ForwardTransitive(w, w2, w3);
  }

  lemma ApplyGroupKeeps(cfg: Config, w: World, ids: TaskId, ts: seq<Task>, few: bool,
                        now: int, passive: bool, splits: Splits, kicked: set<Key>)
    requires Core(cfg, w) && GroupIds(ids) && NoWinner(w.tasks, ids)
    requires Validation.Group(ts) && !Validation.Stuck(ts)
    requires Ranked(w.tasks, ids, ts[0]) && Ranked(w.tasks, ids, ts[1]) && Ranked(w.tasks, ids, ts[2])
    ensures var r := ApplyVerdicts(cfg, w, ts, Validation.Decide(ts, cfg.distanceThreshold), few, now, passive, splits,
              kicked);
            r.Ok? && Core(cfg, r.value) && Applied(w, r.value, ids, ts, cfg.distanceThreshold)
  {
    hide Core, OneRow, NoWinner, ApplyVerdict, ApplyVerdicts, Ranked, Applied, Validation.Decide, Validation.Accepts,
         Verdict;
    var d := cfg.distanceThreshold;
    var next := Validation.Decide(ts, d);
    Validation.GuardsAcceptIff(ts, d);
    DecidedVerdicts(ts, 0, d);
    DecidedVerdicts(ts, 1, d);
    DecidedVerdicts(ts, 2, d);
    ApplyVerdictsOfThree(cfg, w, ts, next, few, now, passive, splits, kicked);
    RankedId(w.tasks, ids, ts);
    ApplyVerdictKeeps(cfg, w, ts[0], next[ts[0].key], few, now, passive, splits, kicked);
    var w1 := ApplyVerdict(cfg, w, ts[0], next[ts[0].key], few, now, passive, splits, kicked).value;
    RankedStays(w, w1, ids, ts[1], ts[0].key);
    RankedStays(w, w1, ids, ts[2], ts[0].key);
    VerdictIsNoSuccess(ts, 0, d);
    NoWinnerStays(w, w1, ids, ts[0].key);
    ApplyVerdictKeeps(cfg, w1, ts[1], next[ts[1].key], few, now, passive, splits, kicked);
    var w2 := ApplyVerdict(cfg, w1, ts[1], next[ts[1].key], few, now, passive, splits, kicked).value;
    RankedStays(w1, w2, ids, ts[2], ts[1].key);
    VerdictIsNoSuccess(ts, 1, d);
    NoWinnerStays(w1, w2, ids, ts[1].key);
    ApplyVerdictKeeps(cfg, w2, ts[2], next[ts[2].key], few, now, passive, splits, kicked);
    var w3 := ApplyVerdict(cfg, w2, ts[2], next[ts[2].key], few, now, passive, splits, kicked).value;
    ThreeMoves(w, w1, w2, w3, ids, ts, d);
  }

  lemma RankedId(tasks: map<Key, Task>, ids: TaskId, ts: seq<Task>)
    requires |ts| == 3 && Ranked(tasks, ids, ts[0]) && Ranked(tasks, ids, ts[1]) && Ranked(tasks, ids, ts[2])
    ensures forall i | 0 <= i < 3 :: ts[i].taskId == Some(ids) && ts[i].key in ids && ts[i].key in tasks
  {}

  lemma VerdictIsNoSuccess(ts: seq<Task>, i: nat, threshold: nat)
    requires i < |ts| && Verdict(Validation.Next(ts, i, threshold))
    ensures !Validation.Next(ts, i, threshold).EndGroupSuccess?
  {}

  // ---------- The group transaction ----------

  lemma NewGroupOk(tasks': map<Key, Task>, ids: TaskId, ts: seq<Task>, threshold: nat)
    requires Validation.Group(ts) && !Validation.Stuck(ts)
    requires forall i: nat | i < 3 ::
               ts[i].key in tasks' && Reached(tasks'[ts[i].key], ids, Validation.Next(ts, i, threshold))
    requires forall k | k in ids :: k == ts[0].key || k == ts[1].key || k == ts[2].key
    ensures GroupOk(tasks', ids)
  {
    hide Validation.Next, Validation.Stuck;
    DecidedVerdicts(ts, 0, threshold);
    DecidedVerdicts(ts, 1, threshold);
    DecidedVerdicts(ts, 2, threshold);
    Validation.DecisionUnique(ts, 0, 1, threshold);
    Validation.DecisionUnique(ts, 0, 2, threshold);
    Validation.DecisionUnique(ts, 1, 2, threshold);
  }

  lemma OldGroupsOk(tasks: map<Key, Task>, tasks': map<Key, Task>, ids: TaskId)
    requires GroupsOk(tasks) && (forall k | k in tasks :: tasks[k].key == k) && tasks'.Keys == tasks.Keys
    requires forall k | k in ids :: k in tasks && tasks[k].taskId.None?
    requires forall k | k in tasks && k !in ids :: tasks'[k] == tasks[k]
    requires GroupOk(tasks', ids) && forall k | k in ids :: k in tasks' && tasks'[k].taskId == Some(ids)
    ensures GroupsOk(tasks')
  {
    forall k | k in tasks' && GroupMember(tasks'[k]) ensures GroupOk(tasks', tasks'[k].taskId.value) {
      if k !in ids {
        var other := tasks[k].taskId.value;
        assert GroupOk(tasks, other);
        assert forall m | m in other :: m !in ids;
      }
    }
  }

  // The members of a loadable group as its decision sees them.
  predicate Loaded(w: World, ids: TaskId, ts: seq<Task>) {
    && LoadGroup(w, ids).Ok? && |LoadGroup(w, ids).value| == 3
    && ts == RankGroup(LoadGroup(w, ids).value, ids)
  }

  lemma LoadedGroup(w: World, ids: TaskId) returns (ts: seq<Task>)
    requires LoadGroup(w, ids).Ok?
    ensures Loaded(w, ids, ts)
  {
    hide RankGroup;
    ts := RankGroup(LoadGroup(w, ids).value, ids);
  }

  /** From rows in order, a loadable group is applied exactly when it is not stuck, and then completely. */
  lemma ValidateGroupIff(cfg: Config, w: World, ids: TaskId, ts: seq<Task>,
                         now: int, passive: bool, splits: Splits, kicked: set<Key>)
    requires Inv(cfg, w) && Loaded(w, ids, ts) && |ts| == 3
    ensures var r := ValidateGroup(cfg, w, ids, now, passive, splits, kicked);
            && (r.Ok? <==> !Validation.Stuck(ts))
            && (r.Ok? ==> Inv(cfg, r.value) && Applied(w, r.value, ids, ts, cfg.distanceThreshold))
  {
    hide Core, RankGroup, Validation.Decide, Applied, ApplyVerdicts, LoadGroup, Ranked;
    LoadedRows(cfg, w, ids);
    assert ids[0] in ids && ids[1] in ids && ids[2] in ids;
    RankedGroup(w.tasks, ids);
    if Validation.Stuck(ts) {
      StuckFails(cfg, w, ts, |Validation.Finished(ts)| < 2, now, passive, splits, kicked);
    } else {
      ApplyGroupKeeps(cfg, w, ids, ts, |Validation.Finished(ts)| < 2, now, passive, splits, kicked);
      var w' := ValidateGroup(cfg, w, ids, now, passive, splits, kicked).value;
      RankedId(w.tasks, ids, ts);
      AppliedGroups(cfg, w, w', ids, ts);
    }
  }

  lemma AppliedGroups(cfg: Config, w: World, w': World, ids: TaskId, ts: seq<Task>)
    requires Inv(cfg, w) && Validation.Group(ts) && !Validation.Stuck(ts) &&
               Applied(w, w', ids, ts, cfg.distanceThreshold)
    requires forall k | k in ids :: k in w.tasks && w.tasks[k].taskId.None?
    requires forall k | k in ids :: k == ts[0].key || k == ts[1].key || k == ts[2].key
    ensures GroupsOk(w'.tasks)
  {
    hide RowsOk, Settled, EventsOk, NodeLink, Forward, Validation.Next, Validation.Stuck, GroupOk;
    KeysMatch(w);
    NewGroupOk(w'.tasks, ids, ts, cfg.distanceThreshold);
    OldGroupsOk(w.tasks, w'.tasks, ids);
  }

  lemma StuckFails(cfg: Config, w: World, ts: seq<Task>, few: bool, now: int, passive: bool, splits: Splits,
                   kicked: set<Key>)
    requires Validation.Group(ts) && Validation.Stuck(ts)
    ensures ApplyVerdicts(cfg, w, ts, Validation.Decide(ts, cfg.distanceThreshold), few, now, passive, splits,
              kicked).Err?
  {
    hide Validation.Decide, Invalidate, Accept, Abort;
    var next := Validation.Decide(ts, cfg.distanceThreshold);
    ApplyVerdictsOfThree(cfg, w, ts, next, few, now, passive, splits, kicked);
    Validation.DecideAllFinished(ts, cfg.distanceThreshold);
    assert next[ts[2].key].EndGroupRefund?;
  }
}

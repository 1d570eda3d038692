/** What deciding a group of three does to rows in order, column by column. */
module GroupEffects {
  import opened Basics
  import opened Model
  import opened Lifecycle
  import opened Invariant
  import opened Moves
  import opened Transactions
  import opened Verdicts
  import opened Effects
  import opened Timing
  import Validation

  // ---------- One member ----------

  // A member's row t after its verdict, with its score by rank; a member aborted before keeps its abort.
  function Judged(cfg: Config, t: Task, ids: TaskId, reward: Option<nat>, next: TaskStatus, few: bool, now: int): Task {
    match next
    case GroupValidated =>
      t.(status := GroupValidated, taskId := Some(ids), qos := reward, validatedTime := Some(now),
         deadlineAt := if t.kind == SDFTLora then t.deadlineAt else Some(now + cfg.resultUploadTimeout))
    case EndGroupRefund =>
      t.(status := EndGroupRefund, taskId := Some(ids), qos := reward, validatedTime := Some(now), deadlineAt := None)
    case EndInvalidated =>
      t.(status := EndInvalidated, taskId := Some(ids), qos := Some(0), validatedTime := Some(now), deadlineAt := None)
    case _ =>
      if t.status == EndAborted then t.(taskId := Some(ids), qos := reward)
      else t.(status := EndAborted, taskId := Some(ids), qos := reward, validatedTime := Some(now), deadlineAt := None,
              reason := if few then GroupTimeout else IncorrectResult)
  }

  // Its node: the representative's keeps its task, an invalidated member's quits unless it failed passively.
  function JudgedNode(n: Node, t: Task, next: TaskStatus, passive: bool, kickout: bool): Node {
    if next == GroupValidated || t.status == EndAborted then n
    else if next == EndInvalidated && !passive then Node(Quit, None)
    else Freed(n, kickout)
  }

  function JudgedEvents(t: Task, next: TaskStatus): seq<Event> {
    if next == EndGroupRefund || (next == EndAborted && t.status != EndAborted)
    then [Event(TaskRefund(t.key), t.creator, t.fee)] else []
  }

  // The rows before and after the verdict on the member t.
  ghost predicate JudgedOne(cfg: Config, w: World, w': World, t: Task, ids: TaskId, reward: Option<nat>,
                            next: TaskStatus, few: bool, now: int, passive: bool, kickout: bool) {
    && w'.tasks == w.tasks[t.key := Judged(cfg, t, ids, reward, next, few, now)]
    && w'.log == w.log + JudgedEvents(t, next)
    && (if t.status == EndAborted then w'.nodes == w.nodes
        else
          && t.selected.Some? && t.selected.value in w.nodes
          && w'.nodes == w.nodes[t.selected.value :=
                                   JudgedNode(w.nodes[t.selected.value], t, next, passive, kickout)])
    && (if next == EndInvalidated && !passive then t.selected.Some? && Frozen(w.vestings, w'.vestings, t.selected.value)
        else w'.vestings == w.vestings)
  }

  // A ranked member: its row with the revealed id and its score.
  predicate RankedAs(w: World, ids: TaskId, u: Task, t: Task) {
    && t.key in w.tasks && t == w.tasks[t.key] && u == t.(taskId := Some(ids), qos := u.qos)
    && (t.status == ScoreReady || t.status == ErrorReported || t.status == EndAborted)
  }

  lemma MemberHeld(cfg: Config, w: World, t: Task)
    requires Core(cfg, w) && t.key in w.tasks && t == w.tasks[t.key] && Running(t.status)
    ensures RowOk(cfg, t) && t.selected.Some? && t.selected.value in w.nodes
    ensures w.nodes[t.selected.value].current == Some(t.key) && Holding(w.nodes[t.selected.value].status)
  {
    hide Settled, EventsOk;
    assert TaskLink(w.nodes, t.key, t);
    assert NodeLink(w.tasks, t.selected.value, w.nodes[t.selected.value]);
  }

  lemma AcceptJudged(cfg: Config, w: World, ids: TaskId, u: Task, t: Task, few: bool, now: int, passive: bool,
                     kickout: bool)
    requires Core(cfg, w) && RankedAs(w, ids, u, t) && t.status.ScoreReady?
    requires Accept(cfg, w, u, GroupValidated, now).Ok?
    ensures JudgedOne(cfg, w, Accept(cfg, w, u, GroupValidated, now).value, t, ids, u.qos, GroupValidated, few, now,
                      passive, kickout)
  {
    hide Core;
    MemberHeld(cfg, w, t);
    assert w.nodes == w.nodes[t.selected.value := w.nodes[t.selected.value]];
    assert w.log == w.log + [];
  }

  lemma RefundJudged(cfg: Config, w: World, ids: TaskId, u: Task, t: Task, few: bool, now: int, passive: bool,
                     kickout: bool)
    requires Core(cfg, w) && RankedAs(w, ids, u, t) && t.status.ScoreReady?
    requires Refund(w, u, now, kickout).Ok?
    ensures JudgedOne(cfg, w, Refund(w, u, now, kickout).value, t, ids, u.qos, EndGroupRefund, few, now, passive,
                      kickout)
  {
    hide Core;
    MemberHeld(cfg, w, t);
  }

  lemma InvalidateJudged(cfg: Config, w: World, ids: TaskId, u: Task, t: Task, few: bool, now: int, passive: bool,
                         kickout: bool)
    requires Core(cfg, w) && RankedAs(w, ids, u, t) && !t.status.EndAborted?
    requires Invalidate(w, u, now, passive, kickout).Ok?
    ensures JudgedOne(cfg, w, Invalidate(w, u, now, passive, kickout).value, t, ids, u.qos, EndInvalidated, few, now,
                      passive, kickout)
  {
    hide Core;
    MemberHeld(cfg, w, t);
    assert w.log == w.log + [];
  }

  lemma AbortJudged(cfg: Config, w: World, ids: TaskId, u: Task, t: Task, few: bool, now: int, passive: bool,
                    splits: Splits, kickout: bool)
    requires Core(cfg, w) && RankedAs(w, ids, u, t) && !t.status.EndAborted?
    ensures var v := u.(reason := if few then GroupTimeout else IncorrectResult, validatedTime := Some(now));
            var r := Abort(cfg, w, v, splits, kickout);
            r.Ok? && JudgedOne(cfg, w, r.value, t, ids, u.qos, EndAborted, few, now, passive, kickout)
  {
    hide Settled, EventsOk, RowsOk, Abort;
    MemberHeld(cfg, w, t);
    var v := u.(reason := if few then GroupTimeout else IncorrectResult, validatedTime := Some(now));
    AbortRunningResult(cfg, w, v, splits, kickout);
    FreedIs(w.nodes[t.selected.value].status, w.nodes[t.selected.value], kickout);
  }

  /** A verdict that is applied does to the rows exactly what the member's verdict says. */
  lemma VerdictJudged(cfg: Config, w: World, ids: TaskId, u: Task, t: Task, next: TaskStatus, few: bool, now: int,
                      passive: bool, splits: Splits, kicked: set<Key>)
    requires Core(cfg, w) && RankedAs(w, ids, u, t) && Verdict(next) && (t.status.EndAborted? ==> next.EndAborted?)
    requires ApplyVerdict(cfg, w, u, next, few, now, passive, splits, kicked).Ok?
    ensures JudgedOne(cfg, w, ApplyVerdict(cfg, w, u, next, few, now, passive, splits, kicked).value, t, ids, u.qos,
                      next, few, now, passive, t.key in kicked)
  {
    hide Core, Accept, Refund, Invalidate, Abort, JudgedOne;
    match next {
      case EndInvalidated => InvalidateJudged(cfg, w, ids, u, t, few, now, passive, t.key in kicked);
      case GroupValidated =>
        AcceptedScored(cfg, w, u, now);
        AcceptJudged(cfg, w, ids, u, t, few, now, passive, t.key in kicked);
      case EndGroupRefund =>
        RefundedScored(w, u, now, t.key in kicked);
        RefundJudged(cfg, w, ids, u, t, few, now, passive, t.key in kicked);
      case _ =>
        if t.status.EndAborted? {
          RecordJudged(cfg, w, ids, u, t, few, now, passive, t.key in kicked);
        } else {
          AbortJudged(cfg, w, ids, u, t, few, now, passive, splits, t.key in kicked);
        }
    }
  }

  lemma AcceptedScored(cfg: Config, w: World, u: Task, now: int)
    requires Accept(cfg, w, u, GroupValidated, now).Ok?
    ensures u.status.ScoreReady?
  {}

  lemma RefundedScored(w: World, u: Task, now: int, kickout: bool)
    requires Refund(w, u, now, kickout).Ok?
    ensures u.status.ScoreReady?
  {}

  lemma RecordJudged(cfg: Config, w: World, ids: TaskId, u: Task, t: Task, few: bool, now: int, passive: bool,
                     kickout: bool)
    requires RankedAs(w, ids, u, t) && t.status.EndAborted?
    ensures JudgedOne(cfg, w, SetTask(w, w.tasks[u.key].(qos := u.qos, taskId := u.taskId)), t, ids, u.qos, EndAborted,
                      few, now, passive, kickout)
  {
    assert w.log == w.log + [];
  }

  // ---------- All three ----------

  // How a group was decided: its members in time order, what each was sent to, and whether too few finished.
  datatype Decision = Decision(ids: TaskId, ts: seq<Task>, next: map<Key, TaskStatus>, few: bool) {
    // The decision on the loaded rows.
    ghost predicate Of(w: World, threshold: nat) {
      && |ids| == 3 && ids[0] in w.tasks && ids[1] in w.tasks && ids[2] in w.tasks
      && var loaded := [w.tasks[ids[0]], w.tasks[ids[1]], w.tasks[ids[2]]];
         && Validation.Group(loaded) && InOrder(loaded, ts)
         && next == Timing.Verdicts(loaded, ids, threshold)
         && few == AtMostOne(loaded)
    }

    predicate Covers() {
      |ts| == 3 && ts[0].key in next && ts[1].key in next && ts[2].key in next
    }
  }

  // The i-th member, in time order, judged.
  ghost predicate Step(cfg: Config, d: Decision, w: World, w': World, i: nat, now: int, passive: bool, kicked: set<Key>)
    requires d.Covers() && i < 3
  {
    var t := d.ts[i];
    JudgedOne(cfg, w, w', t, d.ids, Reward(d.ts, t), d.next[t.key], d.few, now, passive, t.key in kicked)
  }

  lemma SameReward(ts: seq<Task>, s: seq<Task>, t: Task)
    requires InOrder(ts, s)
    ensures Reward(ts, t) == Reward(s, t)
  {
    hide Validation.Faster, RanFaster;
    assert forall u :: u in ts <==> u in s;
    assert FinishedAhead(ts, t) == FinishedAhead(s, t);
  }

  function One(t: Task): nat {
    if t.status == EndAborted then 0 else 1
  }

  lemma FinishedOfThree(r: seq<Task>)
    requires |r| == 3
    ensures |Validation.Finished(r)| == One(r[0]) + One(r[1]) + One(r[2])
  {
    hide Validation.Finished;
    assert r[..3] == r;
    FinishedBefore(r);
    Validation.FinishedSnoc(r, 2);
  }

  // At most one of the members finished.
  predicate AtMostOne(ts: seq<Task>) {
    forall u, v | u in ts && v in ts && u.status != EndAborted && v.status != EndAborted :: u == v
  }

  lemma FinishedAmong(ts: seq<Task>, s: seq<Task>)
    requires InOrder(ts, s)
    ensures AtMostOne(ts) <==> One(s[0]) + One(s[1]) + One(s[2]) < 2
  {
    hide Validation.Faster;
  }

  // The decision on three loaded rows, and the members as it ranks them.
  lemma DecisionOn(ts: seq<Task>, ids: TaskId, threshold: nat) returns (d: Decision, r: seq<Task>)
    requires Validation.Group(ts) && |ts| == 3 && Clocked(ts)
    ensures d.ids == ids && InOrder(ts, d.ts) && d.Covers() && d.next == Timing.Verdicts(ts, ids, threshold)
    ensures d.few == AtMostOne(ts)
    ensures r == RankGroup(ts, ids) && |r| == 3 && d.few == (|Validation.Finished(r)| < 2)
    ensures forall i: nat | i < 3 :: r[i] == d.ts[i].(taskId := Some(ids), qos := Reward(d.ts, d.ts[i]))
  {
    hide Validation.SortByTime, Validation.Decide, Validation.QosOf, Validation.Faster, Reward, RankGroup,
         Validation.Finished, Clocked, Validation.Group, InOrder, AtMostOne;
    var s := Validation.SortByTime(ts);
    RankedInOrder(ts, ids);
    r := RankGroup(ts, ids);
    RankedAre(ts, ids);
    forall i: nat | i < 3 ensures r[i] == s[i].(taskId := Some(ids), qos := Reward(s, s[i])) {
      RewardIs(ts, s, i);
      SameReward(ts, s, s[i]);
    }
    FinishedOfThree(r);
    FinishedAmong(ts, s);
    d := Decision(ids, s, Timing.Verdicts(ts, ids, threshold), |Validation.Finished(r)| < 2);
    assert r[0] in r && r[1] in r && r[2] in r;
  }

  // The loaded rows of a group that can be decided, ranked.
  lemma LoadedDecision(cfg: Config, w: World, ids: TaskId) returns (d: Decision, r: seq<Task>)
    requires Inv(cfg, w) && LoadGroup(w, ids).Ok?
    ensures d.ids == ids && d.Of(w, cfg.distanceThreshold) && d.Covers()
    ensures Loaded(w, ids, r) && Validation.Group(r) && d.few == (|Validation.Finished(r)| < 2)
    ensures d.next == Validation.Decide(r, cfg.distanceThreshold)
    ensures forall i: nat | i < 3 :: r[i] == d.ts[i].(taskId := Some(ids), qos := Reward(d.ts, d.ts[i]))
    ensures forall i: nat | i < 3 :: d.ts[i].key in w.tasks && d.ts[i] == w.tasks[d.ts[i].key]
    ensures Ranked(w.tasks, ids, r[0]) && Ranked(w.tasks, ids, r[1]) && Ranked(w.tasks, ids, r[2])
    ensures NoWinner(w.tasks, ids)
  {
    hide Inv, LoadGroup, Ranked, Validation.Decide, Reward, RankGroup, Validation.Finished, InOrder, Validation.Group,
         Clocked, AtMostOne;
    LoadedRows(cfg, w, ids);
    LoadedClocked(cfg, w, ids);
    var ts := [w.tasks[ids[0]], w.tasks[ids[1]], w.tasks[ids[2]]];
    RankedGroup(w.tasks, ids);
    d, r := DecisionOn(ts, ids, cfg.distanceThreshold);
    OrderedRows(w, ids, ts, d.ts);
  }

  lemma OrderedRows(w: World, ids: TaskId, ts: seq<Task>, s: seq<Task>)
    requires |ids| == 3 && (forall k | k in ids :: k in w.tasks && w.tasks[k].key == k)
    requires ids[0] in ids && ids[1] in ids && ids[2] in ids
    requires ts == [w.tasks[ids[0]], w.tasks[ids[1]], w.tasks[ids[2]]] && InOrder(ts, s)
    ensures forall i: nat | i < 3 :: s[i].key in w.tasks && s[i] == w.tasks[s[i].key]
  {
    hide Validation.Faster;
    forall i: nat | i < 3 ensures s[i].key in w.tasks && s[i] == w.tasks[s[i].key] {
      assert s[i] in ts;
    }
  }

  lemma LoadedClocked(cfg: Config, w: World, ids: TaskId)
    requires Inv(cfg, w) && GroupIds(ids) && (forall k | k in ids :: k in w.tasks && w.tasks[k].key == k)
    requires forall k | k in ids ::
               w.tasks[k].status.ScoreReady? || w.tasks[k].status.ErrorReported? || w.tasks[k].status.EndAborted?
    ensures ids[0] in ids && ids[1] in ids && ids[2] in ids
    ensures var ts := [w.tasks[ids[0]], w.tasks[ids[1]], w.tasks[ids[2]]]; Clocked(ts) && Validation.Group(ts)
  {
    hide Linked, Settled, EventsOk, GroupsOk;
    assert ids[0] in ids && ids[1] in ids && ids[2] in ids;
    assert RowOk(cfg, w.tasks[ids[0]]) && RowOk(cfg, w.tasks[ids[1]]) && RowOk(cfg, w.tasks[ids[2]]);
  }

  lemma Ranks(w: World, ids: TaskId, u: Task, t: Task)
    requires Ranked(w.tasks, ids, u) && t.key in w.tasks && t == w.tasks[t.key]
    requires u == t.(taskId := Some(ids), qos := u.qos)
    ensures RankedAs(w, ids, u, t)
  {}

  lemma StillRanks(w: World, w': World, ids: TaskId, u: Task, t: Task, k: Key)
    requires RankedAs(w, ids, u, t) && OneRow(w, w', k) && k != t.key
    ensures RankedAs(w', ids, u, t)
  {}

  // One member judged, with everything needed to go on.
  lemma JudgeNext(cfg: Config, w: World, d: Decision, r: seq<Task>, i: nat, now: int, passive: bool, splits: Splits,
                  kicked: set<Key>) returns (w': World)
    requires Core(cfg, w) && d.Covers() && GroupIds(d.ids) && i < 3 && Validation.Group(r) && !Validation.Stuck(r)
    requires Ranked(w.tasks, d.ids, r[i]) && RankedAs(w, d.ids, r[i], d.ts[i]) && NoWinner(w.tasks, d.ids)
    requires r[i].qos == Reward(d.ts, d.ts[i]) && d.next == Validation.Decide(r, cfg.distanceThreshold)
    ensures ApplyVerdict(cfg, w, r[i], d.next[r[i].key], d.few, now, passive, splits, kicked) == Ok(w')
    ensures Core(cfg, w') && OneRow(w, w', r[i].key) && NoWinner(w'.tasks, d.ids)
    ensures Step(cfg, d, w, w', i, now, passive, kicked)
  {
    hide Core, OneRow, NoWinner, ApplyVerdict, Validation.Decide, Validation.Accepts, Verdict, Reward, JudgedOne;
    Validation.GuardsAcceptIff(r, cfg.distanceThreshold);
    DecidedVerdicts(r, i, cfg.distanceThreshold);
    ApplyVerdictKeeps(cfg, w, r[i], d.next[r[i].key], d.few, now, passive, splits, kicked);
    w' := ApplyVerdict(cfg, w, r[i], d.next[r[i].key], d.few, now, passive, splits, kicked).value;
    VerdictIsNoSuccess(r, i, cfg.distanceThreshold);
    NoWinnerStays(w, w', d.ids, r[i].key);
    VerdictJudged(cfg, w, d.ids, r[i], d.ts[i], d.next[r[i].key], d.few, now, passive, splits, kicked);
  }

  /** From rows in order, a group is decided exactly when it loads and is not three failures of one type; its members
      are then judged one after another, in time order. */
  lemma GroupJudged(cfg: Config, w: World, ids: TaskId, now: int, passive: bool, splits: Splits, kicked: set<Key>)
    returns (d: Decision, w1: World, w2: World)
    requires Inv(cfg, w) && ValidateGroup(cfg, w, ids, now, passive, splits, kicked).Ok?
    ensures d.ids == ids && d.Of(w, cfg.distanceThreshold) && d.Covers()
    ensures Step(cfg, d, w, w1, 0, now, passive, kicked)
    ensures Step(cfg, d, w1, w2, 1, now, passive, kicked)
    ensures Step(cfg, d, w2, ValidateGroup(cfg, w, ids, now, passive, splits, kicked).value, 2, now, passive, kicked)
  {
    hide Core, GroupsOk, LoadGroup, RankGroup, ApplyVerdict, ApplyVerdicts, Validation.Decide, Validation.Finished,
         Reward, JudgedOne, Ranked, RankedAs, NoWinner, OneRow, Verdict, Validation.Stuck, Step;
    var r;
    d, r := LoadedDecision(cfg, w, ids);
    GroupLoads(cfg, w, ids);
    ValidateGroupIff(cfg, w, ids, r, now, passive, splits, kicked);
    ApplyVerdictsOfThree(cfg, w, r, d.next, d.few, now, passive, splits, kicked);
    Ranks(w, ids, r[0], d.ts[0]);
    Ranks(w, ids, r[1], d.ts[1]);
    Ranks(w, ids, r[2], d.ts[2]);
    w1 := JudgeNext(cfg, w, d, r, 0, now, passive, splits, kicked);
    RankedStays(w, w1, ids, r[1], r[0].key);
    StillRanks(w, w1, ids, r[1], d.ts[1], r[0].key);
    RankedStays(w, w1, ids, r[2], r[0].key);
    StillRanks(w, w1, ids, r[2], d.ts[2], r[0].key);
    w2 := JudgeNext(cfg, w1, d, r, 1, now, passive, splits, kicked);
    RankedStays(w1, w2, ids, r[2], r[1].key);
    StillRanks(w1, w2, ids, r[2], d.ts[2], r[1].key);
    var w3 := JudgeNext(cfg, w2, d, r, 2, now, passive, splits, kicked);
  }

  lemma GroupLoads(cfg: Config, w: World, ids: TaskId)
    requires Inv(cfg, w) && LoadGroup(w, ids).Ok?
    ensures GroupIds(ids)
  {
    hide Inv;
    LoadedRows(cfg, w, ids);
  }

  // What became of one member, from before the decision to after it.
  ghost predicate MemberJudged(cfg: Config, d: Decision, w: World, w': World, k: Key, now: int, passive: bool,
                               kicked: set<Key>)
    requires k in d.next
  {
    && k in w.tasks && k in w'.tasks
    && var t := w.tasks[k];
       && w'.tasks[k] == Judged(cfg, t, d.ids, Reward(d.ts, t), d.next[k], d.few, now)
       && (t.status != EndAborted ==>
             && t.selected.Some? && t.selected.value in w.nodes && t.selected.value in w'.nodes
             && w'.nodes[t.selected.value]
                  == JudgedNode(w.nodes[t.selected.value], t, d.next[k], passive, k in kicked))
  }

  // No two of the members hold the same node.
  predicate Apart(w: World, ts: seq<Task>) {
    && |ts| == 3 && ts[0].key != ts[1].key && ts[0].key != ts[2].key && ts[1].key != ts[2].key
    && forall i | 0 <= i < 3 ::
         && ts[i].key in w.tasks && ts[i] == w.tasks[ts[i].key]
         && (ts[i].status != EndAborted ==>
               && ts[i].selected.Some? && ts[i].selected.value in w.nodes
               && w.nodes[ts[i].selected.value].current == Some(ts[i].key))
  }

  lemma JudgedApart(cfg: Config, d: Decision, w: World, w1: World, w2: World, w3: World, i: nat, now: int,
                    passive: bool, kicked: set<Key>)
    requires d.Covers() && Apart(w, d.ts) && i < 3
    requires Step(cfg, d, w, w1, 0, now, passive, kicked) && Step(cfg, d, w1, w2, 1, now, passive, kicked)
    requires Step(cfg, d, w2, w3, 2, now, passive, kicked)
    ensures MemberJudged(cfg, d, w, w3, d.ts[i].key, now, passive, kicked)
  {
    hide Judged, JudgedNode, JudgedEvents, Frozen, Reward;
  }

  // What the group does not touch.
  predicate OthersSame(w: World, w': World, ids: TaskId) {
    && w'.tasks.Keys == w.tasks.Keys && w'.nodes.Keys == w.nodes.Keys
    && (forall k | k in w.tasks && k !in ids :: w'.tasks[k] == w.tasks[k])
    && (forall a | a in w.nodes && (w.nodes[a].current.None? || w.nodes[a].current.value !in ids) ::
          w'.nodes[a] == w.nodes[a])
  }

  ghost predicate Names(ids: TaskId, ts: seq<Task>) {
    |ts| == 3 && forall k :: k in ids <==> k == ts[0].key || k == ts[1].key || k == ts[2].key
  }

  // A step touches only its member's row and, unless that was aborted before, its node.
  lemma StepTouches(cfg: Config, d: Decision, w: World, w': World, i: nat, now: int, passive: bool, kicked: set<Key>)
    requires d.Covers() && i < 3 && Step(cfg, d, w, w', i, now, passive, kicked) && d.ts[i].key in w.tasks
    ensures w'.tasks.Keys == w.tasks.Keys && w'.nodes.Keys == w.nodes.Keys
    ensures forall k | k in w.tasks && k != d.ts[i].key :: w'.tasks[k] == w.tasks[k]
    ensures forall a | a in w.nodes && (d.ts[i].status == EndAborted || d.ts[i].selected != Some(a)) ::
              w'.nodes[a] == w.nodes[a]
  {
    hide Judged, JudgedNode, JudgedEvents, Frozen, Reward;
  }

  lemma OthersStay(cfg: Config, d: Decision, w: World, w1: World, w2: World, w3: World, now: int, passive: bool,
                   kicked: set<Key>)
    requires d.Covers() && Apart(w, d.ts) && Names(d.ids, d.ts)
    requires Step(cfg, d, w, w1, 0, now, passive, kicked) && Step(cfg, d, w1, w2, 1, now, passive, kicked)
    requires Step(cfg, d, w2, w3, 2, now, passive, kicked)
    ensures OthersSame(w, w3, d.ids)
  {
    hide Step;
    StepTouches(cfg, d, w, w1, 0, now, passive, kicked);
    StepTouches(cfg, d, w1, w2, 1, now, passive, kicked);
    StepTouches(cfg, d, w2, w3, 2, now, passive, kicked);
  }

  // The refunds of a decision, in time order.
  function RefundsOf(d: Decision): seq<Event>
    requires d.Covers()
  {
    JudgedEvents(d.ts[0], d.next[d.ts[0].key]) + JudgedEvents(d.ts[1], d.next[d.ts[1].key])
      + JudgedEvents(d.ts[2], d.next[d.ts[2].key])
  }

  lemma RefundsLogged(cfg: Config, d: Decision, w: World, w1: World, w2: World, w3: World, now: int, passive: bool,
                      kicked: set<Key>)
    requires d.Covers()
    requires Step(cfg, d, w, w1, 0, now, passive, kicked) && Step(cfg, d, w1, w2, 1, now, passive, kicked)
    requires Step(cfg, d, w2, w3, 2, now, passive, kicked)
    ensures w3.log == w.log + RefundsOf(d)
  {
    hide Judged, JudgedNode, JudgedEvents, Frozen, Reward;
  }

  // The node of a member invalidated for what it sent, if the i-th is one.
  function Slashed(d: Decision, i: nat, passive: bool): Option<Addr>
    requires d.Covers() && i < 3
  {
    if !passive && d.next[d.ts[i].key] == EndInvalidated then d.ts[i].selected else None
  }

  // The active grants to the nodes of members invalidated for what they sent are frozen, and no others.
  predicate GrantsFrozen(d: Decision, vs: map<nat, Vesting>, vs': map<nat, Vesting>, passive: bool)
    requires d.Covers()
  {
    && vs'.Keys == vs.Keys
    && var nodes := {Slashed(d, 0, passive), Slashed(d, 1, passive), Slashed(d, 2, passive)};
       forall id | id in vs ::
         vs'[id] == if vs[id].status == Active && Some(vs[id].address) in nodes
                    then vs[id].(slashed := true) else vs[id]
  }

  predicate FrozenIf(vs: map<nat, Vesting>, vs': map<nat, Vesting>, a: Option<Addr>) {
    if a.Some? then Frozen(vs, vs', a.value) else vs' == vs
  }

  lemma StepFreezes(cfg: Config, d: Decision, w: World, w': World, i: nat, now: int, passive: bool, kicked: set<Key>)
    requires d.Covers() && i < 3 && Step(cfg, d, w, w', i, now, passive, kicked)
    ensures FrozenIf(w.vestings, w'.vestings, Slashed(d, i, passive))
  {
    hide Judged, JudgedNode, JudgedEvents, Reward, Frozen;
  }

  lemma FrozenThrice(d: Decision, v0: map<nat, Vesting>, v1: map<nat, Vesting>, v2: map<nat, Vesting>,
                     v3: map<nat, Vesting>, passive: bool)
    requires d.Covers() && FrozenIf(v0, v1, Slashed(d, 0, passive)) && FrozenIf(v1, v2, Slashed(d, 1, passive))
    requires FrozenIf(v2, v3, Slashed(d, 2, passive))
    ensures GrantsFrozen(d, v0, v3, passive)
  {
    hide Slashed, FrozenIf;
    FrozenKeys(v0, v1, Slashed(d, 0, passive));
    FrozenKeys(v1, v2, Slashed(d, 1, passive));
    FrozenKeys(v2, v3, Slashed(d, 2, passive));
    forall id | id in v0
      ensures var nodes := {Slashed(d, 0, passive), Slashed(d, 1, passive), Slashed(d, 2, passive)};
              v3[id] == if v0[id].status == Active && Some(v0[id].address) in nodes
                        then v0[id].(slashed := true) else v0[id]
    {
      FrozenAt(v0, v1, Slashed(d, 0, passive), id);
      FrozenAt(v1, v2, Slashed(d, 1, passive), id);
      FrozenAt(v2, v3, Slashed(d, 2, passive), id);
    }
  }

  lemma FrozenKeys(vs: map<nat, Vesting>, vs': map<nat, Vesting>, a: Option<Addr>)
    requires FrozenIf(vs, vs', a)
    ensures vs'.Keys == vs.Keys
  {}

  lemma FrozenAt(vs: map<nat, Vesting>, vs': map<nat, Vesting>, a: Option<Addr>, id: nat)
    requires FrozenIf(vs, vs', a) && id in vs && id in vs'
    ensures vs'[id] == if vs[id].status == Active && Some(vs[id].address) == a then vs[id].(slashed := true) else vs[id]
  {}

  lemma MembersApart(cfg: Config, w: World, d: Decision)
    requires Inv(cfg, w) && d.Of(w, cfg.distanceThreshold) && d.Covers()
    ensures Apart(w, d.ts) && Names(d.ids, d.ts)
  {
    hide Settled, EventsOk, GroupsOk, Timing.Verdicts, Validation.Faster, RowsOk, AtMostOne, NodeLink, Validation.Group;
    var loaded := [w.tasks[d.ids[0]], w.tasks[d.ids[1]], w.tasks[d.ids[2]]];
    KeysMatch(w);
    assert Validation.Group(d.ts);
    LoadedAre(w, d.ids, loaded, d.ts);
    GroupStatuses(d.ts);
    forall i | 0 <= i < 3 ensures TaskLink(w.nodes, d.ts[i].key, d.ts[i]) {}
  }

  lemma GroupStatuses(ts: seq<Task>)
    requires Validation.Group(ts)
    ensures |ts| == 3 && ts[0].key != ts[1].key && ts[0].key != ts[2].key && ts[1].key != ts[2].key
    ensures forall i | 0 <= i < 3 && ts[i].status != EndAborted :: Running(ts[i].status)
  {}

  lemma LoadedAre(w: World, ids: TaskId, loaded: seq<Task>, s: seq<Task>)
    requires |ids| == 3 && ids[0] in w.tasks && ids[1] in w.tasks && ids[2] in w.tasks
    requires loaded == [w.tasks[ids[0]], w.tasks[ids[1]], w.tasks[ids[2]]] && InOrder(loaded, s)
    requires forall k | k in w.tasks :: w.tasks[k].key == k
    ensures Names(ids, s) && forall i | 0 <= i < 3 :: s[i].key in w.tasks && s[i] == w.tasks[s[i].key]
  {
    hide Validation.Faster, Validation.Group;
    GroupStatuses(s);
    forall i | 0 <= i < 3 ensures s[i].key in w.tasks && s[i] == w.tasks[s[i].key] && s[i].key in ids {
      assert s[i] in loaded;
    }
    forall k | k in ids ensures k == s[0].key || k == s[1].key || k == s[2].key {
      assert w.tasks[k] in loaded;
    }
  }

  /** What a decided group leaves: every member with its verdict, its score by rank and its node freed, kept or quit;
      the refunds logged in time order; the grants to slashed nodes frozen; and everything else as it was. */
  lemma GroupEffect(cfg: Config, w: World, ids: TaskId, now: int, passive: bool, splits: Splits, kicked: set<Key>)
    returns (d: Decision)
    requires Inv(cfg, w) && ValidateGroup(cfg, w, ids, now, passive, splits, kicked).Ok?
    ensures d.ids == ids && d.Of(w, cfg.distanceThreshold) && d.Covers()
    ensures var w' := ValidateGroup(cfg, w, ids, now, passive, splits, kicked).value;
            && (forall k | k in ids :: k in d.next && MemberJudged(cfg, d, w, w', k, now, passive, kicked))
            && OthersSame(w, w', ids)
            && GrantsFrozen(d, w.vestings, w'.vestings, passive)
            && w'.log == w.log + RefundsOf(d)
  {
    hide Inv, ValidateGroup, MemberJudged, RefundsOf, GrantsFrozen, Apart, Step, OthersSame, Decision.Of, FrozenIf;
    var w1, w2;
    d, w1, w2 := GroupJudged(cfg, w, ids, now, passive, splits, kicked);
    var w3 := ValidateGroup(cfg, w, ids, now, passive, splits, kicked).value;
    MembersApart(cfg, w, d);
    JudgedApart(cfg, d, w, w1, w2, w3, 0, now, passive, kicked);
    JudgedApart(cfg, d, w, w1, w2, w3, 1, now, passive, kicked);
    JudgedApart(cfg, d, w, w1, w2, w3, 2, now, passive, kicked);
    OthersStay(cfg, d, w, w1, w2, w3, now, passive, kicked);
    RefundsLogged(cfg, d, w, w1, w2, w3, now, passive, kicked);
    StepFreezes(cfg, d, w, w1, 0, now, passive, kicked);
    StepFreezes(cfg, d, w1, w2, 1, now, passive, kicked);
    StepFreezes(cfg, d, w2, w3, 2, now, passive, kicked);
    FrozenThrice(d, w.vestings, w1.vestings, w2.vestings, w3.vestings, passive);
  }

  // ---------- Which groups are decided ----------

  // Three tasks not yet revealed, reported on or aborted, none of them for the creator's delay, the reports on the same
  // files.
  predicate Loadable(tasks: map<Key, Task>, ids: TaskId) {
    && |ids| == 3 && ids[0] < ids[1] < ids[2]
    && (forall k | k in ids ::
          && k in tasks && tasks[k].taskId == None && tasks[k].status in {ScoreReady, ErrorReported, EndAborted}
          && !(tasks[k].status == EndAborted && tasks[k].reason == CreatorValidationTimeout))
    && (forall j, k | j in ids && k in ids && j in tasks && k in tasks ::
          tasks[j].status != EndAborted && tasks[k].status != EndAborted ==> tasks[j].files == tasks[k].files)
  }

  // And not three errors of one type.
  predicate Decidable(tasks: map<Key, Task>, ids: TaskId) {
    && Loadable(tasks, ids) && ids[0] in ids
    && !(forall k | k in ids :: tasks[k].status == ErrorReported && tasks[k].kind == tasks[ids[0]].kind)
  }

  lemma LoadableLoads(w: World, ids: TaskId)
    requires Loadable(w.tasks, ids)
    ensures LoadGroup(w, ids).Ok?
  {
    assert ids[0] in ids && ids[1] in ids && ids[2] in ids;
    var ts := [w.tasks[ids[0]], w.tasks[ids[1]], w.tasks[ids[2]]];
    assert ts[0] in ts;
    forall t | t in ts ensures exists k | k in ids :: k in w.tasks && t == w.tasks[k] {}
  }

  lemma LoadedLoadable(cfg: Config, w: World, ids: TaskId)
    requires Inv(cfg, w) && LoadGroup(w, ids).Ok?
    ensures Loadable(w.tasks, ids)
  {
    hide Inv;
    LoadedRows(cfg, w, ids);
    LoadedAlike(w, ids);
  }

  lemma LoadedAlike(w: World, ids: TaskId)
    requires LoadGroup(w, ids).Ok?
    ensures GroupIds(ids) && (forall k | k in ids :: k in w.tasks)
    ensures forall k | k in ids :: !(w.tasks[k].status == EndAborted && w.tasks[k].reason == CreatorValidationTimeout)
    ensures forall j, k | j in ids && k in ids && w.tasks[j].status != EndAborted && w.tasks[k].status != EndAborted ::
              w.tasks[j].files == w.tasks[k].files
  {
    var ts := [w.tasks[ids[0]], w.tasks[ids[1]], w.tasks[ids[2]]];
    forall k | k in ids ensures w.tasks[k] in ts {}
  }

  /** From rows in order, exactly the decidable groups are decided. */
  lemma GroupDecidedIff(cfg: Config, w: World, ids: TaskId, now: int, passive: bool, splits: Splits, kicked: set<Key>)
    requires Inv(cfg, w)
    ensures ValidateGroup(cfg, w, ids, now, passive, splits, kicked).Ok? <==> Decidable(w.tasks, ids)
  {
    hide Inv, LoadGroup, RankGroup, ApplyVerdicts, Validation.Decide, Validation.Finished, Reward, Ranked, Decision.Of;
    if Decidable(w.tasks, ids) {
      LoadableLoads(w, ids);
    }
    if LoadGroup(w, ids).Ok? {
      LoadedLoadable(cfg, w, ids);
      var d, r := LoadedDecision(cfg, w, ids);
      ValidateGroupIff(cfg, w, ids, r, now, passive, splits, kicked);
      MembersApart(cfg, w, d);
      assert ids[0] in ids && ids[1] in ids && ids[2] in ids;
      StuckIs(w, ids, d, r);
    }
  }

  lemma StuckIs(w: World, ids: TaskId, d: Decision, r: seq<Task>)
    requires Loadable(w.tasks, ids) && d.ids == ids && Names(ids, d.ts) && Apart(w, d.ts) && |r| == 3
    requires forall i: nat | i < 3 :: r[i] == d.ts[i].(taskId := Some(ids), qos := Reward(d.ts, d.ts[i]))
    ensures ids[0] in ids
    ensures Validation.Stuck(r) <==>
              forall k | k in ids :: w.tasks[k].status == ErrorReported && w.tasks[k].kind == w.tasks[ids[0]].kind
  {
    hide Reward;
    assert ids[0] in ids && d.ts[0].key in ids && d.ts[1].key in ids && d.ts[2].key in ids;
  }
}

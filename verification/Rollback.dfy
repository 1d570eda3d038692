/** What a refused request leaves behind: its rows and events are rolled back, the cache updates it made are not. */
module Rollback {
  import opened Basics
  import opened Model
  import opened Lifecycle
  import opened Invariant
  import opened Moves
  import opened Transactions
  import opened Verdicts
  import opened Ledger
  import opened Steps
  import Validation

  // The events whose cache updates outlive the refusal of a request. Only a group request has more than one
  // transaction inside.
  function Leftover(cfg: Config, w: World, h: Handler): seq<Event> {
    if h.ValidateTasks? then GroupLeftover(cfg, w, h.ids, h.now, h.passive, h.splits, h.kicked) else []
  }

  // A request for three failures of one task type of which the two fastest cost something.
  predicate Leaks(w: World, h: Handler) {
    && h.ValidateTasks? && LoadGroup(w, h.ids).Ok?
    && var ts := RankGroup(LoadGroup(w, h.ids).value, h.ids);
       Validation.Stuck(ts) && ts[0].fee + ts[1].fee > 0
  }

  // ---------- A stuck group ----------

  lemma AbortLog(cfg: Config, w: World, t: Task, splits: Splits, kickout: bool)
    requires !t.status.EndAborted? && !t.reason.CreatorValidationTimeout?
    ensures var r := Abort(cfg, w, t, splits, kickout); r.Ok? ==> r.value.log == w.log + [RefundEvent(t)]
  {}

  // The first two verdicts of a stuck group abort and refund; the third is refused.
  lemma StuckVerdicts(ts: seq<Task>, threshold: nat)
    requires Validation.Group(ts) && Validation.Stuck(ts)
    ensures Validation.Next(ts, 0, threshold).EndAborted? && Validation.Next(ts, 1, threshold).EndAborted?
    ensures Validation.Next(ts, 2, threshold).EndGroupRefund?
  {
    hide Validation.Next, Validation.Decide;
    Validation.DecideAllFinished(ts, threshold);
  }

  // One of the two: it is aborted, and its refund is all that is logged.
  lemma FailedMember(cfg: Config, w: World, t: Task, few: bool,
                     now: int, passive: bool, splits: Splits, kicked: set<Key>)
    requires Core(cfg, w) && t.taskId.Some? && GroupIds(t.taskId.value) && Ranked(w.tasks, t.taskId.value, t)
    requires t.status.ErrorReported? && NoWinner(w.tasks, t.taskId.value)
    ensures var r := ApplyVerdict(cfg, w, t, EndAborted, few, now, passive, splits, kicked);
            && r.Ok? && Core(cfg, r.value) && OneRow(w, r.value, t.key)
            && r.value.tasks[t.key].status.EndAborted? && r.value.log == w.log + [RefundEvent(t)]
  {
    hide Core, OneRow, NoWinner, Abort, Ranked;
    ApplyVerdictKeeps(cfg, w, t, EndAborted, few, now, passive, splits, kicked);
    var u := t.(reason := if few then GroupTimeout else IncorrectResult, validatedTime := Some(now));
    AbortLog(cfg, w, u, splits, t.key in kicked);
  }

  // How far a refused stuck group gets.
  lemma StuckApplied(cfg: Config, w: World, ids: TaskId, ts: seq<Task>, few: bool,
                     now: int, passive: bool, splits: Splits, kicked: set<Key>)
    requires Core(cfg, w) && GroupIds(ids) && NoWinner(w.tasks, ids)
    requires Validation.Group(ts) && Validation.Stuck(ts)
    requires Ranked(w.tasks, ids, ts[0]) && Ranked(w.tasks, ids, ts[1]) && Ranked(w.tasks, ids, ts[2])
    ensures var next := Validation.Decide(ts, cfg.distanceThreshold);
            AppliedBefore(cfg, w, ts, next, few, now, passive, splits, kicked).log
            == w.log + [RefundEvent(ts[0]), RefundEvent(ts[1])]
  {
    hide Core, OneRow, NoWinner, ApplyVerdict, ApplyVerdicts, Ranked, Validation.Decide, Validation.Stuck;
    var d := cfg.distanceThreshold;
    var next := Validation.Decide(ts, d);
    StuckVerdicts(ts, d);
    StuckStatuses(ts);
    RankedId(w.tasks, ids, ts);
    FailedMember(cfg, w, ts[0], few, now, passive, splits, kicked);
    var w1 := ApplyVerdict(cfg, w, ts[0], EndAborted, few, now, passive, splits, kicked).value;
    RankedStays(w, w1, ids, ts[1], ts[0].key);
    NoWinnerStays(w, w1, ids, ts[0].key);
    FailedMember(cfg, w1, ts[1], few, now, passive, splits, kicked);
    StuckFails(cfg, w, ts, few, now, passive, splits, kicked);
    FirstTwo(cfg, w, ts, next, few, now, passive, splits, kicked);
    assert w.log + [RefundEvent(ts[0])] + [RefundEvent(ts[1])] == w.log + [RefundEvent(ts[0]), RefundEvent(ts[1])];
  }

  lemma StuckStatuses(ts: seq<Task>)
    requires |ts| == 3 && Validation.Stuck(ts)
    ensures ts[0].status.ErrorReported? && ts[1].status.ErrorReported?
  {}

  lemma FirstTwo(cfg: Config, w: World, ts: seq<Task>, next: map<Key, TaskStatus>, few: bool,
                 now: int, passive: bool, splits: Splits, kicked: set<Key>)
    requires |ts| == 3 && (forall t | t in ts :: t.key in next)
    requires ApplyVerdicts(cfg, w, ts, next, few, now, passive, splits, kicked).Err?
    requires ts[0].key in next && ts[1].key in next
    requires ApplyVerdict(cfg, w, ts[0], next[ts[0].key], few, now, passive, splits, kicked).Ok?
    requires var w1 := ApplyVerdict(cfg, w, ts[0], next[ts[0].key], few, now, passive, splits, kicked).value;
             ApplyVerdict(cfg, w1, ts[1], next[ts[1].key], few, now, passive, splits, kicked).Ok?
    ensures var w1 := ApplyVerdict(cfg, w, ts[0], next[ts[0].key], few, now, passive, splits, kicked).value;
            AppliedBefore(cfg, w, ts, next, few, now, passive, splits, kicked)
            == ApplyVerdict(cfg, w1, ts[1], next[ts[1].key], few, now, passive, splits, kicked).value
  {
    hide ApplyVerdict;
    var front := ts[..2];
    assert front[..1][..0] == [];
    assert ApplyVerdicts(cfg, w, front[..1], next, few, now, passive, splits, kicked)
        == ApplyVerdict(cfg, w, ts[0], next[ts[0].key], few, now, passive, splits, kicked);
  }

  /** A refused request to decide a stuck group has refunded its two fastest members in the cache. */
  lemma StuckLeftover(cfg: Config, w: World, ids: TaskId, ts: seq<Task>,
                      now: int, passive: bool, splits: Splits, kicked: set<Key>)
    requires Inv(cfg, w) && Loaded(w, ids, ts) && |ts| == 3 && Validation.Stuck(ts)
    ensures GroupLeftover(cfg, w, ids, now, passive, splits, kicked) == [RefundEvent(ts[0]), RefundEvent(ts[1])]
  {
    hide Core, RankGroup, Validation.Decide, AppliedBefore, LoadGroup, Ranked, Validation.Stuck;
    LoadedRows(cfg, w, ids);
    assert ids[0] in ids && ids[1] in ids && ids[2] in ids;
    RankedGroup(w.tasks, ids);
    StuckApplied(cfg, w, ids, ts, |Validation.Finished(ts)| < 2, now, passive, splits, kicked);
  }

  // ---------- Any refused request ----------

  lemma NetOfTwo(e: Event, f: Event, a: Addr)
    ensures Net([e, f], a) == (if e.address == a then Signed(e) else 0) + (if f.address == a then Signed(f) else 0)
  {
    assert [e, f][..1] == [e] && [e][..0] == [];
    assert Net([e], a) == if e.address == a then Signed(e) else 0;
  }

  /** What a refused request leaves in the cache are refunds: nobody's balance falls, and somebody's rises exactly
      when the request leaks. */
  lemma LeftoverIff(cfg: Config, w: World, h: Handler)
    requires Inv(cfg, w) && Transact(cfg, w, h).Err?
    ensures forall e | e in Leftover(cfg, w, h) :: e.reason.TaskRefund?
    ensures forall a :: Net(Leftover(cfg, w, h), a) >= 0
    ensures Leaks(w, h) <==> SomeNet(Leftover(cfg, w, h))
  {
    hide Inv, RankGroup, LoadGroup, GroupLeftover, ApplyVerdicts, Validation.Decide, Validation.Stuck, Applied;
    if h.ValidateTasks? && LoadGroup(w, h.ids).Ok? {
      var ts := LoadedGroup(w, h.ids);
      ValidateGroupIff(cfg, w, h.ids, ts, h.now, h.passive, h.splits, h.kicked);
      StuckLeftover(cfg, w, h.ids, ts, h.now, h.passive, h.splits, h.kicked);
      var e, f := RefundEvent(ts[0]), RefundEvent(ts[1]);
      forall a ensures Net([e, f], a) >= 0 && (ts[0].fee + ts[1].fee == 0 ==> Net([e, f], a) == 0) {
        NetOfTwo(e, f, a);
      }
      NetOfTwo(e, f, e.address);
      NetOfTwo(e, f, f.address);
      assert ts[0].fee > 0 ==> Net([e, f], e.address) > 0;
      assert ts[1].fee > 0 ==> Net([e, f], f.address) > 0;
    } else {
      NothingLeft(cfg, w, h);
    }
  }

  lemma LeaksRefused(cfg: Config, w: World, h: Handler)
    requires Inv(cfg, w)
    ensures Leaks(w, h) ==> Transact(cfg, w, h).Err?
  {
    hide Inv, RankGroup, LoadGroup, ApplyVerdicts, Validation.Decide, Validation.Stuck, Applied;
    if Leaks(w, h) {
      var ts := LoadedGroup(w, h.ids);
      ValidateGroupIff(cfg, w, h.ids, ts, h.now, h.passive, h.splits, h.kicked);
    }
  }

  lemma NothingLeft(cfg: Config, w: World, h: Handler)
    requires !(h.ValidateTasks? && LoadGroup(w, h.ids).Ok?)
    ensures Leftover(cfg, w, h) == [] && !Leaks(w, h)
  {}
}

/** Vesting grants over every run: nothing is released before its time, and nothing while a grant is frozen. */
module Schedules {
  import opened Model
  import opened Settlement
  import opened Lifecycle
  import opened Invariant
  import opened Vestings
  import opened Ledger
  import opened Audit
  import opened Steps
  import opened Effects
  import opened GroupEffects
  import opened Payouts
  import opened Rollback
  import opened Relay

  // ---------- One transaction ----------

  // A grant left alone, or an active one frozen.
  predicate LeftOrFrozen(v: Vesting, v': Vesting) {
    v' == v || (v.status == Active && v' == v.(slashed := true))
  }

  predicate OnlyFreezes(vs: map<nat, Vesting>, vs': map<nat, Vesting>) {
    vs'.Keys == vs.Keys && forall id | id in vs :: LeftOrFrozen(vs[id], vs'[id])
  }

  lemma DecideFreezes(cfg: Config, w: World, ids: TaskId, now: int, passive: bool, splits: Splits, kicked: set<Key>)
    requires Inv(cfg, w) && ValidateGroup(cfg, w, ids, now, passive, splits, kicked).Ok?
    ensures OnlyFreezes(w.vestings, ValidateGroup(cfg, w, ids, now, passive, splits, kicked).value.vestings)
  {
    hide Inv, ValidateGroup, Decision.Of, OthersSame, MemberJudged, RefundsOf, Slashed;
    var d := GroupEffect(cfg, w, ids, now, passive, splits, kicked);
  }

  lemma SlashFreezes(cfg: Config, w: World, a: Addr)
    requires Inv(cfg, w) && SlashNode(w, a).Ok?
    ensures OnlyFreezes(w.vestings, SlashNode(w, a).value.vestings)
  {
    hide Inv, SlashNode;
    SlashEffect(cfg, w, a);
  }

  lemma TransactFreezes(cfg: Config, w: World, h: Handler)
    requires Inv(cfg, w) && forall t | t in Copies(h) :: Stale(w, t)
    ensures Transact(cfg, w, h).Ok? ==> OnlyFreezes(w.vestings, Transact(cfg, w, h).value.vestings)
  {
    hide Inv, Start, ReportScore, ReportError, ValidateSingle, ValidateGroup, Abort, Succeed, SlashNode, RequestNode,
         Stale, IncomeEvents, EarnedEvents, Trio.Parts, Trio.Scored, Trio.Total, OnlyFreezes, Grouped;
    NothingFrozen(w.vestings);
    match h {
      case StartTask(t, a, now, computed, files) => StartEffect(cfg, w, t, a, now, computed, files);
      case SubmitScore(t, score, now) => ScoreEffect(cfg, w, t, score, now);
      case SubmitError(t, now) => ErrorEffect(cfg, w, t, now);
      case ValidateTask(t, now, splits, kickout) => ValidateSingleEffect(cfg, w, t, now, splits, kickout);
      case ValidateTasks(ids, now, passive, splits, kicked) =>
        if ValidateGroup(cfg, w, ids, now, passive, splits, kicked).Ok? {
          DecideFreezes(cfg, w, ids, now, passive, splits, kicked);
        }
      case AbortTask(t, reason, splits, kickout) => AbortEffect(cfg, w, t, reason, splits, kickout);
      case UploadResult(t, splits, kickout) =>
        var g, x, y, z := SucceedEffect(cfg, w, t, splits, kickout);
      case Slash(a) =>
        if SlashNode(w, a).Ok? {
          SlashFreezes(cfg, w, a);
        }
      case AskNode(a, request) => RequestEffect(cfg, w, a, request);
    }
  }

  lemma NothingFrozen(vs: map<nat, Vesting>)
    ensures OnlyFreezes(vs, vs)
  {}

  // ---------- One step ----------

  // What a step may do to an existing grant: release it, if that is the step; freeze or thaw it, if its address is
  // slashed or restored; otherwise leave it or freeze it.
  ghost predicate GrantStep(s: State, s': State, step: Step, id: nat) {
    id in s.w.vestings ==>
      && id in s'.w.vestings
      && var v, v' := s.w.vestings[id], s'.w.vestings[id];
         match step
         case ReleaseVesting(j, now) =>
           v' == v || (&& j == id && v.status == Active && !v.slashed && Release(s.w, id, now).Ok?
                       && s'.w.vestings == Release(s.w, id, now).value.vestings)
         case SlashGrants(a) => v' == if v.address == a && v.status == Active then v.(slashed := true) else v
         case RestoreGrants(a) => v' == if v.address == a then v.(slashed := false) else v
         case _ => LeftOrFrozen(v, v')
  }

  lemma AnswerGrants(cfg: Config, s: State, h: Handler, id: nat)
    requires RelayInv(cfg, s) && Copies(h) <= s.seen && id in s.w.vestings
    ensures var s' := Answer(cfg, s, h); id in s'.w.vestings && LeftOrFrozen(s.w.vestings[id], s'.w.vestings[id])
  {
    hide Inv, Transact, Leftover, PostAll, NewEvents, Chained, OthersOk, OnePending, Backed, Stale, LeftOrFrozen;
    assert forall t | t in Copies(h) :: Stale(s.w, t);
    TransactFreezes(cfg, s.w, h);
    LeftAlone(s.w.vestings[id]);
  }

  lemma LeftAlone(v: Vesting)
    ensures LeftOrFrozen(v, v)
  {}

  lemma ReleaseGrants(cfg: Config, s: State, j: nat, now: int, id: nat)
    requires id in s.w.vestings
    ensures GrantStep(s, Next(cfg, s, ReleaseVesting(j, now)), ReleaseVesting(j, now), id)
  {
    hide PostAll, NewEvents, Tally, ShouldReleased;
  }

  lemma StepGrants(cfg: Config, s: State, step: Step, id: nat)
    requires RelayInv(cfg, s) && id in s.w.vestings
    ensures GrantStep(s, Next(cfg, s, step), step, id)
  {
    hide RelayInv, Answer, PostAll, NewEvents, Accepted, Rejected, ApplyAll, Processed, Tally, ShouldReleased, Release;
    if step.Handle? && Copies(step.handler) <= s.seen {
      AnswerGrants(cfg, s, step.handler, id);
    } else if step.ReleaseVesting? {
      ReleaseGrants(cfg, s, step.id, step.now, id);
    }
  }

  // A grant that was not there before is new.
  lemma AnswerAddsNone(cfg: Config, s: State, h: Handler, id: nat)
    requires RelayInv(cfg, s) && Copies(h) <= s.seen && id !in s.w.vestings
    ensures id !in Answer(cfg, s, h).w.vestings
  {
    hide Inv, Transact, Leftover, PostAll, NewEvents, Chained, OthersOk, OnePending, Backed, Stale, LeftOrFrozen;
    assert forall t | t in Copies(h) :: Stale(s.w, t);
    TransactFreezes(cfg, s.w, h);
  }

  lemma NewGrant(cfg: Config, s: State, step: Step, id: nat)
    requires RelayInv(cfg, s) && id !in s.w.vestings && id in Next(cfg, s, step).w.vestings
    ensures step.GrantVesting? && step.id == id
    ensures var v := Next(cfg, s, step).w.vestings[id];
            v == step.grant.(released := 0, status := Active, slashed := false) && v.total > 0 && v.durationDays > 0
  {
    hide RelayInv, Answer, PostAll, NewEvents, Accepted, Rejected, ApplyAll, Processed, Tally, ShouldReleased;
    if step.Handle? && Copies(step.handler) <= s.seen {
      AnswerAddsNone(cfg, s, step.handler, id);
    }
  }

  // ---------- Every run ----------

  // No release of the run is made after the given time.
  predicate ReleasedBefore(steps: seq<Step>, now: int) {
    forall i | 0 <= i < |steps| && steps[i].ReleaseVesting? :: steps[i].now <= now
  }

  lemma StepOnSchedule(cfg: Config, s: State, step: Step, now: int, id: nat)
    requires RelayInv(cfg, s) && (step.ReleaseVesting? ==> step.now <= now) && id in Next(cfg, s, step).w.vestings
    requires id in s.w.vestings ==> OnSchedule(s.w.vestings[id], now)
    ensures OnSchedule(Next(cfg, s, step).w.vestings[id], now)
  {
    hide RelayInv, Next, Release;
    if id in s.w.vestings {
      StepGrants(cfg, s, step, id);
      if step.ReleaseVesting? && Release(s.w, id, step.now).Ok? {
        ReleaseOnSchedule(s.w, id, step.now, now);
      }
    } else {
      NewGrant(cfg, s, step, id);
    }
  }

  lemma {:induction false} RunOnSchedule(cfg: Config, s: State, steps: seq<Step>, now: int, id: nat)
    requires RelayInv(cfg, s) && ReleasedBefore(steps, now) && id in Run(cfg, s, steps).w.vestings
    requires id in s.w.vestings ==> OnSchedule(s.w.vestings[id], now)
    ensures OnSchedule(Run(cfg, s, steps).w.vestings[id], now)
  {
    hide RelayInv, Next, OnSchedule;
    if steps != [] {
      var front, step := steps[..|steps| - 1], steps[|steps| - 1];
      var before := Run(cfg, s, front);
      RunKeeps(cfg, s, front);
      if id in before.w.vestings {
        RunOnSchedule(cfg, s, front, now, id);
      }
      StepOnSchedule(cfg, before, step, now, id);
    }
  }

  /** Over every run whose releases are made by a given time, a grant has released nothing before its start, and never
      more than the share of the midnights passed by that time; and that is what its release events add up to. */
  lemma NothingReleasedEarly(cfg: Config, s0: State, steps: seq<Step>, now: int, id: nat)
    requires Initial(s0) && ReleasedBefore(steps, now) && id in Run(cfg, s0, steps).w.vestings
    ensures var w := Run(cfg, s0, steps).w;
            var v, elapsed := w.vestings[id], now / 86400 - w.vestings[id].startTime / 86400;
            && (now < v.startTime ==> v.released == 0)
            && (v.startTime <= now ==> v.released * v.durationDays <= v.total * elapsed)
            && ReleasedBy(w.log, id) == v.released <= v.total
  {
    hide Next, Inv, SeenOk, OthersOk, OnePending, Backed, Chain;
    InitialKeeps(cfg, s0);
    RunKeeps(cfg, s0, steps);
    RunOnSchedule(cfg, s0, steps, now, id);
    var w := Run(cfg, s0, steps).w;
    ChainTotal(w.log, id, ReleasedOf(w.vestings, id));
    assert GrantOk(w.vestings[id]);
    ScheduleSplit(w.vestings[id], now);
  }

  lemma ScheduleSplit(v: Vesting, now: int)
    requires OnSchedule(v, now)
    ensures now < v.startTime ==> v.released == 0
    ensures v.startTime <= now ==> v.released * v.durationDays <= v.total * (now / 86400 - v.startTime / 86400)
  {
    if v.startTime <= now && v.released == 0 {
      TimesMonotone(v.total, 0, now / 86400 - v.startTime / 86400);
    }
  }

  predicate Restores(steps: seq<Step>, a: Addr) {
    exists i | 0 <= i < |steps| :: steps[i] == RestoreGrants(a)
  }

  lemma {:induction false} FrozenStays(cfg: Config, s: State, steps: seq<Step>, id: nat)
    requires RelayInv(cfg, s) && id in s.w.vestings && s.w.vestings[id].status == Active && s.w.vestings[id].slashed
    requires !Restores(steps, s.w.vestings[id].address)
    ensures id in Run(cfg, s, steps).w.vestings && Run(cfg, s, steps).w.vestings[id] == s.w.vestings[id]
  {
    hide RelayInv, Next;
    if steps != [] {
      var front, step := steps[..|steps| - 1], steps[|steps| - 1];
      assert steps[|steps| - 1] != RestoreGrants(s.w.vestings[id].address);
      assert forall i | 0 <= i < |front| :: front[i] == steps[i];
      FrozenStays(cfg, s, front, id);
      RunKeeps(cfg, s, front);
      StepGrants(cfg, Run(cfg, s, front), step, id);
    }
  }

  /** Over every run: a frozen grant keeps every column, so releases nothing, until its address is restored. */
  lemma FrozenGrantsRest(cfg: Config, s0: State, steps: seq<Step>, more: seq<Step>, id: nat)
    requires Initial(s0) && id in Run(cfg, s0, steps).w.vestings
    requires var v := Run(cfg, s0, steps).w.vestings[id]; v.status == Active && v.slashed && !Restores(more, v.address)
    ensures var vs, vs' := Run(cfg, s0, steps).w.vestings, Run(cfg, s0, steps + more).w.vestings;
            id in vs' && vs'[id] == vs[id]
  {
    hide RelayInv, Run, Initial;
    InitialKeeps(cfg, s0);
    RunKeeps(cfg, s0, steps);
    FrozenStays(cfg, Run(cfg, s0, steps), more, id);
    RunConcat(cfg, s0, steps, more);
  }
}

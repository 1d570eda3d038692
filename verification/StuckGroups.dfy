/** Groups whose three members all failed: reachable, refused while they stand, and what frees them. */
module StuckGroups {
  import opened Basics
  import opened Model
  import opened Deadline
  import opened Lifecycle
  import opened Invariant
  import opened Moves
  import opened Ledger
  import opened Verdicts
  import opened Steps
  import opened Relay
  import opened Rollback
  import opened Guarantees
  import Settlement
  import Validation

  // Three failures of one task type on the same files.
  predicate StuckRows(tasks: map<Key, Task>, ids: TaskId) {
    && GroupIds(ids)
    && (forall k | k in ids :: k in tasks && tasks[k].status.ErrorReported?)
    && (forall j, k | j in ids && k in ids ::
          j in tasks && k in tasks && tasks[j].kind == tasks[k].kind && tasks[j].files == tasks[k].files)
  }

  // A task id names one task or one group: no member is revealed but with the group.
  predicate OneId(tasks: map<Key, Task>, ids: TaskId) {
    forall k | k in ids :: k in tasks && (tasks[k].taskId.None? || tasks[k].taskId == Some(ids))
  }

  // Not decided yet; at least one member has been aborted since, and none of them for the creator's delay.
  predicate Loosened(tasks: map<Key, Task>, ids: TaskId) {
    && (forall k | k in ids :: k in tasks && tasks[k].taskId.None?)
    && (forall k | k in ids :: k in tasks &&
          (tasks[k].status.ErrorReported? ||
              (tasks[k].status.EndAborted? && !tasks[k].reason.CreatorValidationTimeout?)))
    && (exists k | k in ids :: k in tasks && tasks[k].status.EndAborted?)
  }

  // ---------- When a stuck group can be decided after all ----------

  // The decision of a loadable group is refused exactly when all three rows stand failed at one task type.
  lemma RowsStuckIff(cfg: Config, w: World, ids: TaskId, ts: seq<Task>)
    requires Inv(cfg, w) && Loaded(w, ids, ts) && |ts| == 3
    requires forall j, k | j in ids && k in ids :: j in w.tasks && k in w.tasks && w.tasks[j].kind == w.tasks[k].kind
    ensures Validation.Stuck(ts) <==> forall k | k in ids :: w.tasks[k].status.ErrorReported?
  {
    hide Core, RankGroup, LoadGroup;
    LoadedRows(cfg, w, ids);
    assert ids[0] in ids && ids[1] in ids && ids[2] in ids;
    RankedGroup(w.tasks, ids);
  }

  // Later rows of a group that was stuck: each as it stood, or further on, and still of one type.
  lemma StuckRowsLater(tasks: map<Key, Task>, tasks': map<Key, Task>, ids: TaskId)
    requires StuckRows(tasks, ids) && Evolves(tasks, tasks')
    ensures forall k | k in ids :: k in tasks' && (tasks'[k].status.ErrorReported? ==> tasks'[k] == tasks[k])
    ensures forall j, k | j in ids && k in ids :: tasks'[j].kind == tasks'[k].kind
  {
    forall k | k in ids ensures k in tasks' && Precedes(tasks[k], tasks'[k]) {}
  }

  lemma LoosenedLoads(w: World, w': World, ids: TaskId)
    requires StuckRows(w.tasks, ids) && Evolves(w.tasks, w'.tasks)
    requires forall k | k in ids :: k in w'.tasks && w'.tasks[k].taskId.None?
    requires forall k | k in ids :: k in w'.tasks && (w'.tasks[k].status.ErrorReported? ||
               (w'.tasks[k].status.EndAborted? && !w'.tasks[k].reason.CreatorValidationTimeout?))
    ensures LoadGroup(w', ids).Ok?
  {
    hide Precedes;
    StuckRowsLater(w.tasks, w'.tasks, ids);
    assert ids[0] in ids && ids[1] in ids && ids[2] in ids;
  }

  lemma LoadedNotExpired(w: World, ids: TaskId)
    requires LoadGroup(w, ids).Ok? && forall k | k in ids :: k in w.tasks
    ensures forall k | k in ids :: !(w.tasks[k].status.EndAborted? && w.tasks[k].reason.CreatorValidationTimeout?)
  {
    assert ids[0] in ids && ids[1] in ids && ids[2] in ids;
    var ts := [w.tasks[ids[0]], w.tasks[ids[1]], w.tasks[ids[2]]];
    forall k | k in ids ensures w.tasks[k] in ts {}
  }

  /** Once a group is stuck, a later request decides it exactly when it has not been decided, a member has been aborted
      meanwhile, every other still stands failed or aborted, and none for the creator's delay. */
  lemma FreedIff(cfg: Config, w: World, w': World, ids: TaskId, now: int, passive: bool, splits: Splits,
                 kicked: set<Key>)
    requires StuckRows(w.tasks, ids) && Evolves(w.tasks, w'.tasks) && Inv(cfg, w') && OneId(w'.tasks, ids)
    ensures ValidateGroup(cfg, w', ids, now, passive, splits, kicked).Ok? <==> Loosened(w'.tasks, ids)
  {
    hide Inv, Precedes, Evolves, RankGroup, ApplyVerdicts, Validation.Decide, Validation.Stuck, LoadGroup, Applied;
    StuckRowsLater(w.tasks, w'.tasks, ids);
    if LoadGroup(w', ids).Ok? {
      var ts := LoadedGroup(w', ids);
      ValidateGroupIff(cfg, w', ids, ts, now, passive, splits, kicked);
      RowsStuckIff(cfg, w', ids, ts);
      LoadedRows(cfg, w', ids);
      LoadedNotExpired(w', ids);
      NotScored(w.tasks, w'.tasks, ids);
    } else if Loosened(w'.tasks, ids) {
      LoosenedLoads(w, w', ids);
    }
  }

  // A failed task never becomes one with a score to compare.
  lemma NotScored(tasks: map<Key, Task>, tasks': map<Key, Task>, ids: TaskId)
    requires StuckRows(tasks, ids) && Evolves(tasks, tasks')
    ensures forall k | k in ids :: k in tasks' && !tasks'[k].status.ScoreReady?
  {
    forall k | k in ids ensures k in tasks' && Precedes(tasks[k], tasks'[k]) {}
  }

  /** While all three stand failed the group loads and the request is refused, after the refunds of the two fastest
      members have been posted to the cache. */
  lemma StuckIsRefused(cfg: Config, w: World, ids: TaskId, now: int, passive: bool, splits: Splits, kicked: set<Key>)
    returns (ts: seq<Task>)
    requires Inv(cfg, w) && StuckRows(w.tasks, ids)
    ensures Loaded(w, ids, ts) && |ts| == 3
    ensures ValidateGroup(cfg, w, ids, now, passive, splits, kicked).Err?
    ensures GroupLeftover(cfg, w, ids, now, passive, splits, kicked) == [RefundEvent(ts[0]), RefundEvent(ts[1])]
    ensures Leaks(w, ValidateTasks(ids, now, passive, splits, kicked)) <==> ts[0].fee + ts[1].fee > 0
    ensures forall t | t in ts ::
              t.key in ids && t.key in w.tasks && t.creator == w.tasks[t.key].creator && t.fee == w.tasks[t.key].fee
  {
    hide Inv, ValidateGroup, LoadGroup, GroupLeftover, RankGroup, Validation.Stuck, StuckRows, Leaks, Applied, Loaded;
    StuckLoads(cfg, w, ids);
    ts := LoadedGroup(w, ids);
    LoadedIsThree(w, ids, ts);
    StuckRowsStuck(cfg, w, ids, ts);
    ValidateGroupIff(cfg, w, ids, ts, now, passive, splits, kicked);
    StuckLeftover(cfg, w, ids, ts, now, passive, splits, kicked);
    RankedMembers(cfg, w, ids, ts);
    LeaksLoaded(w, ids, ts, now, passive, splits, kicked);
  }

  lemma LoadedIsThree(w: World, ids: TaskId, ts: seq<Task>)
    requires Loaded(w, ids, ts)
    ensures |ts| == 3
  {
    hide LoadGroup, RankGroup;
  }

  lemma LeaksLoaded(w: World, ids: TaskId, ts: seq<Task>, now: int, passive: bool, splits: Splits, kicked: set<Key>)
    requires Loaded(w, ids, ts) && |ts| == 3
    ensures Leaks(w, ValidateTasks(ids, now, passive, splits, kicked)) <==>
              Validation.Stuck(ts) && ts[0].fee + ts[1].fee > 0
  {
    hide LoadGroup, RankGroup, Validation.Stuck;
  }

  lemma StuckLoads(cfg: Config, w: World, ids: TaskId)
    requires Inv(cfg, w) && StuckRows(w.tasks, ids)
    ensures LoadGroup(w, ids).Ok?
  {
    hide Inv, LoadGroup, Evolves;
    EvolvesRefl(w.tasks);
    StuckUnrevealed(cfg, w, ids);
    LoosenedLoads(w, w, ids);
  }

  lemma StuckRowsStuck(cfg: Config, w: World, ids: TaskId, ts: seq<Task>)
    requires Inv(cfg, w) && StuckRows(w.tasks, ids) && Loaded(w, ids, ts) && |ts| == 3
    ensures Validation.Stuck(ts)
  {
    hide Inv, LoadGroup, RankGroup, Validation.Stuck;
    RowsStuckIff(cfg, w, ids, ts);
  }

  lemma RankedMembers(cfg: Config, w: World, ids: TaskId, ts: seq<Task>)
    requires Inv(cfg, w) && Loaded(w, ids, ts) && |ts| == 3
    ensures forall t | t in ts ::
              t.key in ids && t.key in w.tasks && t.creator == w.tasks[t.key].creator && t.fee == w.tasks[t.key].fee
  {
    hide Core, LoadGroup, RankGroup;
    LoadedRows(cfg, w, ids);
    assert ids[0] in ids && ids[1] in ids && ids[2] in ids;
    RankedGroup(w.tasks, ids);
  }

  lemma StuckUnrevealed(cfg: Config, w: World, ids: TaskId)
    requires Inv(cfg, w) && StuckRows(w.tasks, ids)
    ensures forall k | k in ids :: w.tasks[k].taskId.None? && w.tasks[k].key == k
  {
    hide NodeLink, Settled, EventsOk, GroupsOk, DeadlineAt;
    KeysMatch(w);
    forall k | k in ids ensures w.tasks[k].taskId.None? {
      assert RowOk(cfg, w.tasks[k]);
    }
  }

  /** Over every continuation of a run in which the group was stuck. */
  lemma StuckUntilFreed(cfg: Config, s0: State, steps: seq<Step>, more: seq<Step>, ids: TaskId,
                        now: int, passive: bool, splits: Splits, kicked: set<Key>)
    requires Initial(s0) && StuckRows(Run(cfg, s0, steps).w.tasks, ids)
    requires OneId(Run(cfg, s0, steps + more).w.tasks, ids)
    ensures var w := Run(cfg, s0, steps + more).w;
            ValidateGroup(cfg, w, ids, now, passive, splits, kicked).Ok? <==> Loosened(w.tasks, ids)
  {
    hide Next, Inv, OthersOk, ValidateGroup, StuckRows, Loosened, Evolves, OneId;
    InitialKeeps(cfg, s0);
    RunKeeps(cfg, s0, steps);
    RunKeeps(cfg, Run(cfg, s0, steps), more);
    RunConcat(cfg, s0, steps, more);
    FreedIff(cfg, Run(cfg, s0, steps).w, Run(cfg, s0, steps + more).w, ids, now, passive, splits, kicked);
  }

  // ---------- Which transactions free it ----------

  // Slashing a member's node, or aborting a member for another reason than the creator's delay.
  predicate Frees(tasks: map<Key, Task>, h: Handler, ids: TaskId)
    requires forall k | k in ids :: k in tasks
  {
    match h
    case Slash(a) => exists k | k in ids :: tasks[k].selected == Some(a)
    case AbortTask(t, reason, _, _) => t.key in ids && !reason.CreatorValidationTimeout?
    case _ => false
  }

  // A request that reveals the members only together, if at all.
  predicate Together(h: Handler, ids: TaskId) {
    match h
    case ValidateTask(t, _, _, _) => t.key !in ids
    case ValidateTasks(others, _, _, _, _) => others == ids || forall k | k in ids :: k !in others
    case _ => true
  }

  predicate Keyed(tasks: map<Key, Task>) {
    forall k | k in tasks :: tasks[k].key == k
  }

  // Every failed row stands.
  predicate FailedStand(tasks: map<Key, Task>, tasks': map<Key, Task>) {
    forall k | k in tasks && tasks[k].status.ErrorReported? :: k in tasks' && tasks'[k] == tasks[k]
  }

  // Every failed row stands, but for k.
  predicate OthersStand(tasks: map<Key, Task>, tasks': map<Key, Task>, k: Key) {
    forall j | j in tasks && j != k && tasks[j].status.ErrorReported? :: j in tasks' && tasks'[j] == tasks[j]
  }

  lemma StandingIsStuck(w: World, tasks': map<Key, Task>, ids: TaskId)
    requires StuckRows(w.tasks, ids) && FailedStand(w.tasks, tasks')
    ensures !Loosened(tasks', ids)
  {}

  lemma StartStands(cfg: Config, w: World, t: Task, a: Addr, now: int, computed: nat, files: seq<Byte>)
    requires Start(cfg, w, t, a, now, computed, files).Ok? && Keyed(w.tasks)
    ensures FailedStand(w.tasks, Start(cfg, w, t, a, now, computed, files).value.tasks)
  {}

  lemma ScoreStands(cfg: Config, w: World, t: Task, score: seq<Byte>, now: int)
    requires ReportScore(cfg, w, t, score, now).Ok? && Keyed(w.tasks)
    ensures FailedStand(w.tasks, ReportScore(cfg, w, t, score, now).value.tasks)
  {}

  lemma ErrorStands(cfg: Config, w: World, t: Task, now: int)
    requires ReportError(cfg, w, t, now).Ok? && Keyed(w.tasks)
    ensures FailedStand(w.tasks, ReportError(cfg, w, t, now).value.tasks)
  {}

  lemma UploadStands(cfg: Config, w: World, t: Task, splits: Splits, kickout: bool)
    requires Succeed(cfg, w, t, splits, kickout).Ok? && Keyed(w.tasks)
    ensures FailedStand(w.tasks, Succeed(cfg, w, t, splits, kickout).value.tasks)
  {
    hide GroupRows, Payees, Settlement.GroupPayments, PaymentEvents;
  }

  lemma AskStands(w: World, a: Addr, request: NodeRequest)
    requires RequestNode(w, a, request).Ok?
    ensures FailedStand(w.tasks, RequestNode(w, a, request).value.tasks)
  {}

  lemma AbortReaches(cfg: Config, w: World, t: Task, splits: Splits, kickout: bool)
    requires Abort(cfg, w, t, splits, kickout).Ok? && t.key in w.tasks && !t.status.EndAborted? && Keyed(w.tasks)
    ensures var tasks' := Abort(cfg, w, t, splits, kickout).value.tasks;
            && OthersStand(w.tasks, tasks', t.key) && t.key in tasks' && tasks'[t.key] == AbortedRow(w.tasks[t.key], t)
  {
    hide Settlement.IncomeEvents;
  }

  lemma AcceptStands(cfg: Config, w: World, t: Task, to: TaskStatus, now: int)
    requires Accept(cfg, w, t, to, now).Ok? && Keyed(w.tasks)
    ensures FailedStand(w.tasks, Accept(cfg, w, t, to, now).value.tasks)
  {}

  lemma ValidateReaches(cfg: Config, w: World, t: Task, now: int, splits: Splits, kickout: bool)
    requires ValidateSingle(cfg, w, t, now, splits, kickout).Ok? && t.key in w.tasks && Keyed(w.tasks)
    ensures var tasks' := ValidateSingle(cfg, w, t, now, splits, kickout).value.tasks;
            OthersStand(w.tasks, tasks', t.key)
  {
    hide Accept, Abort;
    var id := Some([t.key]);
    if t.status.ScoreReady? {
      AcceptStands(cfg, w, t.(taskId := id), Validated, now);
    } else {
      AbortReaches(cfg, w, t.(taskId := id, reason := TaskErrorReported, validatedTime := Some(now)), splits, kickout);
    }
  }

  lemma GroupReaches(cfg: Config, w: World, others: TaskId, now: int, passive: bool, splits: Splits, kicked: set<Key>)
    requires Inv(cfg, w) && ValidateGroup(cfg, w, others, now, passive, splits, kicked).Ok?
    ensures var tasks' := ValidateGroup(cfg, w, others, now, passive, splits, kicked).value.tasks;
            forall k | k in w.tasks :: k in tasks' && (tasks'[k] == w.tasks[k] || tasks'[k].taskId.Some?)
  {
    hide Inv, RankGroup, LoadGroup, ApplyVerdicts, Validation.Decide, Validation.Stuck, Ranked, Applied, Loaded;
    var ts := LoadedGroup(w, others);
    LoadedIsThree(w, others, ts);
    AreRanked(cfg, w, others, ts);
    ValidateGroupIff(cfg, w, others, ts, now, passive, splits, kicked);
    AppliedReveals(w, ValidateGroup(cfg, w, others, now, passive, splits, kicked).value, others, ts,
                   cfg.distanceThreshold);
  }

  lemma AreRanked(cfg: Config, w: World, ids: TaskId, ts: seq<Task>)
    requires Inv(cfg, w) && Loaded(w, ids, ts) && |ts| == 3
    ensures forall k | k in ids :: k == ts[0].key || k == ts[1].key || k == ts[2].key
  {
    hide Core, RankGroup, LoadGroup, Ranked;
    LoadedRows(cfg, w, ids);
    assert ids[0] in ids && ids[1] in ids && ids[2] in ids;
    RankedGroup(w.tasks, ids);
  }

  lemma AppliedReveals(w: World, w': World, ids: TaskId, ts: seq<Task>, threshold: nat)
    requires |ts| == 3 && Applied(w, w', ids, ts, threshold)
    requires forall k | k in ids :: k == ts[0].key || k == ts[1].key || k == ts[2].key
    ensures forall k | k in w.tasks :: k in w'.tasks && (w'.tasks[k] == w.tasks[k] || w'.tasks[k].taskId.Some?)
  {
    hide Forward, Validation.Next;
    assert Reached(w'.tasks[ts[0].key], ids, Validation.Next(ts, 0, threshold));
    assert Reached(w'.tasks[ts[1].key], ids, Validation.Next(ts, 1, threshold));
    assert Reached(w'.tasks[ts[2].key], ids, Validation.Next(ts, 2, threshold));
  }

  lemma SlashReaches(cfg: Config, w: World, a: Addr, ids: TaskId)
    requires Inv(cfg, w) && StuckRows(w.tasks, ids) && SlashNode(w, a).Ok?
    ensures var tasks' := SlashNode(w, a).value.tasks;
            forall k | k in ids :: k in tasks' &&
              tasks'[k] == if w.tasks[k].selected == Some(a) then SlashedRow(w.tasks[k]) else w.tasks[k]
  {
    hide RowsOk, Settled, EventsOk, GroupsOk, SlashVestings;
    var tasks' := SlashNode(w, a).value.tasks;
    assert NodeLink(w.tasks, a, w.nodes[a]);
    forall k | k in ids ensures k in tasks' &&
        tasks'[k] == if w.tasks[k].selected == Some(a) then SlashedRow(w.tasks[k]) else w.tasks[k]
    {
      assert TaskLink(w.nodes, k, w.tasks[k]);
    }
  }

  lemma LoosenedBy(w: World, tasks': map<Key, Task>, ids: TaskId, k: Key, u: Task)
    requires StuckRows(w.tasks, ids) && k in ids && OthersStand(w.tasks, tasks', k) && k in tasks' && tasks'[k] == u
    requires forall j | j in ids :: w.tasks[j].taskId.None?
    ensures Loosened(tasks', ids) <==> u.taskId.None? && u.status.EndAborted? && !u.reason.CreatorValidationTimeout?
  {}

  /** Of all the transactions that can follow, on whatever stale copies, exactly those free a stuck group at once. */
  lemma TransactFreesIff(cfg: Config, w: World, h: Handler, ids: TaskId)
    requires Inv(cfg, w) && StuckRows(w.tasks, ids) && (forall t | t in Copies(h) :: Stale(w, t))
    requires Transact(cfg, w, h).Ok? && Together(h, ids)
    ensures Loosened(Transact(cfg, w, h).value.tasks, ids) <==> Frees(w.tasks, h, ids)
  {
    KeysMatch(w);
    hide Inv, Start, ReportScore, ReportError, ValidateSingle, ValidateGroup, Abort, Succeed, SlashNode, RequestNode,
         StuckRows, Loosened, FailedStand, OthersStand, Precedes;
    StuckUnrevealed(cfg, w, ids);
    var tasks' := Transact(cfg, w, h).value.tasks;
    match h
    case StartTask(t, a, now, computed, files) =>
      StartStands(cfg, w, t, a, now, computed, files);
      StandingIsStuck(w, tasks', ids);
    case SubmitScore(t, score, now) =>
      ScoreStands(cfg, w, t, score, now);
      StandingIsStuck(w, tasks', ids);
    case SubmitError(t, now) =>
      ErrorStands(cfg, w, t, now);
      StandingIsStuck(w, tasks', ids);
    case ValidateTask(t, now, splits, kickout) =>
      assert Stale(w, t);
      ValidateReaches(cfg, w, t, now, splits, kickout);
      OthersAreAll(w, tasks', ids, t.key);
    case ValidateTasks(others, now, passive, splits, kicked) =>
      GroupReaches(cfg, w, others, now, passive, splits, kicked);
      RevealedGroupStaysStuck(w, tasks', ids);
    case AbortTask(t, reason, splits, kickout) =>
      assert Stale(w, t);
      AbortFreesIff(cfg, w, t, reason, splits, kickout, ids);
    case UploadResult(t, splits, kickout) =>
      UploadStands(cfg, w, t, splits, kickout);
      StandingIsStuck(w, tasks', ids);
    case Slash(a) =>
      SlashReaches(cfg, w, a, ids);
      SlashFreesIff(w, tasks', a, ids);
    case AskNode(a, request) =>
      AskStands(w, a, request);
      StandingIsStuck(w, tasks', ids);
  }

  lemma RevealedGroupStaysStuck(w: World, tasks': map<Key, Task>, ids: TaskId)
    requires StuckRows(w.tasks, ids)
    requires forall k | k in w.tasks :: k in tasks' && (tasks'[k] == w.tasks[k] || tasks'[k].taskId.Some?)
    ensures !Loosened(tasks', ids)
  {}

  lemma SlashFreesIff(w: World, tasks': map<Key, Task>, a: Addr, ids: TaskId)
    requires StuckRows(w.tasks, ids) && forall j | j in ids :: w.tasks[j].taskId.None?
    requires forall k | k in ids :: k in tasks' &&
               tasks'[k] == if w.tasks[k].selected == Some(a) then SlashedRow(w.tasks[k]) else w.tasks[k]
    ensures Loosened(tasks', ids) <==> exists k | k in ids :: w.tasks[k].selected == Some(a)
  {}

  lemma AbortFreesIff(cfg: Config, w: World, t: Task, reason: AbortReason, splits: Splits, kickout: bool, ids: TaskId)
    requires StuckRows(w.tasks, ids) && (forall j | j in ids :: w.tasks[j].taskId.None?) && Stale(w, t) &&
               Keyed(w.tasks)
    requires Abort(cfg, w, t.(reason := reason), splits, kickout).Ok?
    ensures var tasks' := Abort(cfg, w, t.(reason := reason), splits, kickout).value.tasks;
            Loosened(tasks', ids) <==> t.key in ids && !reason.CreatorValidationTimeout?
  {
    hide Abort, Loosened, FailedStand, OthersStand;
    var tasks' := Abort(cfg, w, t.(reason := reason), splits, kickout).value.tasks;
    if t.status.EndAborted? {
      AbortedAlready(cfg, w, t.(reason := reason), splits, kickout);
      StandingIsStuck(w, tasks', ids);
    } else {
      AbortReaches(cfg, w, t.(reason := reason), splits, kickout);
      if t.key in ids {
        AbortCas(cfg, w, t.(reason := reason), splits, kickout);
        LoosenedBy(w, tasks', ids, t.key, tasks'[t.key]);
      } else {
        OthersAreAll(w, tasks', ids, t.key);
      }
    }
  }

  lemma AbortedAlready(cfg: Config, w: World, t: Task, splits: Splits, kickout: bool)
    requires t.status.EndAborted?
    ensures Abort(cfg, w, t, splits, kickout).Ok?
    ensures FailedStand(w.tasks, Abort(cfg, w, t, splits, kickout).value.tasks)
  {}

  lemma AbortCas(cfg: Config, w: World, t: Task, splits: Splits, kickout: bool)
    requires Abort(cfg, w, t, splits, kickout).Ok? && !t.status.EndAborted?
    ensures Cas(w, t) && !Terminal(t.status)
  {}

  lemma OthersAreAll(w: World, tasks': map<Key, Task>, ids: TaskId, k: Key)
    requires StuckRows(w.tasks, ids) && k !in ids && OthersStand(w.tasks, tasks', k)
    ensures !Loosened(tasks', ids)
  {}

  // ---------- A reachable stuck group ----------

  function NewPaid(cfg: Config, k: Key, c: Addr, fee: nat): Task {
    NewTask(cfg, k, c, fee, SD, None, 0, 0)
  }

  // A task of the creator c, started on the node a and failed.
  function StartedPaid(cfg: Config, k: Key, c: Addr, fee: nat, a: Addr): Task {
    StartedRow(NewPaid(cfg, k, c, fee), a, 0, 0, [])
  }

  function FailedPaid(cfg: Config, k: Key, c: Addr, fee: nat, a: Addr): (r: Task)
    ensures r.key == k && r.creator == c && r.fee == fee && r.status.ErrorReported? && r.kind == SD && r.files == []
  {
    var t := StartedPaid(cfg, k, c, fee, a);
    ReportedRow(t, ErrorReported, [], 0, TransitionDeadline(cfg, t, ErrorReported, 0))
  }

  lemma RunSnoc(cfg: Config, s: State, steps: seq<Step>, step: Step)
    ensures Run(cfg, s, steps + [step]) == Next(cfg, Run(cfg, s, steps), step)
    ensures LeakFree(cfg, s, steps + [step]) <==> LeakFree(cfg, s, steps) && !LeaksAt(Run(cfg, s, steps), step)
  {
    hide Next, LeakFree, LeaksAt;
    assert (steps + [step])[..|steps|] == steps;
    LeakFreeSnoc(cfg, s, steps + [step]);
  }

  predicate SameLedger(s: State, s': State) {
    s'.w.log == s.w.log && s'.db == s.db && s'.mark == s.mark && s'.rejected == s.rejected
  }

  // A node joins, takes a new task of c and reports its failure.
  lemma FailOne(cfg: Config, s0: State, before: seq<Step>, k: Key, c: Addr, fee: nat, a: Addr)
    returns (steps: seq<Step>)
    requires LeakFree(cfg, s0, before)
    requires k !in Run(cfg, s0, before).w.tasks && a !in Run(cfg, s0, before).w.nodes
    requires Cached(Run(cfg, s0, before).db, Run(cfg, s0, before).cache, c) >= fee
    ensures var s, s' := Run(cfg, s0, before), Run(cfg, s0, steps);
            && LeakFree(cfg, s0, steps)
            && s'.w.tasks == s.w.tasks[k := FailedPaid(cfg, k, c, fee, a)]
            && s'.w.nodes == s.w.nodes[a := Node(Busy, Some(k))]
            && s'.w.log == s.w.log + [Event(TaskPayment(k), c, fee)]
            && s'.db == s.db && s'.mark == s.mark && s'.rejected == s.rejected
  {
    hide Run, Next, LeakFree, FailedPaid, StartedPaid, NewPaid, SameLedger, Cached;
    var t, u := NewPaid(cfg, k, c, fee), StartedPaid(cfg, k, c, fee, a);
    var create := CreateTask(k, c, fee, SD, None, 0, 0);
    var one := before + [Handle(AskNode(a, Join))];
    RunSnoc(cfg, s0, before, Handle(AskNode(a, Join)));
    Joins(cfg, Run(cfg, s0, before), a, c);
    var two := one + [create];
    RunSnoc(cfg, s0, one, create);
    Creates(cfg, Run(cfg, s0, one), k, c, fee);
    var three := two + [ReadTask(k)];
    RunSnoc(cfg, s0, two, ReadTask(k));
    Reads(cfg, Run(cfg, s0, two), k);
    var four := three + [Handle(StartTask(t, a, 0, 0, []))];
    RunSnoc(cfg, s0, three, Handle(StartTask(t, a, 0, 0, [])));
    Starts(cfg, Run(cfg, s0, three), k, c, fee, a);
    var five := four + [ReadTask(k)];
    RunSnoc(cfg, s0, four, ReadTask(k));
    Reads(cfg, Run(cfg, s0, four), k);
    steps := five + [Handle(SubmitError(u, 0))];
    RunSnoc(cfg, s0, five, Handle(SubmitError(u, 0)));
    Fails(cfg, Run(cfg, s0, five), k, c, fee, a);
    SameLedgers(Run(cfg, s0, before), Run(cfg, s0, one));
    SameLedgers(Run(cfg, s0, two), Run(cfg, s0, three));
    SameLedgers(Run(cfg, s0, three), Run(cfg, s0, four));
    SameLedgers(Run(cfg, s0, four), Run(cfg, s0, five));
    SameLedgers(Run(cfg, s0, five), Run(cfg, s0, steps));
  }

  lemma SameLedgers(s: State, s': State)
    requires SameLedger(s, s')
    ensures s'.w.log == s.w.log && s'.db == s.db && s'.mark == s.mark && s'.rejected == s.rejected
  {}

  lemma Joins(cfg: Config, s: State, a: Addr, c: Addr)
    requires a !in s.w.nodes
    ensures var s' := Next(cfg, s, Handle(AskNode(a, Join)));
            && s'.w == SetNode(s.w, a, Node(Available, None)) && SameLedger(s, s')
            && Cached(s'.db, s'.cache, c) == Cached(s.db, s.cache, c)
  {}

  lemma Creates(cfg: Config, s: State, k: Key, c: Addr, fee: nat)
    requires k !in s.w.tasks && Cached(s.db, s.cache, c) >= fee
    ensures var s' := Next(cfg, s, CreateTask(k, c, fee, SD, None, 0, 0));
            && s'.w.nodes == s.w.nodes && s'.w.tasks == s.w.tasks[k := NewPaid(cfg, k, c, fee)]
            && s'.w.log == s.w.log + [Event(TaskPayment(k), c, fee)]
            && s'.db == s.db && s'.mark == s.mark && s'.rejected == s.rejected
  {}

  lemma Reads(cfg: Config, s: State, k: Key)
    requires k in s.w.tasks
    ensures var s' := Next(cfg, s, ReadTask(k)); s'.w == s.w && s.w.tasks[k] in s'.seen && SameLedger(s, s')
  {}

  lemma Starts(cfg: Config, s: State, k: Key, c: Addr, fee: nat, a: Addr)
    requires k in s.w.tasks && s.w.tasks[k] == NewPaid(cfg, k, c, fee) && NewPaid(cfg, k, c, fee) in s.seen
    requires a in s.w.nodes && s.w.nodes[a] == Node(Available, None)
    ensures var s' := Next(cfg, s, Handle(StartTask(NewPaid(cfg, k, c, fee), a, 0, 0, [])));
            && s'.w.tasks == s.w.tasks[k := StartedPaid(cfg, k, c, fee, a)]
            && s'.w.nodes == s.w.nodes[a := Node(Busy, Some(k))] && SameLedger(s, s')
  {}

  lemma Fails(cfg: Config, s: State, k: Key, c: Addr, fee: nat, a: Addr)
    requires k in s.w.tasks && s.w.tasks[k] == StartedPaid(cfg, k, c, fee, a)
    requires StartedPaid(cfg, k, c, fee, a) in s.seen
    requires a in s.w.nodes && s.w.nodes[a] == Node(Busy, Some(k))
    ensures var s' := Next(cfg, s, Handle(SubmitError(StartedPaid(cfg, k, c, fee, a), 0)));
            && s'.w.tasks == s.w.tasks[k := FailedPaid(cfg, k, c, fee, a)]
            && s'.w.nodes == s.w.nodes && SameLedger(s, s')
  {}

  // What a creator has left after paying.
  lemma CachedAfter(cfg: Config, s0: State, steps: seq<Step>, c: Addr)
    requires Initial(s0) && LeakFree(cfg, s0, steps)
    ensures var s := Run(cfg, s0, steps); Cached(s.db, s.cache, c) == Bal(s0.db, c) + Net(s.w.log, c)
  {
    hide Initial, Run, LeakFree, Net, Cached, Bal;
    CacheIsLedgerIff(cfg, s0, steps);
  }

  lemma NetSnoc(es: seq<Event>, e: Event, a: Addr)
    ensures Net(es + [e], a) == Net(es, a) + if e.address == a then Signed(e) else 0
  {
    assert (es + [e])[..|es|] == es;
  }

  // The payments for the tasks 0, 1, 2.
  function Payments(c: Addr, fee: nat): seq<Event> {
    [Event(TaskPayment(0), c, fee), Event(TaskPayment(1), c, fee), Event(TaskPayment(2), c, fee)]
  }

  function FailedTasks(cfg: Config, c: Addr, fee: nat): map<Key, Task> {
    map[0 := FailedPaid(cfg, 0, c, fee, "a"),
        1 := FailedPaid(cfg, 1, c, fee, "b"),
        2 := FailedPaid(cfg, 2, c, fee, "c")]
  }

  lemma FailThree(cfg: Config, s0: State, c: Addr, fee: nat) returns (steps: seq<Step>)
    requires Initial(s0) && Bal(s0.db, c) >= 3 * fee
    ensures var s := Run(cfg, s0, steps);
            && LeakFree(cfg, s0, steps) && s.w.tasks == FailedTasks(cfg, c, fee)
            && s.w.log == Payments(c, fee) && s.db == s0.db && s.mark == 0 && s.rejected == []
  {
    hide Run, Next, FailedPaid, RelayInv, Initial, LeakFree, Net, Cached, Bal;
    var e0, e1 := Event(TaskPayment(0), c, fee), Event(TaskPayment(1), c, fee);
    RunEmpty(cfg, s0);
    CachedAfter(cfg, s0, [], c);
    steps := FailOne(cfg, s0, [], 0, c, fee, "a");
    NetSnoc([], e0, c);
    assert [] + [e0] == [e0];
    CachedAfter(cfg, s0, steps, c);
    steps := FailOne(cfg, s0, steps, 1, c, fee, "b");
    NetSnoc([e0], e1, c);
    CachedAfter(cfg, s0, steps, c);
    steps := FailOne(cfg, s0, steps, 2, c, fee, "c");
  }

  /** From any start at which a creator can pay three fees, a run ends in a stuck group of the creator's tasks: it
      loads, every request to decide it is refused, and each one posts two fees to the creator's cached balance. */
  lemma StuckGroupExists(cfg: Config, s0: State, c: Addr, fee: nat,
                         now: int, passive: bool, splits: Splits, kicked: set<Key>)
    returns (steps: seq<Step>)
    requires Initial(s0) && Bal(s0.db, c) >= 3 * fee
    ensures var s := Run(cfg, s0, steps);
            && LeakFree(cfg, s0, steps) && StuckRows(s.w.tasks, [0, 1, 2]) && s.w.tasks.Keys == {0, 1, 2}
            && s.w.log == Payments(c, fee) && s.db == s0.db && s.mark == 0 && s.rejected == []
            && LoadGroup(s.w, [0, 1, 2]).Ok?
            && ValidateGroup(cfg, s.w, [0, 1, 2], now, passive, splits, kicked).Err?
            && Net(GroupLeftover(cfg, s.w, [0, 1, 2], now, passive, splits, kicked), c) == 2 * fee
            && (Leaks(s.w, ValidateTasks([0, 1, 2], now, passive, splits, kicked)) <==> fee > 0)
  {
    hide Run, Initial, FailedPaid, ValidateGroup, LoadGroup, RankGroup, RelayInv, StuckRows, GroupLeftover,
         LeakFree, Leaks, Net, Bal, Inv, Payments, FailedTasks;
    steps := FailThree(cfg, s0, c, fee);
    var w := Run(cfg, s0, steps).w;
    ThreeFailed(cfg, c, fee);
    RunInOrder(cfg, s0, steps);
    var ts := StuckIsRefused(cfg, w, [0, 1, 2], now, passive, splits, kicked);
    assert ts[0] in ts && ts[1] in ts;
    NetOfTwo(RefundEvent(ts[0]), RefundEvent(ts[1]), c);
  }

  lemma ThreeFailed(cfg: Config, c: Addr, fee: nat)
    ensures var tasks := FailedTasks(cfg, c, fee);
            && StuckRows(tasks, [0, 1, 2]) && tasks.Keys == {0, 1, 2}
            && forall k | k in tasks :: tasks[k].creator == c && tasks[k].fee == fee
  {
    hide FailedPaid;
  }

  lemma RunInOrder(cfg: Config, s0: State, steps: seq<Step>)
    requires Initial(s0)
    ensures RelayInv(cfg, Run(cfg, s0, steps)) && Inv(cfg, Run(cfg, s0, steps).w)
  {
    hide Next;
    InitialKeeps(cfg, s0);
    RunKeeps(cfg, s0, steps);
  }

  lemma RunEmpty(cfg: Config, s0: State)
    requires Initial(s0)
    ensures Run(cfg, s0, []) == s0 && s0.w.tasks == map[] && s0.w.nodes == map[] && s0.w.log == []
    ensures s0.mark == 0 && s0.rejected == [] && LeakFree(cfg, s0, [])
    ensures forall a :: Net(s0.w.log, a) == 0
  {}
}

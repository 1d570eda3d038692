/** What the relay promises over every run from an empty pending queue. */
module Guarantees {
  import opened Basics
  import opened Model
  import opened Deadline
  import opened Lifecycle
  import opened Invariant
  import opened Vestings
  import opened Ledger
  import opened Audit
  import opened Steps
  import opened Rollback
  import opened Relay

  // ---------- Nodes and tasks ----------

  /** A node has a current task exactly when it is busy or pending; that task runs and selects it;
      and every running task is the current task of its node. */
  lemma NodesHoldRunningTasks(cfg: Config, s0: State, steps: seq<Step>)
    requires Initial(s0)
    ensures var w := Run(cfg, s0, steps).w;
            && (forall a | a in w.nodes ::
                  && (w.nodes[a].current.Some? <==> Holding(w.nodes[a].status))
                  && (w.nodes[a].current.Some? ==>
                        && w.nodes[a].current.value in w.tasks
                        && Running(w.tasks[w.nodes[a].current.value].status)
                        && w.tasks[w.nodes[a].current.value].selected == Some(a)))
            && (forall k | k in w.tasks && Running(w.tasks[k].status) ::
                  && w.tasks[k].selected.Some?
                  && w.tasks[k].selected.value in w.nodes
                  && w.nodes[w.tasks[k].selected.value].current == Some(k))
  {
    hide Next, RowsOk, Settled, EventsOk, GroupsOk, Chained, OthersOk, OnePending, Backed;
    InitialKeeps(cfg, s0);
    RunKeeps(cfg, s0, steps);
    var w := Run(cfg, s0, steps).w;
    forall a | a in w.nodes ensures NodeLink(w.tasks, a, w.nodes[a]) {}
    forall k | k in w.tasks ensures TaskLink(w.nodes, k, w.tasks[k]) {}
  }

  /** So no abort of a task that has not ended finds another task current on its node, however old the copy it
      works with; and an aborted task is current on no node, so its invalidation always fails. */
  lemma WrongNodeUnreachable(cfg: Config, s0: State, steps: seq<Step>, t: Task, now: int, passive: bool, kickout: bool)
    requires Initial(s0) && t in Run(cfg, s0, steps).seen
    ensures var w := Run(cfg, s0, steps).w;
            && t.key in w.tasks
            && (!Terminal(w.tasks[t.key].status) && t.selected.Some? ==> CheckSelected(w, t) == Ok(t.selected.value))
            && (t.status.EndAborted? ==> Invalidate(w, t, now, passive, kickout).Err?)
  {
    hide Next, RowsOk, Settled, EventsOk, GroupsOk, Chained, OthersOk, OnePending, Backed;
    InitialKeeps(cfg, s0);
    RunKeeps(cfg, s0, steps);
    var w := Run(cfg, s0, steps).w;
    assert Stale(w, t);
    assert TaskLink(w.nodes, t.key, w.tasks[t.key]);
    if t.status.EndAborted? && t.selected.Some? && t.selected.value in w.nodes {
      assert NodeLink(w.tasks, t.selected.value, w.nodes[t.selected.value]);
    }
  }

  /** However a run goes on, a task keeps its identity and fee, moves only forward, and never leaves
      a terminal status. */
  lemma TerminalIsFinal(cfg: Config, s0: State, steps: seq<Step>, more: seq<Step>, k: Key)
    requires Initial(s0) && k in Run(cfg, s0, steps).w.tasks
    ensures var w, w' := Run(cfg, s0, steps).w, Run(cfg, s0, steps + more).w;
            && k in w'.tasks
            && w'.tasks[k].creator == w.tasks[k].creator && w'.tasks[k].fee == w.tasks[k].fee
            && Rank(w.tasks[k].status) <= Rank(w'.tasks[k].status)
            && (Terminal(w.tasks[k].status) ==>
                  w'.tasks[k].status == w.tasks[k].status && w'.tasks[k].reason == w.tasks[k].reason)
  {
    hide RelayInv, Next;
    InitialKeeps(cfg, s0);
    RunKeeps(cfg, s0, steps);
    RunKeeps(cfg, Run(cfg, s0, steps), more);
    RunConcat(cfg, s0, steps, more);
    var w, w' := Run(cfg, s0, steps).w, Run(cfg, s0, steps + more).w;
    assert Precedes(w.tasks[k], w'.tasks[k]);
  }

  // ---------- Settlement ----------

  /** Every task is settled according to its status. */
  lemma SettledByStatus(cfg: Config, s0: State, steps: seq<Step>, k: Key)
    requires Initial(s0) && k in Run(cfg, s0, steps).w.tasks
    ensures var s := Run(cfg, s0, steps);
            var t, log := s.w.tasks[k], s.w.log;
            var refunds, incomes := Tally(log, TaskRefund(k)), Tally(log, TaskIncome(k));
            && Tally(log, TaskPayment(k)) == 1
            && (!Terminal(t.status) || t.status.EndInvalidated? ==> refunds == 0 && incomes == 0)
            && (t.status.EndSuccess? || t.status.EndGroupSuccess? ==> refunds == 0 && incomes == 1)
            && (t.status.EndAborted? ==>
                 refunds + incomes == 1 && (incomes == 1 <==> t.reason.CreatorValidationTimeout?))
            && (t.status.EndGroupRefund? ==>
                 refunds == 1 && (incomes == if GroupWon(s.w.tasks, t.taskId) then 1 else 0))
            && Tally(log, DaoTaskShare(k)) == incomes
            && (forall u :: Tally(log, UserDelegation(k, u)) <= incomes)
  {
    hide Next, RowsOk, EventsOk, GroupsOk, Chained, OthersOk, OnePending, Backed, NodeLink, Tally, GroupWon;
    InitialKeeps(cfg, s0);
    RunKeeps(cfg, s0, steps);
    var s := Run(cfg, s0, steps);
    assert SettledRow(s.w.tasks, s.w.log, s.w.tasks[k]);
    assert TaskLink(s.w.nodes, k, s.w.tasks[k]);
  }

  /** A task's events add up to minus its fee while the fee is out and to nothing once it is refunded or paid;
      an invalidated task's fee stays out; a member of a won group is up by its part of the group's payout,
      less the fee if it is the representative. */
  lemma FeesComeBack(cfg: Config, s0: State, steps: seq<Step>, k: Key)
    requires Initial(s0) && k in Run(cfg, s0, steps).w.tasks
    ensures var s := Run(cfg, s0, steps);
            var t, net := s.w.tasks[k], TaskNet(s.w.log, k);
            && (!Terminal(t.status) || t.status.EndInvalidated? ==> net == 0 - t.fee)
            && (t.status.EndSuccess? || t.status.EndAborted? ==> net == 0)
            && (t.status.EndGroupRefund? ==>
                  net == if GroupWon(s.w.tasks, t.taskId) then GroupIncome(s.w.tasks, t.taskId, k) else 0)
            && (t.status.EndGroupSuccess? ==> net == GroupIncome(s.w.tasks, t.taskId, k) - t.fee)
  {
    hide Next, RowsOk, EventsOk, GroupsOk, Chained, OthersOk, OnePending, Backed, NodeLink, Tally, TaskNet, GroupIncome;
    InitialKeeps(cfg, s0);
    RunKeeps(cfg, s0, steps);
    var s := Run(cfg, s0, steps);
    var t := s.w.tasks[k];
    assert SettledRow(s.w.tasks, s.w.log, t);
    assert TaskLink(s.w.nodes, k, t);
    RowInOrder(cfg, s.w, k);
    if t.status.EndGroupSuccess? {
      assert Won(s.w.tasks, t.taskId.value, k);
    }
  }

  lemma RowInOrder(cfg: Config, w: World, k: Key)
    requires RowsOk(cfg, w.tasks) && k in w.tasks
    ensures TaskIdOk(w.tasks[k])
  {
    assert RowOk(cfg, w.tasks[k]);
  }

  // ---------- The ledger ----------

  // What the steps of a run posted to the cache without logging it.
  function LeakedBy(cfg: Config, s0: State, steps: seq<Step>): seq<Event> {
    if steps == [] then [] else
      var front, last := steps[..|steps| - 1], steps[|steps| - 1];
      LeakedBy(cfg, s0, front) + Leaked(cfg, Run(cfg, s0, front), last)
  }

  // No request of the run met three failures of one task type of which the two fastest cost something.
  ghost predicate LeakFree(cfg: Config, s0: State, steps: seq<Step>) {
    forall n | 0 <= n < |steps| :: !LeaksAt(Run(cfg, s0, steps[..n]), steps[n])
  }

  lemma LeakFreeSnoc(cfg: Config, s0: State, steps: seq<Step>)
    requires steps != []
    ensures var m := |steps| - 1;
            LeakFree(cfg, s0, steps) <==> LeakFree(cfg, s0, steps[..m]) && !LeaksAt(Run(cfg, s0, steps[..m]), steps[m])
  {
    hide Run, LeaksAt;
    var m := |steps| - 1;
    forall n | 0 <= n < m ensures steps[..n] == steps[..m][..n] && steps[n] == steps[..m][n] {}
    if LeakFree(cfg, s0, steps) {
      forall n | 0 <= n < m ensures !LeaksAt(Run(cfg, s0, steps[..m][..n]), steps[..m][n]) {
        assert !LeaksAt(Run(cfg, s0, steps[..n]), steps[n]);
      }
    }
  }

  lemma LeakFreePrefix(cfg: Config, s0: State, steps: seq<Step>, n: nat)
    requires LeakFree(cfg, s0, steps) && n <= |steps|
    ensures LeakFree(cfg, s0, steps[..n])
  {
    hide Run, LeaksAt;
    forall k | 0 <= k < n ensures !LeaksAt(Run(cfg, s0, steps[..n][..k]), steps[..n][k]) {
      assert steps[..n][..k] == steps[..k];
    }
  }

  lemma StepLeaksIff(cfg: Config, s: State, step: Step)
    requires RelayInv(cfg, s)
    ensures forall a :: Net(Leaked(cfg, s, step), a) >= 0
    ensures LeaksAt(s, step) <==> SomeNet(Leaked(cfg, s, step))
  {
    hide RelayInv, Leaks, Leftover, Transact, SomeNet;
    InvOf(cfg, s);
    NoEvents();
    if step.Handle? {
      LeaksRefused(cfg, s.w, step.handler);
      if Copies(step.handler) != {} {
        NoCopiesNoLeak(s.w, step.handler);
      }
      if Transact(cfg, s.w, step.handler).Err? {
        LeftoverIff(cfg, s.w, step.handler);
      }
    }
  }

  lemma SomeNetConcat(es: seq<Event>, fs: seq<Event>)
    requires (forall a :: Net(es, a) >= 0) && forall a :: Net(fs, a) >= 0
    ensures forall a :: Net(es + fs, a) == Net(es, a) + Net(fs, a)
    ensures SomeNet(es + fs) <==> SomeNet(es) || SomeNet(fs)
  {
    hide Net;
    forall a ensures Net(es + fs, a) == Net(es, a) + Net(fs, a) {
      NetConcat(es, fs, a);
    }
    if SomeNet(es) {
      var a :| Net(es, a) > 0;
      assert Net(es + fs, a) > 0;
    }
    if SomeNet(fs) {
      var a :| Net(fs, a) > 0;
      assert Net(es + fs, a) > 0;
    }
  }

  /** From any state in order, a run moves the cache away from the ledger by exactly what its steps leaked, never
      down, and somewhere up exactly when one of them leaks. */
  lemma {:induction false} RunLeaks(cfg: Config, s0: State, steps: seq<Step>)
    requires RelayInv(cfg, s0)
    ensures forall a :: Drift(Run(cfg, s0, steps), a) == Drift(s0, a) + Net(LeakedBy(cfg, s0, steps), a)
    ensures forall a :: Net(LeakedBy(cfg, s0, steps), a) >= 0
    ensures LeakFree(cfg, s0, steps) <==> !SomeNet(LeakedBy(cfg, s0, steps))
  {
    hide RelayInv, Next, Drift, LeakFree, Leaked, LeaksAt, Balanced, SomeNet, Follows, Net;
    if steps == [] {
      NoSteps(cfg, s0);
    } else {
      var m := |steps| - 1;
      var front := steps[..m];
      var s := Run(cfg, s0, front);
      RunLeaks(cfg, s0, front);
      RunKeeps(cfg, s0, front);
      StepKeeps(cfg, s, steps[m]);
      StepLeaksIff(cfg, s, steps[m]);
      SomeNetConcat(LeakedBy(cfg, s0, front), Leaked(cfg, s, steps[m]));
      LeakFreeSnoc(cfg, s0, steps);
    }
  }

  lemma NoSteps(cfg: Config, s0: State)
    ensures LeakFree(cfg, s0, []) && !SomeNet(LeakedBy(cfg, s0, []))
    ensures forall a :: Net(LeakedBy(cfg, s0, []), a) == 0
  {}

  /** Over every run, each cached balance is the sum of all events since the start and of what refused group requests
      left in the cache; each database balance is the sum of the events folded and not rejected; nothing is negative. */
  lemma BalancesAddUp(cfg: Config, s0: State, steps: seq<Step>, a: Addr)
    requires Initial(s0)
    ensures var s := Run(cfg, s0, steps);
            && Cached(s.db, s.cache, a) == Bal(s0.db, a) + Net(s.w.log, a) + Net(LeakedBy(cfg, s0, steps), a)
            && Net(LeakedBy(cfg, s0, steps), a) >= 0
            && s.mark <= |s.w.log|
            && Bal(s.db, a) == Bal(s0.db, a) + Net(s.w.log[..s.mark], a) - Net(s.rejected, a)
            && Bal(s.db, a) >= 0 && Cached(s.db, s.cache, a) >= 0
  {
    hide Next, Inv, Chained, OthersOk, OnePending, LeakedBy, LeakFree;
    InitialKeeps(cfg, s0);
    RunKeeps(cfg, s0, steps);
    RunLeaks(cfg, s0, steps);
    var s := Run(cfg, s0, steps);
    assert Folded(s, a) == Folded(s0, a) && Drift(s, a) == Drift(s0, a) + Net(LeakedBy(cfg, s0, steps), a);
    InitialBooks(s0, a);
  }

  lemma InitialBooks(s0: State, a: Addr)
    requires Initial(s0)
    ensures Folded(s0, a) == Bal(s0.db, a) == Drift(s0, a)
  {
    assert s0.w.log[..0] == [];
  }

  /** So the cache is the sum of all events, at every address, exactly when no request of the run leaked. */
  lemma CacheIsLedgerIff(cfg: Config, s0: State, steps: seq<Step>)
    requires Initial(s0)
    ensures var s := Run(cfg, s0, steps);
            (forall a :: Cached(s.db, s.cache, a) == Bal(s0.db, a) + Net(s.w.log, a)) <==> LeakFree(cfg, s0, steps)
  {
    hide Initial, Run, LeakedBy, LeakFree, Net, Cached, Bal, RelayInv, Balanced;
    var s, leaked := Run(cfg, s0, steps), LeakedBy(cfg, s0, steps);
    InitialKeeps(cfg, s0);
    RunLeaks(cfg, s0, steps);
    forall a
      ensures Cached(s.db, s.cache, a) == Bal(s0.db, a) + Net(s.w.log, a) + Net(leaked, a) && Net(leaked, a) >= 0
    {
      BalancesAddUp(cfg, s0, steps, a);
    }
    if SomeNet(leaked) {
      var a :| Net(leaked, a) > 0;
      assert Cached(s.db, s.cache, a) != Bal(s0.db, a) + Net(s.w.log, a);
    } else {
      forall a ensures Cached(s.db, s.cache, a) == Bal(s0.db, a) + Net(s.w.log, a) {
        assert !(Net(leaked, a) > 0);
      }
    }
  }

  lemma {:induction false} LeakFreeBalanced(cfg: Config, s: State, steps: seq<Step>)
    requires RelayInv(cfg, s) && Balanced(s) && LeakFree(cfg, s, steps)
    ensures Balanced(Run(cfg, s, steps))
  {
    hide RelayInv, Next, Drift, LeakFree, LeaksAt, Balanced, Follows, Net;
    if steps != [] {
      var m := |steps| - 1;
      LeakFreeSnoc(cfg, s, steps);
      LeakFreeBalanced(cfg, s, steps[..m]);
      RunKeeps(cfg, s, steps[..m]);
      StepKeeps(cfg, Run(cfg, s, steps[..m]), steps[m]);
    }
  }

  /** Every state of a run has balanced books exactly when no request of it leaks. */
  lemma BooksBalanceIff(cfg: Config, s0: State, steps: seq<Step>)
    requires Initial(s0)
    ensures (forall n | 0 <= n <= |steps| :: Balanced(Run(cfg, s0, steps[..n]))) <==> LeakFree(cfg, s0, steps)
  {
    hide Initial, Run, RelayInv, Balanced, LeaksAt, Drift, Next, Follows;
    InitialKeeps(cfg, s0);
    if LeakFree(cfg, s0, steps) {
      forall n | 0 <= n <= |steps| ensures Balanced(Run(cfg, s0, steps[..n])) {
        LeakFreePrefix(cfg, s0, steps, n);
        LeakFreeBalanced(cfg, s0, steps[..n]);
      }
    }
    if forall n | 0 <= n <= |steps| :: Balanced(Run(cfg, s0, steps[..n])) {
      forall n | 0 <= n < |steps| ensures !LeaksAt(Run(cfg, s0, steps[..n]), steps[n]) {
        RunKeeps(cfg, s0, steps[..n]);
        StepKeeps(cfg, Run(cfg, s0, steps[..n]), steps[n]);
        RunNext(cfg, s0, steps, n);
        assert Balanced(Run(cfg, s0, steps[..n])) && Balanced(Run(cfg, s0, steps[..n + 1]));
      }
    }
  }

  lemma RunNext(cfg: Config, s0: State, steps: seq<Step>, n: nat)
    requires n < |steps|
    ensures Run(cfg, s0, steps[..n + 1]) == Next(cfg, Run(cfg, s0, steps[..n]), steps[n])
  {
    hide Next;
    assert steps[..n + 1][..n] == steps[..n];
  }

  /** Then the cache runs ahead of the database by the pending events, the database is the one at the start with the
      folded events applied one at a time, the validator rejected nothing, and it accepts whatever is pending. */
  lemma NothingIsRejected(cfg: Config, s0: State, steps: seq<Step>, n: nat)
    requires Initial(s0) && LeakFree(cfg, s0, steps) && n <= |Pending(Run(cfg, s0, steps))|
    ensures var s := Run(cfg, s0, steps);
            && (forall a :: Cached(s.db, s.cache, a) == Bal(s.db, a) + Net(Pending(s), a))
            && s.mark <= |s.w.log| && s.db == ApplyAll(s0.db, s.w.log[..s.mark])
            && s.rejected == []
            && Solvent(s.db, Pending(s))
            && Accepted(cfg, BooksOf(s), s.db, Pending(s)[..n]) == Pending(s)[..n]
  {
    hide Next, Inv, Chained, OthersOk, OnePending, Backed, Accepted, Solvent, SeenOk, LeakFree, ApplyAll;
    InitialKeeps(cfg, s0);
    RunKeeps(cfg, s0, steps);
    LeakFreeBalanced(cfg, s0, steps);
    var s := Run(cfg, s0, steps);
    BatchAccepted(cfg, s, n);
    assert s.w.log[0..s.mark] == s.w.log[..s.mark];
  }

  /** An event the lifecycle emitted passes the validator's task checks in every later state. */
  lemma EmittedStaysAdmissible(cfg: Config, s0: State, steps: seq<Step>, more: seq<Step>, i: nat)
    requires Initial(s0) && i < |Run(cfg, s0, steps).w.log| && TaskOf(Run(cfg, s0, steps).w.log[i].reason).Some?
    ensures var s, s' := Run(cfg, s0, steps), Run(cfg, s0, steps + more);
            i < |s'.w.log| && s'.w.log[i] == s.w.log[i] && Admissible(cfg, BooksOf(s'), s.w.log[i])
  {
    hide Next, Chained, OthersOk, OnePending, Backed, GroupsOk, Linked, RowsOk, Settled;
    InitialKeeps(cfg, s0);
    RunKeeps(cfg, s0, steps);
    RunKeeps(cfg, Run(cfg, s0, steps), more);
    RunConcat(cfg, s0, steps, more);
    var s, s' := Run(cfg, s0, steps), Run(cfg, s0, steps + more);
    assert s'.w.log[i] == s'.w.log[..|s.w.log|][i];
    assert TaskEventOk(s'.w.tasks, s'.w.log[i]);
  }

  // ---------- Vesting ----------

  /** A grant's releases are contiguous ranges from 0 to its released amount, add up to it, never exceed the
      grant, and reach it exactly when the grant is completed. */
  lemma ReleasesAreContiguous(cfg: Config, s0: State, steps: seq<Step>, id: nat)
    requires Initial(s0) && id in Run(cfg, s0, steps).w.vestings
    ensures var s := Run(cfg, s0, steps);
            var v := s.w.vestings[id];
            && Chain(s.w.log, id, v.released)
            && ReleasedBy(s.w.log, id) == v.released <= v.total
            && (v.status.Completed? <==> ReleasedBy(s.w.log, id) == v.total)
  {
    hide Next, Inv, OthersOk, OnePending, Backed, SeenOk;
    InitialKeeps(cfg, s0);
    RunKeeps(cfg, s0, steps);
    var s := Run(cfg, s0, steps);
    assert GrantOk(s.w.vestings[id]);
    assert Chain(s.w.log, id, ReleasedOf(s.w.vestings, id));
    ChainTotal(s.w.log, id, ReleasedOf(s.w.vestings, id));
  }

  /** At most one release of a grant is pending, and it ends at the released amount. */
  lemma OneReleasePending(cfg: Config, s0: State, steps: seq<Step>, i: nat)
    requires Initial(s0) && i < |Pending(Run(cfg, s0, steps))| && Pending(Run(cfg, s0, steps))[i].reason.VestingRelease?
    ensures var s := Run(cfg, s0, steps);
            var pending := Pending(s);
            var id := pending[i].reason.vesting;
            && id in s.w.vestings && pending[i].reason.to == s.w.vestings[id].released
            && (forall j | 0 <= j < |pending| && j != i :: !ReleaseOf(pending[j], id))
  {
    hide Next, Inv, OthersOk, Backed, SeenOk;
    InitialKeeps(cfg, s0);
    RunKeeps(cfg, s0, steps);
    var s := Run(cfg, s0, steps);
    PendingReleaseIsLast(s.w, s.mark, s.run, s.mark + i);
  }

  // ---------- Deadlines ----------

  /** The deadline column of every task that has not ended, by its status and type. */
  lemma DeadlinesByStatus(cfg: Config, s0: State, steps: seq<Step>, k: Key)
    requires Initial(s0) && k in Run(cfg, s0, steps).w.tasks
    ensures var t := Run(cfg, s0, steps).w.tasks[k];
            && (t.status == Queued ==>
                  t.deadlineAt ==
                  if t.createTime.None? then None
                  else if t.kind == SDFTLora then Some(t.createTime.value + 180 + t.timeout)
                  else if t.queueTimeout == 0 then Some(t.createTime.value + cfg.defaultQueueTimeout)
                  else Some(t.createTime.value + t.queueTimeout))
            && (t.status in {Started, ParametersUploaded} || (t.kind == SDFTLora && Running(t.status)) ==>
                  t.startTime.Some? && t.deadlineAt == Some(t.startTime.value + t.timeout))
            && (t.kind != SDFTLora && (t.status == ScoreReady || t.status == ErrorReported) ==>
                  t.scoreTime.Some? && t.deadlineAt == Some(t.scoreTime.value + cfg.appValidationTimeout))
            && (t.kind != SDFTLora && (t.status == Validated || t.status == GroupValidated) ==>
                  t.validatedTime.Some? && t.deadlineAt == Some(t.validatedTime.value + cfg.resultUploadTimeout))
            && (t.status in {EndInvalidated, EndSuccess, EndAborted, EndGroupRefund, EndGroupSuccess} ==>
                  t.deadlineAt == None)
  {
    hide Next, Linked, Settled, EventsOk, GroupsOk, Chained, OthersOk, OnePending, Backed;
    InitialKeeps(cfg, s0);
    RunKeeps(cfg, s0, steps);
    assert RowOk(cfg, Run(cfg, s0, steps).w.tasks[k]);
  }

  // A task that has outstayed its status.
  predicate Late(cfg: Config, t: Task, now: int) {
    match t.status
    case Queued =>
      && t.createTime.Some?
      && t.createTime.value + (if t.kind == SDFTLora then 180 + t.timeout
                               else if t.queueTimeout == 0 then cfg.defaultQueueTimeout else t.queueTimeout) <= now
    case Started | ParametersUploaded => t.startTime.Some? && t.startTime.value + t.timeout <= now
    case ScoreReady | ErrorReported =>
      if t.kind == SDFTLora then t.startTime.Some? && t.startTime.value + t.timeout <= now
      else t.scoreTime.Some? && t.scoreTime.value + cfg.appValidationTimeout <= now
    case Validated | GroupValidated =>
      if t.kind == SDFTLora then t.startTime.Some? && t.startTime.value + t.timeout <= now
      else t.validatedTime.Some? && t.validatedTime.value + cfg.resultUploadTimeout <= now
    case _ => false
  }

  /** The scan of the deadline column finds exactly the tasks that have outstayed their status. */
  lemma ScanFindsOverdue(cfg: Config, s0: State, steps: seq<Step>, now: int)
    requires Initial(s0)
    ensures var tasks := Run(cfg, s0, steps).w.tasks;
            forall k | k in tasks :: Due(tasks[k], now) <==> Late(cfg, tasks[k], now)
  {
    hide Run, Initial;
    var tasks := Run(cfg, s0, steps).w.tasks;
    forall k | k in tasks ensures Due(tasks[k], now) <==> Late(cfg, tasks[k], now) {
      DeadlinesByStatus(cfg, s0, steps, k);
    }
  }
}

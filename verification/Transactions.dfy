/** Each transaction of the task lifecycle, from rows in order to rows in order. */
module Transactions {
  import opened Basics
  import opened Model
  import opened Deadline
  import opened Settlement
  import opened Lifecycle
  import opened Invariant
  import opened Moves
  import Ledger
  import opened Rows

  /** The selected-node check succeeds exactly for tasks a node is working on. */
  lemma CheckSelectedIff(w: World, t: Task)
    requires Linked(w) && t.key in w.tasks && t.selected == w.tasks[t.key].selected
    ensures CheckSelected(w, t).Ok? <==> Running(w.tasks[t.key].status)
    ensures CheckSelected(w, t).Ok? ==>
              t.selected.Some? && CheckSelected(w, t).value == t.selected.value &&
                  Holding(w.nodes[t.selected.value].status)
  {
    assert TaskLink(w.nodes, t.key, w.tasks[t.key]);
    if t.selected.Some? && t.selected.value in w.nodes {
      assert NodeLink(w.tasks, t.selected.value, w.nodes[t.selected.value]);
    }
  }

  // ---------- Creation ----------

  lemma CreateLinks(w: World, t: Task)
    requires Linked(w) && t.key !in w.tasks && t.status.Queued? && t.selected.None?
    ensures Linked(SetTask(w, t))
  {
    var w' := SetTask(w, t);
    forall a | a in w'.nodes ensures NodeLink(w'.tasks, a, w'.nodes[a]) {
      assert NodeLink(w.tasks, a, w.nodes[a]);
    }
    forall j | j in w'.tasks ensures TaskLink(w'.nodes, j, w'.tasks[j]) {
      assert j in w.tasks ==> TaskLink(w.nodes, j, w.tasks[j]);
    }
  }

  lemma CreateWins(tasks: map<Key, Task>, t: Task, id: Option<TaskId>)
    requires t.key !in tasks && t.status.Queued?
    ensures GroupWon(tasks[t.key := t], id) == GroupWon(tasks, id)
  {
    if id.Some? {
      forall m ensures Won(tasks[t.key := t], id.value, m) == Won(tasks, id.value, m) {}
    }
  }

  lemma CreateSettles(tasks: map<Key, Task>, log: seq<Event>, t: Task, e: Event)
    requires Settled(tasks, log) && t.key !in tasks && t.status.Queued?
    requires e.reason == TaskPayment(t.key) && e.amount == t.fee
    requires forall k | k in tasks :: tasks[k].key == k
    ensures Settled(tasks[t.key := t], log + [e])
  {
    hide SettledRow, Untouched;
    var tasks' := tasks[t.key := t];
    forall k | k in tasks' ensures SettledRow(tasks', log + [e], tasks'[k]) {
      if k == t.key {
        FirstPayment(tasks', log, t, e);
      } else {
        OtherPayment(tasks, log, t, e, k);
      }
    }
    forall k: Key | k !in tasks' ensures Untouched(log + [e], k) {
      NotPaid(log, t, e, k);
    }
  }

  lemma FirstPayment(tasks: map<Key, Task>, log: seq<Event>, t: Task, e: Event)
    requires Untouched(log, t.key) && t.status.Queued? && e.reason == TaskPayment(t.key) && e.amount == t.fee
    ensures SettledRow(tasks, log + [e], t)
  {
    hide GroupWon, GroupIncome, Tally, TaskNet;
    PaymentTally(log, e);
  }

  lemma OtherPayment(tasks: map<Key, Task>, log: seq<Event>, t: Task, e: Event, k: Key)
    requires k in tasks && tasks[k].key == k && SettledRow(tasks, log, tasks[k])
    requires t.key !in tasks && t.status.Queued? && e.reason == TaskPayment(t.key)
    ensures SettledRow(tasks[t.key := t], log + [e], tasks[k])
  {
    hide GroupWon, GroupIncome, Tally, TaskNet;
    PaymentTally(log, e);
    CreateWins(tasks, t, tasks[k].taskId);
    GroupIncomeSame(tasks, t, tasks[k].taskId, k);
  }

  lemma NotPaid(log: seq<Event>, t: Task, e: Event, k: Key)
    requires Untouched(log, k) && k != t.key && e.reason == TaskPayment(t.key)
    ensures Untouched(log + [e], k)
  {
    hide Tally, TaskNet;
    PaymentTally(log, e);
  }

  lemma PaymentTally(log: seq<Event>, e: Event)
    ensures forall r :: Tally(log + [e], r) == Tally(log, r) + if r == e.reason then 1 else 0
    ensures forall k: Key ::
              TaskNet(log + [e], k) == TaskNet(log, k) + if TaskOf(e.reason) == Some(k) then Ledger.Signed(e) else 0
  {
    forall k: Key
      ensures TaskNet(log + [e], k) == TaskNet(log, k) + if TaskOf(e.reason) == Some(k) then Ledger.Signed(e) else 0
    {
      TaskNetConcat(log, [e], k);
      TaskNetOne(e, k);
    }
    forall r ensures Tally(log + [e], r) == Tally(log, r) + if r == e.reason then 1 else 0 {
      TallyConcat(log, [e], r);
      TallyOne(e, r);
    }
  }

  lemma CreateKeeps(cfg: Config, w: World, t: Task)
    requires Core(cfg, w) && t.key !in w.tasks && t.status.Queued? && t.selected.None? && RowOk(cfg, t)
    ensures Create(w, t).Ok? && Core(cfg, Create(w, t).value) && Evolves(w.tasks, Create(w, t).value.tasks)
  {
    hide RowOk, Settled, NodeLink, TaskLink;
    var e := Event(TaskPayment(t.key), t.creator, t.fee);
    CreateLinks(w, t);
    KeysMatch(w);
    CreateSettles(w.tasks, w.log, t, e);
    EventsOkMove(w.tasks, w.log, w.tasks[t.key := t], [e]);
    RowsOkMove(cfg, w.tasks, t);
  }

  // ---------- Moves between non-terminal statuses ----------

  // A quiet move of a row that keeps its node.
  lemma QuietMove(cfg: Config, w: World, u: Task)
    requires Core(cfg, w) && u.key in w.tasks && Replaces(cfg, w.tasks[u.key], u)
    requires Running(w.tasks[u.key].status) && Running(u.status)
    ensures Core(cfg, SetTask(w, u)) && OneRow(w, SetTask(w, u), u.key)
  {
    hide RowOk, Settled, EventsOk, OneRow, NodeLink;
    var w' := SetTask(w, u);
    assert TaskLink(w.nodes, u.key, w.tasks[u.key]);
    LinkedKeep(w, w', u);
    QuietSettles(u.key, u.fee);
    assert w'.log == w.log + [];
    CoreMove(cfg, w, w', u, []);
  }

  lemma StartKeeps(cfg: Config, w: World, t: Task, a: Addr, now: int, computed: nat, files: seq<Byte>)
    requires Core(cfg, w) && Fresh(w, t)
    ensures var r := Start(cfg, w, t, a, now, computed, files);
            r.Ok? ==> Core(cfg, r.value) && OneRow(w, r.value, t.key) && r.value.tasks[t.key].status.Started?
  {
    hide RowOk, Settled, EventsOk, OneRow, NodeLink;
    var r := Start(cfg, w, t, a, now, computed, files);
    if r.Ok? {
      var w', row := r.value, w.tasks[t.key];
      var timeout := if RelayOwned(t.kind) then computed else t.timeout;
      var u := StartedRow(row, a, now, timeout, files);
      assert TaskLink(w.nodes, t.key, row);
      StartRow(cfg, row, a, now, timeout, files);
      LinkedTake(w, w', u, a);
      QuietSettles(u.key, u.fee);
      assert w'.log == w.log + [];
      CoreMove(cfg, w, w', u, []);
    }
  }

  lemma ReportKeeps(cfg: Config, w: World, t: Task, to: TaskStatus, score: seq<Byte>, now: int)
    requires Core(cfg, w) && t.key in w.tasks && w.tasks[t.key].status.Started?
    requires to.ScoreReady? || to.ErrorReported?
    ensures var row := w.tasks[t.key];
            var w' := SetTask(w, ReportedRow(row, to, score, now, TransitionDeadline(cfg, row, to, now)));
            row.key == t.key && Core(cfg, w') && OneRow(w, w', t.key)
  {
    hide RowOk, Settled, EventsOk, OneRow, TransitionDeadline;
    var row := w.tasks[t.key];
    assert TaskLink(w.nodes, t.key, row);
    ReportRow(cfg, row, to, score, now);
    QuietMove(cfg, w, ReportedRow(row, to, score, now, TransitionDeadline(cfg, row, to, now)));
  }

  lemma AcceptKeeps(cfg: Config, w: World, t: Task, to: TaskStatus, now: int)
    requires Core(cfg, w) && t.key in w.tasks && CopyOf(t, w.tasks[t.key]) && t.status.ScoreReady?
    requires if to.GroupValidated? then GroupMember(t) && t.qos.Some? && t.qos.value > 0
             else to.Validated? && t.taskId == Some([t.key])
    ensures var r := Accept(cfg, w, t, to, now);
            && r.Ok? && Core(cfg, r.value) && OneRow(w, r.value, t.key)
            && r.value.tasks[t.key].status == to && r.value.tasks[t.key].taskId == t.taskId
  {
    hide RowOk, Settled, EventsOk, OneRow, TransitionDeadline;
    var row := w.tasks[t.key];
    assert TaskLink(w.nodes, t.key, row);
    CheckSelectedIff(w, t);
    AcceptRow(cfg, row, t, to, now);
    QuietMove(cfg, w, AcceptedRow(row, t, to, now, TransitionDeadline(cfg, t, to, now)));
  }

  // ---------- Moves that end a task ----------

  // Ends a running task, adds its events, and releases its node.
  lemma EndMove(cfg: Config, w: World, w': World, u: Task, es: seq<Event>, s: NodeStatus)
    requires Core(cfg, w) && u.key in w.tasks && Replaces(cfg, w.tasks[u.key], u)
    requires Running(w.tasks[u.key].status) && Terminal(u.status) && !u.status.EndGroupSuccess? && !Holding(s)
    requires w.tasks[u.key].selected.Some? && (u.status.EndGroupRefund? ==> !GroupWon(w.tasks, u.taskId))
    requires w'.tasks == w.tasks[u.key := u] && w'.log == w.log + es
    requires w'.nodes == w.nodes[w.tasks[u.key].selected.value := Node(s, None)]
    requires VestingsKept(w.vestings, w'.vestings)
    requires OthersUntouched(es, u.key) && Settles(es, u.key, RefundsDue(u), IncomeDue(w.tasks, u), u.fee)
    requires forall i | 0 <= i < |es| :: TaskEventOk(w'.tasks, es[i]) && TaskCredit(es[i])
    ensures Core(cfg, w') && OneRow(w, w', u.key)
  {
    hide RowOk, Settled, EventsOk, OneRow, NodeLink, TaskLink;
    LinkedFree(w, w', u, w.tasks[u.key].selected.value, s);
    CoreMove(cfg, w, w', u, es);
  }

  // No member of the group has succeeded yet.
  predicate NoWinner(tasks: map<Key, Task>, ids: TaskId) {
    forall m | m in ids && m in tasks :: !tasks[m].status.EndGroupSuccess?
  }

  lemma RefundKeeps(cfg: Config, w: World, t: Task, now: int, kickout: bool)
    requires Core(cfg, w) && t.key in w.tasks && CopyOf(t, w.tasks[t.key]) && t.status.ScoreReady?
    requires GroupMember(t) && t.qos.Some? && t.qos.value > 0 && NoWinner(w.tasks, t.taskId.value)
    ensures var r := Refund(w, t, now, kickout);
            && r.Ok? && Core(cfg, r.value) && OneRow(w, r.value, t.key)
            && r.value.tasks[t.key].status.EndGroupRefund? && r.value.tasks[t.key].taskId == t.taskId
  {
    hide RowOk, Settled, EventsOk, OneRow, NodeLink;
    var row := w.tasks[t.key];
    assert TaskLink(w.nodes, t.key, row);
    CheckSelectedIff(w, t);
    RefundRow(cfg, row, t, now);
    RefundSettles(t);
    var u, s := RefundedRow(row, t, now), AfterTask(w.nodes[t.selected.value].status, kickout);
    assert !GroupWon(w.tasks, u.taskId);
    EndMove(cfg, w, Refund(w, t, now, kickout).value, u, [RefundEvent(t)], s);
  }

  lemma SlashVestingsKept(vs: map<nat, Vesting>, a: Addr)
    ensures VestingsKept(vs, SlashVestings(vs, a))
  {}

  lemma InvalidateKeeps(cfg: Config, w: World, t: Task, now: int, passive: bool, kickout: bool)
    requires Core(cfg, w) && t.key in w.tasks && CopyOf(t, w.tasks[t.key]) && GroupMember(t)
    requires t.status.ScoreReady? || t.status.ErrorReported?
    ensures var r := Invalidate(w, t, now, passive, kickout);
            && r.Ok? && Core(cfg, r.value) && OneRow(w, r.value, t.key)
            && r.value.tasks[t.key].status.EndInvalidated? && r.value.tasks[t.key].taskId == t.taskId
  {
    hide RowOk, Settled, EventsOk, OneRow, NodeLink, Settles, OthersUntouched;
    var row := w.tasks[t.key];
    assert TaskLink(w.nodes, t.key, row);
    CheckSelectedIff(w, t);
    InvalidateRow(cfg, row, t, now);
    QuietSettles(t.key, t.fee);
    SlashVestingsKept(w.vestings, t.selected.value);
    var u, w' := InvalidatedRow(row, t, now), Invalidate(w, t, now, passive, kickout).value;
    assert w'.log == w.log + [];
    EndMove(cfg, w, w', u, [], w'.nodes[t.selected.value].status);
  }

  /** Slashing a node that has not quit aborts and refunds its current task, if it has one. */
  lemma SlashKeeps(cfg: Config, w: World, a: Addr)
    requires Core(cfg, w) && a in w.nodes && !w.nodes[a].status.Quit?
    ensures var r := SlashNode(w, a);
            && r.Ok? && Core(cfg, r.value) && r.value.nodes[a] == Node(Quit, None)
            && (w.nodes[a].current.Some? ==> OneRow(w, r.value, w.nodes[a].current.value))
            && (w.nodes[a].current.None? ==> r.value.tasks == w.tasks && r.value.log == w.log)
            && VestingsKept(w.vestings, r.value.vestings)
            && (w.nodes[a].current.Some? ==>
                  r.value.tasks[w.nodes[a].current.value] == SlashedRow(w.tasks[w.nodes[a].current.value]))
  {
    hide RowOk, Settled, EventsOk, OneRow;
    assert NodeLink(w.tasks, a, w.nodes[a]);
    SlashVestingsKept(w.vestings, a);
    var w' := SlashNode(w, a).value;
    if w.nodes[a].current.Some? {
      var row := w.tasks[w.nodes[a].current.value];
      assert TaskLink(w.nodes, row.key, row);
      SlashRow(cfg, row);
      RefundSettles(row);
      EndMove(cfg, w, w', SlashedRow(row), [RefundEvent(row)], Quit);
    } else {
      NodeChangeLinks(w, w', a);
    }
  }

  // Changing a node that holds no task, before or after.
  lemma NodeChangeLinks(w: World, w': World, a: Addr)
    requires Linked(w) && w'.tasks == w.tasks && a in w'.nodes && w'.nodes == w.nodes[a := w'.nodes[a]]
    requires a in w.nodes ==> w'.nodes[a].current == w.nodes[a].current
    requires NodeLink(w.tasks, a, w'.nodes[a]) && (a !in w.nodes ==> w'.nodes[a].current.None?)
    ensures Linked(w')
  {
    forall b | b in w'.nodes ensures NodeLink(w'.tasks, b, w'.nodes[b]) {
      assert b != a ==> NodeLink(w.tasks, b, w.nodes[b]);
    }
    forall k | k in w'.tasks ensures TaskLink(w'.nodes, k, w'.tasks[k]) {
      assert TaskLink(w.nodes, k, w.tasks[k]);
    }
  }

  lemma RequestNodeKeeps(cfg: Config, w: World, a: Addr, q: NodeRequest)
    requires Core(cfg, w)
    ensures var r := RequestNode(w, a, q);
            r.Ok? ==>
              Core(cfg, r.value) && r.value.tasks == w.tasks && r.value.log == w.log && r.value.vestings == w.vestings
  {
    hide RowOk, Settled, EventsOk, TaskLink;
    var r := RequestNode(w, a, q);
    if r.Ok? {
      if a in w.nodes {
        assert NodeLink(w.tasks, a, w.nodes[a]);
      }
      NodeChangeLinks(w, r.value, a);
    }
  }

  // ---------- Abort ----------

  // What an abort of the current row t writes: the events, then the node's release.
  lemma AbortQueuedResult(cfg: Config, w: World, t: Task, splits: Splits, kickout: bool)
    requires t.key in w.tasks && CopyOf(t, w.tasks[t.key]) && t.status.Queued? && t.selected.None?
    ensures Abort(cfg, w, t, splits, kickout) ==
            if t.reason.CreatorValidationTimeout? then Err(NoActiveNode)
            else Ok(Emit(SetTask(w, AbortedRow(w.tasks[t.key], t)), [RefundEvent(t)]))
  {}

  function AbortEvents(cfg: Config, t: Task, splits: Splits): seq<Event> {
    if t.reason.CreatorValidationTimeout? then IncomeEvents(cfg, t.key, NodeOf(t), t.fee, SplitOf(splits, NodeOf(t)))
    else [RefundEvent(t)]
  }

  lemma AbortRunningResult(cfg: Config, w: World, t: Task, splits: Splits, kickout: bool)
    requires Linked(w) && t.key in w.tasks && CopyOf(t, w.tasks[t.key]) && Running(t.status)
    ensures && t.selected.Some? && t.selected.value in w.nodes
            && Abort(cfg, w, t, splits, kickout) ==
               Ok(SetNode(Emit(SetTask(w, AbortedRow(w.tasks[t.key], t)), AbortEvents(cfg, t, splits)),
                  t.selected.value,
                          Node(AfterTask(w.nodes[t.selected.value].status, kickout), None)))
  {
    hide IncomeEvents;
    CheckSelectedIff(w, t);
  }

  lemma AbortEventsOk(cfg: Config, tasks: map<Key, Task>, u: Task, t: Task, splits: Splits)
    requires t.key in tasks && CopyOf(t, tasks[t.key]) && Running(t.status) && t.selected.Some?
    requires u == AbortedRow(tasks[t.key], t)
    ensures OthersUntouched(AbortEvents(cfg, t, splits), t.key)
    ensures Settles(AbortEvents(cfg, t, splits), t.key, RefundsDue(u), IncomeDue(tasks, u), t.fee)
    ensures forall e | e in AbortEvents(cfg, t, splits) :: TaskEventOk(tasks[t.key := u], e) && TaskCredit(e)
  {
    hide IncomeEvents, OthersUntouched, Settles;
    if t.reason.CreatorValidationTimeout? {
      IncomeSettles(cfg, t.key, NodeOf(t), t.fee, SplitOf(splits, NodeOf(t)));
      IncomeReasons(cfg, t.key, NodeOf(t), t.fee, SplitOf(splits, NodeOf(t)));
    } else {
      RefundSettles(t);
    }
  }

  /** Aborting a task a node works on always succeeds, refunding the creator or paying the node. */
  lemma AbortRunningKeeps(cfg: Config, w: World, t: Task, splits: Splits, kickout: bool)
    requires Core(cfg, w) && t.key in w.tasks && CopyOf(t, w.tasks[t.key]) && Running(t.status) && Aborting(t)
    ensures var r := Abort(cfg, w, t, splits, kickout);
            && r.Ok? && Core(cfg, r.value) && OneRow(w, r.value, t.key)
            && r.value.tasks[t.key] == AbortedRow(w.tasks[t.key], t)
  {
    hide RowOk, Settled, EventsOk, OneRow, NodeLink, Settles, OthersUntouched, Abort, AbortEvents, TaskEventOk;
    var row := w.tasks[t.key];
    assert TaskLink(w.nodes, t.key, row);
    AbortRunningResult(cfg, w, t, splits, kickout);
    AbortRow(cfg, row, t);
    var u := AbortedRow(row, t);
    AbortEventsOk(cfg, w.tasks, u, t, splits);
    var es, s := AbortEvents(cfg, t, splits), AfterTask(w.nodes[t.selected.value].status, kickout);
    forall i | 0 <= i < |es| ensures TaskEventOk(w.tasks[t.key := u], es[i]) && TaskCredit(es[i]) {
      assert es[i] in es;
    }
    EndMove(cfg, w, Abort(cfg, w, t, splits, kickout).value, u, es, s);
  }

  lemma AbortQueuedKeeps(cfg: Config, w: World, t: Task, splits: Splits, kickout: bool)
    requires Core(cfg, w) && t.key in w.tasks && CopyOf(t, w.tasks[t.key]) && t.status.Queued? && Aborting(t)
    ensures var r := Abort(cfg, w, t, splits, kickout);
            r.Ok? ==> && Core(cfg, r.value) && OneRow(w, r.value, t.key)
                      && r.value.tasks[t.key] == AbortedRow(w.tasks[t.key], t)
  {
    hide RowOk, Settled, EventsOk, OneRow, NodeLink, Settles, OthersUntouched, Abort;
    var row := w.tasks[t.key];
    assert TaskLink(w.nodes, t.key, row);
    AbortQueuedResult(cfg, w, t, splits, kickout);
    var r := Abort(cfg, w, t, splits, kickout);
    if r.Ok? {
      var u := AbortedRow(row, t);
      AbortRow(cfg, row, t);
      RefundSettles(t);
      LinkedKeep(w, r.value, u);
      CoreMove(cfg, w, r.value, u, [RefundEvent(t)]);
    }
  }

  /** Any abort that commits, made through any copy read earlier, leaves the rows in order. */
  lemma AbortKeeps(cfg: Config, w: World, t: Task, splits: Splits, kickout: bool)
    requires Core(cfg, w) && Fresh(w, t) && Aborting(t)
    ensures var r := Abort(cfg, w, t, splits, kickout);
            r.Ok? ==> && Core(cfg, r.value) && OneRow(w, r.value, t.key)
                      && (r.value == w || (!Terminal(t.status) && CopyOf(t, w.tasks[t.key])
                                           && r.value.tasks[t.key] == AbortedRow(w.tasks[t.key], t)))
  {
    hide Core, AbortedRow;
    if !Terminal(t.status) && Abort(cfg, w, t, splits, kickout).Ok? {
      assert Cas(w, t);
      if Running(t.status) {
        AbortRunningKeeps(cfg, w, t, splits, kickout);
      } else {
        AbortQueuedKeeps(cfg, w, t, splits, kickout);
      }
    } else {
      OneRowRefl(w, t.key);
    }
  }

  lemma OneRowRefl(w: World, k: Key)
    ensures OneRow(w, w, k)
  {}
}

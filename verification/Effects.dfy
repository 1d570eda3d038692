/** What each request does to rows in order: exactly when it succeeds, and every column it then leaves changed. */
module Effects {
  import opened Basics
  import opened Model
  import opened Settlement
  import opened Lifecycle
  import opened Invariant
  import opened Transactions
  import opened Steps

  // ---------- Vocabulary ----------

  // A node that has given up its task: a pending pause or quit takes effect, and a kick-out makes it quit.
  function Freed(n: Node, kickout: bool): Node {
    match n.status
    case PendingQuit => Node(Quit, None)
    case PendingPause => Node(if kickout then Quit else Paused, None)
    case _ => Node(if kickout then Quit else Available, None)
  }

  // The rows with the task u written, its node freed or not, and events logged.
  function With(w: World, u: Task, nodes: map<Addr, Node>, es: seq<Event>): World {
    World(w.tasks[u.key := u], nodes, w.vestings, w.log + es)
  }

  function FreedBy(w: World, t: Task, kickout: bool): map<Addr, Node> {
    if t.selected.Some? && t.selected.value in w.nodes
    then w.nodes[t.selected.value := Freed(w.nodes[t.selected.value], kickout)] else w.nodes
  }

  // The copy of a task that was read earlier still stands.
  predicate Stands(w: World, t: Task) {
    t.key in w.tasks && w.tasks[t.key].status == t.status
  }

  lemma FreedIs(s: NodeStatus, n: Node, kickout: bool)
    requires Holding(s) && n.status == s
    ensures Node(AfterTask(s, kickout), None) == Freed(n, kickout)
  {}

  // A standing copy of a running task: it is the row, and its node is held by it.
  lemma Standing(cfg: Config, w: World, t: Task)
    requires Inv(cfg, w) && Stale(w, t) && Stands(w, t) && !Terminal(t.status)
    ensures t == w.tasks[t.key] && RowOk(cfg, t)
    ensures t.status.Queued? ==> t.selected.None?
    ensures Running(t.status) ==>
              && t.selected.Some? && t.selected.value in w.nodes && w.nodes[t.selected.value].current == Some(t.key)
              && Holding(w.nodes[t.selected.value].status)
  {
    hide Settled, EventsOk, GroupsOk;
    CopyIsCurrent(w, t);
    assert TaskLink(w.nodes, t.key, w.tasks[t.key]);
    if Running(t.status) {
      assert NodeLink(w.tasks, t.selected.value, w.nodes[t.selected.value]);
    }
  }

  // ---------- Creating, starting and reporting ----------

  lemma CreateEffect(cfg: Config, w: World, k: Key, creator: Addr, fee: nat, kind: TaskType, createTime: Option<int>,
                     queueTimeout: nat, timeout: nat)
    ensures var wait := if kind == SDFTLora then 180 + timeout
                        else if queueTimeout == 0 then cfg.defaultQueueTimeout else queueTimeout;
            var t := Task(k, creator, fee, kind, createTime, queueTimeout, timeout, Queued, None, None, NoReason, [],
                          None, [], None, None, None, if createTime.Some? then Some(createTime.value + wait) else None);
            Create(w, NewTask(cfg, k, creator, fee, kind, createTime, queueTimeout, timeout))
              == if k in w.tasks then Err(Duplicate)
                 else Ok(With(w, t, w.nodes, [Event(TaskPayment(k), creator, fee)]))
  {}

  lemma StartEffect(cfg: Config, w: World, t: Task, a: Addr, now: int, computed: nat, files: seq<Byte>)
    requires Inv(cfg, w) && Stale(w, t)
    ensures var r := Start(cfg, w, t, a, now, computed, files);
            && (r.Ok? <==> t.status == Queued && Stands(w, t) && a in w.nodes && w.nodes[a].status == Available)
            && (r.Ok? ==>
                  var timeout := if t.kind == SDFTLora then t.timeout else computed;
                  r.value == With(w, t.(status := Started, selected := Some(a), startTime := Some(now),
                                        timeout := timeout, files := files, deadlineAt := Some(now + timeout)),
                                  w.nodes[a := Node(Busy, Some(t.key))], []))
  {
    hide Settled, EventsOk, GroupsOk, RowsOk, Precedes;
    if a in w.nodes {
      assert NodeLink(w.tasks, a, w.nodes[a]);
    }
    if Start(cfg, w, t, a, now, computed, files).Ok? {
      CopyIsCurrent(w, t);
      assert w.log == w.log + [];
    }
  }

  // The deadline column once a score or an error is in: a relay-owned task then waits for its validation.
  function ReportDeadline(cfg: Config, t: Task, now: int): Option<int> {
    if t.kind == SDFTLora then t.deadlineAt else Some(now + cfg.appValidationTimeout)
  }

  lemma ScoreEffect(cfg: Config, w: World, t: Task, score: seq<Byte>, now: int)
    requires Inv(cfg, w) && Stale(w, t)
    ensures var r := ReportScore(cfg, w, t, score, now);
            && (r.Ok? <==> t.status == Started && Stands(w, t))
            && (r.Ok? ==>
                  r.value == With(w, t.(status := ScoreReady, score := score, scoreTime := Some(now),
                                        deadlineAt := ReportDeadline(cfg, t, now)), w.nodes, []))
  {
    hide Inv, Precedes;
    if t.status.Started? && Stands(w, t) {
      Standing(cfg, w, t);
      assert w.log == w.log + [];
    }
  }

  lemma ErrorEffect(cfg: Config, w: World, t: Task, now: int)
    requires Inv(cfg, w) && Stale(w, t)
    ensures var r := ReportError(cfg, w, t, now);
            && (r.Ok? <==> t.status == Started && Stands(w, t))
            && (r.Ok? ==>
                  r.value == With(w, t.(status := ErrorReported, scoreTime := Some(now),
                                        deadlineAt := ReportDeadline(cfg, t, now)), w.nodes, []))
  {
    hide Inv, Precedes;
    if t.status.Started? && Stands(w, t) {
      Standing(cfg, w, t);
      assert w.log == w.log + [];
    }
  }

  // ---------- Validating one task ----------

  lemma ValidateSingleEffect(cfg: Config, w: World, t: Task, now: int, splits: Splits, kickout: bool)
    requires Inv(cfg, w) && Stale(w, t)
    ensures var r := ValidateSingle(cfg, w, t, now, splits, kickout);
            && (r.Ok? <==> (t.status == ScoreReady || t.status == ErrorReported) && Stands(w, t))
            && (r.Ok? && t.status == ScoreReady ==>
                  r.value == With(w, t.(status := Validated, taskId := Some([t.key]), validatedTime := Some(now),
                                        deadlineAt := if t.kind == SDFTLora then t.deadlineAt
                                                      else Some(now + cfg.resultUploadTimeout)), w.nodes, []))
            && (r.Ok? && t.status == ErrorReported ==>
                  r.value == With(w, t.(status := EndAborted, taskId := Some([t.key]), reason := TaskErrorReported,
                                        validatedTime := Some(now), deadlineAt := None),
                                  FreedBy(w, t, kickout), [Event(TaskRefund(t.key), t.creator, t.fee)]))
  {
    hide Inv, Precedes, Abort;
    if t.status.ScoreReady? && Stands(w, t) {
      Standing(cfg, w, t);
      assert w.log == w.log + [];
    }
    if t.status.ErrorReported? {
      var u := t.(taskId := Some([t.key]), reason := TaskErrorReported, validatedTime := Some(now));
      AbortRefusedUnless(cfg, w, u, splits, kickout);
      if Stands(w, t) {
        Standing(cfg, w, t);
        InvLinked(cfg, w);
        AbortRunningResult(cfg, w, u, splits, kickout);
        FreedIs(w.nodes[t.selected.value].status, w.nodes[t.selected.value], kickout);
      }
    }
  }

  lemma InvLinked(cfg: Config, w: World)
    requires Inv(cfg, w)
    ensures Linked(w)
  {}

  lemma AbortRefusedUnless(cfg: Config, w: World, t: Task, splits: Splits, kickout: bool)
    ensures Abort(cfg, w, t, splits, kickout).Ok? ==> t.status.EndAborted? || Stands(w, t)
  {
    hide IncomeEvents;
  }

  // ---------- Aborting ----------

  lemma AbortEffect(cfg: Config, w: World, t: Task, reason: AbortReason, splits: Splits, kickout: bool)
    requires Inv(cfg, w) && Stale(w, t)
    ensures var r := Abort(cfg, w, t.(reason := reason), splits, kickout);
            && (r.Ok? <==> || t.status == EndAborted
                           || (&& !Terminal(t.status) && Stands(w, t)
                               && (reason == CreatorValidationTimeout ==> t.status != Queued)))
            && (r.Ok? && t.status == EndAborted ==> r.value == w)
            && (r.Ok? && t.status != EndAborted ==>
                  r.value == With(w, t.(status := EndAborted, reason := reason, deadlineAt := None),
                                  if t.status == Queued then w.nodes else FreedBy(w, t, kickout),
                                  if reason == CreatorValidationTimeout
                                  then IncomeEvents(cfg, t.key, NodeOf(t), t.fee, SplitOf(splits, NodeOf(t)))
                                  else [Event(TaskRefund(t.key), t.creator, t.fee)]))
  {
    hide Inv, Precedes, Abort, IncomeEvents;
    var u := t.(reason := reason);
    AbortRefusedUnless(cfg, w, u, splits, kickout);
    AbortOfEnded(cfg, w, u, splits, kickout);
    if !Terminal(t.status) && Stands(w, t) {
      Standing(cfg, w, t);
      InvLinked(cfg, w);
      if t.status.Queued? {
        AbortQueuedResult(cfg, w, u, splits, kickout);
      } else {
        AbortRunningResult(cfg, w, u, splits, kickout);
        FreedIs(w.nodes[t.selected.value].status, w.nodes[t.selected.value], kickout);
      }
    }
  }

  /** In any rows, a standing copy whose node has another task is aborted without its node, and refunded, unless for one
      of the three timeouts. */
  lemma AbortElsewhere(cfg: Config, w: World, t: Task, splits: Splits, kickout: bool)
    requires Stands(w, t) && w.tasks[t.key].key == t.key && !Terminal(t.status)
    requires t.selected.Some? && t.selected.value in w.nodes
    requires w.nodes[t.selected.value].current != Some(t.key)
    ensures var r := Abort(cfg, w, t, splits, kickout);
            && (r.Ok? <==> t.reason !in {Timeout, CreatorValidationTimeout, ResultUploadTimeout})
            && (r.Ok? ==> r.value.nodes == w.nodes && r.value.tasks[t.key].status == EndAborted
                          && r.value.log == w.log + [Event(TaskRefund(t.key), t.creator, t.fee)])
  {
    hide IncomeEvents;
  }

  lemma AbortOfEnded(cfg: Config, w: World, t: Task, splits: Splits, kickout: bool)
    ensures t.status.EndAborted? ==> Abort(cfg, w, t, splits, kickout) == Ok(w)
    ensures Terminal(t.status) && !t.status.EndAborted? ==> Abort(cfg, w, t, splits, kickout).Err?
  {}

  // ---------- Nodes ----------

  // Which records a slash of a freezes: the active grants to a.
  predicate Frozen(vs: map<nat, Vesting>, vs': map<nat, Vesting>, a: Addr) {
    && vs'.Keys == vs.Keys
    && forall id | id in vs ::
         vs'[id] == if vs[id].address == a && vs[id].status == Active then vs[id].(slashed := true) else vs[id]
  }

  lemma SlashEffect(cfg: Config, w: World, a: Addr)
    requires Inv(cfg, w)
    ensures var r := SlashNode(w, a);
            && (r.Ok? <==> a in w.nodes && w.nodes[a].status != Quit)
            && (r.Ok? ==>
                  && r.value.nodes == w.nodes[a := Node(Quit, None)]
                  && Frozen(w.vestings, r.value.vestings, a)
                  && if w.nodes[a].current.None? then r.value.tasks == w.tasks && r.value.log == w.log
                     else
                       var k := w.nodes[a].current.value;
                       && k in w.tasks
                       && r.value.tasks == w.tasks[k := w.tasks[k].(status := EndAborted, reason := NodeSlashed,
                                                                   deadlineAt := None)]
                       && r.value.log == w.log + [Event(TaskRefund(k), w.tasks[k].creator, w.tasks[k].fee)])
  {
    hide Settled, EventsOk, GroupsOk, RowsOk;
    if a in w.nodes {
      assert NodeLink(w.tasks, a, w.nodes[a]);
      if w.nodes[a].current.Some? {
        assert TaskLink(w.nodes, w.nodes[a].current.value, w.tasks[w.nodes[a].current.value]);
      }
    }
  }

  // Where a request takes a node, if it is granted.
  function Asked(s: Option<NodeStatus>, q: NodeRequest): Option<NodeStatus> {
    match q
    case Join => if s == None || s == Some(Quit) then Some(Available) else None
    case Pause => if s == Some(Available) then Some(Paused) else if s == Some(Busy) then Some(PendingPause) else None
    case Resume => if s == Some(Paused) then Some(Available) else None
    case Leave =>
      if s == Some(Available) || s == Some(Paused) then Some(Quit)
      else if s == Some(Busy) then Some(PendingQuit) else None
  }

  lemma RequestEffect(cfg: Config, w: World, a: Addr, q: NodeRequest)
    requires Inv(cfg, w)
    ensures var r := RequestNode(w, a, q);
            var to := Asked(if a in w.nodes then Some(w.nodes[a].status) else None, q);
            && (r.Ok? <==> to.Some?)
            && (r.Ok? ==>
                  r.value == w.(nodes := w.nodes[a := Node(to.value,
                                                           if a in w.nodes then w.nodes[a].current else None)]))
  {
    hide Settled, EventsOk, GroupsOk, RowsOk;
    if a in w.nodes {
      assert NodeLink(w.tasks, a, w.nodes[a]);
    }
  }
}

/** Every handler, given a copy of the row read at any earlier time, keeps the invariant and only moves rows forward. */
module Steps {
  import opened Basics
  import opened Model
  import opened Deadline
  import opened Lifecycle
  import opened Invariant
  import opened Moves
  import opened Transactions
  import opened GroupMoves
  import opened Verdicts
  import Validation

  // A copy of a task row read at some earlier time.
  predicate Stale(w: World, t: Task) {
    t.key in w.tasks && Precedes(t, w.tasks[t.key]) && (Running(t.status) ==> t.selected.Some?)
  }

  ghost predicate Kept(cfg: Config, w: World, r: Tx) {
    r.Ok? ==> Inv(cfg, r.value) && Forward(w, r.value)
  }

  lemma CopyIsCurrent(w: World, t: Task)
    requires Stale(w, t) && Cas(w, t) && !Terminal(t.status)
    ensures t == w.tasks[t.key]
  {
    StaleCopyIsCurrent(t, w.tasks[t.key]);
  }

  lemma OneRowIs(w: World, w': World, k: Key)
    requires OneRow(w, w', k) && k in w.tasks
    ensures w'.tasks == w.tasks[k := w'.tasks[k]]
  {
    assert forall j | j in w'.tasks :: w'.tasks[j] == w.tasks[k := w'.tasks[k]][j];
  }

  // A row outside any group before and after.
  lemma KeptSingle(cfg: Config, w: World, w': World, k: Key)
    requires Inv(cfg, w) && Core(cfg, w') && OneRow(w, w', k) && k in w.tasks
    requires !GroupMember(w.tasks[k]) && !GroupMember(w'.tasks[k])
    ensures Inv(cfg, w') && Forward(w, w')
  {
    hide RowsOk, Settled, EventsOk, NodeLink, GroupMember, GroupOk, Credited;
    OneRowIs(w, w', k);
    KeysMatch(w);
    KeysMatch(w');
    GroupsSingle(w.tasks, w'.tasks[k]);
  }

  // A row that ends with the task id it had.
  lemma KeptEnd(cfg: Config, w: World, w': World, k: Key)
    requires Inv(cfg, w) && Core(cfg, w') && OneRow(w, w', k) && k in w.tasks
    requires w'.tasks[k].taskId == w.tasks[k].taskId && w'.tasks[k].status.EndAborted?
    ensures Inv(cfg, w') && Forward(w, w')
  {
    hide RowsOk, Settled, EventsOk, NodeLink, GroupMember, GroupOk, Credited;
    OneRowIs(w, w', k);
    KeysMatch(w);
    KeysMatch(w');
    GroupsEnd(w.tasks, w'.tasks[k]);
  }

  lemma ForwardRefl(w: World)
    ensures Forward(w, w)
  {}

  lemma NoGroupYet(cfg: Config, w: World, k: Key)
    requires Inv(cfg, w) && k in w.tasks
    ensures var t := w.tasks[k];
            && t.key == k && TaskIdOk(t)
            && (t.status.Queued? || t.status.Started? || t.status.ScoreReady? || t.status.ErrorReported? ==>
                 t.taskId.None?)
  {
    assert TaskLink(w.nodes, k, w.tasks[k]) && RowOk(cfg, w.tasks[k]);
  }

  lemma CreateStep(cfg: Config, w: World, k: Key, creator: Addr, fee: nat, kind: TaskType,
                   createTime: Option<int>, queueTimeout: nat, timeout: nat)
    requires Inv(cfg, w)
    ensures var r := Create(w, NewTask(cfg, k, creator, fee, kind, createTime, queueTimeout, timeout));
            && (r.Ok? <==> k !in w.tasks)
            && (r.Ok? ==> && Inv(cfg, r.value) && Evolves(w.tasks, r.value.tasks) && r.value.vestings == w.vestings
                          && r.value.log == w.log + [Event(TaskPayment(k), creator, fee)])
  {
    hide Settled, EventsOk, NodeLink, TaskLink, GroupOk;
    var t := NewTask(cfg, k, creator, fee, kind, createTime, queueTimeout, timeout);
    if k !in w.tasks {
      assert RowOk(cfg, t);
      CreateKeeps(cfg, w, t);
      CreateGroups(w.tasks, t);
    }
  }

  lemma CreateGroups(tasks: map<Key, Task>, t: Task)
    requires GroupsOk(tasks) && t.key !in tasks && t.taskId.None?
    ensures GroupsOk(tasks[t.key := t])
  {
    var tasks' := tasks[t.key := t];
    forall k | k in tasks' && GroupMember(tasks'[k]) ensures GroupOk(tasks', tasks'[k].taskId.value) {
      assert GroupOk(tasks, tasks[k].taskId.value);
    }
  }

  lemma StartStep(cfg: Config, w: World, t: Task, a: Addr, now: int, computed: nat, files: seq<Byte>)
    requires Inv(cfg, w) && Stale(w, t)
    ensures Kept(cfg, w, Start(cfg, w, t, a, now, computed, files))
  {
    hide Core, GroupsOk, OneRow, Forward, Precedes;
    var r := Start(cfg, w, t, a, now, computed, files);
    if r.Ok? {
      CopyIsCurrent(w, t);
      NoGroupYet(cfg, w, t.key);
      StartKeeps(cfg, w, t, a, now, computed, files);
      KeptSingle(cfg, w, r.value, t.key);
    }
  }

  lemma ScoreStep(cfg: Config, w: World, t: Task, score: seq<Byte>, now: int)
    requires Inv(cfg, w) && Stale(w, t)
    ensures Kept(cfg, w, ReportScore(cfg, w, t, score, now))
  {
    hide Core, GroupsOk, OneRow, Forward, Precedes, TransitionDeadline;
    var r := ReportScore(cfg, w, t, score, now);
    if r.Ok? {
      CopyIsCurrent(w, t);
      NoGroupYet(cfg, w, t.key);
      ReportKeeps(cfg, w, t, ScoreReady, score, now);
      KeptSingle(cfg, w, r.value, t.key);
    }
  }

  lemma ErrorStep(cfg: Config, w: World, t: Task, now: int)
    requires Inv(cfg, w) && Stale(w, t)
    ensures Kept(cfg, w, ReportError(cfg, w, t, now))
  {
    hide Core, GroupsOk, OneRow, Forward, Precedes, TransitionDeadline;
    var r := ReportError(cfg, w, t, now);
    if r.Ok? {
      CopyIsCurrent(w, t);
      NoGroupYet(cfg, w, t.key);
      ReportKeeps(cfg, w, t, ErrorReported, w.tasks[t.key].score, now);
      KeptSingle(cfg, w, r.value, t.key);
    }
  }

  lemma AcceptStep(cfg: Config, w: World, t: Task, now: int)
    requires Inv(cfg, w) && Stale(w, t) && t.status.ScoreReady?
    ensures Kept(cfg, w, Accept(cfg, w, t.(taskId := Some([t.key])), Validated, now))
  {
    hide Core, GroupsOk, OneRow, Forward, Precedes, TransitionDeadline;
    var u := t.(taskId := Some([t.key]));
    var r := Accept(cfg, w, u, Validated, now);
    if r.Ok? {
      CopyIsCurrent(w, t);
      NoGroupYet(cfg, w, t.key);
      AcceptKeeps(cfg, w, u, Validated, now);
      KeptSingle(cfg, w, r.value, t.key);
    }
  }

  lemma AbortStep(cfg: Config, w: World, t: Task, reason: AbortReason, splits: Splits, kickout: bool)
    requires Inv(cfg, w) && Stale(w, t)
    ensures Kept(cfg, w, Abort(cfg, w, t.(reason := reason), splits, kickout))
  {
    hide Core, GroupsOk, OneRow, Forward, Precedes;
    var u := t.(reason := reason);
    var r := Abort(cfg, w, u, splits, kickout);
    ForwardRefl(w);
    if r.Ok? && !t.status.EndAborted? {
      CopyIsCurrent(w, t);
      NoGroupYet(cfg, w, t.key);
      AbortKeeps(cfg, w, u, splits, kickout);
      if r.value != w {
        KeptEnd(cfg, w, r.value, t.key);
      }
    }
  }

  lemma AbortSingleStep(cfg: Config, w: World, t: Task, now: int, splits: Splits, kickout: bool)
    requires Inv(cfg, w) && Stale(w, t) && t.status.ErrorReported?
    ensures Kept(cfg, w,
              Abort(cfg, w, t.(taskId := Some([t.key]), reason := TaskErrorReported, validatedTime := Some(now)),
                               splits, kickout))
  {
    hide Core, GroupsOk, OneRow, Forward, Precedes;
    var u := t.(taskId := Some([t.key]), reason := TaskErrorReported, validatedTime := Some(now));
    var r := Abort(cfg, w, u, splits, kickout);
    ForwardRefl(w);
    if r.Ok? {
      CopyIsCurrent(w, t);
      NoGroupYet(cfg, w, t.key);
      AbortKeeps(cfg, w, u, splits, kickout);
      if r.value != w {
        KeptSingle(cfg, w, r.value, t.key);
      }
    }
  }

  lemma ValidateSingleStep(cfg: Config, w: World, t: Task, now: int, splits: Splits, kickout: bool)
    requires Inv(cfg, w) && Stale(w, t)
    ensures Kept(cfg, w, ValidateSingle(cfg, w, t, now, splits, kickout))
  {
    hide Inv, Kept, Accept, Abort, Precedes;
    if t.status.ScoreReady? {
      AcceptStep(cfg, w, t, now);
    } else if t.status.ErrorReported? {
      AbortSingleStep(cfg, w, t, now, splits, kickout);
    }
    FailureKept(cfg, w);
  }

  lemma FailureKept(cfg: Config, w: World)
    ensures forall e: Failure :: Kept(cfg, w, Err(e))
  {}

  lemma SucceedStep(cfg: Config, w: World, t: Task, splits: Splits, kickout: bool)
    requires Inv(cfg, w) && Stale(w, t)
    ensures Kept(cfg, w, Succeed(cfg, w, t, splits, kickout))
  {
    hide Inv, OneRow, Precedes, Forward, PaymentEvents, GroupRows, Payees;
    var r := Succeed(cfg, w, t, splits, kickout);
    if r.Ok? {
      CopyIsCurrent(w, t);
      if t.status.Validated? {
        SucceedSingleKeeps(cfg, w, t, splits, kickout);
      } else {
        SucceedGroupKeeps(cfg, w, t, splits, kickout);
      }
      OneRowForward(w, r.value, t.key);
    }
  }

  lemma ValidateGroupStep(cfg: Config, w: World, ids: TaskId, now: int, passive: bool, splits: Splits, kicked: set<Key>)
    requires Inv(cfg, w)
    ensures Kept(cfg, w, ValidateGroup(cfg, w, ids, now, passive, splits, kicked))
  {
    hide Inv, Forward, LoadGroup, RankGroup, ApplyVerdicts, Validation.Decide, Validation.Stuck;
    if LoadGroup(w, ids).Ok? {
      var ts := LoadedGroup(w, ids);
      ValidateGroupIff(cfg, w, ids, ts, now, passive, splits, kicked);
    }
  }

  lemma SlashStep(cfg: Config, w: World, a: Addr)
    requires Inv(cfg, w)
    ensures Kept(cfg, w, SlashNode(w, a))
  {
    hide Core, GroupsOk, OneRow, Precedes, Credited;
    var r := SlashNode(w, a);
    if r.Ok? {
      SlashKeeps(cfg, w, a);
      if w.nodes[a].current.Some? {
        var k := w.nodes[a].current.value;
        CurrentExists(cfg, w, a);
        KeptEnd(cfg, w, r.value, k);
      } else {
        SameRowsForward(w, r.value);
      }
    }
  }

  lemma CurrentExists(cfg: Config, w: World, a: Addr)
    requires Inv(cfg, w) && a in w.nodes && w.nodes[a].current.Some?
    ensures w.nodes[a].current.value in w.tasks
  {
    assert NodeLink(w.tasks, a, w.nodes[a]);
  }

  lemma SameRowsForward(w: World, w': World)
    requires w'.tasks == w.tasks && w'.log == w.log && VestingsKept(w.vestings, w'.vestings)
    ensures Forward(w, w')
  {}

  lemma RequestStep(cfg: Config, w: World, a: Addr, q: NodeRequest)
    requires Inv(cfg, w)
    ensures Kept(cfg, w, RequestNode(w, a, q))
  {
    hide Core, GroupsOk, Precedes, Credited;
    var r := RequestNode(w, a, q);
    if r.Ok? {
      RequestNodeKeeps(cfg, w, a, q);
      SameRowsForward(w, r.value);
    }
  }

  // ---------- Retrying after a status changed ----------

  // What a handler retries with: its copy with only the status and the abort reason read again.
  function Refreshed(w: World, t: Task): Task
    requires t.key in w.tasks
  {
    t.(status := w.tasks[t.key].status, reason := w.tasks[t.key].reason)
  }

  /** The fields left stale never matter: a status never comes back, so every retry after a changed
      status is refused. */
  lemma RetryIsRefused(cfg: Config, w: World, t: Task, score: seq<Byte>, now: int, splits: Splits, kickout: bool)
    requires Inv(cfg, w) && Stale(w, t) && !Cas(w, t)
    ensures var u := Refreshed(w, t);
            && (t.status.Queued? ==> !u.status.Queued?)
            && (t.status.Started? ==> ReportScore(cfg, w, u, score, now).Err? && ReportError(cfg, w, u, now).Err?)
            && (t.status.ScoreReady? || t.status.ErrorReported? ==>
                 ValidateSingle(cfg, w, u, now, splits, kickout).Err?)
            && (t.status.Validated? || t.status.GroupValidated? ==>
                  CheckSelected(w, u).Err? && Succeed(cfg, w, u, splits, kickout).Err?)
  {
    hide RowsOk, Settled, EventsOk, GroupsOk, Accept, Abort, PaymentEvents, GroupRows, Payees;
    var row := w.tasks[t.key];
    assert TaskLink(w.nodes, t.key, row);
    if t.selected.Some? && t.selected.value in w.nodes {
      assert NodeLink(w.tasks, t.selected.value, w.nodes[t.selected.value]);
    }
  }

  // ---------- Handlers ----------

  datatype Handler =
    | StartTask(copy: Task, node: Addr, now: int, computed: nat, files: seq<Byte>)
    | SubmitScore(copy: Task, score: seq<Byte>, now: int)
    | SubmitError(copy: Task, now: int)
    | ValidateTask(copy: Task, now: int, splits: Splits, kickout: bool)
    | ValidateTasks(ids: TaskId, now: int, passive: bool, splits: Splits, kicked: set<Key>)
    | AbortTask(copy: Task, reason: AbortReason, splits: Splits, kickout: bool)
    | UploadResult(copy: Task, splits: Splits, kickout: bool)
    | Slash(node: Addr)
    | AskNode(node: Addr, request: NodeRequest)

  // The copies a handler works with.
  function Copies(h: Handler): set<Task> {
    if h.ValidateTasks? || h.Slash? || h.AskNode? then {} else {h.copy}
  }

  function Transact(cfg: Config, w: World, h: Handler): Tx {
    match h
    case StartTask(t, a, now, computed, files) => Start(cfg, w, t, a, now, computed, files)
    case SubmitScore(t, score, now) => ReportScore(cfg, w, t, score, now)
    case SubmitError(t, now) => ReportError(cfg, w, t, now)
    case ValidateTask(t, now, splits, kickout) => ValidateSingle(cfg, w, t, now, splits, kickout)
    case ValidateTasks(ids, now, passive, splits, kicked) => ValidateGroup(cfg, w, ids, now, passive, splits, kicked)
    case AbortTask(t, reason, splits, kickout) => Abort(cfg, w, t.(reason := reason), splits, kickout)
    case UploadResult(t, splits, kickout) => Succeed(cfg, w, t, splits, kickout)
    case Slash(a) => SlashNode(w, a)
    case AskNode(a, request) => RequestNode(w, a, request)
  }

  /** Whatever handler runs, on whatever stale copy, the rows keep the invariant and only move forward. */
  lemma TransactKeeps(cfg: Config, w: World, h: Handler)
    requires Inv(cfg, w) && forall t | t in Copies(h) :: Stale(w, t)
    ensures Kept(cfg, w, Transact(cfg, w, h))
  {
    hide Inv, Kept, Start, ReportScore, ReportError, ValidateSingle, ValidateGroup, Abort, Succeed, SlashNode,
         RequestNode, Stale;
    match h
    case StartTask(t, a, now, computed, files) => StartStep(cfg, w, t, a, now, computed, files);
    case SubmitScore(t, score, now) => ScoreStep(cfg, w, t, score, now);
    case SubmitError(t, now) => ErrorStep(cfg, w, t, now);
    case ValidateTask(t, now, splits, kickout) => ValidateSingleStep(cfg, w, t, now, splits, kickout);
    case ValidateTasks(ids, now, passive, splits, kicked) =>
      ValidateGroupStep(cfg, w, ids, now, passive, splits, kicked);
    case AbortTask(t, reason, splits, kickout) => AbortStep(cfg, w, t, reason, splits, kickout);
    case UploadResult(t, splits, kickout) => SucceedStep(cfg, w, t, splits, kickout);
    case Slash(a) => SlashStep(cfg, w, a);
    case AskNode(a, request) => RequestStep(cfg, w, a, request);
  }
}

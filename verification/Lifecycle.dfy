/** Task and node transitions. Each function is one database transaction: it yields the
    committed rows, or the failure that rolls everything back. */
module Lifecycle {
  import opened Basics
  import opened Model
  import opened Deadline
  import opened Settlement
  import Validation

  datatype World = World(
    tasks: map<Key, Task>,
    nodes: map<Addr, Node>,
    vestings: map<nat, Vesting>,
    log: seq<Event>)

  datatype Failure =
    | WrongTaskStatus
    | TaskStatusChanged
    | NodeStatusChanged
    | WrongNodeCurrentTask
    | NodeUnavailable
    | IllegalNodeStatus
    | NodeAlreadyQuit
    | NotFound
    | Duplicate
    | DeadlineUnknown
    | NoActiveNode
    | NoScore
    | TaskIdConflict
    | AlreadyApplied
    | GroupExpired
    | InconsistentFiles
    | InvalidVesting
    | ReleaseExceedsSchedule
    | ReleaseRangeInvalid

  type Tx = Result<World, Failure>

  // ---------- Rows ----------

  // The status compare-and-set of an update made through the copy t.
  predicate Cas(w: World, t: Task) {
    t.key in w.tasks && w.tasks[t.key].status == t.status
  }

  function SetTask(w: World, row: Task): World {
    w.(tasks := w.tasks[row.key := row])
  }

  function SetNode(w: World, a: Addr, n: Node): World {
    w.(nodes := w.nodes[a := n])
  }

  function Emit(w: World, es: seq<Event>): World {
    w.(log := w.log + es)
  }

  /** The selected node, provided this task is its current one. */
  function CheckSelected(w: World, t: Task): Result<Addr, Failure> {
    if t.selected.None? || t.selected.value !in w.nodes then Err(NotFound)
    else if w.nodes[t.selected.value].current != Some(t.key) then Err(WrongNodeCurrentTask)
    else Ok(t.selected.value)
  }

  function AfterTask(read: NodeStatus, kickout: bool): NodeStatus {
    if kickout || read.PendingQuit? then Quit
    else if read.PendingPause? then Paused
    else Available
  }

  // Releases a node whose status was read as given.
  function FinishNode(w: World, a: Addr, read: NodeStatus, kickout: bool): Tx {
    if !Holding(read) then Err(IllegalNodeStatus)
    else if a !in w.nodes || w.nodes[a].status != read then Err(NodeStatusChanged)
    else Ok(SetNode(w, a, Node(AfterTask(read, kickout), None)))
  }

  // ---------- Creation and execution ----------

  function NewTask(cfg: Config, k: Key, creator: Addr, fee: nat, kind: TaskType,
                   createTime: Option<int>, queueTimeout: nat, timeout: nat): Task
  {
    var t := Task(k, creator, fee, kind, createTime, queueTimeout, timeout, Queued, None, None, NoReason,
                  [], None, [], None, None, None, None);
    t.(deadlineAt := QueueDeadline(cfg, t))
  }

  function Create(w: World, t: Task): Tx {
    if t.key in w.tasks then Err(Duplicate)
    else Ok(Emit(SetTask(w, t), [Event(TaskPayment(t.key), t.creator, t.fee)]))
  }

  function Start(cfg: Config, w: World, t: Task, a: Addr, now: int, computed: nat, files: seq<Byte>): Tx {
    if !t.status.Queued? then Err(WrongTaskStatus)
    else if a !in w.nodes then Err(NotFound)
    else if !Cas(w, t) then Err(TaskStatusChanged)
    else if !w.nodes[a].status.Available? || w.nodes[a].current.Some? then Err(NodeUnavailable)
    else
      var timeout := if RelayOwned(t.kind) then computed else t.timeout;
      Ok(SetNode(SetTask(w, StartedRow(w.tasks[t.key], a, now, timeout, files)), a, Node(Busy, Some(t.key))))
  }

  function StartedRow(row: Task, a: Addr, now: int, timeout: nat, files: seq<Byte>): Task {
    row.(status := Started, selected := Some(a), startTime := Some(now), timeout := timeout,
         files := files, deadlineAt := Some(now + timeout))
  }

  function ReportScore(cfg: Config, w: World, t: Task, score: seq<Byte>, now: int): Tx {
    if !t.status.Started? then Err(WrongTaskStatus)
    else
      var _ :- CheckSelected(w, t);
      var deadline := TransitionDeadline(cfg, t, ScoreReady, now);
      if deadline.None? then Err(DeadlineUnknown)
      else if !Cas(w, t) then Err(TaskStatusChanged)
      else Ok(SetTask(w, ReportedRow(w.tasks[t.key], ScoreReady, score, now, deadline)))
  }

  function ReportedRow(row: Task, to: TaskStatus, score: seq<Byte>, now: int, deadline: Option<int>): Task {
    row.(status := to, score := score, scoreTime := Some(now), deadlineAt := deadline)
  }

  function ReportError(cfg: Config, w: World, t: Task, now: int): Tx {
    if !t.status.Started? then Err(WrongTaskStatus)
    else
      var _ :- CheckSelected(w, t);
      var deadline := TransitionDeadline(cfg, t, ErrorReported, now);
      if deadline.None? then Err(DeadlineUnknown)
      else if !Cas(w, t) then Err(TaskStatusChanged)
      else Ok(SetTask(w, ReportedRow(w.tasks[t.key], ErrorReported, w.tasks[t.key].score, now, deadline)))
  }

  // ---------- Validation outcomes ----------

  // Accepts a single task (to Validated) or a group's representative (to GroupValidated).
  function Accept(cfg: Config, w: World, t: Task, to: TaskStatus, now: int): Tx {
    if !t.status.ScoreReady? then Err(WrongTaskStatus)
    else
      var _ :- CheckSelected(w, t);
      var deadline := TransitionDeadline(cfg, t, to, now);
      if deadline.None? then Err(DeadlineUnknown)
      else if !Cas(w, t) then Err(TaskStatusChanged)
      else Ok(SetTask(w, AcceptedRow(w.tasks[t.key], t, to, now, deadline)))
  }

  function AcceptedRow(row: Task, t: Task, to: TaskStatus, now: int, deadline: Option<int>): Task {
    row.(status := to, taskId := t.taskId, validatedTime := Some(now), deadlineAt := deadline,
         qos := if to.GroupValidated? then t.qos else row.qos)
  }

  function Refund(w: World, t: Task, now: int, kickout: bool): Tx {
    if !t.status.ScoreReady? then Err(WrongTaskStatus)
    else
      var a :- CheckSelected(w, t);
      if !Cas(w, t) then Err(TaskStatusChanged)
      else
        FinishNode(Emit(SetTask(w, RefundedRow(w.tasks[t.key], t, now)), [RefundEvent(t)]),
                   a, w.nodes[a].status, kickout)
  }

  function RefundedRow(row: Task, t: Task, now: int): Task {
    row.(status := EndGroupRefund, taskId := t.taskId, validatedTime := Some(now), qos := t.qos, deadlineAt := None)
  }

  function RefundEvent(t: Task): Event {
    Event(TaskRefund(t.key), t.creator, t.fee)
  }

  function Invalidate(w: World, t: Task, now: int, passive: bool, kickout: bool): Tx {
    if !t.status.ScoreReady? && !t.status.EndAborted? && !t.status.ErrorReported? then Err(WrongTaskStatus)
    else
      var a :- CheckSelected(w, t);
      if !Cas(w, t) then Err(TaskStatusChanged)
      else
        var w1 := SetTask(w, InvalidatedRow(w.tasks[t.key], t, now));
        if passive then FinishNode(w1, a, w.nodes[a].status, kickout) else SlashNode(w1, a)
  }

  function InvalidatedRow(row: Task, t: Task, now: int): Task {
    row.(status := EndInvalidated, taskId := t.taskId, validatedTime := Some(now), qos := Some(0), deadlineAt := None)
  }

  // ---------- Slashing ----------

  function SlashVestings(vs: map<nat, Vesting>, a: Addr): (r: map<nat, Vesting>)
    ensures r.Keys == vs.Keys
  {
    map id | id in vs :: if vs[id].address == a && vs[id].status.Active? then vs[id].(slashed := true) else vs[id]
  }

  function AbortCurrentTask(w: World, a: Addr): Tx
    requires a in w.nodes
  {
    var current := w.nodes[a].current;
    if current.None? then Ok(w)
    else if current.value !in w.tasks then Err(NotFound)
    else
      var t := w.tasks[current.value];
      if t.selected != Some(a) then Err(WrongNodeCurrentTask)
      else if Terminal(t.status) then Ok(w)
      else Ok(Emit(SetTask(w, SlashedRow(t)), [RefundEvent(t)]))
  }

  function SlashedRow(row: Task): Task {
    row.(status := EndAborted, reason := NodeSlashed, deadlineAt := None)
  }

  function SlashNode(w: World, a: Addr): Tx {
    if a !in w.nodes then Err(NotFound)
    else if w.nodes[a].status.Quit? then Err(NodeAlreadyQuit)
    else
      var w1 :- AbortCurrentTask(w, a);
      Ok(SetNode(w1, a, Node(Quit, None)).(vestings := SlashVestings(w1.vestings, a)))
  }

  // ---------- Abort ----------

  predicate TimeoutReason(r: AbortReason) {
    r.Timeout? || r.CreatorValidationTimeout? || r.ResultUploadTimeout?
  }

  // The node to release with an aborted task, if any.
  function AbortNode(w: World, t: Task): Result<Option<Addr>, Failure> {
    if t.selected.None? then Ok(None)
    else
      match CheckSelected(w, t)
      case Ok(a) => Ok(Some(a))
      case Err(e) => if e.WrongNodeCurrentTask? && !TimeoutReason(t.reason) then Ok(None) else Err(e)
  }

  function Abort(cfg: Config, w: World, t: Task, splits: Splits, kickout: bool): Tx {
    if t.status.EndAborted? then Ok(w)
    else if Terminal(t.status) then Err(WrongTaskStatus)
    else
      var node :- AbortNode(w, t);
      if t.reason.CreatorValidationTimeout? && node.None? then Err(NoActiveNode)
      else if !Cas(w, t) then Err(TaskStatusChanged)
      else
        var es := if t.reason.CreatorValidationTimeout?
                  then IncomeEvents(cfg, t.key, node.value, t.fee, SplitOf(splits, node.value))
                  else [RefundEvent(t)];
        var w1 := Emit(SetTask(w, AbortedRow(w.tasks[t.key], t)), es);
        if node.None? then Ok(w1) else FinishNode(w1, node.value, w.nodes[node.value].status, kickout)
  }

  function AbortedRow(row: Task, t: Task): Task {
    row.(status := EndAborted, taskId := t.taskId, reason := t.reason, validatedTime := t.validatedTime,
         qos := t.qos, deadlineAt := None)
  }

  // ---------- Success ----------

  // The rows that carry the given task id, in group order.
  function GroupRows(w: World, ids: TaskId, all: TaskId): (r: seq<Task>)
    ensures forall t | t in r :: t.taskId == Some(all)
  {
    if ids == [] then [] else
      var n := |ids| - 1;
      var k := ids[n];
      GroupRows(w, ids[..n], all) + if k in w.tasks && w.tasks[k].taskId == Some(all) then [w.tasks[k]] else []
  }

  predicate Paid(t: Task) {
    t.status.GroupValidated? || t.status.EndGroupRefund?
  }

  function Payees(ts: seq<Task>): (r: seq<Task>)
    ensures forall t :: t in r <==> t in ts && Paid(t)
  {
    if ts == [] then [] else
      var n := |ts| - 1;
      Payees(ts[..n]) + if Paid(ts[n]) then [ts[n]] else []
  }

  function Fees(ts: seq<Task>): (r: seq<nat>)
    ensures |r| == |ts|
  {
    seq(|ts|, i requires 0 <= i < |ts| => ts[i].fee)
  }

  function Scores(ts: seq<Task>): (r: seq<nat>)
    ensures |r| == |ts|
  {
    seq(|ts|, i requires 0 <= i < |ts| => if ts[i].qos.Some? then ts[i].qos.value else 0)
  }

  function NodeOf(t: Task): Addr {
    if t.selected.Some? then t.selected.value else ""
  }

  function PaymentEvents(cfg: Config, payees: seq<Task>, payments: seq<nat>, splits: Splits): seq<Event>
    requires |payees| == |payments|
  {
    if payees == [] then [] else
      var n := |payees| - 1;
      PaymentEvents(cfg, payees[..n], payments[..n], splits)
        + IncomeEvents(cfg, payees[n].key, NodeOf(payees[n]), payments[n], SplitOf(splits, NodeOf(payees[n])))
  }

  function Succeed(cfg: Config, w: World, t: Task, splits: Splits, kickout: bool): Tx {
    if !t.status.Validated? && !t.status.GroupValidated? then Err(WrongTaskStatus)
    else
      var a :- CheckSelected(w, t);
      if t.taskId.None? then Err(NotFound)
      else
        var group := GroupRows(w, t.taskId.value, t.taskId.value);
        var payees := if |group| > 1 then Payees(group) else [t];
        if |group| > 1 && payees != [] && Sum(Scores(payees)) == 0 then Err(NoScore)
        else if !Cas(w, t) then Err(TaskStatusChanged)
        else
          var payments := if |group| > 1 then GroupPayments(Fees(payees), Scores(payees)) else [t.fee];
          var row := SucceededRow(w.tasks[t.key], |group| > 1);
          FinishNode(Emit(SetTask(w, row), PaymentEvents(cfg, payees, payments, splits)), a, w.nodes[a].status, kickout)
  }

  function SucceededRow(row: Task, grouped: bool): Task {
    row.(status := if grouped then EndGroupSuccess else EndSuccess, deadlineAt := None)
  }

  // ---------- Validation requests ----------

  function ValidateSingle(cfg: Config, w: World, t: Task, now: int, splits: Splits, kickout: bool): Tx {
    var id := Some([t.key]);
    if t.taskId.Some? && t.taskId != id then Err(TaskIdConflict)
    else if t.status.Validated? || t.status.EndSuccess? || (t.status.EndAborted? && t.reason.TaskErrorReported?) then
      Err(AlreadyApplied)
    else if t.status.ScoreReady? then Accept(cfg, w, t.(taskId := id), Validated, now)
    else if t.status.ErrorReported? then
      Abort(cfg, w, t.(taskId := id, reason := TaskErrorReported, validatedTime := Some(now)), splits, kickout)
    else Err(WrongTaskStatus)
  }

  predicate GroupIds(ids: TaskId) {
    |ids| == 3 && ids[0] < ids[1] < ids[2]
  }

  // The locked member rows, checked before the group is decided.
  function LoadGroup(w: World, ids: TaskId): Result<seq<Task>, Failure> {
    if !GroupIds(ids) || exists k | k in ids :: k !in w.tasks then Err(NotFound)
    else
      var ts := [w.tasks[ids[0]], w.tasks[ids[1]], w.tasks[ids[2]]];
      if exists t | t in ts :: t.taskId.Some? && t.taskId != Some(ids) then Err(TaskIdConflict)
      else if forall t | t in ts :: t.taskId == Some(ids) then Err(AlreadyApplied)
      else if exists t | t in ts :: t.status.EndAborted? && t.reason.CreatorValidationTimeout? then Err(GroupExpired)
      else if exists t | t in ts :: !t.status.ScoreReady? && !t.status.ErrorReported? && !t.status.EndAborted? then
        Err(WrongTaskStatus)
      else if exists t, u | t in ts && u in ts ::
          !t.status.EndAborted? && !u.status.EndAborted? && t.files != u.files then
        Err(InconsistentFiles)
      else Ok(ts)
  }

  // The members in time order, carrying the revealed id and their rank scores.
  function RankGroup(ts: seq<Task>, ids: TaskId): (r: seq<Task>)
    requires |ts| == 3
    ensures |r| == 3
  {
    var sorted := Validation.SortByTime(ts);
    [sorted[0].(taskId := Some(ids), qos := Validation.QosOf(sorted, 0)),
     sorted[1].(taskId := Some(ids), qos := Validation.QosOf(sorted, 1)),
     sorted[2].(taskId := Some(ids), qos := Validation.QosOf(sorted, 2))]
  }

  function ApplyVerdict(cfg: Config, w: World, t: Task, next: TaskStatus, few: bool,
                        now: int, passive: bool, splits: Splits, kicked: set<Key>): Tx
  {
    match next
    case EndInvalidated => Invalidate(w, t, now, passive, t.key in kicked)
    case GroupValidated => Accept(cfg, w, t, GroupValidated, now)
    case EndGroupRefund => Refund(w, t, now, t.key in kicked)
    case _ =>
      if !t.status.EndAborted? then
        Abort(cfg, w, t.(reason := if few then GroupTimeout else IncorrectResult, validatedTime := Some(now)),
              splits, t.key in kicked)
      else if t.key in w.tasks then Ok(SetTask(w, w.tasks[t.key].(qos := t.qos, taskId := t.taskId)))
      else Ok(w)
  }

  function ApplyVerdicts(cfg: Config, w: World, ts: seq<Task>, next: map<Key, TaskStatus>, few: bool,
                         now: int, passive: bool, splits: Splits, kicked: set<Key>): Tx
    requires forall t | t in ts :: t.key in next
  {
    if ts == [] then Ok(w) else
      var n := |ts| - 1;
      var w1 :- ApplyVerdicts(cfg, w, ts[..n], next, few, now, passive, splits, kicked);
      ApplyVerdict(cfg, w1, ts[n], next[ts[n].key], few, now, passive, splits, kicked)
  }

  function ValidateGroup(cfg: Config, w: World, ids: TaskId, now: int, passive: bool,
                         splits: Splits, kicked: set<Key>): Tx
  {
    var loaded :- LoadGroup(w, ids);
    var ts := RankGroup(loaded, ids);
    ApplyVerdicts(cfg, w, ts, Validation.Decide(ts, cfg.distanceThreshold), |Validation.Finished(ts)| < 2,
                  now, passive, splits, kicked)
  }

  function NewEvents(log: seq<Event>, log': seq<Event>): seq<Event> {
    if |log| <= |log'| then log'[|log|..] else []
  }

  // The rows after as many verdicts, from the first member on, as can be applied.
  function AppliedBefore(cfg: Config, w: World, ts: seq<Task>, next: map<Key, TaskStatus>, few: bool,
                         now: int, passive: bool, splits: Splits, kicked: set<Key>): World
    requires forall t | t in ts :: t.key in next
  {
    var r := ApplyVerdicts(cfg, w, ts, next, few, now, passive, splits, kicked);
    if r.Ok? then r.value
    else if ts == [] then w
    else AppliedBefore(cfg, w, ts[..|ts| - 1], next, few, now, passive, splits, kicked)
  }

  // The events of the members applied before a refusal. Each member's own transaction, nested in the one of the
  // group, ends with its cache updates; rolling back the group takes the events back and leaves these.
  function GroupLeftover(cfg: Config, w: World, ids: TaskId, now: int, passive: bool,
                         splits: Splits, kicked: set<Key>): seq<Event>
  {
    var loaded := LoadGroup(w, ids);
    if loaded.Err? then [] else
      var ts := RankGroup(loaded.value, ids);
      var w1 := AppliedBefore(cfg, w, ts, Validation.Decide(ts, cfg.distanceThreshold), |Validation.Finished(ts)| < 2,
                              now, passive, splits, kicked);
      NewEvents(w.log, w1.log)
  }

  // ---------- Node requests ----------

  datatype NodeRequest = Join | Pause | Resume | Leave

  /** A node joining, pausing, resuming, or quitting on request or after unstaking. */
  function RequestNode(w: World, a: Addr, r: NodeRequest): Tx {
    if r.Join? then
      if a !in w.nodes then Ok(SetNode(w, a, Node(Available, None)))
      else if w.nodes[a].status.Quit? then Ok(SetNode(w, a, w.nodes[a].(status := Available)))
      else Err(IllegalNodeStatus)
    else if a !in w.nodes then Err(NotFound)
    else
      var n := w.nodes[a];
      match (r, n.status)
      case (Pause, Available) => Ok(SetNode(w, a, n.(status := Paused)))
      case (Pause, Busy) => Ok(SetNode(w, a, n.(status := PendingPause)))
      case (Resume, Paused) => Ok(SetNode(w, a, n.(status := Available)))
      case (Leave, Available) => Ok(SetNode(w, a, Node(Quit, None)))
      case (Leave, Paused) => Ok(SetNode(w, a, Node(Quit, None)))
      case (Leave, Busy) => Ok(SetNode(w, a, n.(status := PendingQuit)))
      case _ => Err(IllegalNodeStatus)
  }
}

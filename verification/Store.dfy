/** The relay's tables and balance cache as they are updated in place, against the machine's steps. */
module Store {
  import opened Basics
  import opened Model
  import opened Deadline
  import opened Settlement
  import opened Lifecycle
  import opened Invariant
  import opened Vestings
  import opened Ledger
  import opened Audit
  import opened Steps
  import opened Effects
  import opened Rollback
  import opened Relay
  import Validation

  // How a method run inside a transaction ends: the rows it leaves, or the failure to roll back for.
  ghost predicate Outcome(r: Option<Failure>, spec: Tx, rows: World) {
    if spec.Ok? then r.None? && rows == spec.value else r == Some(spec.error)
  }

  class RelayStore {
    const cfg: Config

    var tasks: map<Key, Task>
    var nodes: map<Addr, Node>
    var vestings: map<nat, Vesting>
    var log: seq<Event>
    var withdraws: map<nat, WithdrawRecord>
    var mark: nat
    var rejected: seq<Event>
    var db: Balances
    var cache: Balances
    var run: Option<nat>
    ghost var seen: set<Task>

    function Rows(): World
      reads this
    {
      World(tasks, nodes, vestings, log)
    }

    ghost function View(): State
      reads this
    {
      State(Rows(), seen, withdraws, run, mark, rejected, db, cache)
    }

    constructor (cfg0: Config, accounts: Balances)
      ensures cfg == cfg0 && db == accounts &&
                View() == State(World(map[], map[], map[], []), {}, map[], None, 0, [], accounts, map[])
    {
      cfg := cfg0;
      tasks, nodes, vestings, log, withdraws := map[], map[], map[], [], map[];
      mark, rejected, db, cache, run, seen := 0, [], accounts, map[], None, {};
    }

    // ---------- Inside a transaction ----------

    method PutTask(row: Task)
      modifies this`tasks
      ensures Rows() == SetTask(old(Rows()), row)
    {
      tasks := tasks[row.key := row];
    }

    method PutNode(a: Addr, n: Node)
      modifies this`nodes
      ensures Rows() == SetNode(old(Rows()), a, n)
    {
      nodes := nodes[a := n];
    }

    method Append(es: seq<Event>)
      modifies this`log
      ensures Rows() == Emit(old(Rows()), es)
    {
      log := log + es;
    }

    method FinishTask(a: Addr, read: NodeStatus, kickout: bool) returns (r: Option<Failure>)
      modifies this`nodes
      ensures Outcome(r, FinishNode(old(Rows()), a, read, kickout), Rows())
    {
      if read != Busy && read != PendingPause && read != PendingQuit {
        return Some(IllegalNodeStatus);
      }
      if a !in nodes || nodes[a].status != read {
        return Some(NodeStatusChanged);
      }
      if kickout {
        PutNode(a, Node(Quit, None));
      } else {
        match read {
          case Busy => PutNode(a, Node(Available, None));
          case PendingQuit => PutNode(a, Node(Quit, None));
          case PendingPause => PutNode(a, Node(Paused, None));
        }
      }
      r := None;
    }

    method StartTask(t: Task, a: Addr, now: int, computed: nat, files: seq<Byte>) returns (r: Option<Failure>)
      modifies this`tasks, this`nodes
      ensures Outcome(r, Start(cfg, old(Rows()), t, a, now, computed, files), Rows())
    {
      if t.status != Queued {
        return Some(WrongTaskStatus);
      }
      if a !in nodes {
        return Some(NotFound);
      }
      var timeout := t.timeout;
      if RelayOwned(t.kind) {
        timeout := computed;
      }
      if !Cas(Rows(), t) {
        return Some(TaskStatusChanged);
      }
      PutTask(StartedRow(tasks[t.key], a, now, timeout, files));
      if nodes[a].status != Available || nodes[a].current.Some? {
        return Some(NodeUnavailable);
      }
      PutNode(a, Node(Busy, Some(t.key)));
      r := None;
    }

    method Report(t: Task, to: TaskStatus, score: Option<seq<Byte>>, now: int) returns (r: Option<Failure>)
      requires if score.Some? then to == ScoreReady else to == ErrorReported
      modifies this`tasks
      ensures score.Some? ==> Outcome(r, ReportScore(cfg, old(Rows()), t, score.value, now), Rows())
      ensures score.None? ==> Outcome(r, ReportError(cfg, old(Rows()), t, now), Rows())
    {
      hide TransitionDeadline;
      if t.status != Started {
        return Some(WrongTaskStatus);
      }
      var node := CheckSelected(Rows(), t);
      if node.Err? {
        return Some(node.error);
      }
      var deadline := TransitionDeadline(cfg, t, to, now);
      if deadline.None? {
        return Some(DeadlineUnknown);
      }
      if !Cas(Rows(), t) {
        return Some(TaskStatusChanged);
      }
      var row := tasks[t.key];
      PutTask(ReportedRow(row, to, if score.Some? then score.value else row.score, now, deadline));
      r := None;
    }

    method AcceptTask(t: Task, to: TaskStatus, now: int) returns (r: Option<Failure>)
      modifies this`tasks
      ensures Outcome(r, Accept(cfg, old(Rows()), t, to, now), Rows())
    {
      hide TransitionDeadline;
      if t.status != ScoreReady {
        return Some(WrongTaskStatus);
      }
      var node := CheckSelected(Rows(), t);
      if node.Err? {
        return Some(node.error);
      }
      var deadline := TransitionDeadline(cfg, t, to, now);
      if deadline.None? {
        return Some(DeadlineUnknown);
      }
      if !Cas(Rows(), t) {
        return Some(TaskStatusChanged);
      }
      PutTask(AcceptedRow(tasks[t.key], t, to, now, deadline));
      r := None;
    }

    method RefundTask(t: Task, now: int, kickout: bool) returns (r: Option<Failure>)
      modifies this`tasks, this`nodes, this`log
      ensures Outcome(r, Refund(old(Rows()), t, now, kickout), Rows())
    {
      if t.status != ScoreReady {
        return Some(WrongTaskStatus);
      }
      var node := CheckSelected(Rows(), t);
      if node.Err? {
        return Some(node.error);
      }
      var read := nodes[node.value].status;
      if !Cas(Rows(), t) {
        return Some(TaskStatusChanged);
      }
      PutTask(RefundedRow(tasks[t.key], t, now));
      Append([RefundEvent(t)]);
      r := FinishTask(node.value, read, kickout);
    }

    method AbortCurrent(a: Addr) returns (r: Option<Failure>)
      requires a in nodes
      modifies this`tasks, this`log
      ensures Outcome(r, AbortCurrentTask(old(Rows()), a), Rows())
    {
      if nodes[a].current.None? {
        return None;
      }
      var k := nodes[a].current.value;
      if k !in tasks {
        return Some(NotFound);
      }
      var t := tasks[k];
      if t.selected != Some(a) {
        return Some(WrongNodeCurrentTask);
      }
      if Terminal(t.status) {
        return None;
      }
      Append([RefundEvent(t)]);
      PutTask(SlashedRow(t));
      r := None;
    }

    method SlashNodeTx(a: Addr) returns (r: Option<Failure>)
      modifies this`tasks, this`nodes, this`log, this`vestings
      ensures Outcome(r, SlashNode(old(Rows()), a), Rows())
    {
      if a !in nodes {
        return Some(NotFound);
      }
      if nodes[a].status == Quit {
        return Some(NodeAlreadyQuit);
      }
      r := AbortCurrent(a);
      if r.Some? {
        return;
      }
      PutNode(a, Node(Quit, None));
      vestings := SlashVestings(vestings, a);
    }

    method InvalidateTask(t: Task, now: int, passive: bool, kickout: bool) returns (r: Option<Failure>)
      modifies this`tasks, this`nodes, this`log, this`vestings
      ensures Outcome(r, Invalidate(old(Rows()), t, now, passive, kickout), Rows())
    {
      hide SlashNode;
      if t.status != ScoreReady && t.status != EndAborted && t.status != ErrorReported {
        return Some(WrongTaskStatus);
      }
      var node := CheckSelected(Rows(), t);
      if node.Err? {
        return Some(node.error);
      }
      var read := nodes[node.value].status;
      if !Cas(Rows(), t) {
        return Some(TaskStatusChanged);
      }
      PutTask(InvalidatedRow(tasks[t.key], t, now));
      if passive {
        r := FinishTask(node.value, read, kickout);
      } else {
        r := SlashNodeTx(node.value);
      }
    }

    method AbortTaskTx(t: Task, splits: Splits, kickout: bool) returns (r: Option<Failure>)
      modifies this`tasks, this`nodes, this`log
      ensures Outcome(r, Abort(cfg, old(Rows()), t, splits, kickout), Rows())
    {
      hide IncomeEvents;
      if t.status == EndAborted {
        return None;
      }
      if Terminal(t.status) {
        return Some(WrongTaskStatus);
      }
      var node: Option<Addr> := None;
      if t.selected.Some? {
        match CheckSelected(Rows(), t) {
          case Ok(a) => node := Some(a);
          case Err(e) =>
            if e != WrongNodeCurrentTask || TimeoutReason(t.reason) {
              return Some(e);
            }
        }
      }
      var es := [];
      if t.reason == CreatorValidationTimeout {
        if node.None? {
          return Some(NoActiveNode);
        }
        es := SplitIncome(cfg, t.key, node.value, t.fee, SplitOf(splits, node.value));
      } else {
        es := [RefundEvent(t)];
      }
      if !Cas(Rows(), t) {
        return Some(TaskStatusChanged);
      }
      PutTask(AbortedRow(tasks[t.key], t));
      Append(es);
      if node.None? {
        return None;
      }
      r := FinishTask(node.value, nodes[node.value].status, kickout);
    }

    method SucceedTask(t: Task, splits: Splits, kickout: bool) returns (r: Option<Failure>)
      modifies this`tasks, this`nodes, this`log
      ensures Outcome(r, Succeed(cfg, old(Rows()), t, splits, kickout), Rows())
    {
      hide PaymentEvents, GroupRows, Payees, GroupPayments;
      if t.status != Validated && t.status != GroupValidated {
        return Some(WrongTaskStatus);
      }
      var node := CheckSelected(Rows(), t);
      if node.Err? {
        return Some(node.error);
      }
      if t.taskId.None? {
        return Some(NotFound);
      }
      var read := nodes[node.value].status;
      var group := GroupRows(Rows(), t.taskId.value, t.taskId.value);
      var payees, payments := [t], [t.fee];
      if |group| > 1 {
        payees := Payees(group);
        if payees != [] && Sum(Scores(payees)) == 0 {
          return Some(NoScore);
        }
        payments := PayGroup(Fees(payees), Scores(payees));
      }
      if !Cas(Rows(), t) {
        return Some(TaskStatusChanged);
      }
      var es := PayAll(cfg, payees, payments, splits);
      PutTask(SucceededRow(tasks[t.key], |group| > 1));
      Append(es);
      r := FinishTask(node.value, read, kickout);
    }

    method ValidateOne(t: Task, now: int, splits: Splits, kickout: bool) returns (r: Option<Failure>)
      modifies this`tasks, this`nodes, this`log
      ensures Outcome(r, ValidateSingle(cfg, old(Rows()), t, now, splits, kickout), Rows())
    {
      hide Accept, Abort;
      if t.taskId.Some? && t.taskId != Some([t.key]) {
        return Some(TaskIdConflict);
      }
      if t.status == Validated || t.status == EndSuccess || (t.status == EndAborted && t.reason == TaskErrorReported) {
        return Some(AlreadyApplied);
      }
      if t.status == ScoreReady {
        r := AcceptTask(t.(taskId := Some([t.key])), Validated, now);
      } else if t.status == ErrorReported {
        r := AbortTaskTx(t.(taskId := Some([t.key]), reason := TaskErrorReported, validatedTime := Some(now)), splits,
            kickout);
      } else {
        r := Some(WrongTaskStatus);
      }
    }

    method ApplyOne(t: Task, next: TaskStatus, few: bool, now: int, passive: bool, splits: Splits, kicked: set<Key>)
      returns (r: Option<Failure>)
      modifies this`tasks, this`nodes, this`log, this`vestings
      ensures Outcome(r, ApplyVerdict(cfg, old(Rows()), t, next, few, now, passive, splits, kicked), Rows())
    {
      hide Accept, Abort, Refund, Invalidate;
      if next == EndInvalidated {
        r := InvalidateTask(t, now, passive, t.key in kicked);
      } else if next == GroupValidated {
        r := AcceptTask(t, GroupValidated, now);
      } else if next == EndGroupRefund {
        r := RefundTask(t, now, t.key in kicked);
      } else if t.status != EndAborted {
        r := AbortTaskTx(t.(reason := if few then GroupTimeout else IncorrectResult, validatedTime := Some(now)),
                         splits, t.key in kicked);
      } else {
        if t.key in tasks {
          PutTask(tasks[t.key].(qos := t.qos, taskId := t.taskId));
        }
        r := None;
      }
    }

    // One member's transaction, which ends with its cache updates.
    method ApplyPosted(t: Task, next: TaskStatus, few: bool, now: int, passive: bool, splits: Splits, kicked: set<Key>)
      returns (r: Option<Failure>)
      modifies this`tasks, this`nodes, this`log, this`vestings, this`cache
      ensures Outcome(r, ApplyVerdict(cfg, old(Rows()), t, next, few, now, passive, splits, kicked), Rows())
      ensures r.None? ==> |old(log)| <= |log| && log[..|old(log)|] == old(log)
      ensures cache == if r.None? then PostAll(db, old(cache), log[|old(log)|..]) else old(cache)
    {
      hide ApplyVerdict, PostAll;
      var n := |log|;
      VerdictAppends(cfg, Rows(), t, next, few, now, passive, splits, kicked);
      r := ApplyOne(t, next, few, now, passive, splits, kicked);
      if r.None? {
        PostSince(n);
      }
    }

    /** One nested transaction per member, each ending with its own cache updates; the first refusal ends the loop. */
    method ApplyAllVerdicts(ts: seq<Task>, next: map<Key, TaskStatus>, few: bool, now: int, passive: bool,
                            splits: Splits, kicked: set<Key>) returns (r: Option<Failure>)
      requires forall t | t in ts :: t.key in next
      modifies this`tasks, this`nodes, this`log, this`vestings, this`cache
      ensures Outcome(r, ApplyVerdicts(cfg, old(Rows()), ts, next, few, now, passive, splits, kicked), Rows())
      ensures cache == PostAll(db, old(cache), NewEvents(old(log),
                AppliedBefore(cfg, old(Rows()), ts, next, few, now, passive, splits, kicked).log))
    {
      hide ApplyVerdict, ApplyVerdicts, PostAll, AppliedBefore, NewEvents;
      ghost var w := Rows();
      NoVerdicts(cfg, w, ts, next, few, now, passive, splits, kicked);
      NothingSince(db, cache, log);
      for i := 0 to |ts|
        invariant ApplyVerdicts(cfg, w, ts[..i], next, few, now, passive, splits, kicked) == Ok(Rows())
        invariant |w.log| <= |log| && cache == PostAll(db, old(cache), NewEvents(w.log, log))
      {
        ghost var before := Rows();
        VerdictsSnoc(cfg, w, ts, i, next, few, now, passive, splits, kicked);
        r := ApplyPosted(ts[i], next[ts[i].key], few, now, passive, splits, kicked);
        if r.Some? {
          FailsEarly(cfg, w, ts, i + 1, next, few, now, passive, splits, kicked);
          StopsBefore(cfg, w, ts, i, next, few, now, passive, splits, kicked);
          return;
        }
        PostedSince(db, old(cache), w.log, before.log, log);
      }
      assert ts[..|ts|] == ts;
      AppliedAll(cfg, w, ts, next, few, now, passive, splits, kicked);
      r := None;
    }

    /** Decides a locked group of three and applies the verdicts one member after the other. */
    method ValidateTaskGroup(ids: TaskId, now: int, passive: bool, splits: Splits, kicked: set<Key>)
      returns (r: Option<Failure>)
      modifies this`tasks, this`nodes, this`log, this`vestings, this`cache
      ensures Outcome(r, ValidateGroup(cfg, old(Rows()), ids, now, passive, splits, kicked), Rows())
      ensures cache == PostAll(db, old(cache), GroupLeftover(cfg, old(Rows()), ids, now, passive, splits, kicked))
    {
      hide LoadGroup, RankGroup, ApplyVerdicts, Validation.Decide, Validation.Finished, AppliedBefore, PostAll;
      NothingPosted(db, cache);
      var loaded := LoadGroup(Rows(), ids);
      if loaded.Err? {
        return Some(loaded.error);
      }
      GroupOfThree(Rows(), ids);
      var ts := RankMembers(loaded.value, ids);
      var next, finished := Validation.DecideGroup(ts, cfg.distanceThreshold);
      r := ApplyAllVerdicts(ts, next, |finished| < 2, now, passive, splits, kicked);
    }

    method AskNodeTx(a: Addr, q: NodeRequest) returns (r: Option<Failure>)
      modifies this`nodes
      ensures Outcome(r, RequestNode(old(Rows()), a, q), Rows())
    {
      r := None;
      if q == Join {
        if a !in nodes {
          PutNode(a, Node(Available, None));
        } else if nodes[a].status == Quit {
          PutNode(a, nodes[a].(status := Available));
        } else {
          r := Some(IllegalNodeStatus);
        }
        return;
      }
      if a !in nodes {
        return Some(NotFound);
      }
      var n := nodes[a];
      if q == Pause && n.status == Available {
        PutNode(a, n.(status := Paused));
      } else if q == Pause && n.status == Busy {
        PutNode(a, n.(status := PendingPause));
      } else if q == Resume && n.status == Paused {
        PutNode(a, n.(status := Available));
      } else if q == Leave && (n.status == Available || n.status == Paused) {
        PutNode(a, Node(Quit, None));
      } else if q == Leave && n.status == Busy {
        PutNode(a, n.(status := PendingQuit));
      } else {
        r := Some(IllegalNodeStatus);
      }
    }

    // ---------- Whole transactions ----------

    // The transactions without others inside.
    method Dispatch(h: Handler) returns (r: Option<Failure>)
      requires !h.ValidateTasks?
      modifies this`tasks, this`nodes, this`log, this`vestings
      ensures Outcome(r, Transact(cfg, old(Rows()), h), Rows())
    {
      hide Start, ReportScore, ReportError, ValidateSingle, ValidateGroup, Abort, Succeed, SlashNode, RequestNode;
      match h {
        case StartTask(t, a, now, computed, files) => r := StartTask(t, a, now, computed, files);
        case SubmitScore(t, score, now) => r := Report(t, ScoreReady, Some(score), now);
        case SubmitError(t, now) => r := Report(t, ErrorReported, None, now);
        case ValidateTask(t, now, splits, kickout) => r := ValidateOne(t, now, splits, kickout);
        case AbortTask(t, reason, splits, kickout) => r := AbortTaskTx(t.(reason := reason), splits, kickout);
        case UploadResult(t, splits, kickout) => r := SucceedTask(t, splits, kickout);
        case Slash(a) => r := SlashNodeTx(a);
        case AskNode(a, request) => r := AskNodeTx(a, request);
      }
    }

    // The commit functions of a transaction: each new event moves its cached balance.
    method PostSince(n: nat)
      requires n <= |log|
      modifies this`cache
      ensures cache == PostAll(db, old(cache), log[n..])
    {
      for i := n to |log|
        invariant cache == PostAll(db, old(cache), log[n..i])
      {
        assert log[n..i + 1][..i - n] == log[n..i] && log[n..i + 1][i - n] == log[i];
        var e := log[i];
        if !e.reason.VestingCreated? {
          var balance := if e.address in cache then cache[e.address] else Bal(db, e.address);
          if e.reason.TaskPayment? || e.reason.Withdraw? {
            cache := cache[e.address := balance - e.amount];
          } else {
            cache := cache[e.address := balance + e.amount];
          }
        }
      }
      assert log[n..|log|] == log[n..];
    }

    /** One handler: its transaction commits with its cache update, or its rows and events are rolled back and only
        the cache updates of nested transactions remain. */
    method Handle(h: Handler) returns (r: Option<Failure>)
      modifies this
      ensures View() == Answer(cfg, old(View()), h)
      ensures r.None? <==> Transact(cfg, old(Rows()), h).Ok?
      ensures r.Some? ==> r.value == Transact(cfg, old(Rows()), h).error
    {
      hide PostAll, Transact, Leftover;
      if h.ValidateTasks? {
        r := DecideGroup(h.ids, h.now, h.passive, h.splits, h.kicked);
      } else {
        r := RunPlain(h);
      }
    }

    // A group request: rolled back, it leaves what its members' transactions posted.
    method DecideGroup(ids: TaskId, now: int, passive: bool, splits: Splits, kicked: set<Key>)
      returns (r: Option<Failure>)
      modifies this`tasks, this`nodes, this`log, this`vestings, this`cache
      ensures View() == Answer(cfg, old(View()), ValidateTasks(ids, now, passive, splits, kicked))
      ensures var spec := Transact(cfg, old(Rows()), ValidateTasks(ids, now, passive, splits, kicked));
              if spec.Ok? then r.None? else r == Some(spec.error)
    {
      hide PostAll, ValidateGroup, GroupLeftover, NewEvents, Answer;
      var tasks0, nodes0, vestings0, log0 := tasks, nodes, vestings, log;
      ghost var h := ValidateTasks(ids, now, passive, splits, kicked);
      DecidedPosts(cfg, Rows(), ids, now, passive, splits, kicked);
      AnswerIs(cfg, View(), h);
      r := ValidateTaskGroup(ids, now, passive, splits, kicked);
      if r.Some? {
        tasks, nodes, vestings, log := tasks0, nodes0, vestings0, log0;
      }
    }

    // Any other request: its cache updates come with the commit.
    method RunPlain(h: Handler) returns (r: Option<Failure>)
      requires !h.ValidateTasks?
      modifies this`tasks, this`nodes, this`log, this`vestings, this`cache
      ensures View() == Answer(cfg, old(View()), h)
      ensures var spec := Transact(cfg, old(Rows()), h); if spec.Ok? then r.None? else r == Some(spec.error)
    {
      hide PostAll, Transact, Answer;
      var tasks0, nodes0, vestings0, log0 := tasks, nodes, vestings, log;
      NothingPosted(db, cache);
      AnswerIs(cfg, View(), h);
      r := Dispatch(h);
      if r.Some? {
        tasks, nodes, vestings, log := tasks0, nodes0, vestings0, log0;
      } else if |log0| <= |log| {
        PostSince(|log0|);
      }
    }

    method CreateTask(k: Key, creator: Addr, fee: nat, kind: TaskType, createTime: Option<int>, queueTimeout: nat,
                      timeout: nat)
      returns (ok: bool)
      modifies this
      ensures View() == Next(cfg, old(View()),
                Step.CreateTask(k, creator, fee, kind, createTime, queueTimeout, timeout))
      ensures ok <==> Cached(old(db), old(cache), creator) >= fee && k !in old(tasks)
    {
      var task := NewTask(cfg, k, creator, fee, kind, createTime, queueTimeout, timeout);
      var balance := if creator in cache then cache[creator] else Bal(db, creator);
      if balance < fee {
        cache := cache[creator := balance];
        return false;
      }
      if k in tasks {
        return false;
      }
      var n := |log|;
      PutTask(task);
      Append([Event(TaskPayment(k), creator, fee)]);
      assert log[n..] == [Event(TaskPayment(k), creator, fee)];
      PostSince(n);
      ok := true;
    }

    // Appends one event and moves its cached balance.
    method Record(e: Event)
      modifies this`log, this`cache
      ensures View() == Commit(old(View()), Ok(Emit(old(Rows()), [e])))
    {
      var n := |log|;
      Append([e]);
      assert log[n..] == [e];
      PostSince(n);
    }

    method DepositRelayAccount(tx: string, network: string)
      modifies this`log, this`cache
      ensures View() == Next(cfg, old(View()), SeeDeposit(tx, network))
    {
      hide Commit;
      if (tx, network) !in cfg.deposits || Tally(log, Deposit(tx, network)) > 0 {
        return;
      }
      var d := cfg.deposits[(tx, network)];
      Record(Event(Deposit(tx, network), d.sender, d.amount));
    }

    method WithdrawRequest(id: nat, a: Addr, amount: nat, fee: nat) returns (ok: bool)
      modifies this`log, this`cache, this`withdraws
      ensures View() == Relay.Withdraw(old(View()), id, a, amount, fee)
      ensures ok <==> id !in old(withdraws) && Cached(old(db), old(cache), a) >= amount + fee
    {
      if id in withdraws {
        return false;
      }
      var balance := if a in cache then cache[a] else Bal(db, a);
      if balance < amount + fee {
        cache := cache[a := balance];
        return false;
      }
      withdraws := withdraws[id := WithdrawRecord(a, amount, fee, WithdrawPending, false)];
      Record(Event(Reason.Withdraw(id), a, amount + fee));
      ok := true;
    }

    method FulfillWithdraw(id: nat)
      modifies this`log, this`cache, this`withdraws
      ensures View() == Fulfill(cfg, old(View()), id)
    {
      if id !in withdraws || withdraws[id].status != WithdrawPending || !withdraws[id].processed {
        return;
      }
      var r := withdraws[id];
      withdraws := withdraws[id := r.(status := WithdrawSuccess)];
      if r.fee > 0 {
        Record(Event(WithdrawFeeIncome(id), cfg.withdrawFeeAddress, r.fee));
      } else {
        NothingEmitted(View());
      }
    }

    method RejectWithdraw(id: nat)
      modifies this`log, this`cache, this`withdraws
      ensures View() == Reject(old(View()), id)
    {
      if id !in withdraws || withdraws[id].status != WithdrawPending || !withdraws[id].processed {
        return;
      }
      var r := withdraws[id];
      withdraws := withdraws[id := r.(status := WithdrawFailed)];
      Record(Event(WithdrawRefund(id), r.address, r.amount + r.fee));
    }

    /** One batch: validated, then folded into the database rows through its merged sums. */
    method ProcessPending(batch: seq<Event>)
      requires batch == Pending(View())[..if |Pending(View())| < BATCH then |Pending(View())| else BATCH]
      modifies this`mark, this`rejected, this`db, this`withdraws
      ensures View() == Sync(cfg, old(View()))
    {
      hide Accepted, Rejected, ApplyAll, Processed;
      var valid, invalid := Validate(cfg, Books(tasks, vestings, withdraws), db, batch);
      rejected := rejected + invalid;
      db := FoldBatch(db, valid);
      mark := mark + |batch|;
      withdraws := MarkProcessed(withdraws, valid);
    }

    /** Syncing until nothing is pending: every event moved the database or was rejected. From balanced books none is
        rejected, the pending events are applied one at a time, and both tiers agree. */
    method SyncRelayAccounts()
      requires RelayInv(cfg, View())
      modifies this`mark, this`rejected, this`db, this`withdraws
      ensures RelayInv(cfg, View()) && mark == |log|
      ensures |old(rejected)| <= |rejected| && rejected[..|old(rejected)|] == old(rejected)
      ensures forall a :: Bal(db, a) == Bal(old(db), a) + Net(Pending(old(View())), a)
                                        - Net(rejected[|old(rejected)|..], a)
      ensures Balanced(old(View())) ==>
                && rejected == [] && db == ApplyAll(old(db), Pending(old(View())))
                && forall a :: Bal(db, a) == Cached(db, cache, a)
    {
      hide RelayInv, ApplyAll, Sync, Balanced, Follows;
      ghost var s := View();
      RunStart(cfg, s);
      while true
        invariant RelayInv(cfg, View()) && Follows(s, View()) && (Balanced(s) ==> Balanced(View()))
        invariant log == old(log) && mark <= |log|
        decreases |log| - mark
      {
        MarkInLog(cfg, View());
        if mark >= |log| {
          DrainedFollows(cfg, s, View());
          if Balanced(s) {
            Drained(cfg, s, View());
          }
          return;
        }
        var pending := log[mark..];
        var batch := pending[..if |pending| < BATCH then |pending| else BATCH];
        SyncStepped(cfg, View());
        SyncFollows(cfg, View());
        FollowsTransitive(s, View(), Sync(cfg, View()));
        SyncAdvances(cfg, View());
        ProcessPending(batch);
      }
    }

    // ---------- Timeouts and unstaking ----------

    // Other requests may run here: all a caller knows afterwards is that the machine took some steps.
    method Yield()
      modifies this
      ensures Reaches(cfg, old(View()), View())
    {
      NoStep(cfg, View());
    }

    /** Aborting a task that the scan found overdue, with anything else running before each attempt: without an error
        the task is not overdue afterwards, and if it was aborted here, it was overdue as it stood and carries the
        reason of that status; a status changed under every attempt means that it advanced each time; any other error
        means that it has ended. */
    method AbortTimedOutTask(found: Task, now: int, splits: Splits, kickout: bool)
      returns (r: Option<Failure>, ghost aborted: Option<Task>)
      requires RelayInv(cfg, View()) && found in seen && TimedOut(cfg, found, now)
      modifies this
      ensures RelayInv(cfg, View()) && Reaches(cfg, old(View()), View())
      ensures found.key in tasks
      ensures r.None? ==> !Due(tasks[found.key], now)
      ensures r.None? && aborted.Some? ==>
                var t := aborted.value;
                && t in seen && t.key == found.key && t.deadlineAt.Some? && t.deadlineAt.value <= now
                && AbortedFrom(t, tasks[found.key])
      ensures r.Some? ==> aborted.None?
      ensures r == Some(TaskStatusChanged) ==> Rank(tasks[found.key].status) >= Rank(found.status) + 3
      ensures r.Some? && r != Some(TaskStatusChanged) ==> Terminal(tasks[found.key].status)
    {
      hide RelayInv, Inv, Precedes, Due, TaskDeadline, Terminal, Rank, Reaches, AbortedFrom;
      var t := found;
      r, aborted := None, None;
      NoStep(cfg, View());
      SeenIsStale(cfg, View(), t);
      for i := 0 to 3
        invariant RelayInv(cfg, View()) && Reaches(cfg, old(View()), View())
        invariant t in seen && t.key == found.key && t.key in tasks
        invariant i == 0 ==> t == found
        invariant i > 0 ==> t == tasks[t.key] && r == Some(TaskStatusChanged)
        invariant Rank(t.status) >= Rank(found.status) + i && aborted.None?
      {
        var deadline := TaskDeadline(cfg, t);
        if deadline.None? || t.deadlineAt.None? || now < t.deadlineAt.value {
          SeenIsStale(cfg, View(), t);
          NotDue(cfg, Rows(), t, now);
          return None, None;
        }
        ghost var before := View();
        r := TryAbort(t, deadline.value.1, splits, kickout);
        ReachesTransitive(cfg, old(View()), before, View());
        if r.None? {
          EndedIsNotDue(tasks[t.key], now);
          return None, Some(t);
        }
        if r != Some(TaskStatusChanged) && r != Some(NodeStatusChanged) {
          return;
        }
        before := View();
        t := Reload(t.key);
        ReachesTransitive(cfg, old(View()), before, View());
      }
    }

    // One attempt: whatever runs first, the task has ended afterwards, or its row is ahead of the copy.
    method TryAbort(t: Task, reason: AbortReason, splits: Splits, kickout: bool) returns (r: Option<Failure>)
      requires RelayInv(cfg, View()) && t in seen
      requires TaskDeadline(cfg, t).Some? && reason == TaskDeadline(cfg, t).value.1
      modifies this
      ensures RelayInv(cfg, View()) && Reaches(cfg, old(View()), View())
      ensures t in seen && t.key in tasks && tasks[t.key].key == t.key && r != Some(NodeStatusChanged)
      ensures r.None? ==> AbortedFrom(t, tasks[t.key])
      ensures r != Some(TaskStatusChanged) ==> Terminal(tasks[t.key].status)
      ensures r == Some(TaskStatusChanged) ==> Rank(tasks[t.key].status) > Rank(t.status)
    {
      hide RelayInv, Abort, Commit, Inv, Precedes, TaskDeadline, Terminal, Rank, Reaches, AbortedFrom;
      Yield();
      ReachesKeeps(cfg, old(View()), View());
      SeenIsStale(cfg, View(), t);
      AbortOverdue(cfg, Rows(), t, splits, kickout);
      HandleKeeps(cfg, View(), AbortTask(t, reason, splits, kickout));
      HandleReaches(cfg, View(), AbortTask(t, reason, splits, kickout));
      PlainAnswer(cfg, View(), AbortTask(t, reason, splits, kickout));
      ghost var before := View();
      r := AbortOnce(t, reason, splits, kickout);
      ReachesKeeps(cfg, before, View());
      ReachesTransitive(cfg, old(View()), before, View());
      SeenIsStale(cfg, View(), t);
      if r == Some(TaskStatusChanged) || r == Some(NodeStatusChanged) {
        MovedOn(cfg, Rows(), t, r, splits, kickout);
      }
    }

    // Reading the row again, whatever ran meanwhile.
    method Reload(k: Key) returns (t: Task)
      requires RelayInv(cfg, View()) && k in tasks && tasks[k].key == k
      modifies this
      ensures RelayInv(cfg, View()) && Reaches(cfg, old(View()), View())
      ensures k in tasks && t == tasks[k] && t in seen && t.key == k && Rank(t.status) >= Rank(old(tasks)[k].status)
    {
      hide RelayInv, Inv, Precedes, Rank, Reaches, Evolves, Next;
      Yield();
      ReachesKeeps(cfg, old(View()), View());
      RankGrows(old(Rows()), Rows(), k);
      t := tasks[k];
      ghost var before := View();
      StepInOrder(cfg, before, ReadTask(k));
      ReadIs(cfg, before, k);
      OneStep(cfg, before, ReadTask(k));
      seen := seen + {t};
      ReachesTransitive(cfg, old(View()), before, View());
    }

    method AbortOnce(t: Task, reason: AbortReason, splits: Splits, kickout: bool) returns (r: Option<Failure>)
      modifies this
      ensures View() == Commit(old(View()), Transact(cfg, old(Rows()), AbortTask(t, reason, splits, kickout)))
      ensures var spec := Abort(cfg, old(Rows()), t.(reason := reason), splits, kickout);
              if spec.Ok? then r.None? && Rows() == spec.value else r == Some(spec.error) && Rows() == old(Rows())
    {
      hide Abort;
      PlainAnswer(cfg, View(), AbortTask(t, reason, splits, kickout));
      r := Handle(AbortTask(t, reason, splits, kickout));
    }

    /** Unstaking on chain: an idle node quits, a busy one will after its task; a stale status is re-read once. */
    method TryUnstaked(a: Addr, read: NodeStatus)
      requires a in nodes
      modifies this`nodes
      ensures Rows() == if (read.Available? || read.Paused? || read.Busy?) && RequestNode(old(Rows()), a, Leave).Ok?
                        then RequestNode(old(Rows()), a, Leave).value else old(Rows())
    {
      var status := read;
      for i := 0 to 3
        invariant nodes == old(nodes)
        invariant i == 0 ==> status == read
        invariant i > 0 ==> (read.Available? || read.Paused? || read.Busy?) && status == nodes[a].status
        invariant i > 1 ==> RequestNode(Rows(), a, Leave).Err?
      {
        if status == Available || status == Paused {
          if nodes[a].status == status {
            PutNode(a, Node(Quit, None));
            return;
          }
        } else if status == Busy {
          if nodes[a].status == status {
            PutNode(a, nodes[a].(status := PendingQuit));
            return;
          }
        } else {
          return;
        }
        status := nodes[a].status;
      }
    }

    // ---------- Vesting ----------

    // A release event with its record and its cache credit.
    method RecordRelease(id: nat, v: Vesting, to: nat)
      requires v.released <= to
      modifies this`vestings, this`log, this`cache
      ensures View() == old(View()).(w := Emit(old(Rows()), [ReleaseEvent(id, v, to)])
                                           .(vestings := old(vestings)[id := ReleasedTo(v, to)]),
                                     cache := PostAll(db, old(cache), [ReleaseEvent(id, v, to)]))
    {
      hide PostAll;
      var n := |log|;
      Append([ReleaseEvent(id, v, to)]);
      vestings := vestings[id := ReleasedTo(v, to)];
      assert log[n..] == [ReleaseEvent(id, v, to)];
      PostSince(n);
    }

    /** One release in a transaction of its own: it brings an active, unslashed record up to what is due. */
    method ReleaseOne(id: nat, now: int) returns (r: Option<Failure>, ghost due: nat)
      modifies this
      ensures View() == Commit(old(View()), Release(old(Rows()), id, now))
      ensures r.None? <==> Release(old(Rows()), id, now).Ok?
      ensures r.Some? ==> View() == old(View())
      ensures r.None? ==> id in old(vestings)
      ensures r.None? ==>
                var v := old(vestings)[id];
                && DueBy(v.total, v.startTime, v.durationDays, now, due)
                && if v.status == Active && !v.slashed then CaughtUp(old(Rows()), Rows(), id, due)
                   else View() == old(View())
    {
      hide PostAll, ShouldReleased, Tally, Commit, NewEvents, Release, CaughtUp, DueBy;
      due := 0;
      CommitIs(View(), Release(Rows(), id, now));
      NothingSince(db, cache, log);
      if Release(Rows(), id, now).Ok? {
        ReleaseFinds(Rows(), id, now);
        due := ReleaseExact(Rows(), id, now);
      }
      r := ReleaseTx(id, now);
    }

    method ReleaseTx(id: nat, now: int) returns (r: Option<Failure>)
      modifies this
      ensures View() == Commit(old(View()), Release(old(Rows()), id, now))
      ensures r.None? <==> Release(old(Rows()), id, now).Ok?
    {
      hide PostAll, ShouldReleased, Tally, Commit, NewEvents;
      CommitIs(View(), Release(Rows(), id, now));
      NothingSince(db, cache, log);
      if id !in vestings {
        return Some(NotFound);
      }
      var v := vestings[id];
      if v.status != Active || v.slashed {
        return None;
      }
      var to := ShouldReleased(v.total, v.startTime, v.durationDays, now);
      if to <= v.released {
        if v.released >= v.total {
          vestings := vestings[id := v.(status := Completed)];
        }
        return None;
      }
      if to > v.total {
        return Some(ReleaseExceedsSchedule);
      }
      if Tally(log, VestingRelease(id, v.released, to)) > 0 {
        return Some(ReleaseRangeInvalid);
      }
      OneNew(log, ReleaseEvent(id, v, to));
      RecordRelease(id, v, to);
      r := None;
    }

    method HasPendingRelease() returns (found: bool)
      ensures found <==> exists e | e in Pending(View()) :: e.reason.VestingRelease?
    {
      if mark >= |log| {
        return false;
      }
      for i := mark to |log|
        invariant forall j | mark <= j < i :: !log[j].reason.VestingRelease?
      {
        if log[i].reason.VestingRelease? {
          assert log[i] == Pending(View())[i - mark];
          return true;
        }
      }
      found := false;
    }

    // One page of records, in id order, with the cursor moving along.
    method ReleaseEach(page: seq<nat>, start: nat, ghost rest: set<nat>, now: int) returns (startID: nat)
      requires RelayInv(cfg, View()) && run == Some(start)
      requires ReleasePage(vestings, start, page, rest) && DoneUpTo(vestings, start, now)
      modifies this
      ensures RelayInv(cfg, View()) && run == Some(startID)
      ensures startID == if page == [] then start else page[|page| - 1]
      ensures DoneUpTo(vestings, startID, now) && vestings.Keys == old(vestings).Keys
    {
      hide RelayInv, Next, Release, ReleasePage, NothingDue, DoneUpTo, PostAll, Releasable, NewEvents;
      ghost var vs := vestings;
      startID := start;
      for i := 0 to |page|
        invariant RelayInv(cfg, View()) && run == Some(startID)
        invariant startID == if i == 0 then start else page[i - 1]
        invariant DoneUpTo(vestings, startID, now) && SameAfter(vs, vestings, startID)
      {
        PageStep(vs, vestings, start, page, rest, i);
        InvChained(cfg, View());
        ReleaseDone(Rows(), page[i], now);
        StepInOrder(cfg, View(), ReleaseVesting(page[i], now));
        ReleaseIs(cfg, View(), page[i], now);
        ghost var before := vestings;
        startID := page[i];
        var r, due := ReleaseOne(startID, now);
        run := Some(startID);
        CursorDone(vs, before, vestings, start, page, rest, i, now);
      }
    }

    /** A release run: skipped while a release is pending; otherwise it visits every active, unslashed record
        once, in id order, and leaves none with anything due. */
    method ProcessDueReleases(now: int, batchSize: nat)
      requires RelayInv(cfg, View()) && run.None? && batchSize > 0
      modifies this
      ensures RelayInv(cfg, View()) && run.None?
      ensures if exists e | e in Pending(old(View())) :: e.reason.VestingRelease? then View() == old(View())
              else forall id | id in vestings && vestings[id].status == Active && !vestings[id].slashed ::
                     var v := vestings[id];
                     v.released * v.durationDays + v.durationDays > v.total * (now / 86400 - v.startTime / 86400)
    {
      hide RelayInv, Next, Release, ReleasePage, NothingDue, Pending, DoneUpTo, PostAll, SameAfter, Releasable;
      StepInOrder(cfg, View(), BeginReleases);
      BeginIs(cfg, View());
      var pending := HasPendingRelease();
      if pending {
        return;
      }
      run := Some(0);
      var startID := 0;
      NothingAtZero(cfg, View(), now);
      while true
        invariant RelayInv(cfg, View()) && run == Some(startID)
        invariant DoneUpTo(vestings, startID, now)
        decreases Remaining(vestings, startID)
      {
        var vs := vestings;
        var page, rest := FetchActive(vs, startID, batchSize);
        if |page| == 0 {
          assert page == [] && rest == {};
          LastPage(vs, startID, now);
          NothingLeftDue(vs, now);
          StepInOrder(cfg, View(), EndReleases);
          EndIs(cfg, View());
          run := None;
          return;
        }
        ghost var start := startID;
        startID := ReleaseEach(page, startID, rest, now);
        PageShrinks(vs, vestings, start, page, rest);
      }
    }
  }

  // The income events of every payee, one payment after the other.
  method PayAll(cfg: Config, payees: seq<Task>, payments: seq<nat>, splits: Splits) returns (es: seq<Event>)
    requires |payees| == |payments|
    ensures es == PaymentEvents(cfg, payees, payments, splits)
  {
    hide IncomeEvents;
    es := [];
    for i := 0 to |payees|
      invariant es == PaymentEvents(cfg, payees[..i], payments[..i], splits)
    {
      assert payees[..i + 1][..i] == payees[..i] && payments[..i + 1][..i] == payments[..i];
      var more := SplitIncome(cfg, payees[i].key, NodeOf(payees[i]), payments[i], SplitOf(splits, NodeOf(payees[i])));
      es := es + more;
    }
    assert payees[..|payees|] == payees && payments[..|payments|] == payments;
  }

  // The members sorted by time, each given the revealed id and its score.
  method RankMembers(ts: seq<Task>, ids: TaskId) returns (r: seq<Task>)
    requires |ts| == 3
    ensures r == RankGroup(ts, ids)
  {
    hide Validation.SortByTime, Validation.QosOf;
    var sorted := Validation.SortByTime(ts);
    var scores := Validation.AssignQosScores(sorted);
    r := [];
    for i := 0 to 3
      invariant |r| == i
      invariant forall j: nat | j < i :: r[j] == sorted[j].(taskId := Some(ids), qos := Validation.QosOf(sorted, j))
    {
      r := r + [sorted[i].(taskId := Some(ids), qos := scores[i])];
    }
  }

  lemma GroupOfThree(w: World, ids: TaskId)
    requires LoadGroup(w, ids).Ok?
    ensures |LoadGroup(w, ids).value| == 3
  {}

  lemma {:induction false} FailsEarly(cfg: Config, w: World, ts: seq<Task>, n: nat, next: map<Key, TaskStatus>,
                                      few: bool, now: int, passive: bool, splits: Splits, kicked: set<Key>)
    requires (forall t | t in ts :: t.key in next) && n <= |ts|
    requires ApplyVerdicts(cfg, w, ts[..n], next, few, now, passive, splits, kicked).Err?
    ensures ApplyVerdicts(cfg, w, ts, next, few, now, passive, splits, kicked)
         == ApplyVerdicts(cfg, w, ts[..n], next, few, now, passive, splits, kicked)
  {
    hide ApplyVerdict;
    if n == |ts| {
      assert ts[..n] == ts;
    } else {
      var m := |ts| - 1;
      assert ts[..m][..n] == ts[..n];
      FailsEarly(cfg, w, ts[..m], n, next, few, now, passive, splits, kicked);
    }
  }

  lemma NoVerdicts(cfg: Config, w: World, ts: seq<Task>, next: map<Key, TaskStatus>, few: bool,
                   now: int, passive: bool, splits: Splits, kicked: set<Key>)
    requires forall t | t in ts :: t.key in next
    ensures ApplyVerdicts(cfg, w, ts[..0], next, few, now, passive, splits, kicked) == Ok(w)
  {}

  lemma VerdictsSnoc(cfg: Config, w: World, ts: seq<Task>, i: nat, next: map<Key, TaskStatus>, few: bool,
                     now: int, passive: bool, splits: Splits, kicked: set<Key>)
    requires (forall t | t in ts :: t.key in next) && i < |ts|
    requires ApplyVerdicts(cfg, w, ts[..i], next, few, now, passive, splits, kicked).Ok?
    ensures ts[i] in ts
    ensures var w1 := ApplyVerdicts(cfg, w, ts[..i], next, few, now, passive, splits, kicked).value;
            ApplyVerdicts(cfg, w, ts[..i + 1], next, few, now, passive, splits, kicked)
            == ApplyVerdict(cfg, w1, ts[i], next[ts[i].key], few, now, passive, splits, kicked)
  {
    hide ApplyVerdict;
    assert ts[..i + 1][..i] == ts[..i];
  }

  lemma NothingSince(db: Balances, cache: Balances, log: seq<Event>)
    ensures cache == PostAll(db, cache, NewEvents(log, log))
  {}

  lemma OneNew(log: seq<Event>, e: Event)
    ensures NewEvents(log, log + [e]) == [e]
  {}

  // Posts of one member after those of the members before it.
  lemma PostedSince(db: Balances, cache: Balances, log0: seq<Event>, log1: seq<Event>, log2: seq<Event>)
    requires |log0| <= |log1| <= |log2| && log2[..|log1|] == log1
    ensures PostAll(db, PostAll(db, cache, NewEvents(log0, log1)), log2[|log1|..])
         == PostAll(db, cache, NewEvents(log0, log2))
  {
    hide PostAll;
    PostAllConcat(db, cache, log1[|log0|..], log2[|log1|..]);
    assert log1[|log0|..] + log2[|log1|..] == log2[|log0|..];
  }

  // Where the loop over the members stops.
  lemma {:induction false} StopsBefore(cfg: Config, w: World, ts: seq<Task>, i: nat, next: map<Key, TaskStatus>,
                                       few: bool, now: int, passive: bool, splits: Splits, kicked: set<Key>)
    requires (forall t | t in ts :: t.key in next) && i < |ts|
    requires ApplyVerdicts(cfg, w, ts[..i], next, few, now, passive, splits, kicked).Ok?
    requires ApplyVerdicts(cfg, w, ts[..i + 1], next, few, now, passive, splits, kicked).Err?
    ensures AppliedBefore(cfg, w, ts, next, few, now, passive, splits, kicked)
         == ApplyVerdicts(cfg, w, ts[..i], next, few, now, passive, splits, kicked).value
  {
    hide ApplyVerdict, ApplyVerdicts;
    FailsEarly(cfg, w, ts, i + 1, next, few, now, passive, splits, kicked);
    var m := |ts| - 1;
    if i < m {
      assert ts[..m][..i] == ts[..i] && ts[..m][..i + 1] == ts[..i + 1];
      StopsBefore(cfg, w, ts[..m], i, next, few, now, passive, splits, kicked);
    }
  }

  lemma AppliedAll(cfg: Config, w: World, ts: seq<Task>, next: map<Key, TaskStatus>, few: bool,
                   now: int, passive: bool, splits: Splits, kicked: set<Key>)
    requires forall t | t in ts :: t.key in next
    requires ApplyVerdicts(cfg, w, ts, next, few, now, passive, splits, kicked).Ok?
    ensures AppliedBefore(cfg, w, ts, next, few, now, passive, splits, kicked)
         == ApplyVerdicts(cfg, w, ts, next, few, now, passive, splits, kicked).value
  {
    hide ApplyVerdicts;
  }

  // What a decided group posts are the events it commits.
  lemma DecidedPosts(cfg: Config, w: World, ids: TaskId, now: int, passive: bool, splits: Splits, kicked: set<Key>)
    ensures var r := ValidateGroup(cfg, w, ids, now, passive, splits, kicked);
            r.Ok? ==> GroupLeftover(cfg, w, ids, now, passive, splits, kicked) == NewEvents(w.log, r.value.log)
  {
    hide LoadGroup, RankGroup, ApplyVerdicts, Validation.Decide, Validation.Finished, AppliedBefore;
    if LoadGroup(w, ids).Ok? {
      GroupOfThree(w, ids);
      var ts := RankGroup(LoadGroup(w, ids).value, ids);
      var next := Validation.Decide(ts, cfg.distanceThreshold);
      if ApplyVerdicts(cfg, w, ts, next, |Validation.Finished(ts)| < 2, now, passive, splits, kicked).Ok? {
        AppliedAll(cfg, w, ts, next, |Validation.Finished(ts)| < 2, now, passive, splits, kicked);
      }
    }
  }

  predicate Appends(w: World, r: Tx) {
    r.Ok? ==> |w.log| <= |r.value.log| && r.value.log[..|w.log|] == w.log
  }

  lemma VerdictAppends(cfg: Config, w: World, t: Task, next: TaskStatus, few: bool,
                       now: int, passive: bool, splits: Splits, kicked: set<Key>)
    ensures Appends(w, ApplyVerdict(cfg, w, t, next, few, now, passive, splits, kicked))
  {
    hide Invalidate, Accept, Refund, Abort, Appends;
    match next
    case EndInvalidated => InvalidateAppends(w, t, now, passive, t.key in kicked);
    case GroupValidated => AcceptAppends(cfg, w, t, GroupValidated, now);
    case EndGroupRefund => RefundAppends(w, t, now, t.key in kicked);
    case _ =>
      AbortAppends(cfg, w, t.(reason := if few then GroupTimeout else IncorrectResult, validatedTime := Some(now)),
                   splits, t.key in kicked);
      RecordAppends(w, t);
  }

  lemma InvalidateAppends(w: World, t: Task, now: int, passive: bool, kickout: bool)
    ensures Appends(w, Invalidate(w, t, now, passive, kickout))
  {
    hide SlashVestings;
  }

  lemma AcceptAppends(cfg: Config, w: World, t: Task, to: TaskStatus, now: int)
    ensures Appends(w, Accept(cfg, w, t, to, now))
  {
    hide TransitionDeadline;
  }

  lemma RefundAppends(w: World, t: Task, now: int, kickout: bool)
    ensures Appends(w, Refund(w, t, now, kickout))
  {}

  lemma AbortAppends(cfg: Config, w: World, t: Task, splits: Splits, kickout: bool)
    ensures Appends(w, Abort(cfg, w, t, splits, kickout))
  {
    hide IncomeEvents;
  }

  lemma RecordAppends(w: World, t: Task)
    ensures Appends(w, Ok(w)) && forall row: Task :: Appends(w, Ok(SetTask(w, row)))
  {}

  lemma CommitIs(s: State, r: Tx)
    ensures r.Err? ==> Commit(s, r) == s
    ensures r.Ok? ==> Commit(s, r) == s.(w := r.value, cache := PostAll(s.db, s.cache, NewEvents(s.w.log, r.value.log)))
  {}

  lemma AnswerIs(cfg: Config, s: State, h: Handler)
    ensures var r := Transact(cfg, s.w, h);
            Answer(cfg, s, h) ==
              if r.Ok? then s.(w := r.value, cache := PostAll(s.db, s.cache, NewEvents(s.w.log, r.value.log)))
              else s.(cache := PostAll(s.db, s.cache, Leftover(cfg, s.w, h)))
  {
    hide Transact, Leftover, PostAll, NewEvents;
  }

  // Only a group request has transactions inside its own.
  lemma PlainAnswer(cfg: Config, s: State, h: Handler)
    requires !h.ValidateTasks?
    ensures Answer(cfg, s, h) == Commit(s, Transact(cfg, s.w, h))
  {
    hide Transact, NewEvents;
    assert s.(cache := s.cache) == s;
  }

  lemma NothingPosted(db: Balances, cache: Balances)
    ensures PostAll(db, cache, []) == cache
  {}

  method MarkProcessed(ws: map<nat, WithdrawRecord>, valid: seq<Event>) returns (r: map<nat, WithdrawRecord>)
    ensures r == Processed(ws, valid)
  {
    r := ws;
    for i := 0 to |valid|
      invariant r == Processed(ws, valid[..i])
    {
      assert valid[..i + 1] == valid[..i] + [valid[i]];
      if valid[i].reason.Withdraw? && valid[i].reason.record in r {
        var id := valid[i].reason.record;
        r := r[id := r[id].(processed := true)];
      }
    }
    assert valid[..|valid|] == valid;
  }

  lemma SyncStepped(cfg: Config, s: State)
    requires RelayInv(cfg, s)
    ensures RelayInv(cfg, Sync(cfg, s)) && (Balanced(s) ==> Balanced(Sync(cfg, s)))
  {
    hide RelayInv, Balanced, Sync;
    SyncKeeps(cfg, s);
  }

  lemma Drained(cfg: Config, s: State, t: State)
    requires RelayInv(cfg, s) && Follows(s, t) && t.w.log == s.w.log && t.mark == |t.w.log|
    requires Balanced(s) && Balanced(t)
    ensures t.rejected == [] && t.db == ApplyAll(s.db, Pending(s))
    ensures forall a :: Bal(t.db, a) == Cached(t.db, t.cache, a)
  {
    hide Inv, Chained, SeenOk, OthersOk, OnePending, Folded, ApplyAll;
    assert Pending(t) == [];
    assert t.w.log[s.mark..t.mark] == Pending(s);
  }

  lemma DrainedFollows(cfg: Config, s: State, t: State)
    requires RelayInv(cfg, s) && Follows(s, t) && t.w.log == s.w.log && t.mark == |t.w.log|
    ensures |s.rejected| <= |t.rejected| && t.rejected[..|s.rejected|] == s.rejected
    ensures forall a :: Bal(t.db, a) == Bal(s.db, a) + Net(Pending(s), a) - Net(t.rejected[|s.rejected|..], a)
  {
    hide Inv, Chained, SeenOk, OthersOk, OnePending, Backed, ApplyAll, Net, Bal;
    var more := t.rejected[|s.rejected|..];
    assert t.rejected == s.rejected + more;
    assert t.w.log[..t.mark] == s.w.log[..s.mark] + Pending(s);
    forall a ensures Bal(t.db, a) == Bal(s.db, a) + Net(Pending(s), a) - Net(more, a) {
      NetConcat(s.rejected, more, a);
      NetConcat(s.w.log[..s.mark], Pending(s), a);
      assert Folded(t, a) == Folded(s, a);
    }
  }

  lemma SyncAdvances(cfg: Config, s: State)
    requires RelayInv(cfg, s) && s.mark < |s.w.log|
    ensures s.mark < Sync(cfg, s).mark <= |s.w.log| && Sync(cfg, s).w == s.w
  {
    hide Inv, Chained, SeenOk, OthersOk, OnePending, Backed, Accepted, Rejected;
  }

  predicate Releasable(vs: map<nat, Vesting>, id: nat) {
    id in vs && vs[id].status.Active? && !vs[id].slashed
  }

  // A page of releasable ids after a cursor, in order, with every other one beyond it.
  ghost predicate ReleasePage(vs: map<nat, Vesting>, after: nat, page: seq<nat>, rest: set<nat>) {
    && (forall i | 0 <= i < |page| :: Releasable(vs, page[i]) && after < page[i])
    && (forall i, j | 0 <= i < j < |page| :: page[i] < page[j])
    && (forall id | Releasable(vs, id) && after < id :: id in page || id in rest)
    && (forall id, i | id in rest && 0 <= i < |page| :: page[i] < id)
    && (forall id | id in rest :: Releasable(vs, id) && after < id)
  }

  lemma PageGrows(vs: map<nat, Vesting>, after: nat, page: seq<nat>, rest: set<nat>, id: nat)
    requires ReleasePage(vs, after, page, rest) && id in rest && forall other | other in rest :: id <= other
    ensures ReleasePage(vs, after, page + [id], rest - {id})
  {
    hide Releasable;
  }

  // The next active, unslashed records after a cursor, in id order.
  method FetchActive(vs: map<nat, Vesting>, after: nat, limit: nat) returns (page: seq<nat>, ghost rest: set<nat>)
    ensures |page| <= limit && ReleasePage(vs, after, page, rest)
    ensures |page| < limit ==> rest == {}
  {
    hide ReleasePage, Releasable;
    page := [];
    var left := set id | id in vs && Releasable(vs, id) && after < id;
    assert ReleasePage(vs, after, page, left) by {
      FirstPage(vs, after);
    }
    while left != {} && |page| < limit
      invariant |page| <= limit && ReleasePage(vs, after, page, left)
      decreases |left|
    {
      var id := Least(left);
      PageGrows(vs, after, page, left, id);
      page := page + [id];
      left := left - {id};
    }
    rest := left;
  }

  lemma FirstPage(vs: map<nat, Vesting>, after: nat)
    ensures ReleasePage(vs, after, [], set id | id in vs && Releasable(vs, id) && after < id)
  {}

  method Least(s: set<nat>) returns (least: nat)
    requires s != {}
    ensures least in s && forall other | other in s :: least <= other
  {
    least :| least in s;
    var todo := s - {least};
    while todo != {}
      invariant todo <= s && least in s && forall other | other in s :: other in todo || least <= other
      decreases |todo|
    {
      var id :| id in todo;
      if id < least {
        least := id;
      }
      todo := todo - {id};
    }
  }

  // ---------- A release run ----------

  // Less than one unit short of the share of the midnights passed.
  predicate NothingDue(v: Vesting, now: int) {
    v.released * v.durationDays + v.durationDays > v.total * (now / 86400 - v.startTime / 86400)
  }

  lemma ReleaseFinds(w: World, id: nat, now: int)
    requires Release(w, id, now).Ok?
    ensures id in w.vestings
  {}

  lemma DueReached(v: Vesting, now: int, due: nat)
    requires GrantOk(v) && v.status.Active? && DueBy(v.total, v.startTime, v.durationDays, now, due)
    requires due <= v.released
    ensures NothingDue(v, now)
  {
    var elapsed := now / 86400 - v.startTime / 86400;
    if now < v.startTime {
      TimesMonotone(v.total, elapsed, 0);
    } else {
      TimesMonotone(v.durationDays, due, v.released);
    }
  }

  ghost predicate DoneUpTo(vs: map<nat, Vesting>, cursor: nat, now: int) {
    forall id: nat | Releasable(vs, id) && id <= cursor :: NothingDue(vs[id], now)
  }

  predicate SameAfter(vs: map<nat, Vesting>, vs': map<nat, Vesting>, cursor: nat) {
    vs'.Keys == vs.Keys && forall id | id in vs && cursor < id :: vs'[id] == vs[id]
  }

  function IdsAfter(vs: map<nat, Vesting>, cursor: nat): set<nat> {
    set id | id in vs && cursor < id
  }

  function Remaining(vs: map<nat, Vesting>, cursor: nat): nat {
    |IdsAfter(vs, cursor)|
  }

  lemma BeginIs(cfg: Config, s: State)
    requires s.run.None?
    ensures Next(cfg, s, BeginReleases)
         == if exists e | e in Pending(s) :: e.reason.VestingRelease? then s else s.(run := Some(0))
  {}

  lemma EndIs(cfg: Config, s: State)
    ensures Next(cfg, s, EndReleases) == s.(run := None)
  {}

  lemma ReleaseIs(cfg: Config, s: State, id: nat, now: int)
    requires s.run.Some? && s.run.value < id && Release(s.w, id, now).Ok?
    ensures Next(cfg, s, ReleaseVesting(id, now)) == Commit(s, Release(s.w, id, now)).(run := Some(id))
  {}

  lemma InvChained(cfg: Config, s: State)
    requires RelayInv(cfg, s)
    ensures Chained(s.w)
  {}

  lemma NothingAtZero(cfg: Config, s: State, now: int)
    requires RelayInv(cfg, s)
    ensures DoneUpTo(s.w.vestings, 0, now)
  {
    hide Inv, SeenOk, OthersOk, OnePending, Backed, NothingDue;
  }

  /** A release changes only its own record, which then has nothing due. */
  lemma ReleaseDone(w: World, id: nat, now: int)
    requires Chained(w) && id in w.vestings
    ensures var r := Release(w, id, now);
            && r.Ok? && r.value.vestings.Keys == w.vestings.Keys
            && (forall j | j in w.vestings && j != id :: r.value.vestings[j] == w.vestings[j])
            && (Releasable(r.value.vestings, id) ==> NothingDue(r.value.vestings[id], now))
  {
    hide Chain, Tally, ShouldReleased, Release, DueBy, NothingDue;
    ReleaseKeeps(w, id, now);
    var due := ReleaseExact(w, id, now);
    var v := Release(w, id, now).value.vestings[id];
    assert GrantOk(v);
    if v.status.Active? && !v.slashed {
      DueReached(v, now, due);
    }
  }

  lemma LastPage(vs: map<nat, Vesting>, after: nat, now: int)
    requires ReleasePage(vs, after, [], {}) && DoneUpTo(vs, after, now)
    ensures forall id | Releasable(vs, id) :: NothingDue(vs[id], now)
  {
    hide NothingDue, Releasable;
  }

  lemma NothingLeftDue(vs: map<nat, Vesting>, now: int)
    requires forall id | Releasable(vs, id) :: NothingDue(vs[id], now)
    ensures forall id | id in vs && vs[id].status == Active && !vs[id].slashed ::
              var v := vs[id];
              v.released * v.durationDays + v.durationDays > v.total * (now / 86400 - v.startTime / 86400)
  {
    forall id | id in vs && vs[id].status == Active && !vs[id].slashed ensures NothingDue(vs[id], now) {
      assert Releasable(vs, id);
    }
  }

  lemma PageStep(vs: map<nat, Vesting>, cur: map<nat, Vesting>, start: nat, page: seq<nat>, rest: set<nat>, i: nat)
    requires ReleasePage(vs, start, page, rest) && i < |page| && cur.Keys == vs.Keys
    ensures page[i] in cur && (if i == 0 then start else page[i - 1]) < page[i]
  {
    assert Releasable(vs, page[i]);
  }

  lemma CursorDone(vs: map<nat, Vesting>, before: map<nat, Vesting>, cur: map<nat, Vesting>, start: nat,
                   page: seq<nat>, rest: set<nat>, i: nat, now: int)
    requires ReleasePage(vs, start, page, rest) && i < |page|
    requires var prev := if i == 0 then start else page[i - 1];
             DoneUpTo(before, prev, now) && SameAfter(vs, before, prev)
    requires cur.Keys == before.Keys && (forall j | j in before && j != page[i] :: cur[j] == before[j])
    requires Releasable(cur, page[i]) ==> NothingDue(cur[page[i]], now)
    ensures DoneUpTo(cur, page[i], now) && SameAfter(vs, cur, page[i])
  {
    hide NothingDue;
    var prev := if i == 0 then start else page[i - 1];
    assert prev < page[i] by {
      PageStep(vs, vs, start, page, rest, i);
    }
    NothingBetween(vs, start, page, rest, i);
    assert forall id: nat | Releasable(cur, id) && prev < id && id != page[i] :: Releasable(vs, id);
  }

  lemma NothingBetween(vs: map<nat, Vesting>, start: nat, page: seq<nat>, rest: set<nat>, i: nat)
    requires ReleasePage(vs, start, page, rest) && i < |page|
    ensures forall id: nat | Releasable(vs, id) && (if i == 0 then start else page[i - 1]) < id :: page[i] <= id
  {
    hide Releasable;
    var prev := if i == 0 then start else page[i - 1];
    assert start <= prev;
    forall id: nat | Releasable(vs, id) && prev < id ensures page[i] <= id {
      assert id in page || id in rest;
      if id in page {
        var j :| 0 <= j < |page| && page[j] == id;
        assert i <= j;
      }
    }
  }

  lemma PageShrinks(vs: map<nat, Vesting>, cur: map<nat, Vesting>, start: nat, page: seq<nat>, rest: set<nat>)
    requires ReleasePage(vs, start, page, rest) && page != [] && cur.Keys == vs.Keys
    ensures Remaining(cur, page[|page| - 1]) < Remaining(vs, start)
  {
    var last := page[|page| - 1];
    assert Releasable(vs, last) && start < last;
    Smaller(IdsAfter(cur, last), IdsAfter(vs, start), last);
  }

  lemma Smaller(a: set<nat>, b: set<nat>, x: nat)
    requires a <= b && x in b && x !in a
    ensures |a| < |b|
  {
    assert a <= b - {x};
    Subset(a, b - {x});
  }

  lemma {:induction false} Subset(a: set<nat>, b: set<nat>)
    requires a <= b
    ensures |a| <= |b|
  {
    if a != {} {
      var x :| x in a;
      Subset(a - {x}, b - {x});
    }
  }

  // ---------- Timeouts ----------

  lemma SeenIsStale(cfg: Config, s: State, t: Task)
    requires RelayInv(cfg, s) && t in s.seen
    ensures Inv(cfg, s.w) && Stale(s.w, t) && s.w.tasks[t.key].key == t.key
  {
    hide Chained, OthersOk, OnePending, Backed, Settled, EventsOk, GroupsOk, RowsOk;
    assert TaskLink(s.w.nodes, t.key, s.w.tasks[t.key]);
  }

  lemma ReadIs(cfg: Config, s: State, k: Key)
    requires k in s.w.tasks
    ensures Next(cfg, s, ReadTask(k)) == s.(seen := s.seen + {s.w.tasks[k]})
  {}

  // s' is where some run from s ends.
  ghost predicate Reaches(cfg: Config, s: State, s': State) {
    exists steps: seq<Step> :: Run(cfg, s, steps) == s'
  }

  lemma NoStep(cfg: Config, s: State)
    ensures Reaches(cfg, s, s)
  {
    assert Run(cfg, s, []) == s;
  }

  lemma OneStep(cfg: Config, s: State, step: Step)
    ensures Reaches(cfg, s, Next(cfg, s, step))
  {
    hide Next;
    assert [step][..0] == [];
    assert Run(cfg, s, [step]) == Next(cfg, s, step);
  }

  lemma ReachesTransitive(cfg: Config, a: State, b: State, c: State)
    requires Reaches(cfg, a, b) && Reaches(cfg, b, c)
    ensures Reaches(cfg, a, c)
  {
    hide Run;
    var steps :| Run(cfg, a, steps) == b;
    var more :| Run(cfg, b, more) == c;
    RunConcat(cfg, a, steps, more);
  }

  lemma StepSees(cfg: Config, s: State, step: Step)
    ensures s.seen <= Next(cfg, s, step).seen
  {
    hide Transact, Create, Release, Grant, Accepted, Rejected, ApplyAll, PostAll, Processed;
  }

  lemma {:induction false} RunSees(cfg: Config, s: State, steps: seq<Step>)
    ensures s.seen <= Run(cfg, s, steps).seen
  {
    hide Next;
    if steps != [] {
      RunSees(cfg, s, steps[..|steps| - 1]);
      StepSees(cfg, Run(cfg, s, steps[..|steps| - 1]), steps[|steps| - 1]);
    }
  }

  // Whatever ran: what was read stays read, and every row only moved forward.
  lemma ReachesKeeps(cfg: Config, s: State, s': State)
    requires RelayInv(cfg, s) && Reaches(cfg, s, s')
    ensures RelayInv(cfg, s') && s.seen <= s'.seen && Evolves(s.w.tasks, s'.w.tasks)
  {
    hide RelayInv, Run, Evolves;
    var steps :| Run(cfg, s, steps) == s';
    RunKeeps(cfg, s, steps);
    RunSees(cfg, s, steps);
  }

  lemma HandleReaches(cfg: Config, s: State, h: Handler)
    requires Copies(h) <= s.seen
    ensures Reaches(cfg, s, Answer(cfg, s, h))
  {
    hide Reaches, Answer;
    OneStep(cfg, s, Handle(h));
  }

  lemma RankGrows(w: World, w': World, k: Key)
    requires Evolves(w.tasks, w'.tasks) && k in w.tasks
    ensures k in w'.tasks && w'.tasks[k].key == w.tasks[k].key && Rank(w'.tasks[k].status) >= Rank(w.tasks[k].status)
  {}

  // An abort refused because the status changed: the row is further on than the copy.
  lemma MovedOn(cfg: Config, w: World, t: Task, r: Option<Failure>, splits: Splits, kickout: bool)
    requires Inv(cfg, w) && Stale(w, t) && TaskDeadline(cfg, t).Some?
    requires var spec := Abort(cfg, w, t.(reason := TaskDeadline(cfg, t).value.1), splits, kickout);
             spec.Err? && r == Some(spec.error) && (r == Some(TaskStatusChanged) || r == Some(NodeStatusChanged))
    ensures r == Some(TaskStatusChanged) && Rank(w.tasks[t.key].status) > Rank(t.status)
  {
    hide Inv;
    AbortOverdue(cfg, w, t, splits, kickout);
  }

  lemma NotDue(cfg: Config, w: World, t: Task, now: int)
    requires Inv(cfg, w) && t.key in w.tasks && t == w.tasks[t.key] && !TimedOut(cfg, t, now)
    ensures !Due(t, now)
  {
    assert RowOk(cfg, t);
  }

  // The row u of a task aborted as it stood in t, with the reason of that status.
  predicate AbortedFrom(t: Task, u: Task) {
    && u == t.(status := EndAborted, reason := u.reason, deadlineAt := None)
    && t.status in {Queued, Started, ParametersUploaded, ScoreReady, ErrorReported, Validated, GroupValidated}
    && u.reason == if t.status == Queued || t.kind == SDFTLora then Timeout
                   else if t.status in {Started, ParametersUploaded} then Timeout
                   else if t.status in {ScoreReady, ErrorReported} then CreatorValidationTimeout
                   else ResultUploadTimeout
  }

  lemma EndedIsNotDue(t: Task, now: int)
    ensures Terminal(t.status) ==> !Due(t, now)
  {}

  /** Aborting an overdue copy commits if it is current, asks for a reload if the task moved on, and fails
      otherwise only once the task has ended. */
  lemma AbortOverdue(cfg: Config, w: World, t: Task, splits: Splits, kickout: bool)
    requires Inv(cfg, w) && Stale(w, t) && TaskDeadline(cfg, t).Some?
    ensures var r := Abort(cfg, w, t.(reason := TaskDeadline(cfg, t).value.1), splits, kickout);
            && (Cas(w, t) ==>
                  && r.Ok? && t.key in r.value.tasks && Terminal(r.value.tasks[t.key].status)
                  && AbortedFrom(t, r.value.tasks[t.key]))
            && (r.Ok? ==> Cas(w, t))
            && (r.Err? && r.error != TaskStatusChanged ==> Terminal(w.tasks[t.key].status))
  {
    hide Inv, Abort, IncomeEvents, Precedes, Terminal, TaskDeadline, AbortedFrom;
    var reason := TaskDeadline(cfg, t).value.1;
    DeadlineReason(cfg, t);
    EndedByAbort();
    AbortEffect(cfg, w, t, reason, splits, kickout);
    if Cas(w, t) {
      Standing(cfg, w, t);
    } else {
      AbortRefused(cfg, w, t, reason, splits, kickout);
    }
  }

  lemma EndedByAbort()
    ensures Terminal(EndAborted)
  {}

  // The reason a status is aborted for, by status and type.
  lemma DeadlineReason(cfg: Config, t: Task)
    requires TaskDeadline(cfg, t).Some?
    ensures var why := TaskDeadline(cfg, t).value.1;
            && !Terminal(t.status) && t.status != EndAborted && (why == CreatorValidationTimeout ==> t.status != Queued)
            && AbortedFrom(t, t.(status := EndAborted, reason := why, deadlineAt := None))
  {}

  // A copy that no longer stands is refused as changed, or its task has ended.
  lemma AbortRefused(cfg: Config, w: World, t: Task, reason: AbortReason, splits: Splits, kickout: bool)
    requires Inv(cfg, w) && Stale(w, t) && !Terminal(t.status) && !Cas(w, t)
    requires reason.CreatorValidationTimeout? ==> !t.status.Queued?
    ensures var r := Abort(cfg, w, t.(reason := reason), splits, kickout);
            r.Err? && (r.error != TaskStatusChanged ==> Terminal(w.tasks[t.key].status))
  {
    hide Settled, EventsOk, GroupsOk, RowsOk, IncomeEvents;
    assert TaskLink(w.nodes, t.key, w.tasks[t.key]);
  }
}

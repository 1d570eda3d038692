/** How the income of a task is divided, over every run. */
module Incomes {
  import opened Basics
  import opened Model
  import opened Settlement
  import opened Lifecycle
  import opened Invariant
  import opened Moves
  import opened GroupMoves
  import opened Steps
  import opened Effects
  import opened GroupEffects
  import opened Payouts
  import opened Vestings
  import opened Ledger
  import opened Audit
  import opened Rollback
  import opened Relay
  import opened Guarantees

  // ---------- Sums by reason ----------

  function AmountOf(log: seq<Event>, r: Reason): nat {
    if log == [] then 0 else
      AmountOf(log[..|log| - 1], r) + if log[|log| - 1].reason == r then log[|log| - 1].amount else 0
  }

  // What the delegators of a task's node received.
  function Delegated(log: seq<Event>, k: Key): nat {
    if log == [] then 0 else
      var last := log[|log| - 1];
      Delegated(log[..|log| - 1], k)
        + if last.reason.UserDelegation? && last.reason.task == k then last.amount else 0
  }

  // All that was paid as income of a task.
  function IncomeOf(log: seq<Event>, k: Key): nat {
    AmountOf(log, TaskIncome(k)) + AmountOf(log, DaoTaskShare(k)) + Delegated(log, k)
  }

  lemma {:induction false} AmountOfConcat(a: seq<Event>, b: seq<Event>, r: Reason)
    ensures AmountOf(a + b, r) == AmountOf(a, r) + AmountOf(b, r)
  {
    if b == [] {
      assert a + b == a;
    } else {
      assert (a + b)[..|a + b| - 1] == a + b[..|b| - 1];
      AmountOfConcat(a, b[..|b| - 1], r);
    }
  }

  lemma {:induction false} DelegatedConcat(a: seq<Event>, b: seq<Event>, k: Key)
    ensures Delegated(a + b, k) == Delegated(a, k) + Delegated(b, k)
  {
    if b == [] {
      assert a + b == a;
    } else {
      assert (a + b)[..|a + b| - 1] == a + b[..|b| - 1];
      DelegatedConcat(a, b[..|b| - 1], k);
    }
  }

  lemma IncomeConcat(a: seq<Event>, b: seq<Event>, k: Key)
    ensures IncomeOf(a + b, k) == IncomeOf(a, k) + IncomeOf(b, k)
    ensures AmountOf(a + b, DaoTaskShare(k)) == AmountOf(a, DaoTaskShare(k)) + AmountOf(b, DaoTaskShare(k))
  {
    AmountOfConcat(a, b, TaskIncome(k));
    AmountOfConcat(a, b, DaoTaskShare(k));
    DelegatedConcat(a, b, k);
  }

  predicate NoIncome(es: seq<Event>, k: Key) {
    forall i | 0 <= i < |es| :: !IncomeReason(es[i].reason, k)
  }

  lemma {:induction false} NoIncomeOf(es: seq<Event>, k: Key)
    requires NoIncome(es, k)
    ensures IncomeOf(es, k) == 0 && AmountOf(es, DaoTaskShare(k)) == 0
  {
    if es != [] {
      NoIncomeOf(es[..|es| - 1], k);
    }
  }

  lemma {:induction false} OnlyIncomeOf(es: seq<Event>, k: Key)
    requires forall i | 0 <= i < |es| :: IncomeReason(es[i].reason, k)
    ensures IncomeOf(es, k) == Sum(Amounts(es))
  {
    if es != [] {
      var front, last := es[..|es| - 1], es[|es| - 1];
      OnlyIncomeOf(front, k);
      AmountsSnoc(front, last);
      assert es == front + [last];
    }
  }

  // ---------- The DAO's part ----------

  // The DAO has its percentage of the income of a task, rounded down.
  predicate DaoPart(cfg: Config, log: seq<Event>, k: Key) {
    var d := AmountOf(log, DaoTaskShare(k));
    100 * d <= IncomeOf(log, k) * cfg.daoPercent < 100 * d + 100
  }

  // The DAO's events go to its address, a delegator's to the delegator.
  predicate Addressed(cfg: Config, log: seq<Event>) {
    forall i | 0 <= i < |log| ::
      && (log[i].reason.DaoTaskShare? ==> log[i].address == cfg.daoAddress)
      && (log[i].reason.UserDelegation? ==> log[i].address == log[i].reason.user)
  }

  ghost predicate Divided(cfg: Config, log: seq<Event>) {
    Addressed(cfg, log) && forall k: Key :: DaoPart(cfg, log, k)
  }

  // New events that are divided by themselves, with no income that leaves out the DAO.
  ghost predicate DividedAlone(cfg: Config, es: seq<Event>) {
    Divided(cfg, es) && forall k: Key :: Tally(es, DaoTaskShare(k)) == 0 ==> NoIncome(es, k)
  }

  predicate IncomeEvent(e: Event) {
    e.reason.TaskIncome? || e.reason.DaoTaskShare? || e.reason.UserDelegation?
  }

  lemma NothingDivided(cfg: Config, es: seq<Event>)
    requires forall i | 0 <= i < |es| :: !IncomeEvent(es[i])
    ensures DividedAlone(cfg, es)
  {
    forall k: Key ensures DaoPart(cfg, es, k) {
      NoIncomeOf(es, k);
    }
  }

  lemma DividedConcat(cfg: Config, a: seq<Event>, b: seq<Event>)
    requires DividedAlone(cfg, a) && DividedAlone(cfg, b)
    requires forall k: Key :: Tally(a, DaoTaskShare(k)) == 0 || Tally(b, DaoTaskShare(k)) == 0
    ensures DividedAlone(cfg, a + b)
  {
    hide IncomeOf, AmountOf, IncomeReason, Tally;
    forall k: Key ensures DaoPart(cfg, a + b, k) && (Tally(a + b, DaoTaskShare(k)) == 0 ==> NoIncome(a + b, k)) {
      IncomeConcat(a, b, k);
      TallyConcat(a, b, DaoTaskShare(k));
      assert DaoPart(cfg, a, k) && DaoPart(cfg, b, k);
      if Tally(a, DaoTaskShare(k)) == 0 {
        NoIncomeOf(a, k);
      }
      if Tally(b, DaoTaskShare(k)) == 0 {
        NoIncomeOf(b, k);
      }
    }
  }

  lemma IncomeDivided(cfg: Config, k: Key, operator: Addr, amount: nat, s: Split)
    requires s.Valid()
    ensures DividedAlone(cfg, IncomeEvents(cfg, k, operator, amount, s))
  {
    hide IncomeEvents, AmountOf, Delegated, Tally, Sum, Amounts, DaoPart;
    var es := IncomeEvents(cfg, k, operator, amount, s);
    IncomeReasons(cfg, k, operator, amount, s);
    forall i | 0 <= i < |es| ensures IncomeReason(es[i].reason, k) {
      assert es[i] in es;
    }
    forall j: Key | j != k ensures NoIncome(es, j) && DaoPart(cfg, es, j) {
      NoIncomeOf(es, j);
      NoPart(cfg, es, j);
    }
    IncomePart(cfg, k, operator, amount, s);
    TallyIncome(cfg, k, operator, amount, s, DaoTaskShare(k));
  }

  lemma NoPart(cfg: Config, es: seq<Event>, k: Key)
    requires IncomeOf(es, k) == 0 && AmountOf(es, DaoTaskShare(k)) == 0
    ensures DaoPart(cfg, es, k)
  {}

  lemma IncomePart(cfg: Config, k: Key, operator: Addr, amount: nat, s: Split)
    requires s.Valid()
    ensures DaoPart(cfg, IncomeEvents(cfg, k, operator, amount, s), k)
    ensures Addressed(cfg, IncomeEvents(cfg, k, operator, amount, s))
  {
    hide IncomeEvents, Delegated, Sum, Amounts, AmountOf, IncomeOf;
    var es := IncomeEvents(cfg, k, operator, amount, s);
    IncomeReasons(cfg, k, operator, amount, s);
    forall i | 0 <= i < |es| ensures IncomeReason(es[i].reason, k) {
      assert es[i] in es;
    }
    OnlyIncomeOf(es, k);
    IncomeConserved(cfg, k, operator, amount, s);
    var d, p := IncomeSplit(cfg, k, operator, amount, s);
    DaoAmount(es, k, d);
  }

  // Only the last of the events is the DAO's.
  lemma DaoAmount(es: seq<Event>, k: Key, d: nat)
    requires |es| > 0 && es[|es| - 1].reason == DaoTaskShare(k) && es[|es| - 1].amount == d
    requires forall i | 0 <= i < |es| - 1 :: es[i].reason != DaoTaskShare(k)
    ensures AmountOf(es, DaoTaskShare(k)) == d
  {
    NoAmountOf(es[..|es| - 1], DaoTaskShare(k));
  }

  lemma {:induction false} NoAmountOf(es: seq<Event>, r: Reason)
    requires forall i | 0 <= i < |es| :: es[i].reason != r
    ensures AmountOf(es, r) == 0
  {
    if es != [] {
      NoAmountOf(es[..|es| - 1], r);
    }
  }

  // ---------- Every transaction ----------

  // What a transaction appended to the log.
  ghost predicate LogDivided(cfg: Config, w: World, r: Tx) {
    r.Ok? ==> |w.log| <= |r.value.log| && r.value.log[..|w.log|] == w.log
              && DividedAlone(cfg, r.value.log[|w.log|..])
  }

  lemma DividesBy(cfg: Config, w: World, r: Tx, es: seq<Event>)
    requires r.Ok? && r.value.log == w.log + es && DividedAlone(cfg, es)
    ensures LogDivided(cfg, w, r)
  {
    hide DividedAlone;
    assert r.value.log[|w.log|..] == es;
  }

  lemma DividesNothing(cfg: Config, w: World, r: Tx)
    requires r.Ok? ==> r.value.log == w.log
    ensures LogDivided(cfg, w, r)
  {
    if r.Ok? {
      assert r.value.log == w.log + [];
      NothingDivided(cfg, []);
      DividesBy(cfg, w, r, []);
    }
  }

  lemma OnlyRefunds(cfg: Config, es: seq<Event>)
    requires forall e | e in es :: e.reason.TaskRefund?
    ensures DividedAlone(cfg, es)
  {
    hide DividedAlone;
    forall i | 0 <= i < |es| ensures !IncomeEvent(es[i]) {
      assert es[i] in es;
    }
    NothingDivided(cfg, es);
  }

  lemma EarnedDivided(cfg: Config, splits: Splits, p: bool, t: Task, amount: nat)
    ensures DividedAlone(cfg, EarnedEvents(cfg, splits, p, t, amount))
    ensures forall k: Key | Tally(EarnedEvents(cfg, splits, p, t, amount), DaoTaskShare(k)) != 0 :: k == t.key
  {
    hide IncomeEvents, DividedAlone, Tally;
    if p {
      var split := SplitOf(splits, NodeOf(t));
      IncomeDivided(cfg, t.key, NodeOf(t), amount, split);
      forall k: Key | k != t.key
        ensures Tally(IncomeEvents(cfg, t.key, NodeOf(t), amount, split), DaoTaskShare(k)) == 0
      {
        TallyIncome(cfg, t.key, NodeOf(t), amount, split, DaoTaskShare(k));
      }
    } else {
      OnlyRefunds(cfg, []);
      NoTally();
    }
  }

  lemma NoTally()
    ensures forall r :: Tally([], r) == 0
  {}

  lemma GroupDivided(cfg: Config, splits: Splits, g: Trio, x: nat, y: nat, z: nat)
    requires g.a.key < g.b.key < g.c.key
    ensures DividedAlone(cfg, EarnedEvents(cfg, splits, g.pa, g.a, x) + EarnedEvents(cfg, splits, g.pb, g.b, y)
                                + EarnedEvents(cfg, splits, g.pc, g.c, z))
  {
    hide EarnedEvents, DividedAlone, Tally;
    var a, b := EarnedEvents(cfg, splits, g.pa, g.a, x), EarnedEvents(cfg, splits, g.pb, g.b, y);
    var c := EarnedEvents(cfg, splits, g.pc, g.c, z);
    EarnedDivided(cfg, splits, g.pa, g.a, x);
    EarnedDivided(cfg, splits, g.pb, g.b, y);
    EarnedDivided(cfg, splits, g.pc, g.c, z);
    DividedConcat(cfg, a, b);
    forall k: Key ensures Tally(a + b, DaoTaskShare(k)) == 0 || Tally(c, DaoTaskShare(k)) == 0 {
      TallyConcat(a, b, DaoTaskShare(k));
    }
    DividedConcat(cfg, a + b, c);
  }

  lemma SucceedDivides(cfg: Config, w: World, t: Task, splits: Splits, kickout: bool)
    requires Inv(cfg, w) && Stale(w, t)
    ensures LogDivided(cfg, w, Succeed(cfg, w, t, splits, kickout))
  {
    hide Inv, Stale, Succeed, IncomeEvents, EarnedEvents, DividedAlone, LogDivided, Trio.Parts, Trio.Scored, Trio.Total;
    var g, x, y, z := SucceedEffect(cfg, w, t, splits, kickout);
    var r := Succeed(cfg, w, t, splits, kickout);
    if r.Ok? && t.status.Validated? {
      IncomeDivided(cfg, t.key, NodeOf(t), t.fee, SplitOf(splits, NodeOf(t)));
      DividesBy(cfg, w, r, IncomeEvents(cfg, t.key, NodeOf(t), t.fee, SplitOf(splits, NodeOf(t))));
    } else if r.Ok? {
      GroupDivided(cfg, splits, g, x, y, z);
      DividesBy(cfg, w, r, EarnedEvents(cfg, splits, g.pa, g.a, x) + EarnedEvents(cfg, splits, g.pb, g.b, y)
                              + EarnedEvents(cfg, splits, g.pc, g.c, z));
    } else {
      DividesNothing(cfg, w, r);
    }
  }

  lemma AbortDivides(cfg: Config, w: World, t: Task, reason: AbortReason, splits: Splits, kickout: bool)
    requires Inv(cfg, w) && Stale(w, t)
    ensures LogDivided(cfg, w, Abort(cfg, w, t.(reason := reason), splits, kickout))
  {
    hide Inv, Stale, Abort, IncomeEvents, DividedAlone, LogDivided;
    AbortEffect(cfg, w, t, reason, splits, kickout);
    var r := Abort(cfg, w, t.(reason := reason), splits, kickout);
    if r.Err? || t.status.EndAborted? {
      DividesNothing(cfg, w, r);
    } else if reason == CreatorValidationTimeout {
      IncomeDivided(cfg, t.key, NodeOf(t), t.fee, SplitOf(splits, NodeOf(t)));
      DividesBy(cfg, w, r, IncomeEvents(cfg, t.key, NodeOf(t), t.fee, SplitOf(splits, NodeOf(t))));
    } else {
      OnlyRefunds(cfg, [Event(TaskRefund(t.key), t.creator, t.fee)]);
      DividesBy(cfg, w, r, [Event(TaskRefund(t.key), t.creator, t.fee)]);
    }
  }

  lemma ValidateDivides(cfg: Config, w: World, t: Task, now: int, splits: Splits, kickout: bool)
    requires Inv(cfg, w) && Stale(w, t)
    ensures LogDivided(cfg, w, ValidateSingle(cfg, w, t, now, splits, kickout))
  {
    hide Inv, Stale, ValidateSingle, DividedAlone, LogDivided;
    ValidateSingleEffect(cfg, w, t, now, splits, kickout);
    var r := ValidateSingle(cfg, w, t, now, splits, kickout);
    if r.Ok? && t.status == ErrorReported {
      OnlyRefunds(cfg, [Event(TaskRefund(t.key), t.creator, t.fee)]);
      DividesBy(cfg, w, r, [Event(TaskRefund(t.key), t.creator, t.fee)]);
    } else {
      DividesNothing(cfg, w, r);
    }
  }

  lemma DecideDivides(cfg: Config, w: World, ids: TaskId, now: int, passive: bool, splits: Splits, kicked: set<Key>)
    requires Inv(cfg, w)
    ensures LogDivided(cfg, w, ValidateGroup(cfg, w, ids, now, passive, splits, kicked))
  {
    hide Inv, ValidateGroup, DividedAlone, LogDivided, Decision.Of, OthersSame, GrantsFrozen, MemberJudged;
    var r := ValidateGroup(cfg, w, ids, now, passive, splits, kicked);
    if r.Ok? {
      var d := GroupEffect(cfg, w, ids, now, passive, splits, kicked);
      OnlyRefunds(cfg, RefundsOf(d));
      DividesBy(cfg, w, r, RefundsOf(d));
    } else {
      DividesNothing(cfg, w, r);
    }
  }

  lemma SlashDivides(cfg: Config, w: World, a: Addr)
    requires Inv(cfg, w)
    ensures LogDivided(cfg, w, SlashNode(w, a))
  {
    hide Inv, SlashNode, DividedAlone, LogDivided, Frozen;
    SlashEffect(cfg, w, a);
    var r := SlashNode(w, a);
    if r.Ok? && w.nodes[a].current.Some? {
      var t := w.tasks[w.nodes[a].current.value];
      OnlyRefunds(cfg, [Event(TaskRefund(w.nodes[a].current.value), t.creator, t.fee)]);
      DividesBy(cfg, w, r, [Event(TaskRefund(w.nodes[a].current.value), t.creator, t.fee)]);
    } else {
      DividesNothing(cfg, w, r);
    }
  }

  lemma TransactDivides(cfg: Config, w: World, h: Handler)
    requires Inv(cfg, w) && forall t | t in Copies(h) :: Stale(w, t)
    ensures LogDivided(cfg, w, Transact(cfg, w, h))
  {
    hide Inv, LogDivided, Start, ReportScore, ReportError, ValidateSingle, ValidateGroup, Abort, Succeed, SlashNode,
         RequestNode, Stale;
    match h {
      case StartTask(t, a, now, computed, files) =>
        StartEffect(cfg, w, t, a, now, computed, files);
        DividesNothing(cfg, w, Transact(cfg, w, h));
      case SubmitScore(t, score, now) =>
        ScoreEffect(cfg, w, t, score, now);
        DividesNothing(cfg, w, Transact(cfg, w, h));
      case SubmitError(t, now) =>
        ErrorEffect(cfg, w, t, now);
        DividesNothing(cfg, w, Transact(cfg, w, h));
      case ValidateTask(t, now, splits, kickout) => ValidateDivides(cfg, w, t, now, splits, kickout);
      case ValidateTasks(ids, now, passive, splits, kicked) =>
        DecideDivides(cfg, w, ids, now, passive, splits, kicked);
      case AbortTask(t, reason, splits, kickout) => AbortDivides(cfg, w, t, reason, splits, kickout);
      case UploadResult(t, splits, kickout) => SucceedDivides(cfg, w, t, splits, kickout);
      case Slash(a) => SlashDivides(cfg, w, a);
      case AskNode(a, request) =>
        RequestEffect(cfg, w, a, request);
        DividesNothing(cfg, w, Transact(cfg, w, h));
    }
  }

  // ---------- Every run ----------

  ghost predicate Grows(cfg: Config, s: State, s': State) {
    |s.w.log| <= |s'.w.log| && s'.w.log[..|s.w.log|] == s.w.log && DividedAlone(cfg, s'.w.log[|s.w.log|..])
  }

  // Nothing logged is income.
  predicate Quiet(s: State, s': State) {
    && |s.w.log| <= |s'.w.log| && s'.w.log[..|s.w.log|] == s.w.log
    && forall i | |s.w.log| <= i < |s'.w.log| :: !IncomeEvent(s'.w.log[i])
  }

  lemma QuietGrows(cfg: Config, s: State, s': State)
    requires Quiet(s, s')
    ensures Grows(cfg, s, s')
  {
    NothingDivided(cfg, s'.w.log[|s.w.log|..]);
  }

  lemma AnswerGrows(cfg: Config, s: State, h: Handler)
    requires RelayInv(cfg, s) && Copies(h) <= s.seen
    ensures Grows(cfg, s, Answer(cfg, s, h))
  {
    hide Inv, Transact, Leftover, PostAll, NewEvents, Chained, OthersOk, OnePending, Backed, Stale, DividedAlone;
    assert forall t | t in Copies(h) :: Stale(s.w, t);
    TransactDivides(cfg, s.w, h);
    if Transact(cfg, s.w, h).Err? {
      NothingDivided(cfg, []);
      assert s.w.log[|s.w.log|..] == [];
    }
  }

  lemma StepGrows(cfg: Config, s: State, step: Step)
    requires RelayInv(cfg, s)
    ensures Grows(cfg, s, Next(cfg, s, step))
  {
    hide RelayInv, Answer, Grows, PostAll, NewEvents, Accepted, Rejected, ApplyAll, Processed, Tally, ShouldReleased,
         SlashVestings, RestoreVestings;
    if step.Handle? && Copies(step.handler) <= s.seen {
      AnswerGrows(cfg, s, step.handler);
    } else {
      OthersQuiet(cfg, s, step);
      QuietGrows(cfg, s, Next(cfg, s, step));
    }
  }

  lemma CommitQuiet(s: State, r: Tx)
    requires r.Ok? ==> r.value.log == s.w.log ||
                       exists e :: !IncomeEvent(e) && r.value.log == s.w.log + [e]
    ensures Quiet(s, Commit(s, r))
  {
    hide PostAll, NewEvents;
  }

  lemma WithdrawsQuiet(cfg: Config, s: State, id: nat, a: Addr, amount: nat, fee: nat)
    ensures Quiet(s, Relay.Withdraw(s, id, a, amount, fee)) && Quiet(s, Fulfill(cfg, s, id)) && Quiet(s, Reject(s, id))
  {
    hide PostAll, NewEvents;
  }

  lemma VestingsQuiet(s: State, id: nat, v: Vesting, now: int)
    ensures Quiet(s, Commit(s, Grant(s.w, id, v))) && Quiet(s, Commit(s, Release(s.w, id, now)))
  {
    hide PostAll, NewEvents, Tally, ShouldReleased;
  }

  // A step that answers no task request.
  lemma OthersQuiet(cfg: Config, s: State, step: Step)
    requires step.Handle? ==> !(Copies(step.handler) <= s.seen)
    ensures Quiet(s, Next(cfg, s, step))
  {
    hide PostAll, NewEvents, Accepted, Rejected, ApplyAll, Processed, Tally, SlashVestings, Answer, RestoreVestings,
         Relay.Withdraw, Fulfill, Reject, Grant, Release, Commit;
    match step {
      case CreateTask(k, creator, fee, kind, createTime, queueTimeout, timeout) =>
        CommitQuiet(s, Create(s.w, NewTask(cfg, k, creator, fee, kind, createTime, queueTimeout, timeout)));
      case SeeDeposit(tx, network) =>
        if (tx, network) in cfg.deposits {
          var d := cfg.deposits[(tx, network)];
          CommitQuiet(s, Ok(Emit(s.w, [Event(Deposit(tx, network), d.sender, d.amount)])));
        }
      case RequestWithdraw(id, a, amount, fee) => WithdrawsQuiet(cfg, s, id, a, amount, fee);
      case FulfillWithdraw(id) => WithdrawsQuiet(cfg, s, id, "", 0, 0);
      case RejectWithdraw(id) => WithdrawsQuiet(cfg, s, id, "", 0, 0);
      case GrantVesting(id, v) => VestingsQuiet(s, id, v, 0);
      case ReleaseVesting(id, now) => VestingsQuiet(s, id, Vesting("", 0, 0, 0, 0, Active, false), now);
      case _ =>
    }
  }

  // Every row under its own key, and settled.
  ghost predicate InOrder(tasks: map<Key, Task>, log: seq<Event>) {
    Settled(tasks, log) && forall k | k in tasks :: tasks[k].key == k
  }

  lemma Divides(cfg: Config, s: State, s': State)
    requires Divided(cfg, s.w.log) && Grows(cfg, s, s')
    requires InOrder(s.w.tasks, s.w.log) && InOrder(s'.w.tasks, s'.w.log)
    ensures Divided(cfg, s'.w.log)
  {
    hide InOrder, DaoPart, Tally;
    var log, es := s.w.log, s'.w.log[|s.w.log|..];
    assert s'.w.log == log + es;
    forall k: Key ensures DaoPart(cfg, log + es, k) {
      PartAfter(cfg, s.w.tasks, s'.w.tasks, log, es, k);
    }
    forall i | 0 <= i < |log + es| && (log + es)[i].reason.DaoTaskShare?
      ensures (log + es)[i].address == cfg.daoAddress
    {
      assert i >= |log| ==> (log + es)[i] == es[i - |log|];
    }
    forall i | 0 <= i < |log + es| && (log + es)[i].reason.UserDelegation?
      ensures (log + es)[i].address == (log + es)[i].reason.user
    {
      assert i >= |log| ==> (log + es)[i] == es[i - |log|];
    }
  }

  // One task's part: a task that is paid now was not paid before.
  lemma PartAfter(cfg: Config, tasks: map<Key, Task>, tasks': map<Key, Task>, log: seq<Event>, es: seq<Event>, k: Key)
    requires InOrder(tasks, log) && InOrder(tasks', log + es) && DaoPart(cfg, log, k) && DividedAlone(cfg, es)
    ensures DaoPart(cfg, log + es, k)
  {
    hide AmountOf, Delegated, IncomeOf, Tally, IncomeReason, InOrder;
    IncomeConcat(log, es, k);
    assert DaoPart(cfg, es, k);
    if Tally(es, DaoTaskShare(k)) == 0 {
      NoIncomeOf(es, k);
    } else {
      TallyConcat(log, es, DaoTaskShare(k));
      PaidOnce(tasks', log + es, k);
      NotPaidBefore(tasks, log, k);
      NoIncomeOf(log, k);
    }
  }

  lemma PaidOnce(tasks: map<Key, Task>, log: seq<Event>, k: Key)
    requires InOrder(tasks, log)
    ensures Tally(log, DaoTaskShare(k)) <= 1
  {
    hide Tally, TaskNet, Owed, GroupWon;
    if k in tasks {
      assert SettledRow(tasks, log, tasks[k]);
    } else {
      assert Untouched(log, k);
    }
  }

  lemma NotPaidBefore(tasks: map<Key, Task>, log: seq<Event>, k: Key)
    requires InOrder(tasks, log) && Tally(log, DaoTaskShare(k)) == 0
    ensures NoIncome(log, k)
  {
    hide Tally, TaskNet, Owed;
    forall r | IncomeReason(r, k) ensures Tally(log, r) == 0 {
      if k in tasks {
        assert SettledRow(tasks, log, tasks[k]);
      } else {
        assert Untouched(log, k);
      }
    }
    forall i | 0 <= i < |log| ensures !IncomeReason(log[i].reason, k) {
      Counted(log, i);
    }
  }

  lemma {:induction false} Counted(log: seq<Event>, i: nat)
    requires i < |log|
    ensures Tally(log, log[i].reason) > 0
  {
    if i < |log| - 1 {
      Counted(log[..|log| - 1], i);
    }
  }

  lemma InvInOrder(cfg: Config, s: State)
    requires RelayInv(cfg, s)
    ensures InOrder(s.w.tasks, s.w.log)
  {
    hide RowsOk, EventsOk, GroupsOk, Settled, SeenOk, Chained, OthersOk, OnePending, Backed, NodeLink;
    KeysMatch(s.w);
  }

  /** From any state in order and divided so far, every run keeps incomes divided. */
  lemma {:induction false} RunDivides(cfg: Config, s: State, steps: seq<Step>)
    requires RelayInv(cfg, s) && Divided(cfg, s.w.log)
    ensures Divided(cfg, Run(cfg, s, steps).w.log)
  {
    hide RelayInv, Next, Divided, Grows, InOrder;
    if steps != [] {
      var before, step := Run(cfg, s, steps[..|steps| - 1]), steps[|steps| - 1];
      RunDivides(cfg, s, steps[..|steps| - 1]);
      RunKeeps(cfg, s, steps[..|steps| - 1]);
      StepInOrder(cfg, before, step);
      StepGrows(cfg, before, step);
      InvInOrder(cfg, before);
      InvInOrder(cfg, Next(cfg, before, step));
      Divides(cfg, before, Next(cfg, before, step));
    }
  }

  // ---------- What the income is ----------

  lemma {:induction false} NetIs(log: seq<Event>, k: Key)
    ensures TaskNet(log, k) == IncomeOf(log, k) + AmountOf(log, TaskRefund(k)) - AmountOf(log, TaskPayment(k))
  {
    if log != [] {
      NetIs(log[..|log| - 1], k);
    }
  }

  lemma {:induction false} AmountIs(log: seq<Event>, r: Reason, x: nat)
    requires forall i | 0 <= i < |log| && log[i].reason == r :: log[i].amount == x
    ensures AmountOf(log, r) == x * Tally(log, r)
  {
    if log != [] {
      AmountIs(log[..|log| - 1], r, x);
      Distribute(x, Tally(log[..|log| - 1], r), 1);
    }
  }

  lemma OnePayment(w: World, k: Key)
    requires Settled(w.tasks, w.log) && k in w.tasks && w.tasks[k].key == k
    ensures Tally(w.log, TaskPayment(k)) == 1
    ensures Tally(w.log, TaskRefund(k)) == if RefundAllowed(w.tasks[k]) then 1 else 0
  {
    hide Tally, TaskNet, Owed;
    assert SettledRow(w.tasks, w.log, w.tasks[k]);
  }

  // A task's income is what its events net, its fee added back unless that was refunded.
  lemma IncomeIs(cfg: Config, w: World, k: Key)
    requires Inv(cfg, w) && k in w.tasks
    ensures IncomeOf(w.log, k) == TaskNet(w.log, k) + if RefundAllowed(w.tasks[k]) then 0 else w.tasks[k].fee
  {
    hide RowsOk, GroupsOk, NodeLink, Settled, AmountOf, IncomeOf, TaskNet, Tally, RefundAllowed;
    KeysMatch(w);
    forall i | 0 <= i < |w.log| ensures TaskEventOk(w.tasks, w.log[i]) {}
    NetIs(w.log, k);
    AmountIs(w.log, TaskRefund(k), w.tasks[k].fee);
    AmountIs(w.log, TaskPayment(k), w.tasks[k].fee);
    OnePayment(w, k);
  }

  lemma IncomeByStatus(cfg: Config, s0: State, steps: seq<Step>, k: Key)
    requires Initial(s0) && k in Run(cfg, s0, steps).w.tasks
    ensures var w := Run(cfg, s0, steps).w;
            var t, income := w.tasks[k], IncomeOf(w.log, k);
            && (t.status == EndSuccess || (t.status == EndAborted && t.reason == CreatorValidationTimeout) ==>
                  income == t.fee)
            && (t.status == EndGroupSuccess ==> income == TaskNet(w.log, k) + t.fee)
            && (t.status == EndGroupRefund ==> income == TaskNet(w.log, k))
  {
    hide Run, RelayInv, Inv, IncomeOf, TaskNet, Initial, GroupWon, GroupIncome;
    InitialKeeps(cfg, s0);
    RunKeeps(cfg, s0, steps);
    RelayKeepsRows(cfg, Run(cfg, s0, steps));
    IncomeIs(cfg, Run(cfg, s0, steps).w, k);
    FeesComeBack(cfg, s0, steps, k);
  }

  /** Over every run: of whatever a task's events pay as income, the DAO has its percentage rounded down, at its own
      address; and that income is the fee for a task that succeeded alone or kept its creator waiting, what its events
      net otherwise, its fee added back unless that was refunded. */
  lemma DaoHasItsPart(cfg: Config, s0: State, steps: seq<Step>, k: Key)
    requires Initial(s0) && k in Run(cfg, s0, steps).w.tasks
    ensures var w := Run(cfg, s0, steps).w;
            var t, d, income := w.tasks[k], AmountOf(w.log, DaoTaskShare(k)), IncomeOf(w.log, k);
            && 100 * d <= income * cfg.daoPercent < 100 * d + 100
            && (t.status == EndSuccess || (t.status == EndAborted && t.reason == CreatorValidationTimeout) ==>
                  income == t.fee)
            && (t.status == EndGroupSuccess ==> income == TaskNet(w.log, k) + t.fee)
            && (t.status == EndGroupRefund ==> income == TaskNet(w.log, k))
            && (forall i | 0 <= i < |w.log| && w.log[i].reason.DaoTaskShare? :: w.log[i].address == cfg.daoAddress)
            && (forall i | 0 <= i < |w.log| && w.log[i].reason.UserDelegation? ::
                  w.log[i].address == w.log[i].reason.user)
  {
    hide Run, RelayInv, AmountOf, IncomeOf, TaskNet, Initial;
    InitialKeeps(cfg, s0);
    InitialDivided(cfg, s0);
    RunDivides(cfg, s0, steps);
    IncomeByStatus(cfg, s0, steps, k);
    assert DaoPart(cfg, Run(cfg, s0, steps).w.log, k);
  }

  lemma InitialDivided(cfg: Config, s0: State)
    requires Initial(s0)
    ensures Divided(cfg, s0.w.log)
  {
    NothingDivided(cfg, []);
  }

  lemma RelayKeepsRows(cfg: Config, s: State)
    requires RelayInv(cfg, s)
    ensures Inv(cfg, s.w)
  {}
}

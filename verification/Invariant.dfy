/** What every reachable set of rows satisfies, stated row by row. */
module Invariant {
  import opened Basics
  import opened Model
  import opened Deadline
  import opened Settlement
  import opened Lifecycle
  import Ledger

  // ---------- Nodes and tasks point at each other ----------

  predicate NodeLink(tasks: map<Key, Task>, a: Addr, n: Node) {
    && (n.current.Some? <==> Holding(n.status))
    && (n.current.Some? ==>
          && n.current.value in tasks
          && Running(tasks[n.current.value].status)
          && tasks[n.current.value].selected == Some(a))
  }

  predicate TaskLink(nodes: map<Addr, Node>, k: Key, t: Task) {
    && t.key == k
    && (t.status.Queued? ==> t.selected.None?)
    && (Running(t.status) ==>
          && t.selected.Some?
          && t.selected.value in nodes
          && nodes[t.selected.value].current == Some(k))
  }

  predicate Linked(w: World) {
    && (forall a | a in w.nodes :: NodeLink(w.tasks, a, w.nodes[a]))
    && (forall k | k in w.tasks :: TaskLink(w.nodes, k, w.tasks[k]))
  }

  // ---------- Single rows ----------

  predicate GroupMember(t: Task) {
    t.taskId.Some? && GroupIds(t.taskId.value) && t.key in t.taskId.value
  }

  predicate TaskIdOk(t: Task) {
    match t.status
    case Validated | EndSuccess => t.taskId == Some([t.key])
    case GroupValidated | EndGroupSuccess | EndGroupRefund | EndInvalidated => GroupMember(t)
    case EndAborted => t.taskId.None? || t.taskId == Some([t.key]) || GroupMember(t)
    case _ => t.taskId.None?
  }

  // The statuses a group success leaves its payees in.
  predicate PaidInGroup(s: TaskStatus) {
    s.EndGroupSuccess? || s.EndGroupRefund?
  }

  // A score or an error has come in, and the task has not ended.
  predicate Reported(s: TaskStatus) {
    s.ScoreReady? || s.ErrorReported? || s.Validated? || s.GroupValidated?
  }

  predicate RowOk(cfg: Config, t: Task) {
    && t.deadlineAt == DeadlineAt(cfg, t)
    && (Running(t.status) ==> t.startTime.Some?)
    && (Reported(t.status) ==> t.scoreTime.Some?)
    && (t.status.Validated? || t.status.GroupValidated? ==> t.validatedTime.Some?)
    && TaskIdOk(t)
    && (t.status.GroupValidated? || PaidInGroup(t.status) ==> t.qos.Some? && t.qos.value > 0)
    && (Terminal(t.status) && !t.status.EndAborted? ==> t.selected.Some?)
  }

  predicate RowsOk(cfg: Config, tasks: map<Key, Task>) {
    forall k | k in tasks :: RowOk(cfg, tasks[k])
  }

  // ---------- Validation groups ----------

  predicate Representative(s: TaskStatus) {
    s.GroupValidated? || s.EndGroupSuccess?
  }

  predicate GroupOk(tasks: map<Key, Task>, ids: TaskId) {
    && (forall m | m in ids :: m in tasks && tasks[m].taskId == Some(ids))
    && (forall m | m in ids :: m in tasks && (Terminal(tasks[m].status) || tasks[m].status.GroupValidated?))
    && (forall m, n | m in ids && n in ids && m != n ::
          m in tasks && n in tasks && !(Representative(tasks[m].status) && Representative(tasks[n].status)))
  }

  predicate GroupsOk(tasks: map<Key, Task>) {
    forall k | k in tasks && GroupMember(tasks[k]) :: GroupOk(tasks, tasks[k].taskId.value)
  }

  // ---------- Settlement ----------

  function Tally(log: seq<Event>, r: Reason): nat {
    if log == [] then 0 else
      Tally(log[..|log| - 1], r) + if log[|log| - 1].reason == r then 1 else 0
  }

  function TaskOf(r: Reason): Option<Key> {
    match r
    case TaskPayment(k) => Some(k)
    case TaskRefund(k) => Some(k)
    case TaskIncome(k) => Some(k)
    case DaoTaskShare(k) => Some(k)
    case UserDelegation(k, _) => Some(k)
    case _ => None
  }

  // What the events about one task add up to, payments negative.
  function TaskNet(log: seq<Event>, k: Key): int {
    if log == [] then 0 else
      var last := log[|log| - 1];
      TaskNet(log[..|log| - 1], k) + if TaskOf(last.reason) == Some(k) then Ledger.Signed(last) else 0
  }

  // The statuses the ledger validator accepts a refund or an income for.
  predicate RefundAllowed(t: Task) {
    t.status.EndGroupRefund? || (t.status.EndAborted? && !t.reason.CreatorValidationTimeout?)
  }

  predicate IncomeAllowed(t: Task) {
    || t.status.EndSuccess? || t.status.EndGroupSuccess? || t.status.EndGroupRefund?
    || (t.status.EndAborted? && t.reason.CreatorValidationTimeout?)
  }

  predicate Won(tasks: map<Key, Task>, ids: TaskId, m: Key) {
    m in ids && m in tasks && tasks[m].status.EndGroupSuccess? && tasks[m].taskId == Some(ids)
  }

  predicate GroupWon(tasks: map<Key, Task>, id: Option<TaskId>) {
    id.Some? && exists m | m in id.value :: Won(tasks, id.value, m)
  }

  function RefundsDue(t: Task): nat {
    if RefundAllowed(t) then 1 else 0
  }

  // A refunded duplicate is paid only once its group's representative has succeeded.
  function IncomeDue(tasks: map<Key, Task>, t: Task): nat {
    if IncomeAllowed(t) && (t.status.EndGroupRefund? ==> GroupWon(tasks, t.taskId)) then 1 else 0
  }

  // A member of a group whose representative succeeded: its income is its part of the group payout.
  predicate PaidAsGroup(tasks: map<Key, Task>, t: Task) {
    PaidInGroup(t.status) && GroupWon(tasks, t.taskId)
  }

  // The members a won group paid, in group order.
  function PaidMembers(tasks: map<Key, Task>, ids: TaskId, all: TaskId): (r: seq<Task>)
    ensures forall t | t in r :: PaidInGroup(t.status)
  {
    if ids == [] then [] else
      var n := |ids| - 1;
      var k := ids[n];
      PaidMembers(tasks, ids[..n], all)
        + if k in tasks && tasks[k].taskId == Some(all) && PaidInGroup(tasks[k].status) then [tasks[k]] else []
  }

  // What the payments give the task k.
  function ShareOf(ts: seq<Task>, payments: seq<nat>, k: Key): nat
    requires |ts| == |payments|
  {
    if ts == [] then 0 else
      var n := |ts| - 1;
      ShareOf(ts[..n], payments[..n], k) + if ts[n].key == k then payments[n] else 0
  }

  // The part of its group's payout a paid member receives, by the fees and scores of the members paid.
  function GroupIncome(tasks: map<Key, Task>, id: Option<TaskId>, k: Key): nat {
    if id.None? then 0 else
      var ts := PaidMembers(tasks, id.value, id.value);
      if Sum(Scores(ts)) == 0 then 0 else ShareOf(ts, GroupPayments(Fees(ts), Scores(ts)), k)
  }

  // The fee is out until it is refunded or paid as income, and then the task has moved nothing; a member of a
  // won group is paid its part of the payout instead, on top of the refund if it had one.
  function Owed(tasks: map<Key, Task>, t: Task): int {
    if PaidAsGroup(tasks, t) then GroupIncome(tasks, t.taskId, t.key) - (if t.status.EndGroupRefund? then 0 else t.fee)
    else if RefundsDue(t) + IncomeDue(tasks, t) == 0 then 0 - t.fee
    else 0
  }

  ghost predicate SettledRow(tasks: map<Key, Task>, log: seq<Event>, t: Task) {
    && Tally(log, TaskPayment(t.key)) == 1
    && Tally(log, TaskRefund(t.key)) == RefundsDue(t)
    && Tally(log, TaskIncome(t.key)) == IncomeDue(tasks, t)
    && Tally(log, DaoTaskShare(t.key)) == IncomeDue(tasks, t)
    && (forall u :: Tally(log, UserDelegation(t.key, u)) <= IncomeDue(tasks, t))
    && TaskNet(log, t.key) == Owed(tasks, t)
  }

  ghost predicate Untouched(log: seq<Event>, k: Key) {
    && Tally(log, TaskPayment(k)) == 0
    && Tally(log, TaskRefund(k)) == 0
    && Tally(log, TaskIncome(k)) == 0
    && Tally(log, DaoTaskShare(k)) == 0
    && (forall u :: Tally(log, UserDelegation(k, u)) == 0)
    && TaskNet(log, k) == 0
  }

  ghost predicate Settled(tasks: map<Key, Task>, log: seq<Event>) {
    && (forall k | k in tasks :: SettledRow(tasks, log, tasks[k]))
    && (forall k: Key | k !in tasks :: Untouched(log, k))
  }

  // What the ledger validator asks of an event about a task.
  predicate TaskEventOk(tasks: map<Key, Task>, e: Event) {
    match e.reason
    case TaskPayment(k) => k in tasks && e.address == tasks[k].creator && e.amount == tasks[k].fee
    case TaskRefund(k) => k in tasks && e.address == tasks[k].creator && e.amount == tasks[k].fee &&
        RefundAllowed(tasks[k])
    case TaskIncome(k) => k in tasks && IncomeAllowed(tasks[k]) && tasks[k].selected == Some(e.address)
    case DaoTaskShare(k) => k in tasks && IncomeAllowed(tasks[k])
    case UserDelegation(k, _) => k in tasks && IncomeAllowed(tasks[k])
    case _ => true
  }

  predicate EventsOk(tasks: map<Key, Task>, log: seq<Event>) {
    forall i | 0 <= i < |log| :: TaskEventOk(tasks, log[i])
  }

  // Everything but the group structure, which is complete only between transactions.
  ghost predicate Core(cfg: Config, w: World) {
    Linked(w) && RowsOk(cfg, w.tasks) && Settled(w.tasks, w.log) && EventsOk(w.tasks, w.log)
  }

  ghost predicate Inv(cfg: Config, w: World) {
    Core(cfg, w) && GroupsOk(w.tasks)
  }

  // ---------- How one row may change ----------

  function Rank(s: TaskStatus): nat {
    match s
    case Queued => 0
    case Started => 1
    case ParametersUploaded => 1
    case ErrorReported => 2
    case ScoreReady => 2
    case Validated => 3
    case GroupValidated => 3
    case _ => 4
  }

  /** t may have become u: identity fixed, status only forward, a selected node kept, terminal final. */
  predicate Precedes(t: Task, u: Task) {
    && t.key == u.key && t.creator == u.creator && t.fee == u.fee && t.kind == u.kind
    && (t.selected.Some? ==> u.selected == t.selected)
    && (if t.status != u.status then Rank(t.status) < Rank(u.status)
        else if Terminal(t.status) then t.reason == u.reason && t.selected == u.selected
        else t == u)
  }

  predicate Evolves(old_: map<Key, Task>, new_: map<Key, Task>) {
    forall k | k in old_ :: k in new_ && Precedes(old_[k], new_[k])
  }

  lemma PrecedesTransitive(t: Task, u: Task, v: Task)
    requires Precedes(t, u) && Precedes(u, v)
    ensures Precedes(t, v)
  {}

  lemma EvolvesTransitive(a: map<Key, Task>, b: map<Key, Task>, c: map<Key, Task>)
    requires Evolves(a, b) && Evolves(b, c)
    ensures Evolves(a, c)
  {
    forall k | k in a ensures k in c && Precedes(a[k], c[k]) {
      PrecedesTransitive(a[k], b[k], c[k]);
    }
  }

  /** A copy read earlier that passes the status compare-and-set is the current row. */
  lemma StaleCopyIsCurrent(t: Task, row: Task)
    requires Precedes(t, row) && t.status == row.status && !Terminal(t.status)
    ensures t == row
  {}

  lemma EventsStay(tasks: map<Key, Task>, tasks': map<Key, Task>, e: Event)
    requires Evolves(tasks, tasks') && TaskEventOk(tasks, e)
    ensures TaskEventOk(tasks', e)
  {}

  // ---------- Tallies ----------

  lemma {:induction false} TallyConcat(a: seq<Event>, b: seq<Event>, r: Reason)
    ensures Tally(a + b, r) == Tally(a, r) + Tally(b, r)
  {
    if b == [] {
      assert a + b == a;
    } else {
      assert (a + b)[..|a + b| - 1] == a + b[..|b| - 1];
      TallyConcat(a, b[..|b| - 1], r);
    }
  }

  lemma {:induction false} TaskNetConcat(a: seq<Event>, b: seq<Event>, k: Key)
    ensures TaskNet(a + b, k) == TaskNet(a, k) + TaskNet(b, k)
  {
    if b == [] {
      assert a + b == a;
    } else {
      assert (a + b)[..|a + b| - 1] == a + b[..|b| - 1];
      TaskNetConcat(a, b[..|b| - 1], k);
    }
  }

  lemma TaskNetOne(e: Event, k: Key)
    ensures TaskNet([e], k) == if TaskOf(e.reason) == Some(k) then Ledger.Signed(e) else 0
  {
    assert [e][..0] == [];
  }

  lemma {:induction false} TaskNetAbsent(es: seq<Event>, k: Key)
    requires forall i | 0 <= i < |es| :: TaskOf(es[i].reason) != Some(k)
    ensures TaskNet(es, k) == 0
  {
    if es != [] {
      TaskNetAbsent(es[..|es| - 1], k);
    }
  }

  /** Credits about one task add up to their amounts. */
  lemma {:induction false} CreditsNet(es: seq<Event>, k: Key)
    requires forall i | 0 <= i < |es| :: TaskOf(es[i].reason) == Some(k) && !Debit(es[i])
    ensures TaskNet(es, k) == Sum(Amounts(es))
  {
    if es != [] {
      var front, last := es[..|es| - 1], es[|es| - 1];
      CreditsNet(front, k);
      AmountsSnoc(front, last);
      assert es == front + [last];
    }
  }

  lemma TallyOne(e: Event, r: Reason)
    ensures Tally([e], r) == if e.reason == r then 1 else 0
  {}

  lemma {:induction false} TallyAbsent(es: seq<Event>, r: Reason)
    requires forall i | 0 <= i < |es| :: es[i].reason != r
    ensures Tally(es, r) == 0
  {
    if es != [] {
      TallyAbsent(es[..|es| - 1], r);
    }
  }

  lemma {:induction false} TallyDelegations(k: Key, ds: seq<(Addr, nat)>, fees: seq<nat>, r: Reason)
    requires |ds| == |fees|
    requires forall i, j | 0 <= i < j < |ds| :: ds[i].0 != ds[j].0
    ensures Tally(DelegationEvents(k, ds, fees), r) <= 1
    ensures !(r.UserDelegation? && r.task == k) ==> Tally(DelegationEvents(k, ds, fees), r) == 0
    ensures forall e | e in DelegationEvents(k, ds, fees) ::
              e.reason.UserDelegation? && e.reason.task == k && exists i | 0 <= i < |ds| :: e.reason.user == ds[i].0
  {
    if ds != [] {
      var n := |ds| - 1;
      TallyDelegations(k, ds[..n], fees[..n], r);
      var front := DelegationEvents(k, ds[..n], fees[..n]);
      assert DelegationEvents(k, ds, fees)[..n] == front;
      if r == UserDelegation(k, ds[n].0) {
        forall i | 0 <= i < |front| ensures front[i].reason != r {
          assert front[i] in front;
        }
        TallyAbsent(front, r);
      }
    }
  }

  lemma TallyTwoMore(es: seq<Event>, e1: Event, e2: Event, r: Reason)
    ensures Tally(es + [e1] + [e2], r)
         == Tally(es, r) + (if e1.reason == r then 1 else 0) + (if e2.reason == r then 1 else 0)
  {
    TallyConcat(es + [e1], [e2], r);
    TallyConcat(es, [e1], r);
  }

  lemma TallyShared(k: Key, pool: nat, s: Split, r: Reason)
    requires s.Valid()
    ensures Tally(SharedEvents(k, pool, s), r) <= 1
    ensures !(r.UserDelegation? && r.task == k) ==> Tally(SharedEvents(k, pool, s), r) == 0
  {
    if s.share != 0 && s.delegators != [] {
      TallyDelegations(k, s.delegators, DelegatorFees(pool, Stakes(s.delegators)), r);
    }
  }

  /** One income pays the operator once, the DAO once, each delegator at most once, and nobody else. */
  lemma TallyIncome(cfg: Config, k: Key, operator: Addr, amount: nat, s: Split, r: Reason)
    requires s.Valid()
    ensures var n := Tally(IncomeEvents(cfg, k, operator, amount, s), r);
            && (r == TaskIncome(k) || r == DaoTaskShare(k) ==> n == 1)
            && (r.UserDelegation? && r.task == k ==> n <= 1)
            && (!(r == TaskIncome(k) || r == DaoTaskShare(k) || (r.UserDelegation? && r.task == k)) ==> n == 0)
  {
    var dao, pool := DaoShare(cfg, amount), DelegatorPool(cfg, amount, s);
    TallyShared(k, pool, s, r);
    TallyTwoMore(SharedEvents(k, pool, s), Event(TaskIncome(k), operator, amount - dao - pool),
                 Event(DaoTaskShare(k), cfg.daoAddress, dao), r);
  }

  /** Every event of an income is about that task; the operator's names the operator. */
  lemma IncomeReasons(cfg: Config, k: Key, operator: Addr, amount: nat, s: Split)
    requires s.Valid()
    ensures forall e | e in IncomeEvents(cfg, k, operator, amount, s) ::
              || (e.reason == TaskIncome(k) && e.address == operator)
              || e.reason == DaoTaskShare(k)
              || (e.reason.UserDelegation? && e.reason.task == k)
  {
    hide Tally, DelegationEvents, DelegatorFees, DelegatorPool, DaoShare, Stakes, Sum;
    var pool := DelegatorPool(cfg, amount, s);
    if s.share != 0 && s.delegators != [] {
      TallyDelegations(k, s.delegators, DelegatorFees(pool, Stakes(s.delegators)), TaskIncome(k));
    }
  }

  /** One income moves exactly its amount, and only for its task. */
  lemma IncomeNet(cfg: Config, k: Key, operator: Addr, amount: nat, s: Split, j: Key)
    requires s.Valid()
    ensures TaskNet(IncomeEvents(cfg, k, operator, amount, s), j) == if j == k then amount else 0
  {
    hide IncomeEvents, TaskNet;
    var es := IncomeEvents(cfg, k, operator, amount, s);
    IncomeReasons(cfg, k, operator, amount, s);
    forall i | 0 <= i < |es| ensures TaskOf(es[i].reason) == Some(k) && !Debit(es[i]) {
      assert es[i] in es;
    }
    if j == k {
      CreditsNet(es, k);
      IncomeConserved(cfg, k, operator, amount, s);
    } else {
      TaskNetAbsent(es, j);
    }
  }
}

/** Every transition keeps the row invariants: the lemmas behind one committed transaction. */
module Moves {
  import opened Basics
  import opened Model
  import opened Settlement
  import opened Lifecycle
  import opened Invariant

  // ---------- Links ----------

  lemma LinkedKeep(w: World, w': World, u: Task)
    requires Linked(w) && u.key in w.tasks
    requires w'.tasks == w.tasks[u.key := u] && w'.nodes == w.nodes
    requires var t := w.tasks[u.key];
             if Running(t.status) then Running(u.status) && u.selected == t.selected
             else Terminal(u.status)
    ensures Linked(w')
  {
    forall a | a in w'.nodes ensures NodeLink(w'.tasks, a, w'.nodes[a]) {
      assert NodeLink(w.tasks, a, w.nodes[a]);
    }
    forall k | k in w'.tasks ensures TaskLink(w'.nodes, k, w'.tasks[k]) {
      assert TaskLink(w.nodes, k, w.tasks[k]);
    }
  }

  lemma LinkedFree(w: World, w': World, u: Task, a: Addr, s: NodeStatus)
    requires Linked(w) && u.key in w.tasks && Running(w.tasks[u.key].status) && w.tasks[u.key].selected == Some(a)
    requires Terminal(u.status) && !Holding(s)
    requires w'.tasks == w.tasks[u.key := u] && w'.nodes == w.nodes[a := Node(s, None)]
    ensures Linked(w')
  {
    forall b | b in w'.nodes ensures NodeLink(w'.tasks, b, w'.nodes[b]) {
      if b != a {
        assert NodeLink(w.tasks, b, w.nodes[b]);
      }
    }
    forall k | k in w'.tasks ensures TaskLink(w'.nodes, k, w'.tasks[k]) {
      assert TaskLink(w.nodes, k, w.tasks[k]);
      assert TaskLink(w.nodes, u.key, w.tasks[u.key]);
    }
  }

  lemma LinkedTake(w: World, w': World, u: Task, a: Addr)
    requires Linked(w) && u.key in w.tasks && w.tasks[u.key].status.Queued?
    requires a in w.nodes && w.nodes[a].current.None?
    requires Running(u.status) && u.selected == Some(a)
    requires w'.tasks == w.tasks[u.key := u] && w'.nodes == w.nodes[a := Node(Busy, Some(u.key))]
    ensures Linked(w')
  {
    forall b | b in w'.nodes ensures NodeLink(w'.tasks, b, w'.nodes[b]) {
      if b != a {
        assert NodeLink(w.tasks, b, w.nodes[b]);
      }
    }
    forall k | k in w'.tasks ensures TaskLink(w'.nodes, k, w'.tasks[k]) {
      assert TaskLink(w.nodes, k, w.tasks[k]);
    }
  }

  // ---------- Settlement ----------

  ghost predicate OthersUntouched(es: seq<Event>, k: Key) {
    && (forall r: Reason | TaskOf(r).Some? && TaskOf(r) != Some(k) :: Tally(es, r) == 0)
    && (forall j: Key | j != k :: TaskNet(es, j) == 0)
  }

  ghost predicate Counts(es: seq<Event>, k: Key, refunds: int, incomes: int) {
    && Tally(es, TaskPayment(k)) == 0
    && Tally(es, TaskRefund(k)) == refunds
    && Tally(es, TaskIncome(k)) == incomes
    && Tally(es, DaoTaskShare(k)) == incomes
    && forall u :: Tally(es, UserDelegation(k, u)) <= incomes
  }

  // How far the events of one row's change carry its settlement: a refund or an income gives the fee back.
  ghost predicate Settles(es: seq<Event>, k: Key, refunds: int, incomes: int, fee: nat) {
    Counts(es, k, refunds, incomes) && TaskNet(es, k) == if refunds + incomes == 0 then 0 else fee
  }

  lemma TallyAll(log: seq<Event>, es: seq<Event>)
    ensures forall r :: Tally(log + es, r) == Tally(log, r) + Tally(es, r)
    ensures forall k :: TaskNet(log + es, k) == TaskNet(log, k) + TaskNet(es, k)
  {
    forall k ensures TaskNet(log + es, k) == TaskNet(log, k) + TaskNet(es, k) {
      TaskNetConcat(log, es, k);
    }
    forall r ensures Tally(log + es, r) == Tally(log, r) + Tally(es, r) {
      TallyConcat(log, es, r);
    }
  }

  lemma WonSame(tasks: map<Key, Task>, u: Task, id: Option<TaskId>)
    requires u.key in tasks && !tasks[u.key].status.EndGroupSuccess? && !u.status.EndGroupSuccess?
    ensures GroupWon(tasks[u.key := u], id) == GroupWon(tasks, id)
  {
    if id.Some? {
      var tasks' := tasks[u.key := u];
      forall m ensures Won(tasks', id.value, m) == Won(tasks, id.value, m) {}
    }
  }

  // A row that was not paid by its group, and is not paid now, is not among those its group paid.
  lemma {:induction false} PaidMembersSame(tasks: map<Key, Task>, u: Task, ids: TaskId, all: TaskId)
    requires u.key in tasks ==> !PaidInGroup(tasks[u.key].status)
    requires PaidInGroup(u.status) ==> u.taskId != Some(all)
    ensures PaidMembers(tasks[u.key := u], ids, all) == PaidMembers(tasks, ids, all)
  {
    if ids != [] {
      PaidMembersSame(tasks, u, ids[..|ids| - 1], all);
    }
  }

  lemma GroupIncomeSame(tasks: map<Key, Task>, u: Task, id: Option<TaskId>, k: Key)
    requires u.key in tasks ==> !PaidInGroup(tasks[u.key].status)
    requires PaidInGroup(u.status) ==> u.taskId != id
    ensures GroupIncome(tasks[u.key := u], id, k) == GroupIncome(tasks, id, k)
  {
    hide PaidMembers, ShareOf, GroupPayments, Sum;
    if id.Some? {
      PaidMembersSame(tasks, u, id.value, id.value);
    }
  }

  lemma SettledMove(tasks: map<Key, Task>, log: seq<Event>, u: Task, es: seq<Event>)
    requires Settled(tasks, log) && u.key in tasks && tasks[u.key].key == u.key
    requires forall k | k in tasks :: tasks[k].key == k
    requires !PaidInGroup(tasks[u.key].status) && !u.status.EndGroupSuccess?
    requires u.status.EndGroupRefund? ==> !GroupWon(tasks, u.taskId)
    requires OthersUntouched(es, u.key)
    requires Settles(es, u.key, RefundsDue(u) - RefundsDue(tasks[u.key]),
                     IncomeDue(tasks, u) - IncomeDue(tasks, tasks[u.key]), tasks[u.key].fee)
    requires u.fee == tasks[u.key].fee
    ensures Settled(tasks[u.key := u], log + es)
  {
    hide GroupWon, Tally, TaskNet, GroupIncome, SettledRow, Untouched, OthersUntouched, Settles, Counts;
    var tasks' := tasks[u.key := u];
    forall k | k in tasks' ensures SettledRow(tasks', log + es, tasks'[k]) {
      assert SettledRow(tasks, log, tasks[k]);
      WonSame(tasks, u, tasks'[k].taskId);
      if PaidAsGroup(tasks', tasks'[k]) {
        GroupIncomeSame(tasks, u, tasks'[k].taskId, k);
      }
      if k == u.key {
        SettledMoved(tasks, tasks', log, es, tasks[k], u);
      } else {
        SettledBystander(tasks, tasks', log, es, tasks[k], u.key);
      }
    }
    forall k: Key | k !in tasks' ensures Untouched(log + es, k) {
      assert Untouched(log, k);
      UntouchedBystander(log, es, k, u.key);
    }
  }

  lemma SettledMoved(tasks: map<Key, Task>, tasks': map<Key, Task>, log: seq<Event>, es: seq<Event>, t: Task, u: Task)
    requires SettledRow(tasks, log, t) && u.key == t.key && u.fee == t.fee
    requires !PaidInGroup(t.status) && !PaidAsGroup(tasks', u)
    requires GroupWon(tasks', u.taskId) == GroupWon(tasks, u.taskId)
    requires Settles(es, t.key, RefundsDue(u) - RefundsDue(t), IncomeDue(tasks, u) - IncomeDue(tasks, t), t.fee)
    ensures SettledRow(tasks', log + es, u)
  {
    hide GroupWon, Tally, TaskNet, GroupIncome;
    TallyAll(log, es);
  }

  lemma SettledBystander(tasks: map<Key, Task>, tasks': map<Key, Task>, log: seq<Event>, es: seq<Event>,
                         t: Task, k: Key)
    requires SettledRow(tasks, log, t) && t.key != k && OthersUntouched(es, k)
    requires GroupWon(tasks', t.taskId) == GroupWon(tasks, t.taskId)
    requires PaidAsGroup(tasks', t) ==> GroupIncome(tasks', t.taskId, t.key) == GroupIncome(tasks, t.taskId, t.key)
    ensures SettledRow(tasks', log + es, t)
  {
    hide GroupWon, Tally, TaskNet, GroupIncome;
    TallyAll(log, es);
  }

  lemma UntouchedBystander(log: seq<Event>, es: seq<Event>, j: Key, k: Key)
    requires Untouched(log, j) && j != k && OthersUntouched(es, k)
    ensures Untouched(log + es, j)
  {
    hide Tally, TaskNet;
    TallyAll(log, es);
  }

  lemma QuietSettles(k: Key, fee: nat)
    ensures OthersUntouched([], k) && Settles([], k, 0, 0, fee)
  {}

  lemma RefundSettles(t: Task)
    ensures OthersUntouched([RefundEvent(t)], t.key) && Settles([RefundEvent(t)], t.key, 1, 0, t.fee)
  {
    forall j ensures TaskNet([RefundEvent(t)], j) == if j == t.key then t.fee else 0 {
      TaskNetOne(RefundEvent(t), j);
    }
    forall r ensures Tally([RefundEvent(t)], r) == if r == TaskRefund(t.key) then 1 else 0 {
      TallyOne(RefundEvent(t), r);
    }
  }

  lemma IncomeSettles(cfg: Config, k: Key, a: Addr, amount: nat, s: Split)
    requires s.Valid()
    ensures OthersUntouched(IncomeEvents(cfg, k, a, amount, s), k)
    ensures Settles(IncomeEvents(cfg, k, a, amount, s), k, 0, 1, amount)
  {
    var es := IncomeEvents(cfg, k, a, amount, s);
    forall j: Key ensures TaskNet(es, j) == if j == k then amount else 0 {
      IncomeNet(cfg, k, a, amount, s, j);
    }
    forall r: Reason | TaskOf(r).Some? && TaskOf(r) != Some(k) ensures Tally(es, r) == 0 {
      TallyIncome(cfg, k, a, amount, s, r);
    }
    TallyIncome(cfg, k, a, amount, s, TaskPayment(k));
    TallyIncome(cfg, k, a, amount, s, TaskRefund(k));
    TallyIncome(cfg, k, a, amount, s, TaskIncome(k));
    TallyIncome(cfg, k, a, amount, s, DaoTaskShare(k));
    forall u ensures Tally(es, UserDelegation(k, u)) <= 1 {
      TallyIncome(cfg, k, a, amount, s, UserDelegation(k, u));
    }
  }

  // ---------- One row, in one transaction ----------

  lemma EventsOkMove(tasks: map<Key, Task>, log: seq<Event>, tasks': map<Key, Task>, es: seq<Event>)
    requires EventsOk(tasks, log) && Evolves(tasks, tasks')
    requires forall i | 0 <= i < |es| :: TaskEventOk(tasks', es[i])
    ensures EventsOk(tasks', log + es)
  {
    forall i | 0 <= i < |log + es| ensures TaskEventOk(tasks', (log + es)[i]) {
      if i < |log| {
        EventsStay(tasks, tasks', log[i]);
      } else {
        assert (log + es)[i] == es[i - |log|];
      }
    }
  }

  // Only the row k changed, forward; only task credits were added; vesting records kept their amounts.
  ghost predicate OneRow(w: World, w': World, k: Key) {
    && w'.tasks.Keys == w.tasks.Keys
    && (forall j | j in w.tasks && j != k :: w'.tasks[j] == w.tasks[j])
    && Evolves(w.tasks, w'.tasks)
    && Credited(w.log, w'.log)
    && VestingsKept(w.vestings, w'.vestings)
  }

  predicate TaskCredit(e: Event) {
    TaskOf(e.reason).Some? && !e.reason.TaskPayment?
  }

  predicate Credited(log: seq<Event>, log': seq<Event>) {
    && |log| <= |log'| && log'[..|log|] == log
    && forall i | |log| <= i < |log'| :: TaskCredit(log'[i])
  }

  predicate VestingsKept(vs: map<nat, Vesting>, vs': map<nat, Vesting>) {
    vs'.Keys == vs.Keys && forall id | id in vs :: vs'[id] == vs[id].(slashed := vs'[id].slashed)
  }

  lemma CoreMove(cfg: Config, w: World, w': World, u: Task, es: seq<Event>)
    requires Core(cfg, w) && u.key in w.tasks
    requires w'.tasks == w.tasks[u.key := u] && w'.log == w.log + es && VestingsKept(w.vestings, w'.vestings)
    requires Linked(w') && RowOk(cfg, u) && Precedes(w.tasks[u.key], u)
    requires !PaidInGroup(w.tasks[u.key].status) && !u.status.EndGroupSuccess?
    requires u.status.EndGroupRefund? ==> !GroupWon(w.tasks, u.taskId)
    requires OthersUntouched(es, u.key)
    requires Settles(es, u.key, RefundsDue(u) - RefundsDue(w.tasks[u.key]),
                     IncomeDue(w.tasks, u) - IncomeDue(w.tasks, w.tasks[u.key]), w.tasks[u.key].fee)
    requires forall i | 0 <= i < |es| :: TaskEventOk(w'.tasks, es[i]) && TaskCredit(es[i])
    ensures Core(cfg, w') && OneRow(w, w', u.key)
  {
    hide RowOk, Settled, EventsOk, NodeLink, TaskLink, Settles, OthersUntouched, Credited, TaskEventOk;
    KeysMatch(w);
    EvolvesOne(w.tasks, u);
    RowsOkMove(cfg, w.tasks, u);
    SettledMove(w.tasks, w.log, u, es);
    EventsOkMove(w.tasks, w.log, w'.tasks, es);
    CreditedAppend(w.log, es);
  }

  lemma KeysMatch(w: World)
    requires Linked(w)
    ensures forall k | k in w.tasks :: w.tasks[k].key == k
  {
    forall k | k in w.tasks ensures w.tasks[k].key == k {
      assert TaskLink(w.nodes, k, w.tasks[k]);
    }
  }

  lemma EvolvesOne(tasks: map<Key, Task>, u: Task)
    requires u.key in tasks && Precedes(tasks[u.key], u)
    ensures Evolves(tasks, tasks[u.key := u])
  {}

  lemma RowsOkMove(cfg: Config, tasks: map<Key, Task>, u: Task)
    requires RowsOk(cfg, tasks) && RowOk(cfg, u)
    ensures RowsOk(cfg, tasks[u.key := u])
  {}

  lemma CreditedAppend(log: seq<Event>, es: seq<Event>)
    requires forall i | 0 <= i < |es| :: TaskCredit(es[i])
    ensures Credited(log, log + es)
  {}

  // ---------- The copy a transaction was given ----------

  // A current row, but for the fields its caller fills in before the update.
  predicate CopyOf(t: Task, row: Task) {
    t == row.(taskId := t.taskId, reason := t.reason, validatedTime := t.validatedTime, qos := t.qos)
  }

  // A copy that would pass the compare-and-set is current.
  predicate Fresh(w: World, t: Task) {
    t.key in w.tasks && (Cas(w, t) && !Terminal(t.status) ==> CopyOf(t, w.tasks[t.key]))
  }

  predicate Aborting(t: Task) {
    t.taskId.None? || t.taskId == Some([t.key]) || GroupMember(t)
  }
}

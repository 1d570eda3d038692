/** Transactions over a whole validation group: paying a success and applying a verdict. */
module GroupMoves {
  import opened Basics
  import opened Model
  import opened Deadline
  import opened Settlement
  import opened Lifecycle
  import opened Invariant
  import opened Moves
  import opened Rows
  import opened Transactions

  // ---------- The group structure under one row's change ----------

  lemma GroupsSingle(tasks: map<Key, Task>, u: Task)
    requires GroupsOk(tasks) && (forall k | k in tasks :: tasks[k].key == k)
    requires u.key in tasks && !GroupMember(tasks[u.key]) && !GroupMember(u)
    ensures GroupsOk(tasks[u.key := u])
  {
    var tasks' := tasks[u.key := u];
    forall k | k in tasks' && GroupMember(tasks'[k]) ensures GroupOk(tasks', tasks'[k].taskId.value) {
      var ids := tasks[k].taskId.value;
      assert GroupOk(tasks, ids);
      assert u.key !in ids;
    }
  }

  lemma GroupsEnd(tasks: map<Key, Task>, u: Task)
    requires GroupsOk(tasks) && (forall k | k in tasks :: tasks[k].key == k)
    requires u.key in tasks && u.taskId == tasks[u.key].taskId && Terminal(u.status)
    requires Representative(u.status) ==> Representative(tasks[u.key].status)
    ensures GroupsOk(tasks[u.key := u])
  {
    var tasks' := tasks[u.key := u];
    forall k | k in tasks' && GroupMember(tasks'[k]) ensures GroupOk(tasks', tasks'[k].taskId.value) {
      assert GroupMember(tasks[k]);
      assert GroupOk(tasks, tasks[k].taskId.value);
    }
  }

  // ---------- Paying a success ----------

  predicate DistinctKeys(ts: seq<Task>) {
    forall i, j | 0 <= i < j < |ts| :: ts[i].key != ts[j].key
  }

  predicate HasKey(ts: seq<Task>, k: Key) {
    exists i | 0 <= i < |ts| :: ts[i].key == k
  }

  // Reasons an income to task k may carry.
  predicate IncomeReason(r: Reason, k: Key) {
    r == TaskIncome(k) || r == DaoTaskShare(k) || (r.UserDelegation? && r.task == k)
  }

  lemma {:induction false} TallyPayments(cfg: Config, ts: seq<Task>, ps: seq<nat>, splits: Splits, r: Reason)
    requires |ts| == |ps| && DistinctKeys(ts)
    ensures var n := Tally(PaymentEvents(cfg, ts, ps, splits), r);
            && n <= 1
            && (n == 1 ==> TaskOf(r).Some? && IncomeReason(r, TaskOf(r).value) && HasKey(ts, TaskOf(r).value))
            && ((r.TaskIncome? || r.DaoTaskShare?) && HasKey(ts, r.task) ==> n == 1)
  {
    hide IncomeEvents, Tally, HasKey, DistinctKeys;
    NoTasks(cfg, splits, r);
    if ts != [] {
      var n := |ts| - 1;
      var t, s := ts[n], SplitOf(splits, NodeOf(ts[n]));
      DistinctFront(ts);
      TallyPayments(cfg, ts[..n], ps[..n], splits, r);
      TallyIncome(cfg, t.key, NodeOf(t), ps[n], s, r);
      TallyConcat(PaymentEvents(cfg, ts[..n], ps[..n], splits), IncomeEvents(cfg, t.key, NodeOf(t), ps[n], s), r);
      if TaskOf(r).Some? {
        HasKeyFront(ts, TaskOf(r).value);
      }
    }
  }

  lemma NoTasks(cfg: Config, splits: Splits, r: Reason)
    ensures Tally(PaymentEvents(cfg, [], [], splits), r) == 0 && forall k :: !HasKey([], k)
  {}

  lemma DistinctFront(ts: seq<Task>)
    requires ts != [] && DistinctKeys(ts)
    ensures DistinctKeys(ts[..|ts| - 1]) && !HasKey(ts[..|ts| - 1], ts[|ts| - 1].key)
  {}

  lemma HasKeyFront(ts: seq<Task>, k: Key)
    requires ts != []
    ensures HasKey(ts, k) <==> HasKey(ts[..|ts| - 1], k) || k == ts[|ts| - 1].key
  {
    var n := |ts| - 1;
    if HasKey(ts[..n], k) {
      var i :| 0 <= i < n && ts[..n][i].key == k;
      assert ts[i].key == k;
    }
    if HasKey(ts, k) && k != ts[n].key {
      var i :| 0 <= i < |ts| && ts[i].key == k;
      assert ts[..n][i].key == k;
    }
    assert k == ts[n].key ==> HasKey(ts, k);
  }

  lemma {:induction false} PaymentReasons(cfg: Config, ts: seq<Task>, ps: seq<nat>, splits: Splits,
                                          tasks: map<Key, Task>)
    requires |ts| == |ps|
    requires forall i | 0 <= i < |ts| ::
               ts[i].key in tasks && IncomeAllowed(tasks[ts[i].key]) && tasks[ts[i].key].selected == Some(NodeOf(ts[i]))
    ensures forall e | e in PaymentEvents(cfg, ts, ps, splits) :: TaskEventOk(tasks, e) && TaskCredit(e)
  {
    hide IncomeEvents, IncomeAllowed;
    if ts != [] {
      var n := |ts| - 1;
      PaymentReasons(cfg, ts[..n], ps[..n], splits, tasks);
      IncomeReasons(cfg, ts[n].key, NodeOf(ts[n]), ps[n], SplitOf(splits, NodeOf(ts[n])));
    }
  }

  lemma GroupRowsOfThree(w: World, ids: TaskId)
    requires GroupIds(ids) && GroupOk(w.tasks, ids)
    ensures GroupRows(w, ids, ids) == [w.tasks[ids[0]], w.tasks[ids[1]], w.tasks[ids[2]]]
  {
    assert ids[..2][..1] == ids[..1];
    assert ids[0] in ids && ids[1] in ids && ids[2] in ids;
    assert GroupRows(w, ids[..1], ids) == [w.tasks[ids[0]]] by { assert ids[..1][..0] == []; }
    assert GroupRows(w, ids[..2], ids) == [w.tasks[ids[0]], w.tasks[ids[1]]];
  }

  function OnlyPaid(t: Task): seq<Task> {
    if Paid(t) then [t] else []
  }

  lemma PayeesOfThree(a: Task, b: Task, c: Task)
    ensures Payees([a, b, c]) == OnlyPaid(a) + OnlyPaid(b) + OnlyPaid(c)
  {
    assert [a, b, c][..2] == [a, b] && [a, b][..1] == [a];
    assert Payees([a]) == OnlyPaid(a) by { assert [a][..0] == []; }
    assert Payees([a, b]) == OnlyPaid(a) + OnlyPaid(b);
  }

  // The payees of a group whose representative still waits for its result.
  lemma GroupPayees(w: World, ids: TaskId)
    requires GroupIds(ids) && GroupOk(w.tasks, ids)
    requires forall k | k in ids :: w.tasks[k].key == k
    ensures var ps := Payees(GroupRows(w, ids, ids));
            && |GroupRows(w, ids, ids)| == 3 && DistinctKeys(ps)
            && (forall p | p in ps :: p.key in ids && p == w.tasks[p.key] && Paid(p))
            && (forall k | k in ids && Paid(w.tasks[k]) :: w.tasks[k] in ps)
  {
    hide GroupRows, Payees, Paid, GroupOk;
    assert ids[0] in ids && ids[1] in ids && ids[2] in ids;
    GroupMembersExist(w.tasks, ids);
    var a, b, c := w.tasks[ids[0]], w.tasks[ids[1]], w.tasks[ids[2]];
    GroupRowsOfThree(w, ids);
    PayeesOfThree(a, b, c);
  }

  lemma GroupMembersExist(tasks: map<Key, Task>, ids: TaskId)
    requires GroupOk(tasks, ids)
    ensures forall k | k in ids :: k in tasks
  {}

  lemma {:induction false} SumPositive(xs: seq<nat>, i: nat)
    requires i < |xs| && xs[i] > 0
    ensures Sum(xs) > 0
  {
    if i < |xs| - 1 {
      SumPositive(xs[..|xs| - 1], i);
    }
  }

  /** The scores a group's payees are weighted by never sum to zero. */
  lemma PayeesHaveScore(cfg: Config, w: World, ids: TaskId, r: Key)
    requires GroupIds(ids) && GroupOk(w.tasks, ids) && RowsOk(cfg, w.tasks)
    requires forall k | k in ids :: w.tasks[k].key == k
    requires r in ids && w.tasks[r].status.GroupValidated?
    ensures Sum(Scores(Payees(GroupRows(w, ids, ids)))) > 0
  {
    hide GroupRows, Payees, GroupOk;
    GroupPayees(w, ids);
    GroupMembersExist(w.tasks, ids);
    var ps := Payees(GroupRows(w, ids, ids));
    assert RowOk(cfg, w.tasks[r]);
    var i :| 0 <= i < |ps| && ps[i] == w.tasks[r];
    SumPositive(Scores(ps), i);
  }

  // ---------- Settlement of a group success ----------

  lemma WonAfter(tasks: map<Key, Task>, u: Task, ids: TaskId, id: Option<TaskId>)
    requires u.key in ids && u.key in tasks && u.status.EndGroupSuccess? && u.taskId == Some(ids)
    requires tasks[u.key].taskId == Some(ids)
    ensures GroupWon(tasks[u.key := u], id) == (GroupWon(tasks, id) || id == Some(ids))
  {
    var tasks' := tasks[u.key := u];
    if id.Some? {
      forall m ensures Won(tasks', id.value, m) == (Won(tasks, id.value, m) || (m == u.key && id == Some(ids))) {}
      assert Won(tasks', ids, u.key);
    }
  }

  lemma SettledWin(cfg: Config, tasks: map<Key, Task>, log: seq<Event>, u: Task, ids: TaskId,
                   ps: seq<Task>, amounts: seq<nat>, splits: Splits)
    requires Settled(tasks, log) && (forall k | k in tasks :: tasks[k].key == k)
    requires u.key in ids && u.key in tasks && tasks[u.key].status.GroupValidated? && tasks[u.key].taskId == Some(ids)
    requires u.status.EndGroupSuccess? && u.taskId == Some(ids) && u.fee == tasks[u.key].fee
    requires !GroupWon(tasks, Some(ids))
    requires forall k | k in tasks && tasks[k].taskId == Some(ids) :: !tasks[k].status.EndGroupSuccess?
    requires |ps| == |amounts| && DistinctKeys(ps)
    requires forall k | k in tasks ::
               HasKey(ps, k) <==> k == u.key || (tasks[k].status.EndGroupRefund? && tasks[k].taskId == Some(ids))
    requires forall k: Key | k !in tasks :: !HasKey(ps, k)
    requires forall k :: GroupIncome(tasks[u.key := u], Some(ids), k) == ShareOf(ps, amounts, k)
    ensures Settled(tasks[u.key := u], log + PaymentEvents(cfg, ps, amounts, splits))
  {
    hide HasKey, DistinctKeys, PaymentEvents, GroupWon, Tally, TaskNet, GroupIncome, ShareOf, SettledRow;
    var tasks', es := tasks[u.key := u], PaymentEvents(cfg, ps, amounts, splits);
    TallyAll(log, es);
    forall k | k in tasks' ensures SettledRow(tasks', log + es, tasks'[k]) {
      assert SettledRow(tasks, log, tasks[k]);
      WonAfter(tasks, u, ids, tasks[k].taskId);
      TallyOfKey(cfg, ps, amounts, splits, k);
      if tasks[k].taskId != Some(ids) {
        GroupIncomeSame(tasks, u, tasks[k].taskId, k);
        SettledApart(tasks, tasks', log, es, tasks[k]);
      } else {
        SettledInGroup(tasks, tasks', log, es, tasks[k], tasks'[k], ShareOf(ps, amounts, k));
      }
    }
    forall k: Key | k !in tasks' ensures Untouched(log + es, k) {
      assert Untouched(log, k);
      TallyOfKey(cfg, ps, amounts, splits, k);
    }
  }

  // A row of another group: nothing about it changes.
  lemma SettledApart(tasks: map<Key, Task>, tasks': map<Key, Task>, log: seq<Event>, es: seq<Event>, t: Task)
    requires SettledRow(tasks, log, t) && Counts(es, t.key, 0, 0) && TaskNet(es, t.key) == 0
    requires GroupWon(tasks', t.taskId) == GroupWon(tasks, t.taskId)
    requires GroupIncome(tasks', t.taskId, t.key) == GroupIncome(tasks, t.taskId, t.key)
    ensures SettledRow(tasks', log + es, t)
  {
    hide GroupWon, Tally, TaskNet, GroupIncome;
    TallyAll(log, es);
  }

  // A row of the group that wins: its representative and its refunded members are paid.
  lemma SettledInGroup(tasks: map<Key, Task>, tasks': map<Key, Task>, log: seq<Event>, es: seq<Event>,
                       t: Task, t': Task, share: nat)
    requires SettledRow(tasks, log, t) && t'.key == t.key && t'.taskId == t.taskId && t'.fee == t.fee
    requires !GroupWon(tasks, t.taskId) && GroupWon(tasks', t.taskId)
    requires t' == t || (t.status.GroupValidated? && t'.status.EndGroupSuccess?)
    requires var paid := t' != t || t.status.EndGroupRefund?;
             && Counts(es, t.key, 0, if paid then 1 else 0)
             && TaskNet(es, t.key) == (if paid then share else 0)
    requires GroupIncome(tasks', t.taskId, t.key) == share && (t' == t ==> !t.status.EndGroupSuccess?)
    ensures SettledRow(tasks', log + es, t')
  {
    hide GroupWon, Tally, TaskNet, GroupIncome;
    TallyAll(log, es);
  }

  /** What the payments record about a task adds up to its share, whoever the share is split with. */
  lemma {:induction false} PaymentsNet(cfg: Config, ps: seq<Task>, amounts: seq<nat>, splits: Splits, k: Key)
    requires |ps| == |amounts|
    ensures TaskNet(PaymentEvents(cfg, ps, amounts, splits), k) == ShareOf(ps, amounts, k)
  {
    hide IncomeEvents, TaskNet;
    if ps == [] {
      TaskNetAbsent([], k);
    } else {
      var n := |ps| - 1;
      var last := IncomeEvents(cfg, ps[n].key, NodeOf(ps[n]), amounts[n], SplitOf(splits, NodeOf(ps[n])));
      PaymentsNet(cfg, ps[..n], amounts[..n], splits, k);
      IncomeNet(cfg, ps[n].key, NodeOf(ps[n]), amounts[n], SplitOf(splits, NodeOf(ps[n])), k);
      TaskNetConcat(PaymentEvents(cfg, ps[..n], amounts[..n], splits), last, k);
    }
  }

  lemma {:induction false} NoShare(ps: seq<Task>, amounts: seq<nat>, k: Key)
    requires |ps| == |amounts| && !HasKey(ps, k)
    ensures ShareOf(ps, amounts, k) == 0
  {
    if ps != [] {
      NoShare(ps[..|ps| - 1], amounts[..|ps| - 1], k);
    }
  }

  // The same keys share the same payments alike.
  lemma {:induction false} SharesByKey(ps: seq<Task>, ts: seq<Task>, amounts: seq<nat>, k: Key)
    requires |ps| == |ts| == |amounts| && forall i | 0 <= i < |ps| :: ps[i].key == ts[i].key
    ensures ShareOf(ps, amounts, k) == ShareOf(ts, amounts, k)
  {
    if ps != [] {
      var n := |ps| - 1;
      SharesByKey(ps[..n], ts[..n], amounts[..n], k);
    }
  }

  predicate PaidAlike(ps: seq<Task>, ts: seq<Task>) {
    |ps| == |ts| &&
    forall i | 0 <= i < |ps| :: ps[i].key == ts[i].key && ps[i].fee == ts[i].fee && ps[i].qos == ts[i].qos
  }

  // The rows a success pays are the rows it leaves paid.
  lemma {:induction false} PayeesArePaid(w: World, u: Task, ids: TaskId, all: TaskId)
    requires u.key in w.tasks && w.tasks[u.key].status.GroupValidated? && u.taskId == Some(all)
    requires u == SucceededRow(w.tasks[u.key], true)
    requires forall k | k in ids ::
               k in w.tasks && w.tasks[k].key == k && !w.tasks[k].status.EndGroupSuccess?
               && (w.tasks[k].status.GroupValidated? ==> k == u.key)
    ensures PaidAlike(Payees(GroupRows(w, ids, all)), PaidMembers(w.tasks[u.key := u], ids, all))
  {
    hide PaidAlike, Payees;
    if ids == [] {
      NobodyAlike();
    } else {
      var n := |ids| - 1;
      var k := ids[n];
      PayeesArePaid(w, u, ids[..n], all);
      var before, paid := GroupRows(w, ids[..n], all), PaidMembers(w.tasks[u.key := u], ids[..n], all);
      if w.tasks[k].taskId == Some(all) {
        PayeesSnoc(before, w.tasks[k]);
        if Paid(w.tasks[k]) {
          AlikeSnoc(Payees(before), paid, w.tasks[k], w.tasks[u.key := u][k]);
        }
      } else {
        assert before + [] == before && paid + [] == paid;
      }
    }
  }

  lemma NobodyAlike()
    ensures PaidAlike(Payees([]), [])
  {}

  lemma PayeesSnoc(ts: seq<Task>, t: Task)
    ensures Payees(ts + [t]) == if Paid(t) then Payees(ts) + [t] else Payees(ts)
  {
    assert (ts + [t])[..|ts|] == ts;
  }

  lemma AlikeSnoc(ps: seq<Task>, ts: seq<Task>, p: Task, t: Task)
    requires PaidAlike(ps, ts) && p.key == t.key && p.fee == t.fee && p.qos == t.qos
    ensures PaidAlike(ps + [p], ts + [t])
  {}

  lemma PaidAlikeIncome(tasks: map<Key, Task>, ids: TaskId, ps: seq<Task>, k: Key)
    requires PaidAlike(ps, PaidMembers(tasks, ids, ids)) && Sum(Scores(ps)) > 0
    ensures GroupIncome(tasks, Some(ids), k) == ShareOf(ps, GroupPayments(Fees(ps), Scores(ps)), k)
  {
    hide ShareOf, PaidMembers, GroupPayments, Sum;
    var ts := PaidMembers(tasks, ids, ids);
    assert Fees(ts) == Fees(ps) && Scores(ts) == Scores(ps);
    SharesByKey(ps, ts, GroupPayments(Fees(ps), Scores(ps)), k);
  }

  lemma TallyOfKey(cfg: Config, ps: seq<Task>, amounts: seq<nat>, splits: Splits, k: Key)
    requires |ps| == |amounts| && DistinctKeys(ps)
    ensures Counts(PaymentEvents(cfg, ps, amounts, splits), k, 0, if HasKey(ps, k) then 1 else 0)
    ensures TaskNet(PaymentEvents(cfg, ps, amounts, splits), k) == ShareOf(ps, amounts, k)
    ensures !HasKey(ps, k) ==> ShareOf(ps, amounts, k) == 0
  {
    hide HasKey, DistinctKeys, PaymentEvents, ShareOf;
    PaymentsNet(cfg, ps, amounts, splits, k);
    if !HasKey(ps, k) {
      NoShare(ps, amounts, k);
    }
    TallyPayments(cfg, ps, amounts, splits, TaskPayment(k));
    TallyPayments(cfg, ps, amounts, splits, TaskRefund(k));
    TallyPayments(cfg, ps, amounts, splits, TaskIncome(k));
    TallyPayments(cfg, ps, amounts, splits, DaoTaskShare(k));
    forall u
      ensures Tally(PaymentEvents(cfg, ps, amounts, splits), UserDelegation(k, u)) <= if HasKey(ps, k) then 1 else 0
    {
      TallyPayments(cfg, ps, amounts, splits, UserDelegation(k, u));
    }
  }

  // ---------- What a won group was paid ----------

  // The paid members are rows of the group, each once.
  lemma {:induction false} PaidMembersAre(tasks: map<Key, Task>, ids: TaskId, all: TaskId)
    requires forall k | k in tasks :: tasks[k].key == k
    requires forall i, j | 0 <= i < j < |ids| :: ids[i] != ids[j]
    ensures var ts := PaidMembers(tasks, ids, all);
            && DistinctKeys(ts)
            && (forall t | t in ts :: t.key in ids && t.key in tasks && t == tasks[t.key] && t.taskId == Some(all))
            && (forall k | k in ids && k in tasks && tasks[k].taskId == Some(all) && PaidInGroup(tasks[k].status) ::
                  tasks[k] in ts)
  {
    if ids != [] {
      var n := |ids| - 1;
      PaidMembersAre(tasks, ids[..n], all);
      var ts := PaidMembers(tasks, ids[..n], all);
      forall i | 0 <= i < |ts| ensures ts[i].key != ids[n] {
        assert ts[i] in ts && ts[i].key in ids[..n];
      }
    }
  }

  // A payee's share is its own payment.
  lemma {:induction false} ShareIsPayment(ts: seq<Task>, payments: seq<nat>, i: nat)
    requires |ts| == |payments| && DistinctKeys(ts) && i < |ts|
    ensures ShareOf(ts, payments, ts[i].key) == payments[i]
  {
    var n := |ts| - 1;
    if i == n {
      assert !HasKey(ts[..n], ts[n].key);
      NoShare(ts[..n], payments[..n], ts[n].key);
    } else {
      ShareIsPayment(ts[..n], payments[..n], i);
    }
  }

  /** A won group's payees net their payments; its representative nets its payment less the fee of its task. */
  lemma WonGroupNet(cfg: Config, w: World, ids: TaskId, r: Key)
    requires Inv(cfg, w) && Won(w.tasks, ids, r)
    ensures var ts := PaidMembers(w.tasks, ids, ids);
            && Sum(Scores(ts)) > 0
            && (forall i | 0 <= i < |ts| :: TaskNet(w.log, ts[i].key)
                  == GroupPayments(Fees(ts), Scores(ts))[i] - if ts[i].key == r then ts[i].fee else 0)
  {
    hide NodeLink, TaskLink, EventsOk, PaidMembers, TaskNet, Tally, ShareOf, GroupPayments, Sum, DeadlineAt, GroupOk,
         DistinctKeys, Scores;
    KeysMatch(w);
    assert RowOk(cfg, w.tasks[r]);
    assert GroupOk(w.tasks, ids);
    PaidMembersAre(w.tasks, ids, ids);
    var ts := PaidMembers(w.tasks, ids, ids);
    var p :| 0 <= p < |ts| && ts[p] == w.tasks[r];
    PaidHaveScore(ts, p);
    var payments := GroupPayments(Fees(ts), Scores(ts));
    forall i | 0 <= i < |ts|
      ensures ts[i].key == r <==> i == p
      ensures TaskNet(w.log, ts[i].key) == payments[i] - if i == p then ts[i].fee else 0
    {
      WonMemberNet(w, ids, r, i, p);
    }
  }

  lemma PaidHaveScore(ts: seq<Task>, p: nat)
    requires p < |ts| && ts[p].qos.Some? && ts[p].qos.value > 0
    ensures Sum(Scores(ts)) > 0
  {
    SumPositive(Scores(ts), p);
  }

  lemma WonMemberNet(w: World, ids: TaskId, r: Key, i: nat, p: nat)
    requires Settled(w.tasks, w.log) && GroupOk(w.tasks, ids) && Won(w.tasks, ids, r)
    requires var ts := PaidMembers(w.tasks, ids, ids);
             && Sum(Scores(ts)) > 0 && DistinctKeys(ts) && i < |ts| && p < |ts| && ts[p] == w.tasks[r]
             && ts[p].key == r
             && (forall t | t in ts :: t.key in ids && t.key in w.tasks && t == w.tasks[t.key] && t.taskId == Some(ids))
    ensures var ts := PaidMembers(w.tasks, ids, ids);
            && (ts[i].key == r <==> i == p)
            && TaskNet(w.log, ts[i].key)
               == GroupPayments(Fees(ts), Scores(ts))[i] - if i == p then ts[i].fee else 0
  {
    hide PaidMembers, TaskNet, Tally, ShareOf, GroupPayments, Sum, GroupOk, Scores, Fees;
    var ts := PaidMembers(w.tasks, ids, ids);
    assert ts[i] in ts;
    var k := ts[i].key;
    assert SettledRow(w.tasks, w.log, w.tasks[k]);
    assert GroupWon(w.tasks, Some(ids));
    assert PaidInGroup(ts[i].status);
    OnlyOneRepresentative(w.tasks, ids, k, r);
    ShareIsPayment(ts, GroupPayments(Fees(ts), Scores(ts)), i);
  }

  // ---------- Success ----------

  lemma SucceedSingleResult(cfg: Config, w: World, t: Task, splits: Splits, kickout: bool)
    requires Linked(w) && t.key in w.tasks && t == w.tasks[t.key] && t.status.Validated? && t.taskId == Some([t.key])
    ensures && t.selected.Some? && t.selected.value in w.nodes
            && Succeed(cfg, w, t, splits, kickout) ==
               Ok(SetNode(Emit(SetTask(w, SucceededRow(t, false)),
                               IncomeEvents(cfg, t.key, NodeOf(t), t.fee, SplitOf(splits, NodeOf(t)))),
                         t.selected.value,
                          Node(AfterTask(w.nodes[t.selected.value].status, kickout), None)))
  {
    hide IncomeEvents, GroupPayments;
    CheckSelectedIff(w, t);
    assert GroupRows(w, [t.key], [t.key]) == [t] by { assert [t.key][..0] == []; }
    var es := IncomeEvents(cfg, t.key, NodeOf(t), t.fee, SplitOf(splits, NodeOf(t)));
    assert PaymentEvents(cfg, [t], [t.fee], splits) == es by {
      assert [t][..0] == [] && [t.fee][..0] == [];
      assert [] + es == es;
    }
  }

  lemma SucceedSingleKeeps(cfg: Config, w: World, t: Task, splits: Splits, kickout: bool)
    requires Inv(cfg, w) && t.key in w.tasks && t == w.tasks[t.key] && t.status.Validated?
    ensures var r := Succeed(cfg, w, t, splits, kickout);
            && r.Ok? && Inv(cfg, r.value) && OneRow(w, r.value, t.key)
            && r.value.tasks[t.key].status.EndSuccess?
  {
    hide Settled, EventsOk, OneRow, NodeLink, Settles, OthersUntouched, Succeed, IncomeEvents, TaskEventOk, DeadlineAt;
    KeysMatch(w);
    assert RowOk(cfg, t) && TaskLink(w.nodes, t.key, t);
    SucceedSingleResult(cfg, w, t, splits, kickout);
    SucceedRow(cfg, t, false);
    var u, es := SucceededRow(t, false), IncomeEvents(cfg, t.key, NodeOf(t), t.fee, SplitOf(splits, NodeOf(t)));
    IncomeSettles(cfg, t.key, NodeOf(t), t.fee, SplitOf(splits, NodeOf(t)));
    SingleIncomeOk(cfg, w.tasks, u, t, splits);
    EndMove(cfg, w, Succeed(cfg, w, t, splits, kickout).value, u, es,
            AfterTask(w.nodes[t.selected.value].status, kickout));
    GroupsSingle(w.tasks, u);
  }

  lemma SingleIncomeOk(cfg: Config, tasks: map<Key, Task>, u: Task, t: Task, splits: Splits)
    requires t.key in tasks && u.key == t.key && u.status.EndSuccess? && u.selected == t.selected && t.selected.Some?
    ensures var es := IncomeEvents(cfg, t.key, NodeOf(t), t.fee, SplitOf(splits, NodeOf(t)));
            forall i | 0 <= i < |es| :: TaskEventOk(tasks[u.key := u], es[i]) && TaskCredit(es[i])
  {
    hide IncomeEvents;
    var es := IncomeEvents(cfg, t.key, NodeOf(t), t.fee, SplitOf(splits, NodeOf(t)));
    IncomeReasons(cfg, t.key, NodeOf(t), t.fee, SplitOf(splits, NodeOf(t)));
    forall i | 0 <= i < |es| ensures TaskEventOk(tasks[u.key := u], es[i]) && TaskCredit(es[i]) {
      assert es[i] in es;
    }
  }

  // What paying the group of the representative t writes.
  function GroupPaid(cfg: Config, w: World, t: Task, splits: Splits): seq<Event>
    requires t.taskId.Some?
    requires Payees(GroupRows(w, t.taskId.value, t.taskId.value)) != [] ==>
               Sum(Scores(Payees(GroupRows(w, t.taskId.value, t.taskId.value)))) > 0
  {
    var ps := Payees(GroupRows(w, t.taskId.value, t.taskId.value));
    PaymentEvents(cfg, ps, GroupPayments(Fees(ps), Scores(ps)), splits)
  }

  lemma SucceedGroupResult(cfg: Config, w: World, t: Task, splits: Splits, kickout: bool)
    requires Linked(w) && t.key in w.tasks && t == w.tasks[t.key] && t.status.GroupValidated? && t.taskId.Some?
    requires |GroupRows(w, t.taskId.value, t.taskId.value)| > 1
    requires Sum(Scores(Payees(GroupRows(w, t.taskId.value, t.taskId.value)))) > 0
    ensures && t.selected.Some? && t.selected.value in w.nodes
            && Succeed(cfg, w, t, splits, kickout) ==
               Ok(SetNode(Emit(SetTask(w, SucceededRow(t, true)), GroupPaid(cfg, w, t, splits)), t.selected.value,
                          Node(AfterTask(w.nodes[t.selected.value].status, kickout), None)))
  {
    hide GroupRows, Payees, PaymentEvents, GroupPayments, Scores, Fees;
    CheckSelectedIff(w, t);
  }

  lemma PayeesHaveKeys(cfg: Config, w: World, ids: TaskId, r: Key)
    requires GroupIds(ids) && GroupOk(w.tasks, ids) && (forall k | k in w.tasks :: w.tasks[k].key == k)
    requires r in ids && w.tasks[r].status.GroupValidated? && RowsOk(cfg, w.tasks)
    ensures var ps := Payees(GroupRows(w, ids, ids));
            && !GroupWon(w.tasks, Some(ids))
            && (forall k | k in w.tasks && w.tasks[k].taskId == Some(ids) :: !w.tasks[k].status.EndGroupSuccess?)
            && (forall k: Key | k !in w.tasks :: !HasKey(ps, k))
            && (forall k | k in w.tasks :: HasKey(ps, k) <==>
                  k == r || (w.tasks[k].status.EndGroupRefund? && w.tasks[k].taskId == Some(ids)))
  {
    hide GroupRows, Payees, DeadlineAt;
    GroupPayees(w, ids);
    var ps := Payees(GroupRows(w, ids, ids));
    forall k | k in w.tasks
      ensures HasKey(ps, k) <==> k == r || (w.tasks[k].status.EndGroupRefund? && w.tasks[k].taskId == Some(ids))
    {
      if HasKey(ps, k) {
        var i :| 0 <= i < |ps| && ps[i].key == k;
        assert ps[i] in ps;
      }
      if k == r || (w.tasks[k].status.EndGroupRefund? && w.tasks[k].taskId == Some(ids)) {
        assert RowOk(cfg, w.tasks[k]);
        assert k in ids && w.tasks[k] in ps;
        var i :| 0 <= i < |ps| && ps[i] == w.tasks[k];
        assert ps[i].key == k;
      }
    }
    assert forall i | 0 <= i < |ps| :: ps[i] in ps && ps[i].key in w.tasks;
    forall k | k in w.tasks && w.tasks[k].taskId == Some(ids) ensures !w.tasks[k].status.EndGroupSuccess? {
      assert RowOk(cfg, w.tasks[k]);
    }
  }

  lemma GroupPaidOk(cfg: Config, w: World, t: Task, u: Task, splits: Splits)
    requires t.key in w.tasks && t == w.tasks[t.key] && t.status.GroupValidated? && GroupMember(t) && t.selected.Some?
    requires GroupOk(w.tasks, t.taskId.value) && (forall k | k in w.tasks :: w.tasks[k].key == k) &&
               RowsOk(cfg, w.tasks)
    requires u == SucceededRow(t, true)
    requires Sum(Scores(Payees(GroupRows(w, t.taskId.value, t.taskId.value)))) > 0
    ensures var es := GroupPaid(cfg, w, t, splits);
            forall i | 0 <= i < |es| :: TaskEventOk(w.tasks[u.key := u], es[i]) && TaskCredit(es[i])
  {
    hide GroupRows, Payees, PaymentEvents, GroupPayments, Scores, Fees, TaskEventOk, DeadlineAt;
    var ids := t.taskId.value;
    GroupPayees(w, ids);
    var ps, tasks' := Payees(GroupRows(w, ids, ids)), w.tasks[u.key := u];
    forall i | 0 <= i < |ps|
      ensures ps[i].key in tasks' && IncomeAllowed(tasks'[ps[i].key]) &&
                tasks'[ps[i].key].selected == Some(NodeOf(ps[i]))
    {
      var p := ps[i];
      assert p in ps && RowOk(cfg, w.tasks[p.key]);
      OnlyOneRepresentative(w.tasks, ids, p.key, t.key);
    }
    PaymentReasons(cfg, ps, GroupPayments(Fees(ps), Scores(ps)), splits, tasks');
    var es := GroupPaid(cfg, w, t, splits);
    forall i | 0 <= i < |es| ensures TaskEventOk(tasks', es[i]) && TaskCredit(es[i]) {
      assert es[i] in es;
    }
  }

  lemma OnlyOneRepresentative(tasks: map<Key, Task>, ids: TaskId, m: Key, n: Key)
    requires GroupOk(tasks, ids) && m in ids && n in ids && Representative(tasks[n].status)
    ensures m == n || !Representative(tasks[m].status)
  {}

  // After the representative t succeeds, its group's payout by the rows left paid is what t's success pays.
  lemma WinnersIncome(cfg: Config, w: World, t: Task)
    requires t.key in w.tasks && t == w.tasks[t.key] && t.status.GroupValidated? && GroupMember(t)
    requires GroupOk(w.tasks, t.taskId.value) && (forall k | k in w.tasks :: w.tasks[k].key == k) &&
               RowsOk(cfg, w.tasks)
    ensures var ids, u := t.taskId.value, SucceededRow(t, true);
            var ps := Payees(GroupRows(w, ids, ids));
            && Sum(Scores(ps)) > 0
            && forall k :: GroupIncome(w.tasks[t.key := u], Some(ids), k)
                           == ShareOf(ps, GroupPayments(Fees(ps), Scores(ps)), k)
  {
    hide GroupRows, Payees, PaidMembers, GroupIncome, ShareOf, GroupPayments, Sum, Scores, Fees, DeadlineAt, PaidAlike;
    var ids, u := t.taskId.value, SucceededRow(t, true);
    var ps := Payees(GroupRows(w, ids, ids));
    assert RowOk(cfg, t);
    PayeesHaveScore(cfg, w, ids, t.key);
    forall k | k in ids
      ensures k in w.tasks && !w.tasks[k].status.EndGroupSuccess? && (w.tasks[k].status.GroupValidated? ==> k == u.key)
    {
      OnlyOneRepresentative(w.tasks, ids, k, t.key);
    }
    PayeesArePaid(w, u, ids, ids);
    forall k ensures GroupIncome(w.tasks[t.key := u], Some(ids), k)
                     == ShareOf(ps, GroupPayments(Fees(ps), Scores(ps)), k)
    {
      PaidAlikeIncome(w.tasks[t.key := u], ids, ps, k);
    }
  }

  /** Uploading the representative's result always pays its group, and pays it once. */
  lemma RepresentativeRow(cfg: Config, w: World, t: Task)
    requires Inv(cfg, w) && t.key in w.tasks && t == w.tasks[t.key] && t.status.GroupValidated?
    ensures RowOk(cfg, t) && GroupMember(t) && t.selected.Some? && t.selected.value in w.nodes
    ensures GroupOk(w.tasks, t.taskId.value)
  {
    hide Settled, EventsOk, NodeLink;
    assert RowOk(cfg, t) && TaskLink(w.nodes, t.key, t);
  }

  lemma SucceedGroupKeeps(cfg: Config, w: World, t: Task, splits: Splits, kickout: bool)
    requires Inv(cfg, w) && t.key in w.tasks && t == w.tasks[t.key] && t.status.GroupValidated?
    ensures var r := Succeed(cfg, w, t, splits, kickout);
            && r.Ok? && Inv(cfg, r.value) && OneRow(w, r.value, t.key)
            && r.value.tasks[t.key].status.EndGroupSuccess?
  {
    hide Settled, EventsOk, NodeLink, Succeed, GroupRows, Payees, PaymentEvents, GroupPayments, Scores, Fees, GroupPaid,
         TaskEventOk, GroupOk, HasKey, GroupWon, Credited, DeadlineAt, DistinctKeys, Linked, GroupsOk, Precedes, Sum;
    RepresentativeRow(cfg, w, t);
    KeysMatch(w);
    var ids := t.taskId.value;
    GroupMembersExist(w.tasks, ids);
    GroupPayees(w, ids);
    PayeesHaveScore(cfg, w, ids, t.key);
    SucceedGroupResult(cfg, w, t, splits, kickout);
    SucceedRow(cfg, t, true);
    var w', u, es := Succeed(cfg, w, t, splits, kickout).value, SucceededRow(t, true), GroupPaid(cfg, w, t, splits);
    LinkedFree(w, w', u, t.selected.value, AfterTask(w.nodes[t.selected.value].status, kickout));
    RowsOkMove(cfg, w.tasks, u);
    EvolvesOne(w.tasks, u);
    WinSettles(cfg, w, t, splits);
    GroupPaidOk(cfg, w, t, u, splits);
    EventsOkMove(w.tasks, w.log, w'.tasks, es);
    CreditedAppend(w.log, es);
    GroupsEnd(w.tasks, u);
  }

  // Paying the group of the representative t settles all its members.
  lemma WinSettles(cfg: Config, w: World, t: Task, splits: Splits)
    requires t.key in w.tasks && t == w.tasks[t.key] && t.status.GroupValidated? && GroupMember(t)
    requires GroupOk(w.tasks, t.taskId.value) && RowsOk(cfg, w.tasks)
    requires forall k | k in w.tasks :: w.tasks[k].key == k
    requires Settled(w.tasks, w.log) && Sum(Scores(Payees(GroupRows(w, t.taskId.value, t.taskId.value)))) > 0
    ensures Settled(w.tasks[t.key := SucceededRow(t, true)], w.log + GroupPaid(cfg, w, t, splits))
  {
    hide Settled, GroupRows, Payees, PaymentEvents, GroupPayments, Scores, Fees, GroupPaid, GroupOk, HasKey, GroupWon,
         DistinctKeys, RowOk, GroupIncome, ShareOf, Sum;
    var ids := t.taskId.value;
    GroupMembersExist(w.tasks, ids);
    GroupPayees(w, ids);
    PayeesHaveKeys(cfg, w, ids, t.key);
    GroupPaidIs(cfg, w, t, splits);
    var ps := Payees(GroupRows(w, ids, ids));
    WinnersIncome(cfg, w, t);
    SettledWin(cfg, w.tasks, w.log, SucceededRow(t, true), ids, ps, GroupPayments(Fees(ps), Scores(ps)), splits);
  }

  lemma GroupPaidIs(cfg: Config, w: World, t: Task, splits: Splits)
    requires t.taskId.Some?
    requires Sum(Scores(Payees(GroupRows(w, t.taskId.value, t.taskId.value)))) > 0
    ensures var ps := Payees(GroupRows(w, t.taskId.value, t.taskId.value));
            GroupPaid(cfg, w, t, splits) == PaymentEvents(cfg, ps, GroupPayments(Fees(ps), Scores(ps)), splits)
  {}
}

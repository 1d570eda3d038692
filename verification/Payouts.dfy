/** The payout of a won group, member by member, in terms of the rows' columns. */
module Payouts {
  import opened Basics
  import opened Model
  import opened Settlement
  import opened Lifecycle
  import opened Invariant
  import opened Moves
  import opened GroupMoves
  import opened Steps
  import opened Effects
  import opened Relay

  // ---------- Three members ----------

  // A list of at most one.
  function If<T>(p: bool, x: T): seq<T> {
    if p then [x] else []
  }

  // The score a member counts with.
  function Weight(p: bool, t: Task): nat {
    if p && t.qos.Some? then t.qos.value else 0
  }

  // The three members of a group, and which of them are paid.
  datatype Trio = Trio(a: Task, b: Task, c: Task, pa: bool, pb: bool, pc: bool) {
    function Paid(): seq<Task> {
      If(pa, a) + If(pb, b) + If(pc, c)
    }

    // All the scores paid.
    function Total(): nat {
      Weight(pa, a) + Weight(pb, b) + Weight(pc, c)
    }

    // The scores' parts of the fees, rounded down, and what rounding left.
    function Quotients(): int
      requires Total() > 0
    {
      a.fee * Weight(pa, a) / Total() + b.fee * Weight(pb, b) / Total() + c.fee * Weight(pc, c) / Total()
    }

    function Rest(): int
      requires Total() > 0
    {
      a.fee * Weight(pa, a) % Total() + b.fee * Weight(pb, b) % Total() + c.fee * Weight(pc, c) % Total()
    }

    predicate Scored() {
      && (pa ==> a.qos.Some? && a.qos.value > 0)
      && (pb ==> b.qos.Some? && b.qos.value > 0)
      && (pc ==> c.qos.Some? && c.qos.value > 0)
    }

    // What a paid member is paid: its score's part of its own fee, rounded down, and the last one the rest as well.
    predicate Parts(x: int, y: int, z: int)
      requires Scored() && Total() > 0
    {
      && (pa ==> x == a.fee * a.qos.value / Total() + if pb || pc then 0 else Rest())
      && (pb ==> y == b.fee * b.qos.value / Total() + if pc then 0 else Rest())
      && (pc ==> z == c.fee * c.qos.value / Total() + Rest())
    }
  }

  function Remainders(ts: seq<Task>, q: nat): nat
    requires q > 0
  {
    Sum(Rems(Products(Fees(ts), Scores(ts)), q))
  }

  lemma ScoresMore(ts: seq<Task>, p: bool, t: Task)
    requires p ==> t.qos.Some?
    ensures Sum(Scores(ts + If(p, t))) == Sum(Scores(ts)) + Weight(p, t)
  {
    if p {
      assert Scores(ts + [t]) == Scores(ts) + [Weight(p, t)];
      SumSnoc(Scores(ts), Weight(p, t));
    } else {
      assert ts + [] == ts;
    }
  }

  lemma RemaindersMore(ts: seq<Task>, p: bool, t: Task, q: nat)
    requires q > 0 && (p ==> t.qos.Some?)
    ensures Remainders(ts + If(p, t), q) == Remainders(ts, q) + t.fee * Weight(p, t) % q
  {
    if p {
      var us, x := ts + [t], Weight(p, t);
      assert Scores(us) == Scores(ts) + [x] && Fees(us) == Fees(ts) + [t.fee];
      SharesStep(Fees(us), Scores(us), |ts|, q);
      assert Fees(us)[..|ts|] == Fees(ts) && Scores(us)[..|ts|] == Scores(ts);
      assert Fees(us)[..|ts| + 1] == Fees(us) && Scores(us)[..|ts| + 1] == Scores(us);
      SumSnoc(Rems(Products(Fees(ts), Scores(ts)), q), t.fee * x % q);
    } else {
      assert ts + [] == ts;
      assert t.fee * Weight(p, t) == 0;
    }
  }

  lemma NothingPaid()
    ensures Sum(Scores([])) == 0
  {}

  lemma NoRemainder(q: nat)
    requires q > 0
    ensures Remainders([], q) == 0
  {}

  lemma SharesOfThree(g: Trio)
    requires g.Scored()
    ensures Sum(Scores(g.Paid())) == g.Total()
    ensures g.Total() > 0 ==> Remainders(g.Paid(), g.Total()) == g.Rest()
  {
    hide If, Weight, Remainders, Scores, Sum;
    var a, b := If(g.pa, g.a), If(g.pb, g.b);
    assert [] + a == a;
    ScoresMore([], g.pa, g.a);
    ScoresMore(a, g.pb, g.b);
    ScoresMore(a + b, g.pc, g.c);
    NothingPaid();
    var q := g.Total();
    if q > 0 {
      NoRemainder(q);
      RemaindersMore([], g.pa, g.a, q);
      RemaindersMore(a, g.pb, g.b, q);
      RemaindersMore(a + b, g.pc, g.c, q);
    }
  }

  lemma PartAt(ts: seq<Task>, p: nat, q: nat, rest: int, x: nat)
    requires p < |ts| && q == Sum(Scores(ts)) > 0 && rest == Remainders(ts, q) && ts[p].qos.Some?
    requires x == GroupPayments(Fees(ts), Scores(ts))[p]
    ensures x == ts[p].fee * ts[p].qos.value / q + if p == |ts| - 1 then rest else 0
  {
    hide GroupPayments, Sum;
    PaymentAt(Fees(ts), Scores(ts), p);
  }

  /** The payments to the paid members of a group of three. */
  lemma PaymentsOfThree(g: Trio) returns (x: nat, y: nat, z: nat)
    requires g.Scored() && g.Total() > 0
    ensures Sum(Scores(g.Paid())) > 0
    ensures GroupPayments(Fees(g.Paid()), Scores(g.Paid())) == If(g.pa, x) + If(g.pb, y) + If(g.pc, z)
    ensures g.Parts(x, y, z)
  {
    hide GroupPayments, Sum, Scores, Fees, Remainders, Weight;
    SharesOfThree(g);
    var ts, q, rest := g.Paid(), g.Total(), g.Rest();
    var payments := GroupPayments(Fees(ts), Scores(ts));
    var i, j := |If(g.pa, g.a)|, |If(g.pa, g.a)| + |If(g.pb, g.b)|;
    x := if g.pa then payments[0] else 0;
    y := if g.pb then payments[i] else 0;
    z := if g.pc then payments[j] else 0;
    if g.pa {
      PartAt(ts, 0, q, rest, x);
    }
    if g.pb {
      PartAt(ts, i, q, rest, y);
    }
    if g.pc {
      PartAt(ts, j, q, rest, z);
    }
  }

  // ---------- A won group ----------

  // The rows of a group, with the members a success leaves paid.
  function WonTrio(a: Task, b: Task, c: Task): Trio {
    Trio(a, b, c, a.status in {EndGroupSuccess, EndGroupRefund}, b.status in {EndGroupSuccess, EndGroupRefund},
         c.status in {EndGroupSuccess, EndGroupRefund})
  }

  // What a member has earned: what its events add up to, without its fee if that was not refunded.
  function Earned(log: seq<Event>, t: Task): int {
    TaskNet(log, t.key) + if t.status == EndGroupSuccess then t.fee else 0
  }

  ghost predicate PaidOut(log: seq<Event>, g: Trio) {
    g.Scored() && g.Total() > 0 && g.Parts(Earned(log, g.a), Earned(log, g.b), Earned(log, g.c))
  }

  // The three rows of a group.
  ghost predicate Grouped(tasks: map<Key, Task>, ids: TaskId, g: Trio) {
    && |ids| == 3 && ids[0] < ids[1] < ids[2]
    && ids[0] in tasks && g.a == tasks[ids[0]] && g.a.key == ids[0] && g.a.taskId == Some(ids)
    && ids[1] in tasks && g.b == tasks[ids[1]] && g.b.key == ids[1] && g.b.taskId == Some(ids)
    && ids[2] in tasks && g.c == tasks[ids[2]] && g.c.key == ids[2] && g.c.taskId == Some(ids)
  }

  lemma PaidOfThree(tasks: map<Key, Task>, ids: TaskId, g: Trio)
    requires Grouped(tasks, ids, g) && g == WonTrio(g.a, g.b, g.c)
    ensures PaidMembers(tasks, ids, ids) == g.Paid()
  {
    assert ids[..2][..1] == ids[..1] && ids[..1][..0] == [];
    assert PaidMembers(tasks, ids[..1], ids) == If(g.pa, g.a);
    assert PaidMembers(tasks, ids[..2], ids) == If(g.pa, g.a) + If(g.pb, g.b);
  }

  lemma WonGroup(cfg: Config, w: World, ids: TaskId, r: Key) returns (g: Trio)
    requires Inv(cfg, w) && Won(w.tasks, ids, r)
    ensures Grouped(w.tasks, ids, g) && g == WonTrio(g.a, g.b, g.c) && g.Scored()
    ensures forall t | t in [g.a, g.b, g.c] :: t.status.EndGroupSuccess? <==> t.key == r
    ensures w.tasks[r] in [g.a, g.b, g.c] && w.tasks[r].key == r
  {
    hide Settled, EventsOk, NodeLink;
    KeysMatch(w);
    assert RowOk(cfg, w.tasks[r]) && GroupMember(w.tasks[r]);
    assert ids[0] in ids && ids[1] in ids && ids[2] in ids;
    g := WonTrio(w.tasks[ids[0]], w.tasks[ids[1]], w.tasks[ids[2]]);
    assert RowOk(cfg, g.a) && RowOk(cfg, g.b) && RowOk(cfg, g.c);
  }

  lemma SomeoneScored(g: Trio, t: Task)
    requires g.Scored() && g == WonTrio(g.a, g.b, g.c) && t in [g.a, g.b, g.c] && t.status.EndGroupSuccess?
    ensures g.Total() > 0
  {}

  /** A won group, in any rows in order. */
  lemma WonPaidOut(cfg: Config, w: World, ids: TaskId, r: Key) returns (g: Trio)
    requires Inv(cfg, w) && Won(w.tasks, ids, r)
    ensures Grouped(w.tasks, ids, g) && g == WonTrio(g.a, g.b, g.c) && PaidOut(w.log, g)
    ensures forall t | t in [g.a, g.b, g.c] :: t.status.EndGroupSuccess? <==> t.key == r
    ensures w.tasks[r] in [g.a, g.b, g.c] && w.tasks[r].key == r
  {
    hide Inv, GroupPayments, TaskNet, Sum, PaidMembers, Scores, Fees, Weight;
    g := WonGroup(cfg, w, ids, r);
    SomeoneScored(g, w.tasks[r]);
    WonGroupNet(cfg, w, ids, r);
    PaidOfThree(w.tasks, ids, g);
    var x, y, z := PaymentsOfThree(g);
    EarnedAre(w.log, g, r, x, y, z);
  }

  lemma EarnedAre(log: seq<Event>, g: Trio, r: Key, x: nat, y: nat, z: nat)
    requires g == WonTrio(g.a, g.b, g.c)
    requires forall t | t in [g.a, g.b, g.c] :: t.status.EndGroupSuccess? <==> t.key == r
    requires var ts, payments := g.Paid(), If(g.pa, x) + If(g.pb, y) + If(g.pc, z);
             forall i | 0 <= i < |ts| ::
               TaskNet(log, ts[i].key) == payments[i] - if ts[i].key == r then ts[i].fee else 0
    ensures (g.pa ==> Earned(log, g.a) == x) && (g.pb ==> Earned(log, g.b) == y) && (g.pc ==> Earned(log, g.c) == z)
  {
    hide TaskNet;
    var ts := g.Paid();
    assert g.a in [g.a, g.b, g.c] && g.b in [g.a, g.b, g.c] && g.c in [g.a, g.b, g.c];
    assert g.pa ==> ts[0] == g.a;
    assert g.pb ==> ts[|If(g.pa, g.a)|] == g.b;
    assert g.pc ==> ts[|If(g.pa, g.a)| + |If(g.pb, g.b)|] == g.c;
  }

  /** Over every run: once a group's representative has succeeded, every paid member has earned the part of its fee its
      score is of all the scores paid, rounded down, and the last of them all the remainders as well. */
  lemma WonGroupShares(cfg: Config, s0: State, steps: seq<Step>, ids: TaskId, r: Key) returns (g: Trio)
    requires Initial(s0) && r in ids && r in Run(cfg, s0, steps).w.tasks
    requires var t := Run(cfg, s0, steps).w.tasks[r]; t.status == EndGroupSuccess && t.taskId == Some(ids)
    ensures var w := Run(cfg, s0, steps).w;
            Grouped(w.tasks, ids, g) && g == WonTrio(g.a, g.b, g.c) && PaidOut(w.log, g)
  {
    hide Next, Inv, SeenOk, Grouped, PaidOut;
    InitialKeeps(cfg, s0);
    RunKeeps(cfg, s0, steps);
    g := WonPaidOut(cfg, Run(cfg, s0, steps).w, ids, r);
  }

  // ---------- What a won group takes out ----------

  // What the paid members are up by together.
  function UpTogether(log: seq<Event>, g: Trio): int {
    (if g.pa then TaskNet(log, g.a.key) else 0) + (if g.pb then TaskNet(log, g.b.key) else 0)
      + (if g.pc then TaskNet(log, g.c.key) else 0)
  }

  lemma UpTogetherIs(log: seq<Event>, g: Trio, t: Task)
    requires g == WonTrio(g.a, g.b, g.c) && PaidOut(log, g) && t in [g.a, g.b, g.c]
    requires forall u | u in [g.a, g.b, g.c] :: u.status.EndGroupSuccess? <==> u.key == t.key
    requires g.a.key != g.b.key && g.a.key != g.c.key && g.b.key != g.c.key
    ensures UpTogether(log, g) + t.fee == g.Quotients() + g.Rest()
  {
    hide TaskNet;
    assert g.a in [g.a, g.b, g.c] && g.b in [g.a, g.b, g.c] && g.c in [g.a, g.b, g.c];
    if !g.pa {
      assert g.a.fee * Weight(g.pa, g.a) == 0;
    }
    if !g.pb {
      assert g.b.fee * Weight(g.pb, g.b) == 0;
    }
    if !g.pc {
      assert g.c.fee * Weight(g.pc, g.c) == 0;
    }
  }

  function WeightedFees(g: Trio): int {
    g.a.fee * Weight(g.pa, g.a) + g.b.fee * Weight(g.pb, g.b) + g.c.fee * Weight(g.pc, g.c)
  }

  lemma Recomposed(g: Trio)
    requires g.Total() > 0
    ensures g.Total() * g.Quotients() + g.Rest() == WeightedFees(g) && 0 <= g.Rest() < 3 * g.Total()
  {
    hide Weight;
    var x, y, z, q := g.a.fee * Weight(g.pa, g.a), g.b.fee * Weight(g.pb, g.b), g.c.fee * Weight(g.pc, g.c), g.Total();
    DivMod(x, q);
    DivMod(y, q);
    DivMod(z, q);
    Distribute(q, x / q, y / q);
    Distribute(q, x / q + y / q, z / q);
  }

  lemma WeightedTotal(q: nat, up: int, fee: nat, quotients: int, rest: int, x: int)
    requires up + fee == quotients + rest && q * quotients + rest == x
    ensures q * (up + fee) == x + (q - 1) * rest
  {
    Distribute(q, quotients, rest);
  }

  /** For any fees: q times what the paid members are up together, q the sum of their scores, is the score-weighted sum
      of their fees less q times the representative's fee, plus (q - 1) times the remainders. */
  lemma WonGroupWeighted(cfg: Config, s0: State, steps: seq<Step>, ids: TaskId, r: Key) returns (g: Trio)
    requires Initial(s0) && Won(Run(cfg, s0, steps).w.tasks, ids, r)
    ensures var w := Run(cfg, s0, steps).w;
            && Grouped(w.tasks, ids, g) && g == WonTrio(g.a, g.b, g.c) && g.Total() > 0
            && g.Total() * (UpTogether(w.log, g) + w.tasks[r].fee) == WeightedFees(g) + (g.Total() - 1) * g.Rest()
  {
    hide Next, Inv, SeenOk, UpTogether, WeightedFees, Won, Weight;
    InitialKeeps(cfg, s0);
    RunKeeps(cfg, s0, steps);
    var w := Run(cfg, s0, steps).w;
    g := WonPaidOut(cfg, w, ids, r);
    UpTogetherIs(w.log, g, w.tasks[r]);
    Recomposed(g);
    WeightedTotal(g.Total(), UpTogether(w.log, g), w.tasks[r].fee, g.Quotients(), g.Rest(), WeightedFees(g));
  }

  lemma EqualFees(g: Trio, fee: nat)
    requires (g.pa ==> g.a.fee == fee) && (g.pb ==> g.b.fee == fee) && (g.pc ==> g.c.fee == fee)
    ensures WeightedFees(g) == fee * g.Total()
  {
    Distribute(fee, Weight(g.pa, g.a), Weight(g.pb, g.b));
    Distribute(fee, Weight(g.pa, g.a) + Weight(g.pb, g.b), Weight(g.pc, g.c));
  }

  lemma LostUnits(q: nat, fee: nat, quotients: int, rest: int) returns (k: nat)
    requires q > 0 && q * quotients + rest == fee * q && 0 <= rest < 3 * q
    ensures rest == q * k && k < 3 && k == fee - quotients
  {
    var lost := fee - quotients;
    Distribute(q, fee, 0 - quotients);
    assert rest == q * lost;
    if lost < 0 {
      MulMono(q, lost, -1);
    }
    if lost >= 3 {
      MulMono(q, 3, lost);
    }
    k := lost;
  }

  /** So a won group whose paid members cost the same gives out what it took in plus k times one less than the scores'
      sum, k the units lost to rounding, and no more exactly when the shares divide evenly or that sum is one. */
  lemma WonGroupOverpaid(cfg: Config, s0: State, steps: seq<Step>, ids: TaskId, r: Key) returns (g: Trio, k: nat)
    requires Initial(s0) && Won(Run(cfg, s0, steps).w.tasks, ids, r)
    requires var tasks := Run(cfg, s0, steps).w.tasks;
             forall m | m in ids && m in tasks && tasks[m].status in {EndGroupSuccess, EndGroupRefund} ::
               tasks[m].fee == tasks[r].fee
    ensures var w := Run(cfg, s0, steps).w;
            && Grouped(w.tasks, ids, g) && g == WonTrio(g.a, g.b, g.c) && g.Total() > 0
            && g.Rest() == g.Total() * k && k < 3
            && UpTogether(w.log, g) == k * (g.Total() - 1)
            && (UpTogether(w.log, g) == 0 <==> k == 0 || g.Total() == 1)
  {
    hide Next, Inv, SeenOk, UpTogether, WeightedFees, Won, Weight, PaidOut;
    InitialKeeps(cfg, s0);
    RunKeeps(cfg, s0, steps);
    var w := Run(cfg, s0, steps).w;
    g := WonPaidOut(cfg, w, ids, r);
    assert ids[0] in ids && ids[1] in ids && ids[2] in ids;
    WonTotal(w.log, g);
    UpTogetherIs(w.log, g, w.tasks[r]);
    Recomposed(g);
    EqualFees(g, w.tasks[r].fee);
    k := LostUnits(g.Total(), w.tasks[r].fee, g.Quotients(), g.Rest());
    OverpayAlgebra(g.Total(), k);
  }

  lemma WonTotal(log: seq<Event>, g: Trio)
    requires PaidOut(log, g)
    ensures g.Total() > 0
  {}

  // ---------- The success that pays ----------

  // The income events of one member, if it is paid.
  function EarnedEvents(cfg: Config, splits: Splits, p: bool, t: Task, amount: nat): seq<Event> {
    if p then IncomeEvents(cfg, t.key, NodeOf(t), amount, SplitOf(splits, NodeOf(t))) else []
  }

  lemma PaymentsMore(cfg: Config, splits: Splits, ps: seq<Task>, amounts: seq<nat>, p: bool, t: Task, amount: nat)
    requires |ps| == |amounts|
    ensures PaymentEvents(cfg, ps + If(p, t), amounts + If(p, amount), splits)
         == PaymentEvents(cfg, ps, amounts, splits) + EarnedEvents(cfg, splits, p, t, amount)
  {
    hide IncomeEvents;
    if p {
      assert (ps + [t])[..|ps|] == ps && (amounts + [amount])[..|ps|] == amounts;
    } else {
      assert ps + [] == ps && amounts + [] == amounts;
      assert PaymentEvents(cfg, ps, amounts, splits) + [] == PaymentEvents(cfg, ps, amounts, splits);
    }
  }

  lemma PaymentsAre(cfg: Config, splits: Splits, g: Trio, x: nat, y: nat, z: nat)
    ensures var events := EarnedEvents(cfg, splits, g.pa, g.a, x) + EarnedEvents(cfg, splits, g.pb, g.b, y)
                + EarnedEvents(cfg, splits, g.pc, g.c, z);
            PaymentEvents(cfg, g.Paid(), If(g.pa, x) + If(g.pb, y) + If(g.pc, z), splits) == events
  {
    hide EarnedEvents, If, PaymentEvents;
    SameLength(g.pa, g.a, x);
    SameLength(g.pb, g.b, y);
    PaymentsFirst(cfg, splits, g.pa, g.a, x);
    PaymentsMore(cfg, splits, If(g.pa, g.a), If(g.pa, x), g.pb, g.b, y);
    PaymentsMore(cfg, splits, If(g.pa, g.a) + If(g.pb, g.b), If(g.pa, x) + If(g.pb, y), g.pc, g.c, z);
  }

  lemma PaymentsFirst(cfg: Config, splits: Splits, p: bool, t: Task, amount: nat)
    ensures |If(p, t)| == |If(p, amount)|
    ensures PaymentEvents(cfg, If(p, t), If(p, amount), splits) == EarnedEvents(cfg, splits, p, t, amount)
  {
    hide IncomeEvents;
    if p {
      assert [t][..0] == [] && [amount][..0] == [];
      assert PaymentEvents(cfg, [], [], splits) == [];
    }
  }

  lemma SameLength(p: bool, t: Task, x: nat)
    ensures |If(p, t)| == |If(p, x)|
  {}

  // The rows of a group, with the members a success pays.
  function PayableTrio(a: Task, b: Task, c: Task): Trio {
    Trio(a, b, c, a.status in {GroupValidated, EndGroupRefund}, b.status in {GroupValidated, EndGroupRefund},
         c.status in {GroupValidated, EndGroupRefund})
  }

  lemma PayableGroup(cfg: Config, w: World, t: Task) returns (g: Trio)
    requires Inv(cfg, w) && t.key in w.tasks && t == w.tasks[t.key] && t.status.GroupValidated?
    ensures t.taskId.Some? && Grouped(w.tasks, t.taskId.value, g) && g == PayableTrio(g.a, g.b, g.c) && g.Scored()
    ensures GroupRows(w, t.taskId.value, t.taskId.value) == [g.a, g.b, g.c]
    ensures Payees([g.a, g.b, g.c]) == g.Paid() && g.Total() > 0
  {
    hide Inv, GroupRows, Payees, GroupOk, Grouped, RowOk;
    RepresentativeRow(cfg, w, t);
    var ids := t.taskId.value;
    GroupedRows(cfg, w, ids);
    g := PayableTrio(w.tasks[ids[0]], w.tasks[ids[1]], w.tasks[ids[2]]);
    GroupRowsOfThree(w, ids);
    PayeesOfThree(g.a, g.b, g.c);
    assert t in [g.a, g.b, g.c];
  }

  lemma GroupedRows(cfg: Config, w: World, ids: TaskId)
    requires Inv(cfg, w) && GroupOk(w.tasks, ids) && GroupIds(ids)
    ensures ids[0] in w.tasks && ids[1] in w.tasks && ids[2] in w.tasks
    ensures var g := PayableTrio(w.tasks[ids[0]], w.tasks[ids[1]], w.tasks[ids[2]]);
            Grouped(w.tasks, ids, g) && g.Scored()
    ensures forall k | k in ids :: k in w.tasks && w.tasks[k].key == k
  {
    hide Settled, EventsOk, NodeLink, GroupsOk;
    KeysMatch(w);
    assert ids[0] in ids && ids[1] in ids && ids[2] in ids;
    assert RowOk(cfg, w.tasks[ids[0]]) && RowOk(cfg, w.tasks[ids[1]]) && RowOk(cfg, w.tasks[ids[2]]);
  }

  /** A validated task's success pays its fee as its income, and a representative's pays every member of its group that
      was accepted or refunded. */
  lemma SucceedEffect(cfg: Config, w: World, t: Task, splits: Splits, kickout: bool)
    returns (g: Trio, x: nat, y: nat, z: nat)
    requires Inv(cfg, w) && Stale(w, t)
    ensures var r := Succeed(cfg, w, t, splits, kickout);
            && (r.Ok? <==> (t.status == Validated || t.status == GroupValidated) && Stands(w, t))
            && (r.Ok? && t.status == Validated ==>
                  r.value == With(w, t.(status := EndSuccess, deadlineAt := None), FreedBy(w, t, kickout),
                                  IncomeEvents(cfg, t.key, NodeOf(t), t.fee, SplitOf(splits, NodeOf(t)))))
            && (r.Ok? && t.status == GroupValidated ==>
                  && t.taskId.Some? && Grouped(w.tasks, t.taskId.value, g) && g == PayableTrio(g.a, g.b, g.c)
                  && g.Scored() && g.Total() > 0 && g.Parts(x, y, z)
                  && r.value == With(w, t.(status := EndGroupSuccess, deadlineAt := None), FreedBy(w, t, kickout),
                                     EarnedEvents(cfg, splits, g.pa, g.a, x) + EarnedEvents(cfg, splits, g.pb, g.b, y)
                                       + EarnedEvents(cfg, splits, g.pc, g.c, z)))
  {
    hide Inv, Precedes, Succeed, IncomeEvents, GroupRows, Payees, PaymentEvents, GroupPayments, Sum, Fees, Scores,
         Grouped, Weight, EarnedEvents;
    g, x, y, z := PayableTrio(t, t, t), 0, 0, 0;
    SucceedRefusedUnless(cfg, w, t, splits, kickout);
    if (t.status.Validated? || t.status.GroupValidated?) && Stands(w, t) {
      Standing(cfg, w, t);
      InvLinked(cfg, w);
      FreedIs(w.nodes[t.selected.value].status, w.nodes[t.selected.value], kickout);
      if t.status.Validated? {
        SucceedSingleResult(cfg, w, t, splits, kickout);
      } else {
        g := PayableGroup(cfg, w, t);
        x, y, z := PaymentsOfThree(g);
        SucceedGroupResult(cfg, w, t, splits, kickout);
        PaymentsAre(cfg, splits, g, x, y, z);
      }
    }
  }

  lemma SucceedRefusedUnless(cfg: Config, w: World, t: Task, splits: Splits, kickout: bool)
    ensures Succeed(cfg, w, t, splits, kickout).Ok? ==>
              (t.status.Validated? || t.status.GroupValidated?) && Stands(w, t)
  {
    hide PaymentEvents, GroupRows, Payees, GroupPayments, Sum, Fees, Scores;
  }
}

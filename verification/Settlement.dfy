/** Fee arithmetic: the score-weighted group payout and the split of one income. */
module Settlement {
  import opened Basics
  import opened Model

  // ---------- Elementwise quotients and remainders ----------

  function Quos(xs: seq<nat>, d: nat): (r: seq<nat>)
    requires d > 0
    ensures |r| == |xs|
  {
    if xs == [] then [] else
      var n := |xs| - 1;
      Quos(xs[..n], d) + [xs[n] / d]
  }

  function Rems(xs: seq<nat>, d: nat): (r: seq<nat>)
    requires d > 0
    ensures |r| == |xs|
  {
    if xs == [] then [] else
      var n := |xs| - 1;
      Rems(xs[..n], d) + [xs[n] % d]
  }

  // fees[i] * scores[i]
  function Products(fees: seq<nat>, scores: seq<nat>): (r: seq<nat>)
    requires |fees| == |scores|
    ensures |r| == |fees|
  {
    if fees == [] then [] else
      var n := |fees| - 1;
      Products(fees[..n], scores[..n]) + [fees[n] * scores[n]]
  }

  function Repeat(x: nat, n: nat): (r: seq<nat>)
    ensures |r| == n
    ensures forall i | 0 <= i < n :: r[i] == x
  {
    if n == 0 then [] else Repeat(x, n - 1) + [x]
  }

  lemma DivMod(x: nat, d: nat)
    requires d > 0
    ensures x == d * (x / d) + x % d && 0 <= x % d < d
  {}

  lemma Distribute(a: int, b: int, c: int)
    ensures a * (b + c) == a * b + a * c
  {}

  lemma MulMono(a: nat, b: int, c: int)
    requires b <= c
    ensures a * b <= a * c
  {}

  lemma {:induction false} SharesRecompose(xs: seq<nat>, d: nat)
    requires d > 0
    ensures d * Sum(Quos(xs, d)) + Sum(Rems(xs, d)) == Sum(xs)
    ensures Sum(Rems(xs, d)) <= (d - 1) * |xs|
  {
    if xs != [] {
      var n := |xs| - 1;
      SharesRecompose(xs[..n], d);
      DivMod(xs[n], d);
      SumSnoc(Quos(xs[..n], d), xs[n] / d);
      SumSnoc(Rems(xs[..n], d), xs[n] % d);
      Distribute(d, Sum(Quos(xs[..n], d)), xs[n] / d);
      Distribute(d - 1, n, 1);
    }
  }

  lemma {:induction false} SumOfScaled(amount: nat, weights: seq<nat>)
    ensures Sum(Products(Repeat(amount, |weights|), weights)) == amount * Sum(weights)
  {
    if weights != [] {
      var n := |weights| - 1;
      SumOfScaled(amount, weights[..n]);
      assert Repeat(amount, |weights|)[..n] == Repeat(amount, n);
      SumSnoc(Products(Repeat(amount, n), weights[..n]), amount * weights[n]);
      Distribute(amount, Sum(weights[..n]), weights[n]);
    }
  }

  function Scaled(amount: nat, weights: seq<nat>): (r: seq<nat>)
    ensures |r| == |weights|
  {
    Products(Repeat(amount, |weights|), weights)
  }

  lemma LossBounds(total: nat, amount: nat, q: nat, r: nat, n: nat)
    requires total > 0 && n > 0
    requires total * q + r == amount * total
    requires r <= (total - 1) * n
    ensures 0 <= amount - q < n && total * (amount - q) == r
  {
    var lost := amount - q;
    assert total * lost == r by { Distribute(total, amount, 0 - q); }
    if lost < 0 {
      MulMono(total, lost, -1);
      assert false;
    }
    if lost >= n {
      MulMono(total, n, lost);
      Distribute(n, total, -1);
      assert false;
    }
  }

  lemma PositiveSumHasTerms(xs: seq<nat>)
    requires Sum(xs) > 0
    ensures xs != []
  {}

  /** Proportional shares rounded down lose a whole number of units, fewer than there are shares. */
  lemma LossOfShares(amount: nat, weights: seq<nat>)
    requires Sum(weights) > 0
    ensures var lost := amount - Sum(Quos(Scaled(amount, weights), Sum(weights)));
            && 0 <= lost < |weights|
            && Sum(Rems(Scaled(amount, weights), Sum(weights))) == Sum(weights) * lost
  {
    hide Quos, Rems, Products, Repeat, Sum;
    var xs := Scaled(amount, weights);
    PositiveSumHasTerms(weights);
    SharesRecompose(xs, Sum(weights));
    SumOfScaled(amount, weights);
    LossBounds(Sum(weights), amount, Sum(Quos(xs, Sum(weights))), Sum(Rems(xs, Sum(weights))), |weights|);
  }

  // ---------- Group payout ----------

  /** What each payee of a validated group receives, in group order. */
  function GroupPayments(fees: seq<nat>, scores: seq<nat>): (r: seq<nat>)
    requires |fees| == |scores|
    requires fees != [] ==> Sum(scores) > 0
    ensures |r| == |fees|
  {
    if fees == [] then [] else
      var n := |fees| - 1;
      var xs := Products(fees, scores);
      var quo := Quos(xs, Sum(scores));
      quo[n := quo[n] + Sum(Rems(xs, Sum(scores)))]
  }

  lemma SharesStep(fees: seq<nat>, scores: seq<nat>, i: nat, total: nat)
    requires |fees| == |scores| && i < |fees| && total > 0
    ensures var xs, ys := Products(fees[..i], scores[..i]), Products(fees[..i + 1], scores[..i + 1]);
            && Quos(ys, total) == Quos(xs, total) + [fees[i] * scores[i] / total]
            && Rems(ys, total) == Rems(xs, total) + [fees[i] * scores[i] % total]
  {
    assert fees[..i + 1][..i] == fees[..i] && scores[..i + 1][..i] == scores[..i];
    assert Products(fees[..i + 1], scores[..i + 1])[..i] == Products(fees[..i], scores[..i]);
  }

  /** The payment loop of a group success, over the qualifying members. */
  method PayGroup(fees: seq<nat>, scores: seq<nat>) returns (payments: seq<nat>)
    requires |fees| == |scores|
    requires fees != [] ==> Sum(scores) > 0
    ensures payments == GroupPayments(fees, scores)
  {
    hide Quos, Rems, Products, GroupPayments;
    var totalScore := 0;
    for n := 0 to |scores|
      invariant totalScore == Sum(scores[..n])
    {
      assert scores[..n + 1][..n] == scores[..n];
      totalScore := totalScore + scores[n];
    }
    assert scores[..|scores|] == scores;
    payments := [];
    var totalRem := 0;
    NoShares(fees, scores, totalScore);
    for i := 0 to |fees|
      invariant |payments| == i
      invariant fees != [] ==> totalRem == Sum(Rems(Products(fees[..i], scores[..i]), totalScore))
      invariant fees != [] && i < |fees| ==> payments == Quos(Products(fees[..i], scores[..i]), totalScore)
      invariant fees != [] && i == |fees| ==> payments == GroupPayments(fees, scores)
    {
      var payment, rem := fees[i] * scores[i] / totalScore, fees[i] * scores[i] % totalScore;
      SharesStep(fees, scores, i, totalScore);
      SumSnoc(Rems(Products(fees[..i], scores[..i]), totalScore), rem);
      totalRem := totalRem + rem;
      if i == |fees| - 1 {
        LastPayment(fees, scores, payments, payment, totalRem);
        payment := payment + totalRem;
      }
      payments := payments + [payment];
    }
  }

  lemma NoShares(fees: seq<nat>, scores: seq<nat>, total: nat)
    requires |fees| == |scores| && (fees != [] ==> total == Sum(scores) > 0)
    ensures fees != [] ==>
              Quos(Products(fees[..0], scores[..0]), total) == [] && Rems(Products(fees[..0], scores[..0]), total) == []
    ensures fees == [] ==> GroupPayments(fees, scores) == []
  {}

  lemma LastPayment(fees: seq<nat>, scores: seq<nat>, before: seq<nat>, payment: nat, totalRem: nat)
    requires |fees| == |scores| && fees != [] && Sum(scores) > 0 && |before| == |fees| - 1
    requires Quos(Products(fees[..|fees|], scores[..|fees|]), Sum(scores)) == before + [payment]
    requires Sum(Rems(Products(fees[..|fees|], scores[..|fees|]), Sum(scores))) == totalRem
    ensures GroupPayments(fees, scores) == before + [payment + totalRem]
  {
    hide Quos, Rems, Products, Sum;
    assert fees[..|fees|] == fees && scores[..|fees|] == scores;
  }

  lemma {:induction false} ProductAt(fees: seq<nat>, scores: seq<nat>, d: nat, i: nat)
    requires |fees| == |scores| && d > 0 && i < |fees|
    ensures Quos(Products(fees, scores), d)[i] == fees[i] * scores[i] / d
  {
    var n := |fees| - 1;
    SharesStep(fees, scores, n, d);
    assert fees[..n + 1] == fees && scores[..n + 1] == scores;
    if i < n {
      ProductAt(fees[..n], scores[..n], d, i);
    }
  }

  /** Every payee is paid its score's part of its own fee, rounded down, and the last one all the remainders too. */
  lemma PaymentAt(fees: seq<nat>, scores: seq<nat>, i: nat)
    requires |fees| == |scores| && Sum(scores) > 0 && i < |fees|
    ensures GroupPayments(fees, scores)[i]
         == fees[i] * scores[i] / Sum(scores)
              + if i == |fees| - 1 then Sum(Rems(Products(fees, scores), Sum(scores))) else 0
  {
    hide Quos, Rems, Products, Sum;
    ProductAt(fees, scores, Sum(scores), i);
  }

  lemma OverpayAlgebra(total: nat, k: nat)
    requires total > 0
    ensures total * k - k == k * (total - 1) >= 0
    ensures k * (total - 1) == 0 <==> k == 0 || total == 1
  {
    Distribute(k, total, -1);
    if k > 0 && total > 1 {
      MulMono(k, 1, total - 1);
    }
  }

  /** With equal fees the group receives the fee plus (total - 1) for every unit lost to rounding. */
  lemma GroupPaymentTotal(fee: nat, scores: seq<nat>) returns (k: nat)
    requires Sum(scores) > 0
    ensures Sum(Rems(Scaled(fee, scores), Sum(scores))) == Sum(scores) * k && k < |scores|
    ensures Sum(GroupPayments(Repeat(fee, |scores|), scores)) == fee + k * (Sum(scores) - 1)
    ensures Sum(GroupPayments(Repeat(fee, |scores|), scores)) >= fee
    ensures Sum(GroupPayments(Repeat(fee, |scores|), scores)) == fee <==> k == 0 || Sum(scores) == 1
  {
    hide Quos, Rems, Products, Repeat, Sum, GroupPayments;
    LossOfShares(fee, scores);
    var quo := Quos(Scaled(fee, scores), Sum(scores));
    k := fee - Sum(quo);
    PaidIsQuotientsPlusRemainders(Repeat(fee, |scores|), scores);
    OverpayAlgebra(Sum(scores), k);
  }

  lemma PaidIsQuotientsPlusRemainders(fees: seq<nat>, scores: seq<nat>)
    requires |fees| == |scores| && Sum(scores) > 0
    ensures var xs := Products(fees, scores);
            Sum(GroupPayments(fees, scores)) == Sum(Quos(xs, Sum(scores))) + Sum(Rems(xs, Sum(scores)))
  {
    var xs, n := Products(fees, scores), |fees| - 1;
    var quo := Quos(xs, Sum(scores));
    SumUpdate(quo, n, quo[n] + Sum(Rems(xs, Sum(scores))));
  }

  lemma WeightedAlgebra(total: nat, paid: nat, q: nat, r: nat, x: nat)
    requires paid == q + r && total * q + r == x
    ensures total * paid == x + (total - 1) * r
  {
    Distribute(total, q, r);
    Distribute(r, total, -1);
  }

  /** For any fees: total * paid is the weighted fee sum plus (total - 1) times the remainders. */
  lemma GroupPaymentWeighted(fees: seq<nat>, scores: seq<nat>)
    requires |fees| == |scores| && Sum(scores) > 0
    ensures Sum(scores) * Sum(GroupPayments(fees, scores))
         == Sum(Products(fees, scores)) + (Sum(scores) - 1) * Sum(Rems(Products(fees, scores), Sum(scores)))
  {
    hide Quos, Rems, Products, Sum, GroupPayments;
    var xs := Products(fees, scores);
    SharesRecompose(xs, Sum(scores));
    PaidIsQuotientsPlusRemainders(fees, scores);
    WeightedAlgebra(Sum(scores), Sum(GroupPayments(fees, scores)),
                    Sum(Quos(xs, Sum(scores))), Sum(Rems(xs, Sum(scores))), Sum(xs));
  }

  lemma SumOfTwo(a: nat, b: nat)
    ensures Sum([a, b]) == a + b
  {
    SumSnoc([a], b);
    assert Sum([a]) == a;
  }

  lemma ProductsOfTwo(a: nat, b: nat, c: nat, d: nat)
    ensures Products([a, b], [c, d]) == [a * c, b * d]
  {
    assert [a, b][..1] == [a] && [c, d][..1] == [c];
    assert Products([a], [c]) == [a * c];
  }

  lemma SharesOfTwo(x: nat, y: nat, d: nat)
    requires d > 0
    ensures Quos([x, y], d) == [x / d, y / d] && Rems([x, y], d) == [x % d, y % d]
  {
    assert [x, y][..1] == [x];
    assert Quos([x], d) == [x / d] && Rems([x], d) == [x % d];
  }

  /** The overpayment is real: payees with scores 10 and 5 turn a fee of 1 into 15. */
  lemma GroupPaymentCanExceedFee()
    ensures Sum([10, 5]) == 15
    ensures Sum(GroupPayments([1, 1], [10, 5])) == 15
  {
    hide Quos, Rems, Products, Sum, GroupPayments;
    SumOfTwo(10, 5);
    ProductsOfTwo(1, 1, 10, 5);
    SharesOfTwo(10, 5, 15);
    PaidIsQuotientsPlusRemainders([1, 1], [10, 5]);
    SumOfTwo(0, 0);
  }

  // ---------- Splitting one income ----------

  lemma PercentAtMost(amount: nat, percent: nat)
    requires percent <= 100
    ensures amount * percent / 100 <= amount
  {
    MulMono(amount, percent, 100);
  }

  function DaoShare(cfg: Config, amount: nat): (r: nat)
    ensures r <= amount
  {
    PercentAtMost(amount, cfg.daoPercent);
    amount * cfg.daoPercent / 100
  }

  function DelegatorPool(cfg: Config, amount: nat, s: Split): (r: nat)
    requires s.Valid()
    ensures r <= amount - DaoShare(cfg, amount)
  {
    var net := amount - DaoShare(cfg, amount);
    if s.share == 0 || s.delegators == [] then 0 else
      PercentAtMost(net, s.share);
      net * s.share / 100
  }

  // Each delegator's fee; what rounding leaves over goes to the first.
  function DelegatorFees(pool: nat, stakes: seq<nat>): (r: seq<nat>)
    requires Sum(stakes) > 0
    ensures |r| == |stakes|
  {
    LossOfShares(pool, stakes);
    var quo := Quos(Scaled(pool, stakes), Sum(stakes));
    quo[0 := quo[0] + (pool - Sum(quo))]
  }

  function DelegationEvents(k: Key, ds: seq<(Addr, nat)>, fees: seq<nat>): (r: seq<Event>)
    requires |ds| == |fees|
    ensures |r| == |ds|
  {
    if ds == [] then [] else
      var n := |ds| - 1;
      DelegationEvents(k, ds[..n], fees[..n]) + [Event(UserDelegation(k, ds[n].0), ds[n].0, fees[n])]
  }

  function SharedEvents(k: Key, pool: nat, s: Split): (r: seq<Event>)
    requires s.Valid()
  {
    if s.share == 0 || s.delegators == [] then []
    else DelegationEvents(k, s.delegators, DelegatorFees(pool, Stakes(s.delegators)))
  }

  /** The ledger events of one income: delegators first, then the operator, then the DAO. */
  function IncomeEvents(cfg: Config, k: Key, operator: Addr, amount: nat, s: Split): (r: seq<Event>)
    requires s.Valid()
  {
    var dao := DaoShare(cfg, amount);
    var pool := DelegatorPool(cfg, amount, s);
    SharedEvents(k, pool, s)
      + [Event(TaskIncome(k), operator, amount - dao - pool)]
      + [Event(DaoTaskShare(k), cfg.daoAddress, dao)]
  }

  function Amounts(es: seq<Event>): (r: seq<nat>)
    ensures |r| == |es|
  {
    seq(|es|, i requires 0 <= i < |es| => es[i].amount)
  }

  lemma {:induction false} AmountsOfDelegations(k: Key, ds: seq<(Addr, nat)>, fees: seq<nat>)
    requires |ds| == |fees|
    ensures Amounts(DelegationEvents(k, ds, fees)) == fees
  {
    if ds != [] {
      var n := |ds| - 1;
      AmountsOfDelegations(k, ds[..n], fees[..n]);
      var front := DelegationEvents(k, ds[..n], fees[..n]);
      assert Amounts(DelegationEvents(k, ds, fees)) == Amounts(front) + [fees[n]];
    }
  }

  lemma QuosStep(pool: nat, weights: seq<nat>, i: nat, d: nat)
    requires i < |weights| && d > 0
    ensures Quos(Scaled(pool, weights[..i + 1]), d)
         == Quos(Scaled(pool, weights[..i]), d) + [pool * weights[i] / d]
  {
    assert weights[..i + 1][..i] == weights[..i] && Repeat(pool, i + 1)[..i] == Repeat(pool, i);
    assert Scaled(pool, weights[..i + 1])[..i] == Scaled(pool, weights[..i]);
  }

  lemma {:induction false} ShareAt(pool: nat, stakes: seq<nat>, d: nat, i: nat)
    requires d > 0 && i < |stakes|
    ensures Quos(Scaled(pool, stakes), d)[i] == pool * stakes[i] / d
  {
    var n := |stakes| - 1;
    QuosStep(pool, stakes, n, d);
    assert stakes[..n + 1] == stakes;
    if i < n {
      ShareAt(pool, stakes[..n], d, i);
    }
  }

  /** The whole pool is dispatched: each delegator gets the rounded-down share of its stake, and the first what
      rounding left over, which is less than one unit per delegator. */
  lemma DelegatorFeesTotal(pool: nat, stakes: seq<nat>)
    requires Sum(stakes) > 0
    ensures Sum(DelegatorFees(pool, stakes)) == pool
    ensures 0 <= DelegatorFees(pool, stakes)[0] - pool * stakes[0] / Sum(stakes) < |stakes|
    ensures forall i | 0 < i < |stakes| :: DelegatorFees(pool, stakes)[i] == pool * stakes[i] / Sum(stakes)
  {
    hide Quos, Scaled, Sum;
    LossOfShares(pool, stakes);
    var quo := Quos(Scaled(pool, stakes), Sum(stakes));
    SumUpdate(quo, 0, quo[0] + (pool - Sum(quo)));
    forall i: nat | i < |stakes| ensures quo[i] == pool * stakes[i] / Sum(stakes) {
      ShareAt(pool, stakes, Sum(stakes), i);
    }
  }

  lemma AmountsSnoc(es: seq<Event>, e: Event)
    ensures Sum(Amounts(es + [e])) == Sum(Amounts(es)) + e.amount
  {
    assert Amounts(es + [e]) == Amounts(es) + [e.amount];
    SumSnoc(Amounts(es), e.amount);
  }

  lemma SharedTotal(k: Key, pool: nat, s: Split)
    requires s.Valid()
    requires s.share == 0 || s.delegators == [] ==> pool == 0
    ensures Sum(Amounts(SharedEvents(k, pool, s))) == pool
  {
    if s.share == 0 || s.delegators == [] {
      assert Amounts(SharedEvents(k, pool, s)) == [];
    } else {
      AmountsOfDelegations(k, s.delegators, DelegatorFees(pool, Stakes(s.delegators)));
      DelegatorFeesTotal(pool, Stakes(s.delegators));
    }
  }

  /** Splitting conserves the income exactly, for every order of the delegators. */
  lemma IncomeConserved(cfg: Config, k: Key, operator: Addr, amount: nat, s: Split)
    requires s.Valid()
    ensures Sum(Amounts(IncomeEvents(cfg, k, operator, amount, s))) == amount
  {
    var dao, pool := DaoShare(cfg, amount), DelegatorPool(cfg, amount, s);
    var shared, operatorEvent := SharedEvents(k, pool, s), Event(TaskIncome(k), operator, amount - dao - pool);
    SharedTotal(k, pool, s);
    AmountsSnoc(shared, operatorEvent);
    AmountsSnoc(shared + [operatorEvent], Event(DaoTaskShare(k), cfg.daoAddress, dao));
  }

  lemma PercentIs(x: nat)
    ensures 100 * (x / 100) <= x < 100 * (x / 100) + 100
  {}

  // One income split between the DAO (d), the delegators (p) and the operator: the percentages rounded down, the rest
  // to the operator, and of the delegators' part to each by stake, rounded down, the rest to the first.
  ghost predicate SplitInto(cfg: Config, k: Key, operator: Addr, amount: nat, s: Split, es: seq<Event>, d: nat,
                            p: nat)
  {
    var shared := if s.share > 0 then |s.delegators| else 0;
    && 100 * d <= amount * cfg.daoPercent < 100 * d + 100 && d + p <= amount
    && (if shared == 0 then p == 0 else 100 * p <= (amount - d) * s.share < 100 * p + 100)
    && |es| == shared + 2
    && es[shared] == Event(TaskIncome(k), operator, amount - d - p)
    && es[shared + 1] == Event(DaoTaskShare(k), cfg.daoAddress, d)
    && (forall i | 0 <= i < shared ::
          es[i] == Event(UserDelegation(k, s.delegators[i].0), s.delegators[i].0, es[i].amount))
    && (forall i | 0 < i < shared ::
          Sum(Stakes(s.delegators)) > 0 && es[i].amount == p * s.delegators[i].1 / Sum(Stakes(s.delegators)))
    && Sum(Amounts(es[..shared])) == p
  }

  lemma {:induction false} DelegationAt(k: Key, ds: seq<(Addr, nat)>, fees: seq<nat>, i: nat)
    requires |ds| == |fees| && i < |ds|
    ensures DelegationEvents(k, ds, fees)[i] == Event(UserDelegation(k, ds[i].0), ds[i].0, fees[i])
  {
    var n := |ds| - 1;
    if i < n {
      DelegationAt(k, ds[..n], fees[..n], i);
    }
  }

  lemma SharedSplit(k: Key, pool: nat, s: Split)
    requires s.Valid() && s.share > 0 && s.delegators != []
    ensures var es := SharedEvents(k, pool, s);
            && |es| == |s.delegators| && Sum(Stakes(s.delegators)) > 0
            && (forall i | 0 <= i < |es| ::
                  es[i] == Event(UserDelegation(k, s.delegators[i].0), s.delegators[i].0, es[i].amount))
            && (forall i | 0 < i < |es| :: es[i].amount == pool * s.delegators[i].1 / Sum(Stakes(s.delegators)))
  {
    hide DelegationEvents, DelegatorFees, Sum;
    var ds, stakes := s.delegators, Stakes(s.delegators);
    DelegatorFeesTotal(pool, stakes);
    forall i: nat | i < |ds|
      ensures SharedEvents(k, pool, s)[i] == Event(UserDelegation(k, ds[i].0), ds[i].0, DelegatorFees(pool, stakes)[i])
    {
      DelegationAt(k, ds, DelegatorFees(pool, stakes), i);
    }
  }

  /** What the events of one income are. */
  lemma IncomeSplit(cfg: Config, k: Key, operator: Addr, amount: nat, s: Split) returns (d: nat, p: nat)
    requires s.Valid()
    ensures SplitInto(cfg, k, operator, amount, s, IncomeEvents(cfg, k, operator, amount, s), d, p)
  {
    hide DelegationEvents, DelegatorFees, Sum, SharedEvents, Amounts;
    d, p := DaoShare(cfg, amount), DelegatorPool(cfg, amount, s);
    PercentIs(amount * cfg.daoPercent);
    SharedTotal(k, p, s);
    if s.share > 0 && s.delegators != [] {
      PercentIs((amount - d) * s.share);
      SharedSplit(k, p, s);
    } else {
      NobodyShares(k, p, s);
    }
    var es, shared := IncomeEvents(cfg, k, operator, amount, s), SharedEvents(k, p, s);
    assert es[..|shared|] == shared;
  }

  lemma NobodyShares(k: Key, pool: nat, s: Split)
    requires s.Valid() && (s.share == 0 || s.delegators == [])
    ensures SharedEvents(k, pool, s) == []
  {}

  method TotalStake(ds: seq<(Addr, nat)>) returns (total: nat)
    ensures total == Sum(Stakes(ds))
  {
    ghost var stakes := Stakes(ds);
    total := 0;
    for i := 0 to |ds|
      invariant total == Sum(stakes[..i])
    {
      assert stakes[..i + 1][..i] == stakes[..i];
      total := total + ds[i].1;
    }
    assert stakes[..|stakes|] == stakes;
  }

  // The proportional fees of the delegators, with what was dispatched in all.
  method DispatchFees(pool: nat, ds: seq<(Addr, nat)>) returns (fees: seq<nat>, dispatched: nat)
    requires Sum(Stakes(ds)) > 0
    ensures fees == Quos(Scaled(pool, Stakes(ds)), Sum(Stakes(ds))) && dispatched == Sum(fees)
  {
    ghost var stakes := Stakes(ds);
    var totalStake := TotalStake(ds);
    fees, dispatched := [], 0;
    for i := 0 to |ds|
      invariant dispatched == Sum(fees) && fees == Quos(Scaled(pool, stakes[..i]), totalStake)
    {
      var fee := pool * ds[i].1 / totalStake;
      QuosStep(pool, stakes, i, totalStake);
      SumSnoc(fees, fee);
      fees, dispatched := fees + [fee], dispatched + fee;
    }
    assert stakes[..|stakes|] == stakes;
  }

  method DelegatorEvents(k: Key, ds: seq<(Addr, nat)>, fees: seq<nat>) returns (events: seq<Event>)
    requires |ds| == |fees|
    ensures events == DelegationEvents(k, ds, fees)
  {
    events := [];
    for i := 0 to |ds|
      invariant events == DelegationEvents(k, ds[..i], fees[..i])
    {
      assert ds[..i + 1][..i] == ds[..i] && fees[..i + 1][..i] == fees[..i];
      events := events + [Event(UserDelegation(k, ds[i].0), ds[i].0, fees[i])];
    }
    assert ds[..|ds|] == ds && fees[..|fees|] == fees;
  }

  /** The events an income payment creates. */
  method SplitIncome(cfg: Config, k: Key, operator: Addr, amount: nat, s: Split) returns (events: seq<Event>)
    requires s.Valid()
    ensures events == IncomeEvents(cfg, k, operator, amount, s)
    ensures exists d: nat, p: nat :: SplitInto(cfg, k, operator, amount, s, events, d, p)
  {
    hide SplitInto;
    ghost var d, p := IncomeSplit(cfg, k, operator, amount, s);
    var daoTaskShare := DaoShare(cfg, amount);
    var totalDelegatorFee := DelegatorPool(cfg, amount, s);
    events := [];
    if s.share > 0 && |s.delegators| > 0 {
      var fees, dispatched := DispatchFees(totalDelegatorFee, s.delegators);
      LossOfShares(totalDelegatorFee, Stakes(s.delegators));
      fees := fees[0 := fees[0] + (totalDelegatorFee - dispatched)];
      events := DelegatorEvents(k, s.delegators, fees);
    }
    var nodeIncome := amount - daoTaskShare - totalDelegatorFee;
    events := events + [Event(TaskIncome(k), operator, nodeIncome)];
    events := events + [Event(DaoTaskShare(k), cfg.daoAddress, daoTaskShare)];
  }
}

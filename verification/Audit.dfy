/** The ledger validator: which pending events of a batch are folded into the database. */
module Audit {
  import opened Model
  import opened Invariant
  import opened Ledger

  datatype WithdrawStatus = WithdrawPending | WithdrawSuccess | WithdrawFailed

  datatype WithdrawRecord = WithdrawRecord(address: Addr, amount: nat, fee: nat, status: WithdrawStatus,
      processed: bool)

  // The rows the validator reads.
  datatype Books = Books(tasks: map<Key, Task>, vestings: map<nat, Vesting>, withdraws: map<nat, WithdrawRecord>)

  // Everything the validator asks of an event except that a debit is covered.
  predicate Admissible(cfg: Config, b: Books, e: Event) {
    match e.reason
    case Deposit(tx, network) =>
      (tx, network) in cfg.deposits && cfg.deposits[(tx, network)] == DepositTx(e.address, e.amount)
    case TaskPayment(k) => k in b.tasks && e.amount == b.tasks[k].fee
    case TaskIncome(k) => k in b.tasks && IncomeAllowed(b.tasks[k])
    case DaoTaskShare(k) => k in b.tasks && IncomeAllowed(b.tasks[k])
    case UserDelegation(k, _) => k in b.tasks && IncomeAllowed(b.tasks[k])
    case TaskRefund(k) => k in b.tasks && e.amount == b.tasks[k].fee && RefundAllowed(b.tasks[k])
    case Withdraw(id) => id in b.withdraws
    case WithdrawRefund(id) => id in b.withdraws
    case WithdrawFeeIncome(id) => id in b.withdraws
    case VestingCreated(id) => id != 0 && id in b.vestings && b.vestings[id].address == e.address && e.amount == 0
    case VestingRelease(id, from, to) =>
      && id in b.vestings && b.vestings[id].address == e.address
      && from <= to && 0 < to - from == e.amount
      && to <= b.vestings[id].total && to == b.vestings[id].released
  }

  predicate Passes(cfg: Config, b: Books, db: Balances, before: seq<Event>, e: Event) {
    Admissible(cfg, b, e) && (Debit(e) ==> e.amount <= Bal(db, e.address) + Net(before, e.address))
  }

  /** The reference: an event is accepted when it is admissible and, if a debit, covered by the
      database balance and the events accepted before it. */
  function Accepted(cfg: Config, b: Books, db: Balances, es: seq<Event>): (r: seq<Event>)
    ensures forall e | e in r :: e in es
  {
    if es == [] then [] else
      var front, e := Accepted(cfg, b, db, es[..|es| - 1]), es[|es| - 1];
      if Passes(cfg, b, db, front, e) then front + [e] else front
  }

  function Rejected(cfg: Config, b: Books, db: Balances, es: seq<Event>): (r: seq<Event>) {
    if es == [] then [] else
      var front, e := es[..|es| - 1], es[|es| - 1];
      Rejected(cfg, b, db, front) + if Passes(cfg, b, db, Accepted(cfg, b, db, front), e) then [] else [e]
  }

  // What the validator asks of an event, reason by reason, except that a debit is covered.
  predicate Founded(cfg: Config, b: Books, e: Event) {
    && (e.reason.Deposit? ==>
          && (e.reason.tx, e.reason.network) in cfg.deposits
          && cfg.deposits[(e.reason.tx, e.reason.network)].sender == e.address
          && cfg.deposits[(e.reason.tx, e.reason.network)].amount == e.amount)
    && (e.reason.TaskPayment? || e.reason.TaskRefund? ==>
          e.reason.task in b.tasks && e.amount == b.tasks[e.reason.task].fee)
    && (e.reason.TaskRefund? ==>
          || b.tasks[e.reason.task].status == EndGroupRefund
          || (b.tasks[e.reason.task].status == EndAborted && b.tasks[e.reason.task].reason != CreatorValidationTimeout))
    && (e.reason.TaskIncome? || e.reason.DaoTaskShare? || e.reason.UserDelegation? ==>
          && e.reason.task in b.tasks
          && (|| b.tasks[e.reason.task].status in {EndSuccess, EndGroupSuccess, EndGroupRefund}
              || (&& b.tasks[e.reason.task].status == EndAborted
                  && b.tasks[e.reason.task].reason == CreatorValidationTimeout)))
    && (e.reason.Withdraw? || e.reason.WithdrawRefund? || e.reason.WithdrawFeeIncome? ==>
          e.reason.record in b.withdraws)
    && (e.reason.VestingCreated? || e.reason.VestingRelease? ==>
          e.reason.vesting in b.vestings && b.vestings[e.reason.vesting].address == e.address)
    && (e.reason.VestingCreated? ==> e.reason.vesting != 0 && e.amount == 0)
    && (e.reason.VestingRelease? ==>
          && e.amount > 0 && e.reason.from + e.amount == e.reason.to
          && e.reason.to == b.vestings[e.reason.vesting].released <= b.vestings[e.reason.vesting].total)
  }

  /** A credit of a batch is accepted exactly when it is founded, wherever it stands in the batch; a debit is accepted
      only if it is founded and covered by the database and the credits and debits accepted before it. */
  lemma {:induction false} AcceptedIff(cfg: Config, b: Books, db: Balances, es: seq<Event>, e: Event)
    requires e in es
    ensures !e.reason.TaskPayment? && !e.reason.Withdraw? ==>
              (e in Accepted(cfg, b, db, es) <==> Founded(cfg, b, e))
    ensures (e.reason.TaskPayment? || e.reason.Withdraw?) && e in Accepted(cfg, b, db, es) ==>
              Founded(cfg, b, e) && exists n: nat :: CoveredAfter(cfg, b, db, es, n, e)
  {
    hide Founded, Admissible, Net, Bal;
    FoundedIff(cfg, b, e);
    if es != [] {
      var n := |es| - 1;
      if e in es[..n] {
        AcceptedIff(cfg, b, db, es[..n], e);
        if i: nat :| CoveredAfter(cfg, b, db, es[..n], i, e) {
          assert es[..n][..i] == es[..i];
          assert CoveredAfter(cfg, b, db, es, i, e);
        }
      }
      if es[n] == e && Passes(cfg, b, db, Accepted(cfg, b, db, es[..n]), e) {
        assert Debit(e) ==> CoveredAfter(cfg, b, db, es, n, e);
      }
      AcceptedFrom(cfg, b, db, es[..n], e);
    }
  }

  // The balance that the first n events of the batch leave covers e.
  ghost predicate CoveredAfter(cfg: Config, b: Books, db: Balances, es: seq<Event>, n: nat, e: Event) {
    n < |es| && es[n] == e && e.amount <= Bal(db, e.address) + Net(Accepted(cfg, b, db, es[..n]), e.address)
  }

  lemma FoundedIff(cfg: Config, b: Books, e: Event)
    ensures Admissible(cfg, b, e) == Founded(cfg, b, e)
  {}

  lemma AcceptedFrom(cfg: Config, b: Books, db: Balances, es: seq<Event>, e: Event)
    ensures e in Accepted(cfg, b, db, es) ==> e in es
  {}

  function DebitAddresses(es: seq<Event>): set<Addr> {
    set i | 0 <= i < |es| && Debit(es[i]) :: es[i].address
  }

  function Tracked(db: Balances, addresses: set<Addr>): Balances {
    map a | a in addresses :: Bal(db, a)
  }

  ghost predicate RunningBalances(db: Balances, balances: Balances, valid: seq<Event>) {
    forall a | a in balances :: balances[a] == Bal(db, a) + Net(valid, a)
  }

  function Moved(balances: Balances, e: Event): (r: Balances)
    ensures r.Keys == balances.Keys
  {
    if e.address in balances then balances[e.address := balances[e.address] + Signed(e)] else balances
  }

  /** The validator keeps running balances only for addresses that are debited in the batch, and decides
      as the reference does. */
  method Validate(cfg: Config, b: Books, db: Balances, es: seq<Event>) returns (valid: seq<Event>, invalid: seq<Event>)
    ensures valid == Accepted(cfg, b, db, es)
    ensures invalid == Rejected(cfg, b, db, es)
  {
    hide Admissible, Net, Bal, Tracked, RunningBalances, DebitAddresses;
    var balances := Tracked(db, DebitAddresses(es));
    StartTracking(db, es);
    valid, invalid := [], [];
    for i := 0 to |es|
      invariant valid == Accepted(cfg, b, db, es[..i])
      invariant invalid == Rejected(cfg, b, db, es[..i])
      invariant balances.Keys == DebitAddresses(es)
      invariant RunningBalances(db, balances, valid)
    {
      var e := es[i];
      assert es[..i + 1][..i] == es[..i] && es[..i + 1][i] == e;
      AcceptOne(cfg, b, db, es, i, balances, valid);
      if !Admissible(cfg, b, e) {
        invalid := invalid + [e];
      } else if Debit(e) {
        if balances[e.address] < e.amount {
          invalid := invalid + [e];
        } else {
          balances := balances[e.address := balances[e.address] - e.amount];
          valid := valid + [e];
        }
      } else {
        if e.address in balances && !e.reason.VestingCreated? {
          balances := balances[e.address := balances[e.address] + e.amount];
        }
        valid := valid + [e];
      }
    }
    assert es[..|es|] == es;
  }

  lemma StartTracking(db: Balances, es: seq<Event>)
    ensures var m := Tracked(db, DebitAddresses(es)); m.Keys == DebitAddresses(es) && RunningBalances(db, m, [])
  {
  }

  lemma AcceptOne(cfg: Config, b: Books, db: Balances, es: seq<Event>, i: nat, balances: Balances, valid: seq<Event>)
    requires i < |es| && balances.Keys == DebitAddresses(es) && RunningBalances(db, balances, valid)
    ensures var e := es[i];
            && RunningBalances(db, Moved(balances, e), valid + [e])
            && (Admissible(cfg, b, e) && e.reason.VestingCreated? ==> Moved(balances, e) == balances)
            && (Debit(e) ==> e.address in balances && balances[e.address] == Bal(db, e.address) + Net(valid, e.address))
  {
    var e := es[i];
    assert (valid + [e])[..|valid|] == valid;
    if Debit(e) {
      assert es[i].address in DebitAddresses(es);
    }
  }

  /** While every prefix of the pending events is covered, admissible events are all accepted. */
  lemma {:induction false} NothingRejected(cfg: Config, b: Books, db: Balances, es: seq<Event>)
    requires forall i | 0 <= i < |es| :: Admissible(cfg, b, es[i])
    requires Solvent(db, es)
    ensures Accepted(cfg, b, db, es) == es && Rejected(cfg, b, db, es) == []
  {
    hide Admissible, Solvent, Net, Bal, Accepted, Rejected, Passes;
    if es == [] {
      NothingToValidate(cfg, b, db);
    } else {
      var n := |es| - 1;
      var front, e := es[..n], es[n];
      SolventFront(db, es);
      NothingRejected(cfg, b, db, front);
      PassesCovered(cfg, b, db, front, e);
      ValidateSnoc(cfg, b, db, es);
      assert es == front + [e];
    }
  }

  lemma NothingToValidate(cfg: Config, b: Books, db: Balances)
    ensures Accepted(cfg, b, db, []) == [] && Rejected(cfg, b, db, []) == []
  {}

  lemma PassesCovered(cfg: Config, b: Books, db: Balances, before: seq<Event>, e: Event)
    requires Admissible(cfg, b, e) && (Debit(e) ==> e.amount <= Bal(db, e.address) + Net(before, e.address))
    ensures Passes(cfg, b, db, before, e)
  {}

  lemma ValidateSnoc(cfg: Config, b: Books, db: Balances, es: seq<Event>)
    requires es != []
    ensures var front, e := es[..|es| - 1], es[|es| - 1];
            var accepted := Accepted(cfg, b, db, front);
            Passes(cfg, b, db, accepted, e) ==>
              && Accepted(cfg, b, db, es) == accepted + [e]
              && Rejected(cfg, b, db, es) == Rejected(cfg, b, db, front)
  {
    hide Passes;
    assert Rejected(cfg, b, db, es[..|es| - 1]) + [] == Rejected(cfg, b, db, es[..|es| - 1]);
  }

  lemma SolventFront(db: Balances, es: seq<Event>)
    requires es != [] && Solvent(db, es)
    ensures var front, e := es[..|es| - 1], es[|es| - 1];
            Solvent(db, front) && (Debit(e) ==> e.amount <= Bal(db, e.address) + Net(front, e.address))
  {
    var front, e := es[..|es| - 1], es[|es| - 1];
    forall a, i | 0 <= i <= |front| ensures Bal(db, a) + Net(front[..i], a) >= 0 {
      assert front[..i] == es[..i];
    }
    assert es[..|es|] == es && Bal(db, e.address) + Net(es[..|es|], e.address) >= 0;
  }

  /** Every event of a batch is accepted or rejected, and if none is rejected the batch is accepted as it is. */
  lemma {:induction false} AcceptedOrRejected(cfg: Config, b: Books, db: Balances, es: seq<Event>)
    ensures forall a :: Net(Accepted(cfg, b, db, es), a) + Net(Rejected(cfg, b, db, es), a) == Net(es, a)
    ensures Rejected(cfg, b, db, es) == [] ==> Accepted(cfg, b, db, es) == es
  {
    hide Passes;
    if es != [] {
      var front, e := es[..|es| - 1], es[|es| - 1];
      AcceptedOrRejected(cfg, b, db, front);
      assert es == front + [e];
      forall a ensures Net(Accepted(cfg, b, db, es), a) + Net(Rejected(cfg, b, db, es), a) == Net(es, a) {
        NetConcat(Accepted(cfg, b, db, front), [e], a);
        NetConcat(Rejected(cfg, b, db, front), [e], a);
        NetConcat(front, [e], a);
        assert Rejected(cfg, b, db, front) + [] == Rejected(cfg, b, db, front);
      }
    }
  }

  /** Whatever is pending, what the validator accepts overdraws no database balance. */
  lemma {:induction false} AcceptedCovers(cfg: Config, b: Books, db: Balances, es: seq<Event>)
    requires forall a :: Bal(db, a) >= 0
    ensures forall a :: Bal(db, a) + Net(Accepted(cfg, b, db, es), a) >= 0
  {
    hide Admissible, Bal;
    if es != [] {
      var front, e := es[..|es| - 1], es[|es| - 1];
      AcceptedCovers(cfg, b, db, front);
      var accepted := Accepted(cfg, b, db, front);
      assert (accepted + [e])[..|accepted|] == accepted;
    }
  }
}

/** What a leaked cache credit leads to: a debit the ledger does not cover, and the validator's rejection of it. */
module Overdrafts {
  import opened Basics
  import opened Model
  import opened Lifecycle
  import opened Invariant
  import opened Ledger
  import opened Audit
  import opened Steps
  import opened Rollback
  import opened Relay
  import opened Guarantees
  import opened StuckGroups

  // ---------- Draining the queue ----------

  function Syncs(n: nat): seq<Step> {
    if n == 0 then [] else Syncs(n - 1) + [SyncBatch]
  }

  lemma SyncDrains(cfg: Config, s: State)
    requires s.mark <= |s.w.log|
    ensures var s' := Sync(cfg, s);
            && s'.w == s.w && s'.cache == s.cache && s'.mark <= |s.w.log|
            && |s.w.log| - s'.mark <= (if s.mark == |s.w.log| then 0 else |s.w.log| - s.mark - 1)
  {
    hide Accepted, Rejected, ApplyAll, Processed;
  }

  lemma {:induction false} SyncsDrain(cfg: Config, s: State, n: nat)
    requires s.mark <= |s.w.log|
    ensures var s' := Run(cfg, s, Syncs(n));
            && s'.w == s.w && s'.cache == s.cache && s'.mark <= |s.w.log|
            && (|s.w.log| - s.mark <= n ==> s'.mark == |s.w.log|)
            && |s.w.log| - s'.mark <= (if |s.w.log| - s.mark <= n then 0 else |s.w.log| - s.mark - n)
    ensures LeakFree(cfg, s, Syncs(n))
  {
    hide Sync, LeakFree;
    if n == 0 {
      NoSteps(cfg, s);
    } else {
      SyncsDrain(cfg, s, n - 1);
      RunSnoc(cfg, s, Syncs(n - 1), SyncBatch);
      SyncDrains(cfg, Run(cfg, s, Syncs(n - 1)));
    }
  }

  lemma {:induction false} FreshKey(tasks: map<Key, Task>) returns (k: Key)
    ensures forall j | j in tasks :: j < k
    decreases tasks.Keys
  {
    if tasks == map[] {
      k := 0;
    } else {
      var j :| j in tasks;
      var rest := tasks - {j};
      assert rest.Keys == tasks.Keys - {j};
      k := FreshKey(rest);
      assert forall i | i in tasks :: i == j || i in rest;
      if k <= j {
        k := j + 1;
      }
    }
  }

  // ---------- From a leak to a rejection ----------

  // Whoever the cache credits too much spends all of it on a task, and everything pending is folded.
  function Spend(k: Key, a: Addr, fee: nat, n: nat): seq<Step> {
    [CreateTask(k, a, fee, SD, None, 0, 0)] + Syncs(n)
  }

  // After the spending: the ledger owes at a what was leaked there, and nothing is pending.
  lemma SpentAll(cfg: Config, s: State, k: Key, a: Addr, fee: nat, n: nat)
    requires RelayInv(cfg, s) && k !in s.w.tasks && Cached(s.db, s.cache, a) == fee
    requires n == |s.w.log| + 1 - s.mark && s.mark <= |s.w.log|
    ensures var s' := Run(cfg, s, Spend(k, a, fee, n));
            && s'.w.log == s.w.log + [Event(TaskPayment(k), a, fee)] && s'.mark == |s'.w.log|
            && LeakFree(cfg, s, Spend(k, a, fee, n))
  {
    hide RelayInv, Run, Next, LeakFree, Syncs, NewPaid;
    var create := CreateTask(k, a, fee, SD, None, 0, 0);
    var s1 := Next(cfg, s, create);
    OneRun(cfg, s, create);
    Creates(cfg, s, k, a, fee);
    SyncsDrain(cfg, s1, n);
    RunConcat(cfg, s, [create], Syncs(n));
    LeakFreeConcat(cfg, s, [create], Syncs(n));
  }

  lemma OneRun(cfg: Config, s: State, step: Step)
    ensures Run(cfg, s, [step]) == Next(cfg, s, step)
    ensures !LeaksAt(s, step) ==> LeakFree(cfg, s, [step])
  {
    hide Next, LeaksAt;
    assert [step][..0] == [];
    assert Run(cfg, s, [step][..0]) == s;
  }

  lemma LeakFreeConcat(cfg: Config, s: State, steps: seq<Step>, more: seq<Step>)
    ensures LeakFree(cfg, s, steps + more) <==> LeakFree(cfg, s, steps) && LeakFree(cfg, Run(cfg, s, steps), more)
  {
    hide Run, LeaksAt;
    var all := steps + more;
    forall n | 0 <= n < |steps| ensures all[..n] == steps[..n] && all[n] == steps[n] {}
    forall n | 0 <= n < |more|
      ensures Run(cfg, s, all[..|steps| + n]) == Run(cfg, Run(cfg, s, steps), more[..n]) && all[|steps| + n] == more[n]
    {
      assert all[..|steps| + n] == steps + more[..n];
      RunConcat(cfg, s, steps, more[..n]);
    }
    if LeakFree(cfg, s, all) {
      forall n | 0 <= n < |steps| ensures !LeaksAt(Run(cfg, s, steps[..n]), steps[n]) {
        assert !LeaksAt(Run(cfg, s, all[..n]), all[n]);
      }
      forall n | 0 <= n < |more| ensures !LeaksAt(Run(cfg, Run(cfg, s, steps), more[..n]), more[n]) {
        assert !LeaksAt(Run(cfg, s, all[..|steps| + n]), all[|steps| + n]);
      }
    }
    if LeakFree(cfg, s, steps) && LeakFree(cfg, Run(cfg, s, steps), more) {
      forall n | 0 <= n < |all| ensures !LeaksAt(Run(cfg, s, all[..n]), all[n]) {
        if n >= |steps| {
          assert !LeaksAt(Run(cfg, Run(cfg, s, steps), more[..n - |steps|]), more[n - |steps|]);
          assert |steps| + (n - |steps|) == n;
        }
      }
    }
  }

  lemma {:induction false} LeakedByConcat(cfg: Config, s: State, steps: seq<Step>, more: seq<Step>)
    ensures LeakedBy(cfg, s, steps + more) == LeakedBy(cfg, s, steps) + LeakedBy(cfg, Run(cfg, s, steps), more)
  {
    hide Run, Leaked;
    if more == [] {
      assert steps + more == steps;
    } else {
      var front, last := more[..|more| - 1], more[|more| - 1];
      assert (steps + more)[..|steps + more| - 1] == steps + front;
      LeakedByConcat(cfg, s, steps, front);
      RunConcat(cfg, s, steps, front);
    }
  }

  // Nothing leaked, nothing moved.
  lemma LeakFreeNet(cfg: Config, s: State, steps: seq<Step>, a: Addr)
    requires RelayInv(cfg, s) && LeakFree(cfg, s, steps)
    ensures Net(LeakedBy(cfg, s, steps), a) == 0
  {
    hide RelayInv, LeakFree, LeakedBy, Net, Drift, Run;
    RunLeaks(cfg, s, steps);
    assert !(Net(LeakedBy(cfg, s, steps), a) > 0);
  }

  /** Once a request has leaked, spending the cached balance it raised gets a debit rejected. */
  lemma LeakOverdraws(cfg: Config, s0: State, steps: seq<Step>) returns (more: seq<Step>)
    requires Initial(s0) && !LeakFree(cfg, s0, steps)
    ensures LeakFree(cfg, Run(cfg, s0, steps), more)
    ensures Run(cfg, s0, steps + more).rejected != []
  {
    hide Initial, Run, RelayInv, LeakFree, LeakedBy, Net, Cached, Bal, Drift, Spend, Balanced;
    InitialKeeps(cfg, s0);
    RunInOrder(cfg, s0, steps);
    RunLeaks(cfg, s0, steps);
    var s := Run(cfg, s0, steps);
    var a :| Net(LeakedBy(cfg, s0, steps), a) > 0;
    BalancesAddUp(cfg, s0, steps, a);
    var k := FreshKey(s.w.tasks);
    var fee: nat := Cached(s.db, s.cache, a);
    var n: nat := |s.w.log| + 1 - s.mark;
    more := Spend(k, a, fee, n);
    SpentAll(cfg, s, k, a, fee, n);
    RunConcat(cfg, s0, steps, more);
    BalancesAddUp(cfg, s0, steps + more, a);
    LeakedByConcat(cfg, s0, steps, more);
    LeakFreeNet(cfg, s, more, a);
    NetConcat(LeakedBy(cfg, s0, steps), LeakedBy(cfg, s, more), a);
    NetSnoc(s.w.log, Event(TaskPayment(k), a, fee), a);
    var s' := Run(cfg, s0, steps + more);
    assert s'.w.log[..s'.mark] == s'.w.log;
    assert Bal(s'.db, a) == 0 - Net(LeakedBy(cfg, s0, steps), a) - Net(s'.rejected, a);
    if s'.rejected == [] {
      NetOfNone(a);
    }
  }

  lemma NetOfNone(a: Addr)
    ensures Net([], a) == 0
  {}

  // Some continuation, itself without a leak, gets an event rejected.
  ghost predicate CanReject(cfg: Config, s: State) {
    exists more: seq<Step> :: LeakFree(cfg, s, more) && Run(cfg, s, more).rejected != []
  }

  /** An event can come to be rejected exactly when a request of the run so far leaked. */
  lemma RejectsIff(cfg: Config, s0: State, steps: seq<Step>)
    requires Initial(s0)
    ensures CanReject(cfg, Run(cfg, s0, steps)) <==> !LeakFree(cfg, s0, steps)
  {
    hide Initial, Run, LeakFree;
    var s := Run(cfg, s0, steps);
    if !LeakFree(cfg, s0, steps) {
      var more := LeakOverdraws(cfg, s0, steps);
      RunConcat(cfg, s0, steps, more);
    } else if CanReject(cfg, s) {
      var more :| LeakFree(cfg, s, more) && Run(cfg, s, more).rejected != [];
      LeakFreeConcat(cfg, s0, steps, more);
      RunConcat(cfg, s0, steps, more);
      NothingIsRejected(cfg, s0, steps + more, 0);
    }
  }

  // ---------- The shortest such run ----------

  // The four payments pending before the fold.
  function Debits(c: Addr, fee: nat, last: nat): seq<Event> {
    Payments(c, fee) + [Event(TaskPayment(3), c, last)]
  }

  // The creator's cached balance after the refused request is two fees above the ledger.
  lemma AfterRefusal(cfg: Config, s0: State, c: Addr, fee: nat, now: int, passive: bool, splits: Splits,
                     kicked: set<Key>)
    returns (steps: seq<Step>)
    requires Initial(s0) && Bal(s0.db, c) >= 3 * fee
    ensures var s := Run(cfg, s0, steps);
            && s.w.tasks.Keys == {0, 1, 2}
            && s.w.log == Payments(c, fee) && s.db == s0.db && s.mark == 0 && s.rejected == []
            && Cached(s.db, s.cache, c) == Bal(s0.db, c) - fee
            && Solvent(s.db, Payments(c, fee))
  {
    hide Initial, Run, RelayInv, LeakFree, Net, Cached, Bal, StuckRows, ValidateGroup, LoadGroup, GroupLeftover, Leaks,
         Next, Solvent, Payments, Inv, SomeNet;
    var first := StuckGroupExists(cfg, s0, c, fee, now, passive, splits, kicked);
    CachedAfter(cfg, s0, first, c);
    SolventPayments(cfg, s0, first);
    ThreePaid(c, fee);
    var h := ValidateTasks([0, 1, 2], now, passive, splits, kicked);
    var s := Run(cfg, s0, first);
    steps := first + [Handle(h)];
    RunSnoc(cfg, s0, first, Handle(h));
    RunInOrder(cfg, s0, first);
    LeftoverIff(cfg, s.w, h);
    Refuses(cfg, s, h, c);
  }

  // It covers one more task, and the ledger does not.
  lemma RefusedThenPays(cfg: Config, s0: State, c: Addr, fee: nat, now: int, passive: bool, splits: Splits,
                        kicked: set<Key>)
    returns (steps: seq<Step>)
    requires Initial(s0) && Bal(s0.db, c) >= 3 * fee
    ensures var s := Run(cfg, s0, steps);
            && s.w.log == Debits(c, fee, Bal(s0.db, c) - fee) && s.db == s0.db && s.mark == 0 && s.rejected == []
            && Cached(s.db, s.cache, c) == 0
            && Bal(s0.db, c) + Net(s.w.log, c) == 0 - 2 * fee
            && Solvent(s.db, Payments(c, fee))
  {
    hide Initial, Run, LeakFree, LeaksAt, Net, Cached, Bal, Next, NewPaid, Solvent, Payments;
    var first := AfterRefusal(cfg, s0, c, fee, now, passive, splits, kicked);
    var s := Run(cfg, s0, first);
    var last: nat := Bal(s0.db, c) - fee;
    var create := CreateTask(3, c, last, SD, None, 0, 0);
    steps := first + [create];
    RunSnoc(cfg, s0, first, create);
    assert 3 !in s.w.tasks.Keys;
    Creates(cfg, s, 3, c, last);
    CreatesCached(cfg, s, 3, c, last);
    ThreePaid(c, fee);
    NetSnoc(Payments(c, fee), Event(TaskPayment(3), c, last), c);
  }

  // A refused request moves a cached balance by what it left.
  lemma Refuses(cfg: Config, s: State, h: Handler, c: Addr)
    requires h.ValidateTasks? && Transact(cfg, s.w, h).Err?
    requires forall e | e in Leftover(cfg, s.w, h) :: e.reason.TaskRefund?
    ensures var s' := Next(cfg, s, Handle(h));
            && s'.w == s.w && s'.db == s.db && s'.mark == s.mark && s'.rejected == s.rejected
            && Cached(s'.db, s'.cache, c) == Cached(s.db, s.cache, c) + Net(Leftover(cfg, s.w, h), c)
  {
    hide Transact, Leftover, Cached, Net;
    PostAllIs(s.db, s.cache, Leftover(cfg, s.w, h), c);
  }

  lemma CreatesCached(cfg: Config, s: State, k: Key, c: Addr, fee: nat)
    requires k !in s.w.tasks && Cached(s.db, s.cache, c) >= fee
    ensures var s' := Next(cfg, s, CreateTask(k, c, fee, SD, None, 0, 0));
            Cached(s'.db, s'.cache, c) == Cached(s.db, s.cache, c) - fee
  {
    var e := Event(TaskPayment(k), c, fee);
    assert NewEvents(s.w.log, s.w.log + [e]) == [e];
    PostOne(s.db, s.cache, e);
  }

  lemma ThreePaid(c: Addr, fee: nat)
    ensures Net(Payments(c, fee), c) == 0 - 3 * fee
  {
    var e0, e1, e2 := Event(TaskPayment(0), c, fee), Event(TaskPayment(1), c, fee), Event(TaskPayment(2), c, fee);
    NetOfTwo(e0, e1, c);
    NetSnoc([e0, e1], e2, c);
    assert [e0, e1] + [e2] == Payments(c, fee);
  }

  lemma SolventPayments(cfg: Config, s0: State, steps: seq<Step>)
    requires Initial(s0) && LeakFree(cfg, s0, steps) && Run(cfg, s0, steps).mark == 0
    ensures Solvent(Run(cfg, s0, steps).db, Run(cfg, s0, steps).w.log)
  {
    hide Initial, Run, LeakFree, Solvent;
    NothingIsRejected(cfg, s0, steps, 0);
    var s := Run(cfg, s0, steps);
    assert s.w.log[0..] == s.w.log;
  }

  // The validator accepts what the balance covers and rejects the debit beyond it.
  lemma LastRejected(cfg: Config, b: Books, db: Balances, es: seq<Event>, e: Event)
    requires (forall i | 0 <= i < |es| :: Admissible(cfg, b, es[i])) && Solvent(db, es)
    requires Debit(e) && Bal(db, e.address) + Net(es, e.address) < e.amount
    ensures Rejected(cfg, b, db, es + [e]) == [e]
  {
    hide Admissible, Solvent, Net, Bal;
    NothingRejected(cfg, b, db, es);
    assert (es + [e])[..|es|] == es;
  }

  /** From any start at which a creator can pay three fees: three failures, one refused request, and a fourth task for
      all that the cache then shows, is a run whose next fold rejects the payment for that task. */
  lemma LeakedFeesAreRejected(cfg: Config, s0: State, c: Addr, fee: nat, now: int, passive: bool, splits: Splits,
                              kicked: set<Key>)
    returns (steps: seq<Step>)
    requires Initial(s0) && fee > 0 && Bal(s0.db, c) >= 3 * fee
    ensures var s := Run(cfg, s0, steps);
            && Cached(s.db, s.cache, c) == 0
            && Bal(s0.db, c) + Net(s.w.log, c) == 0 - 2 * fee
            && Run(cfg, s0, steps + [SyncBatch]).rejected == [Event(TaskPayment(3), c, Bal(s0.db, c) - fee)]
  {
    hide Initial, Run, RelayInv, Net, Cached, Bal, Next, Solvent, Payments, Debits, LeakFree, LeaksAt, Inv;
    steps := RefusedThenPays(cfg, s0, c, fee, now, passive, splits, kicked);
    RunInOrder(cfg, s0, steps);
    RunSnoc(cfg, s0, steps, SyncBatch);
    FourthRejected(cfg, Run(cfg, s0, steps), c, fee, Bal(s0.db, c) - fee);
  }

  lemma FourthRejected(cfg: Config, s: State, c: Addr, fee: nat, last: nat)
    requires RelayInv(cfg, s) && s.w.log == Debits(c, fee, last) && s.mark == 0 && s.rejected == []
    requires Solvent(s.db, Payments(c, fee)) && Bal(s.db, c) - 3 * fee < last
    ensures Next(cfg, s, SyncBatch).rejected == [Event(TaskPayment(3), c, last)]
  {
    hide RelayInv, Net, Bal, Solvent, Admissible, Accepted, Rejected, ApplyAll, Processed;
    var e := Event(TaskPayment(3), c, last);
    ThreePaid(c, fee);
    AllAdmissible(cfg, s);
    assert Pending(s) == Payments(c, fee) + [e] && Pending(s)[..4] == Pending(s);
    forall i | 0 <= i < 3 ensures Admissible(cfg, BooksOf(s), Payments(c, fee)[i]) {
      assert Admissible(cfg, BooksOf(s), Pending(s)[i]);
    }
    LastRejected(cfg, BooksOf(s), s.db, Payments(c, fee), e);
  }

  /** A creator with a balance of 3 pays for three tasks of fee 1, sees 2 in the cache after the refused request, and
      pays 2 for a fourth task; the fold rejects that payment. */
  lemma OverdraftExample(cfg: Config) returns (steps: seq<Step>)
    ensures var s0 := State(World(map[], map[], map[], []), {}, map[], None, 0, [], map["c" := 3], map[]);
            && Initial(s0)
            && Run(cfg, s0, steps).rejected == [Event(TaskPayment(3), "c", 2)]
  {
    hide Run;
    var s0 := State(World(map[], map[], map[], []), {}, map[], None, 0, [], map["c" := 3], map[]);
    var first := LeakedFeesAreRejected(cfg, s0, "c", 1, 0, true, map[], {});
    steps := first + [SyncBatch];
  }
}

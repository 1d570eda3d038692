/** The two tiers of the relay account: cached balances now, database balances once events are folded in. */
module Ledger {
  import opened Model

  type Balances = map<Addr, int>

  function Bal(db: Balances, a: Addr): int {
    if a in db then db[a] else 0
  }

  function Signed(e: Event): int {
    if Debit(e) then 0 - e.amount else e.amount
  }

  // What the events change in total at one address.
  function Net(es: seq<Event>, a: Addr): int {
    if es == [] then 0 else
      Net(es[..|es| - 1], a) + if es[|es| - 1].address == a then Signed(es[|es| - 1]) else 0
  }

  // Some address gains by the events.
  ghost predicate SomeNet(es: seq<Event>) {
    exists a :: Net(es, a) > 0
  }

  lemma NoEvents()
    ensures !SomeNet([])
  {}

  lemma {:induction false} NetConcat(es: seq<Event>, fs: seq<Event>, a: Addr)
    ensures Net(es + fs, a) == Net(es, a) + Net(fs, a)
  {
    if fs == [] {
      assert es + fs == es;
    } else {
      assert (es + fs)[..|es + fs| - 1] == es + fs[..|fs| - 1];
      NetConcat(es, fs[..|fs| - 1], a);
    }
  }

  // ---------- Applying events ----------

  function ApplyOne(db: Balances, e: Event): Balances {
    db[e.address := Bal(db, e.address) + Signed(e)]
  }

  /** The reference: events applied one at a time, in order. */
  function ApplyAll(db: Balances, es: seq<Event>): Balances {
    if es == [] then db else ApplyOne(ApplyAll(db, es[..|es| - 1]), es[|es| - 1])
  }

  function Addresses(es: seq<Event>): set<Addr> {
    set i | 0 <= i < |es| :: es[i].address
  }

  lemma {:induction false} ApplyAllIs(db: Balances, es: seq<Event>)
    ensures ApplyAll(db, es).Keys == db.Keys + Addresses(es)
    ensures forall a :: Bal(ApplyAll(db, es), a) == Bal(db, a) + Net(es, a)
  {
    if es != [] {
      var front := es[..|es| - 1];
      ApplyAllIs(db, front);
      assert Addresses(es) == Addresses(front) + {es[|es| - 1].address};
    }
  }

  /** The per-address sums of a batch. */
  method MergeEvents(es: seq<Event>) returns (merged: Balances)
    ensures merged.Keys == Addresses(es)
    ensures forall a | a in merged :: merged[a] == Net(es, a)
  {
    merged := map[];
    for i := 0 to |es|
      invariant merged.Keys == Addresses(es[..i])
      invariant forall a | a in merged :: merged[a] == Net(es[..i], a)
    {
      var e := es[i];
      assert es[..i + 1][..i] == es[..i];
      assert Addresses(es[..i + 1]) == Addresses(es[..i]) + {e.address};
      if e.address !in merged {
        NetAbsent(es[..i], e.address);
        merged := merged[e.address := 0];
      }
      if e.reason.TaskPayment? || e.reason.Withdraw? {
        merged := merged[e.address := merged[e.address] - e.amount];
      } else {
        merged := merged[e.address := merged[e.address] + e.amount];
      }
    }
    assert es[..|es|] == es;
  }

  lemma {:induction false} NetAbsent(es: seq<Event>, a: Addr)
    requires forall e | e in es :: e.address != a || e.amount == 0
    ensures Net(es, a) == 0
  {
    if es != [] {
      NetAbsent(es[..|es| - 1], a);
    }
  }

  // The rows once the sums of some addresses have been added.
  ghost predicate AddedSoFar(db: Balances, merged: Balances, todo: set<Addr>, r: Balances) {
    && r.Keys == db.Keys + (merged.Keys - todo)
    && forall a | a in r :: r[a] == Bal(db, a) + if a in todo then 0 else Bal(merged, a)
  }

  lemma AddOne(db: Balances, merged: Balances, todo: set<Addr>, r: Balances, a: Addr)
    requires todo <= merged.Keys && a in todo && AddedSoFar(db, merged, todo, r)
    ensures AddedSoFar(db, merged, todo - {a}, r[a := (if a in r then r[a] else 0) + merged[a]])
  {
  }

  /** Adding the merged sums to the existing rows, and a new row for every other address. */
  method AddMerged(db: Balances, merged: Balances) returns (r: Balances)
    ensures r.Keys == db.Keys + merged.Keys
    ensures forall a | a in r :: r[a] == Bal(db, a) + Bal(merged, a)
  {
    hide Bal, AddedSoFar;
    r := db;
    var todo := merged.Keys;
    assert AddedSoFar(db, merged, todo, r) by {
      StartAdding(db, merged);
    }
    while todo != {}
      invariant todo <= merged.Keys && AddedSoFar(db, merged, todo, r)
      decreases |todo|
    {
      var a :| a in todo;
      AddOne(db, merged, todo, r, a);
      if a in r {
        r := r[a := r[a] + merged[a]];
      } else {
        r := r[a := merged[a]];
      }
      todo := todo - {a};
    }
    DoneAdding(db, merged, r);
  }

  lemma StartAdding(db: Balances, merged: Balances)
    ensures AddedSoFar(db, merged, merged.Keys, db)
  {
  }

  lemma DoneAdding(db: Balances, merged: Balances, r: Balances)
    requires AddedSoFar(db, merged, {}, r)
    ensures r.Keys == db.Keys + merged.Keys
    ensures forall a | a in r :: r[a] == Bal(db, a) + Bal(merged, a)
  {
  }

  /** Folding a batch through its merged sums is applying its events one at a time. */
  method FoldBatch(db: Balances, es: seq<Event>) returns (r: Balances)
    ensures r == ApplyAll(db, es)
  {
    var merged := MergeEvents(es);
    r := AddMerged(db, merged);
    ApplyAllIs(db, es);
    forall a | a in r ensures r[a] == ApplyAll(db, es)[a] {
      assert Bal(ApplyAll(db, es), a) == Bal(db, a) + Net(es, a);
      if a !in merged {
        assert forall e | e in es :: e.address in Addresses(es);
        NetAbsent(es, a);
      }
    }
  }

  // ---------- The cache ----------

  // A cached balance, loaded from the database the first time.
  function Cached(db: Balances, cache: Balances, a: Addr): int {
    if a in cache then cache[a] else Bal(db, a)
  }

  // A producer's effect on the cache; the record of a new vesting carries no amount and leaves it alone.
  function Post(db: Balances, cache: Balances, e: Event): Balances {
    if e.reason.VestingCreated? then cache else cache[e.address := Cached(db, cache, e.address) + Signed(e)]
  }

  function PostAll(db: Balances, cache: Balances, es: seq<Event>): Balances {
    if es == [] then cache else Post(db, PostAll(db, cache, es[..|es| - 1]), es[|es| - 1])
  }

  // Every id-ordered prefix of the pending events keeps every database balance non-negative.
  ghost predicate Solvent(db: Balances, pending: seq<Event>) {
    forall a, i | 0 <= i <= |pending| :: Bal(db, a) + Net(pending[..i], a) >= 0
  }

  /** Cached balances run ahead of the database by exactly the pending events, and no prefix of them overdraws. */
  ghost predicate InStep(db: Balances, cache: Balances, pending: seq<Event>) {
    && (forall a :: Cached(db, cache, a) == Bal(db, a) + Net(pending, a))
    && (forall e | e in pending && e.amount != 0 :: e.address in cache)
    && Solvent(db, pending)
  }

  lemma PostKeeps(db: Balances, cache: Balances, pending: seq<Event>, e: Event)
    requires InStep(db, cache, pending) && Postable(db, cache, e)
    ensures InStep(db, Post(db, cache, e), pending + [e])
  {
    var pending', cache' := pending + [e], Post(db, cache, e);
    assert pending'[..|pending|] == pending;
    forall a ensures Cached(db, cache', a) == Bal(db, a) + Net(pending', a) {}
    forall a, i | 0 <= i <= |pending'| ensures Bal(db, a) + Net(pending'[..i], a) >= 0 {
      if i <= |pending| {
        assert pending'[..i] == pending[..i];
      } else {
        assert pending'[..i] == pending';
        assert pending[..|pending|] == pending;
      }
    }
  }

  lemma {:induction false} CreditsKeep(db: Balances, cache: Balances, pending: seq<Event>, es: seq<Event>)
    requires InStep(db, cache, pending)
    requires Credits(es)
    ensures InStep(db, PostAll(db, cache, es), pending + es)
  {
    hide InStep;
    if es == [] {
      assert pending + es == pending;
    } else {
      var front, last := es[..|es| - 1], es[|es| - 1];
      CreditsKeep(db, cache, pending, front);
      PostKeeps(db, PostAll(db, cache, front), pending + front, last);
      assert pending + es == pending + front + [last];
    }
  }

  /** Folding any prefix of the pending events leaves the cache right, and every remaining prefix solvent. */
  lemma FoldKeeps(db: Balances, cache: Balances, pending: seq<Event>, n: nat)
    requires InStep(db, cache, pending) && n <= |pending|
    ensures InStep(ApplyAll(db, pending[..n]), cache, pending[n..])
  {
    var batch, rest := pending[..n], pending[n..];
    var db' := ApplyAll(db, batch);
    ApplyAllIs(db, batch);
    assert pending == batch + rest;
    forall a ensures Cached(db', cache, a) == Bal(db', a) + Net(rest, a) {
      NetConcat(batch, rest, a);
      if a !in cache {
        NetAbsent(pending, a);
        NetAbsent(batch, a);
        NetAbsent(rest, a);
      }
    }
    forall a, i | 0 <= i <= |rest| ensures Bal(db', a) + Net(rest[..i], a) >= 0 {
      assert pending[..n + i] == batch + rest[..i];
      NetConcat(batch, rest[..i], a);
    }
  }

  // ---------- What holds even when the cache has run ahead ----------

  // Nothing is negative, and an address with a pending amount is cached.
  ghost predicate Backed(db: Balances, cache: Balances, pending: seq<Event>) {
    && (forall a :: Bal(db, a) >= 0 && Cached(db, cache, a) >= 0)
    && (forall e | e in pending && e.amount != 0 :: e.address in cache)
  }

  // An event its producer may post: a debit is covered by the cached balance, and a new vesting carries no amount.
  predicate Postable(db: Balances, cache: Balances, e: Event) {
    if Debit(e) then Cached(db, cache, e.address) >= e.amount else e.reason.VestingCreated? ==> e.amount == 0
  }

  predicate Credits(es: seq<Event>) {
    forall e | e in es :: !Debit(e) && (e.reason.VestingCreated? ==> e.amount == 0)
  }

  lemma PostIs(db: Balances, cache: Balances, e: Event, a: Addr)
    requires e.reason.VestingCreated? ==> e.amount == 0
    ensures Cached(db, Post(db, cache, e), a) == Cached(db, cache, a) + if e.address == a then Signed(e) else 0
    ensures cache.Keys <= Post(db, cache, e).Keys && (e.amount != 0 ==> e.address in Post(db, cache, e))
  {}

  lemma PostBacks(db: Balances, cache: Balances, pending: seq<Event>, e: Event)
    requires Backed(db, cache, pending) && Postable(db, cache, e)
    ensures Backed(db, Post(db, cache, e), pending + [e])
  {
    forall a ensures Cached(db, Post(db, cache, e), a) >= 0 {
      PostIs(db, cache, e, a);
    }
    PostIs(db, cache, e, e.address);
  }

  lemma {:induction false} PostAllConcat(db: Balances, cache: Balances, es: seq<Event>, fs: seq<Event>)
    ensures PostAll(db, cache, es + fs) == PostAll(db, PostAll(db, cache, es), fs)
  {
    hide Post;
    if fs == [] {
      assert es + fs == es;
    } else {
      assert (es + fs)[..|es + fs| - 1] == es + fs[..|fs| - 1];
      PostAllConcat(db, cache, es, fs[..|fs| - 1]);
    }
  }

  /** Posting moves every cached balance by the sum of its events. */
  lemma {:induction false} PostAllIs(db: Balances, cache: Balances, es: seq<Event>, a: Addr)
    requires forall e | e in es :: e.reason.VestingCreated? ==> e.amount == 0
    ensures Cached(db, PostAll(db, cache, es), a) == Cached(db, cache, a) + Net(es, a)
  {
    hide Cached, Post;
    if es != [] {
      PostAllIs(db, cache, es[..|es| - 1], a);
      PostIs(db, PostAll(db, cache, es[..|es| - 1]), es[|es| - 1], a);
    }
  }

  lemma {:induction false} CreditsBack(db: Balances, cache: Balances, pending: seq<Event>, es: seq<Event>)
    requires Backed(db, cache, pending) && Credits(es)
    ensures Backed(db, PostAll(db, cache, es), pending + es)
  {
    hide Backed, Post;
    if es == [] {
      assert pending + es == pending;
    } else {
      var front, last := es[..|es| - 1], es[|es| - 1];
      CreditsBack(db, cache, pending, front);
      assert last in es;
      PostBacks(db, PostAll(db, cache, front), pending + front, last);
      assert pending + es == pending + front + [last];
    }
  }

  // Folding some of the events at the front of the queue moves no cached balance.
  lemma FoldBacks(db: Balances, cache: Balances, pending: seq<Event>, n: nat, valid: seq<Event>)
    requires Backed(db, cache, pending) && n <= |pending| && (forall e | e in valid :: e in pending[..n])
    requires forall a :: Bal(db, a) + Net(valid, a) >= 0
    ensures Backed(ApplyAll(db, valid), cache, pending[n..])
    ensures forall a :: Cached(ApplyAll(db, valid), cache, a) == Cached(db, cache, a)
  {
    hide ApplyAll, Net;
    ApplyAllIs(db, valid);
    forall a ensures Cached(ApplyAll(db, valid), cache, a) == Cached(db, cache, a) {
      if a !in cache {
        assert forall e | e in valid :: e in pending;
        NetAbsent(valid, a);
      }
    }
  }

  // ---------- Restarting ----------

  // A restart caches the database rows as they are, and only then folds what is pending.
  function Restart(db: Balances): Balances {
    db
  }

  /** After a restart the cache is right exactly when the pending events cancel out at every address that has a row. */
  lemma RestartIff(db: Balances, pending: seq<Event>)
    ensures var db' := ApplyAll(db, pending);
            (forall a :: Cached(db', Restart(db), a) == Bal(db', a)) <==> (forall a | a in db :: Net(pending, a) == 0)
  {
    var db' := ApplyAll(db, pending);
    ApplyAllIs(db, pending);
    if forall a :: Cached(db', Restart(db), a) == Bal(db', a) {
      forall a | a in db ensures Net(pending, a) == 0 {
        assert Cached(db', Restart(db), a) == Bal(db', a);
      }
    }
  }

  /** One unfolded payment is enough: the restarted cache still holds the spent amount. */
  lemma RestartCanResurrectBalance()
    ensures var db, pending := map["a" := 5], [Event(TaskPayment(0), "a", 5)];
            Cached(ApplyAll(db, pending), Restart(db), "a") == 5 && Bal(ApplyAll(db, pending), "a") == 0
  {
    var db, pending := map["a" := 5], [Event(TaskPayment(0), "a", 5)];
    assert pending[..0] == [];
    assert ApplyAll(db, pending) == ApplyOne(db, pending[0]);
  }
}

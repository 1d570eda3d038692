/** The whole relay as one machine: every committed transaction with its cache update is a step, a refused request
    leaves at most cache updates behind, and a run is any sequence of steps. */
module Relay {
  import opened Basics
  import opened Model
  import opened Lifecycle
  import opened Invariant
  import opened Moves
  import opened Vestings
  import opened Ledger
  import opened Audit
  import opened Steps
  import opened Rollback
  import opened Transactions

  datatype State = State(
    w: World,
    seen: set<Task>,                     // task rows handlers have read so far
    withdraws: map<nat, WithdrawRecord>,
    run: Option<nat>,                    // cursor of the vesting release run in progress
    mark: nat,                           // events before this one are no longer pending
    rejected: seq<Event>,
    db: Balances,
    cache: Balances)

  function Pending(s: State): seq<Event> {
    if s.mark <= |s.w.log| then s.w.log[s.mark..] else []
  }

  datatype Step =
    | ReadTask(k: Key)
    | QueryBalance(address: Addr)
    | CreateTask(k: Key, creator: Addr, fee: nat, kind: TaskType, createTime: Option<int>, queueTimeout: nat,
        timeout: nat)
    | Handle(handler: Handler)
    | SeeDeposit(tx: string, network: string)
    | RequestWithdraw(id: nat, address: Addr, amount: nat, fee: nat)
    | FulfillWithdraw(id: nat)
    | RejectWithdraw(id: nat)
    | GrantVesting(id: nat, grant: Vesting)
    | BeginReleases
    | ReleaseVesting(id: nat, now: int)
    | EndReleases
    | SlashGrants(address: Addr)
    | RestoreGrants(address: Addr)
    | SyncBatch

  const BATCH := 50

  function Commit(s: State, r: Tx): State {
    if r.Err? then s
    else s.(w := r.value, cache := PostAll(s.db, s.cache, NewEvents(s.w.log, r.value.log)))
  }

  // A request's transaction is committed; or it is rolled back, without the cache updates it has already made.
  function Answer(cfg: Config, s: State, h: Handler): State {
    var r := Transact(cfg, s.w, h);
    if r.Ok? then Commit(s, r) else s.(cache := PostAll(s.db, s.cache, Leftover(cfg, s.w, h)))
  }

  function Load(db: Balances, cache: Balances, a: Addr): Balances {
    cache[a := Cached(db, cache, a)]
  }

  function Withdraw(s: State, id: nat, a: Addr, amount: nat, fee: nat): State {
    if id in s.withdraws then s
    else if Cached(s.db, s.cache, a) < amount + fee then s.(cache := Load(s.db, s.cache, a))
    else
      Commit(s.(withdraws := s.withdraws[id := WithdrawRecord(a, amount, fee, WithdrawPending, false)]),
             Ok(Emit(s.w, [Event(Reason.Withdraw(id), a, amount + fee)])))
  }

  function Fulfill(cfg: Config, s: State, id: nat): State {
    if id !in s.withdraws || !s.withdraws[id].status.WithdrawPending? || !s.withdraws[id].processed then s
    else
      var r := s.withdraws[id];
      Commit(s.(withdraws := s.withdraws[id := r.(status := WithdrawSuccess)]),
             Ok(Emit(s.w, if r.fee > 0 then [Event(WithdrawFeeIncome(id), cfg.withdrawFeeAddress, r.fee)] else [])))
  }

  function Reject(s: State, id: nat): State {
    if id !in s.withdraws || !s.withdraws[id].status.WithdrawPending? || !s.withdraws[id].processed then s
    else
      var r := s.withdraws[id];
      Commit(s.(withdraws := s.withdraws[id := r.(status := WithdrawFailed)]),
             Ok(Emit(s.w, [Event(WithdrawRefund(id), r.address, r.amount + r.fee)])))
  }

  function Processed(ws: map<nat, WithdrawRecord>, valid: seq<Event>): (r: map<nat, WithdrawRecord>)
    ensures r.Keys == ws.Keys
  {
    map id | id in ws ::
      if exists e | e in valid :: e.reason == Reason.Withdraw(id) then ws[id].(processed := true) else ws[id]
  }

  function BooksOf(s: State): Books {
    Books(s.w.tasks, s.w.vestings, s.withdraws)
  }

  function Sync(cfg: Config, s: State): State {
    var pending := Pending(s);
    var batch := pending[..if |pending| < BATCH then |pending| else BATCH];
    var valid := Accepted(cfg, BooksOf(s), s.db, batch);
    s.(mark := s.mark + |batch|,
       rejected := s.rejected + Rejected(cfg, BooksOf(s), s.db, batch),
       db := ApplyAll(s.db, valid),
       withdraws := Processed(s.withdraws, valid))
  }

  /** One fold takes the oldest fifty pending events, or all if there are fewer, and leaves the log and the cache. */
  lemma FoldTakesFifty(cfg: Config, s: State)
    requires s.mark <= |s.w.log|
    ensures var s' := Sync(cfg, s);
            && s'.mark == (if s.mark + 50 <= |s.w.log| then s.mark + 50 else |s.w.log|)
            && s'.w == s.w && s'.cache == s.cache
            && s'.db == ApplyAll(s.db, Accepted(cfg, BooksOf(s), s.db, s.w.log[s.mark..s'.mark]))
            && s'.rejected == s.rejected + Rejected(cfg, BooksOf(s), s.db, s.w.log[s.mark..s'.mark])
  {
    hide Accepted, Rejected, ApplyAll, Processed, BooksOf;
    var n := if |s.w.log| - s.mark < 50 then |s.w.log| - s.mark else 50;
    FrontOf(s.w.log, s.mark, n);
  }

  lemma FrontOf(log: seq<Event>, mark: nat, n: nat)
    requires mark + n <= |log|
    ensures log[mark..][..n] == log[mark..mark + n]
  {}

  function Next(cfg: Config, s: State, step: Step): State {
    match step
    case ReadTask(k) => if k in s.w.tasks then s.(seen := s.seen + {s.w.tasks[k]}) else s
    case QueryBalance(a) => s.(cache := Load(s.db, s.cache, a))
    case CreateTask(k, creator, fee, kind, createTime, queueTimeout, timeout) =>
      if Cached(s.db, s.cache, creator) < fee then s.(cache := Load(s.db, s.cache, creator))
      else Commit(s, Create(s.w, NewTask(cfg, k, creator, fee, kind, createTime, queueTimeout, timeout)))
    case Handle(h) => if Copies(h) <= s.seen then Answer(cfg, s, h) else s
    case SeeDeposit(tx, network) =>
      if (tx, network) !in cfg.deposits || Tally(s.w.log, Deposit(tx, network)) > 0 then s
      else
        var d := cfg.deposits[(tx, network)];
        Commit(s, Ok(Emit(s.w, [Event(Deposit(tx, network), d.sender, d.amount)])))
    case RequestWithdraw(id, a, amount, fee) => Withdraw(s, id, a, amount, fee)
    case FulfillWithdraw(id) => Fulfill(cfg, s, id)
    case RejectWithdraw(id) => Reject(s, id)
    case GrantVesting(id, v) => Commit(s, Grant(s.w, id, v))
    case BeginReleases =>
      if s.run.Some? || exists e | e in Pending(s) :: e.reason.VestingRelease? then s else s.(run := Some(0))
    case ReleaseVesting(id, now) =>
      if s.run.None? || id <= s.run.value then s
      else Commit(s, Release(s.w, id, now)).(run := if Release(s.w, id, now).Ok? then Some(id) else None)
    case EndReleases => s.(run := None)
    case SlashGrants(a) => s.(w := s.w.(vestings := SlashVestings(s.w.vestings, a)))
    case RestoreGrants(a) => s.(w := s.w.(vestings := RestoreVestings(s.w.vestings, a)))
    case SyncBatch => Sync(cfg, s)
  }

  function Run(cfg: Config, s: State, steps: seq<Step>): State {
    if steps == [] then s else Next(cfg, Run(cfg, s, steps[..|steps| - 1]), steps[|steps| - 1])
  }

  // A relay with accounts but no tasks, nodes or grants yet, and an empty pending queue.
  ghost predicate Initial(s: State) {
    && s.w == World(map[], map[], map[], []) && s.seen == {} && s.withdraws == map[] && s.run.None?
    && s.mark == 0 && s.rejected == []
    && (forall a | a in s.db :: s.db[a] >= 0)
    && (forall a | a in s.cache :: s.cache[a] == Bal(s.db, a))
  }

  // ---------- The invariant ----------

  predicate OtherEventOk(cfg: Config, ws: map<nat, WithdrawRecord>, e: Event) {
    match e.reason
    case Deposit(tx, network) =>
      (tx, network) in cfg.deposits && cfg.deposits[(tx, network)] == DepositTx(e.address, e.amount)
    case Withdraw(id) => id in ws
    case WithdrawRefund(id) => id in ws
    case WithdrawFeeIncome(id) => id in ws
    case _ => true
  }

  predicate OthersOk(cfg: Config, ws: map<nat, WithdrawRecord>, log: seq<Event>) {
    forall i | 0 <= i < |log| :: OtherEventOk(cfg, ws, log[i])
  }

  ghost predicate SeenOk(seen: set<Task>, w: World) {
    forall t | t in seen :: Stale(w, t)
  }

  // What every step keeps.
  ghost predicate RelayInv(cfg: Config, s: State) {
    && Inv(cfg, s.w)
    && SeenOk(s.seen, s.w)
    && Chained(s.w)
    && OthersOk(cfg, s.withdraws, s.w.log)
    && s.mark <= |s.w.log|
    && OnePending(Pending(s), s.run)
    && Backed(s.db, s.cache, Pending(s))
  }

  // What every step keeps that does not leak: the cache is the database plus what is pending, every prefix of which
  // is covered, and nothing was rejected.
  ghost predicate Balanced(s: State) {
    InStep(s.db, s.cache, Pending(s)) && s.rejected == []
  }

  // How far a cached balance is from the sum of all events.
  function Drift(s: State, a: Addr): int {
    Cached(s.db, s.cache, a) - Net(s.w.log, a)
  }

  // A step of the books without a leak.
  ghost predicate BooksKept(s: State, s': State) {
    && Backed(s'.db, s'.cache, Pending(s'))
    && (Balanced(s) ==> Balanced(s'))
    && (forall a :: Drift(s', a) == Drift(s, a))
  }

  ghost predicate Stepped(cfg: Config, s: State, s': State) {
    RelayInv(cfg, s') && BooksKept(s, s')
  }

  // The events a step posts to the cache without logging them, and when there is any amount among them.
  function Leaked(cfg: Config, s: State, step: Step): seq<Event> {
    if step.Handle? && Copies(step.handler) <= s.seen && Transact(cfg, s.w, step.handler).Err?
    then Leftover(cfg, s.w, step.handler) else []
  }

  predicate LeaksAt(s: State, step: Step) {
    step.Handle? && Leaks(s.w, step.handler)
  }

  // The database balance and the rejected amounts, less what is no longer pending: the same in every state.
  function Folded(s: State, a: Addr): int {
    if s.mark <= |s.w.log| then Bal(s.db, a) + Net(s.rejected, a) - Net(s.w.log[..s.mark], a) else 0
  }

  // What any later state keeps of an earlier one: rows only moved forward, the log and the rejections only grew, every
  // folded event moved the database or was rejected, and if none was, the database is the earlier one with the events
  // folded since applied one at a time.
  ghost predicate Follows(s: State, s': State) {
    && Evolves(s.w.tasks, s'.w.tasks)
    && |s.w.log| <= |s'.w.log| && s'.w.log[..|s.w.log|] == s.w.log
    && s.mark <= s'.mark <= |s'.w.log|
    && |s.rejected| <= |s'.rejected| && s'.rejected[..|s.rejected|] == s.rejected
    && (forall a :: Folded(s', a) == Folded(s, a))
    && (s'.rejected == s.rejected ==> s'.db == ApplyAll(s.db, s'.w.log[s.mark..s'.mark]))
  }

  lemma FollowsUnfolded(s: State, s': State)
    requires s.mark == s'.mark <= |s.w.log| <= |s'.w.log| && s'.w.log[..|s.w.log|] == s.w.log
    requires s'.db == s.db && s'.rejected == s.rejected && Evolves(s.w.tasks, s'.w.tasks)
    ensures Follows(s, s')
  {
    assert s'.w.log[s.mark..s'.mark] == [];
    assert s'.w.log[..s.mark] == s.w.log[..s.mark];
  }

  lemma {:induction false} ApplyAllConcat(db: Balances, a: seq<Event>, b: seq<Event>)
    ensures ApplyAll(db, a + b) == ApplyAll(ApplyAll(db, a), b)
  {
    if b == [] {
      assert a + b == a;
    } else {
      assert (a + b)[..|a + b| - 1] == a + b[..|b| - 1];
      ApplyAllConcat(db, a, b[..|b| - 1]);
    }
  }

  lemma FollowsTransitive(s: State, t: State, u: State)
    requires Follows(s, t) && Follows(t, u)
    ensures Follows(s, u)
  {
    hide Precedes, Folded;
    EvolvesTransitive(s.w.tasks, t.w.tasks, u.w.tasks);
    ApplyAllConcat(s.db, t.w.log[s.mark..t.mark], u.w.log[t.mark..u.mark]);
    assert t.w.log[s.mark..t.mark] == u.w.log[s.mark..t.mark];
    assert u.w.log[s.mark..u.mark] == u.w.log[s.mark..t.mark] + u.w.log[t.mark..u.mark];
    assert u.w.log[..|s.w.log|] == t.w.log[..|s.w.log|];
    assert u.rejected[..|s.rejected|] == t.rejected[..|s.rejected|];
  }

  // ---------- The books under one step ----------

  lemma SameBooks(s: State, s': State)
    requires s'.db == s.db && s'.cache == s.cache && s'.mark == s.mark && s'.rejected == s.rejected
    requires s'.w.log == s.w.log && Backed(s.db, s.cache, Pending(s))
    ensures BooksKept(s, s')
  {
    assert Pending(s') == Pending(s);
  }

  // Events logged and posted together.
  lemma PostedBooks(s: State, s': State, es: seq<Event>)
    requires s'.db == s.db && s'.mark == s.mark <= |s.w.log| && s'.rejected == s.rejected
    requires s'.w.log == s.w.log + es && s'.cache == PostAll(s.db, s.cache, es)
    requires Backed(s.db, s.cache, Pending(s))
    requires Credits(es) || (|es| == 1 && Postable(s.db, s.cache, es[0]))
    ensures BooksKept(s, s')
  {
    hide InStep, Backed, Cached, Net, PostAll, Drift, Post, Credits, Postable, Pending;
    PendingGrows(s, s', es);
    EmptyGrants(s.db, s.cache, es);
    if Credits(es) {
      CreditsBack(s.db, s.cache, Pending(s), es);
      if Balanced(s) {
        CreditsKeep(s.db, s.cache, Pending(s), es);
      }
    } else {
      PostedOne(s.db, s.cache, Pending(s), es);
    }
    PostedDrift(s, s', es);
  }

  lemma EmptyGrants(db: Balances, cache: Balances, es: seq<Event>)
    requires Credits(es) || (|es| == 1 && Postable(db, cache, es[0]))
    ensures forall e | e in es :: e.reason.VestingCreated? ==> e.amount == 0
  {}

  lemma PendingGrows(s: State, s': State, es: seq<Event>)
    requires s'.mark == s.mark <= |s.w.log| && s'.w.log == s.w.log + es
    ensures Pending(s') == Pending(s) + es
  {}

  lemma PostedOne(db: Balances, cache: Balances, pending: seq<Event>, es: seq<Event>)
    requires Backed(db, cache, pending) && |es| == 1 && Postable(db, cache, es[0])
    ensures Backed(db, PostAll(db, cache, es), pending + es)
    ensures InStep(db, cache, pending) ==> InStep(db, PostAll(db, cache, es), pending + es)
  {
    hide InStep, Backed, Cached, Net, PostAll, Post;
    PostOne(db, cache, es[0]);
    assert es == [es[0]];
    PostBacks(db, cache, pending, es[0]);
    if InStep(db, cache, pending) {
      PostKeeps(db, cache, pending, es[0]);
    }
  }

  lemma PostedDrift(s: State, s': State, es: seq<Event>)
    requires s'.db == s.db && s'.w.log == s.w.log + es && s'.cache == PostAll(s.db, s.cache, es)
    requires forall e | e in es :: e.reason.VestingCreated? ==> e.amount == 0
    ensures forall a :: Drift(s', a) == Drift(s, a)
  {
    hide Cached, Net, PostAll;
    forall a ensures Drift(s', a) == Drift(s, a) {
      PostAllIs(s.db, s.cache, es, a);
      NetConcat(s.w.log, es, a);
    }
  }

  // ---------- Task and node steps ----------

  lemma SeenForward(seen: set<Task>, w: World, w': World)
    requires SeenOk(seen, w) && Evolves(w.tasks, w'.tasks)
    ensures SeenOk(seen, w')
  {
    forall t | t in seen ensures Stale(w', t) {
      PrecedesTransitive(t, w.tasks[t.key], w'.tasks[t.key]);
    }
  }

  lemma Appended(s: State, w': World, es: seq<Event>)
    requires s.mark <= |s.w.log| && w'.log == s.w.log + es
    ensures NewEvents(s.w.log, w'.log) == es
    ensures Pending(Commit(s, Ok(w'))) == Pending(s) + es
  {}

  lemma OthersAppend(cfg: Config, ws: map<nat, WithdrawRecord>, ws': map<nat, WithdrawRecord>, log: seq<Event>,
                     es: seq<Event>)
    requires OthersOk(cfg, ws, log) && ws.Keys <= ws'.Keys
    requires forall i | 0 <= i < |es| :: OtherEventOk(cfg, ws', es[i])
    ensures OthersOk(cfg, ws', log + es)
  {
    forall i | 0 <= i < |log + es| ensures OtherEventOk(cfg, ws', (log + es)[i]) {
      if i < |log| {
        assert OtherEventOk(cfg, ws, log[i]);
      } else {
        assert (log + es)[i] == es[i - |log|];
      }
    }
  }

  lemma PendingAppend(pending: seq<Event>, es: seq<Event>, run: Option<nat>)
    requires OnePending(pending, run) && forall e | e in es :: !e.reason.VestingRelease?
    ensures OnePending(pending + es, run)
  {
    var all := pending + es;
    assert forall k | |pending| <= k < |all| :: all[k] in es;
  }

  lemma CreditedEvents(log: seq<Event>, log': seq<Event>) returns (es: seq<Event>)
    requires Credited(log, log')
    ensures log' == log + es && forall e | e in es :: TaskCredit(e)
  {
    es := log'[|log|..];
    forall e | e in es ensures TaskCredit(e) {
      var i :| 0 <= i < |es| && es[i] == e;
      assert log'[|log| + i] == e;
    }
  }

  /** A lifecycle transaction, committed with its cache update, keeps the whole invariant. */
  lemma CommitKeeps(cfg: Config, s: State, r: Tx)
    requires RelayInv(cfg, s) && Kept(cfg, s.w, r)
    ensures Stepped(cfg, s, Commit(s, r))
  {
    hide Inv, SeenOk, Chained, OthersOk, OnePending, Backed, BooksKept, Credited, Evolves, VestingsKept, Pending,
         PostAll, NewEvents;
    if r.Ok? {
      var es := CreditedEvents(s.w.log, r.value.log);
      assert forall i | 0 <= i < |es| :: es[i] in es;
      Appended(s, r.value, es);
      SeenForward(s.seen, s.w, r.value);
      ChainedOthers(s.w, r.value, es);
      OthersAppend(cfg, s.withdraws, s.withdraws, s.w.log, es);
      PendingAppend(Pending(s), es, s.run);
      PostedBooks(s, Commit(s, r), es);
      KeptIsBacked(s, Commit(s, r));
    } else {
      SameBooks(s, s);
    }
  }

  lemma KeptIsBacked(s: State, s': State)
    requires BooksKept(s, s')
    ensures Backed(s'.db, s'.cache, Pending(s'))
  {}

  // ---------- Steps of the ledger ----------

  lemma LoadKeeps(s: State, a: Addr)
    requires Backed(s.db, s.cache, Pending(s))
    ensures BooksKept(s, s.(cache := Load(s.db, s.cache, a)))
  {
    var s' := s.(cache := Load(s.db, s.cache, a));
    assert Pending(s') == Pending(s);
    forall b ensures Cached(s.db, s'.cache, b) == Cached(s.db, s.cache, b) {}
  }

  // Events about no task, with rows unchanged, leave links and settlement alone.
  lemma InvLog(cfg: Config, w: World, w': World, es: seq<Event>)
    requires Inv(cfg, w) && w'.tasks == w.tasks && w'.nodes == w.nodes && w'.log == w.log + es
    requires forall i | 0 <= i < |es| :: TaskOf(es[i].reason).None?
    ensures Inv(cfg, w')
  {
    hide NodeLink, TaskLink, RowOk, GroupOk, SettledRow, Untouched;
    forall r: Reason | TaskOf(r).Some? ensures Tally(w'.log, r) == Tally(w.log, r) {
      TallyConcat(w.log, es, r);
      TallyAbsent(es, r);
    }
    forall k: Key ensures TaskNet(w'.log, k) == TaskNet(w.log, k) {
      TaskNetConcat(w.log, es, k);
      TaskNetAbsent(es, k);
    }
    SettledSame(w.tasks, w.log, w'.log);
    EvolvesRefl(w.tasks);
    EventsOkMove(w.tasks, w.log, w.tasks, es);
  }

  lemma EvolvesRefl(tasks: map<Key, Task>)
    ensures Evolves(tasks, tasks)
  {}

  lemma SettledSame(tasks: map<Key, Task>, log: seq<Event>, log': seq<Event>)
    requires Settled(tasks, log) && forall r: Reason | TaskOf(r).Some? :: Tally(log', r) == Tally(log, r)
    requires forall k: Key :: TaskNet(log', k) == TaskNet(log, k)
    ensures Settled(tasks, log')
  {
    hide Tally, TaskNet, Owed, IncomeDue, RefundsDue;
    forall k | k in tasks ensures SettledRow(tasks, log', tasks[k]) {
      assert SettledRow(tasks, log, tasks[k]);
    }
    forall k: Key | k !in tasks ensures Untouched(log', k) {
      assert Untouched(log, k);
    }
  }

  /** One event committed together with its rows. */
  lemma EventKeeps(cfg: Config, s: State, ws: map<nat, WithdrawRecord>, w': World, e: Event)
    requires RelayInv(cfg, s) && s.withdraws.Keys <= ws.Keys
    requires Inv(cfg, w') && Evolves(s.w.tasks, w'.tasks) && Chained(w') && w'.log == s.w.log + [e]
    requires OtherEventOk(cfg, ws, e) && !e.reason.VestingRelease? && Postable(s.db, s.cache, e)
    ensures Stepped(cfg, s, Commit(s.(withdraws := ws), Ok(w')))
  {
    hide Inv, SeenOk, Chained, OthersOk, OnePending, Backed, BooksKept, Evolves, Pending, NewEvents;
    Appended(s, w', [e]);
    SeenForward(s.seen, s.w, w');
    OthersAppend(cfg, s.withdraws, ws, s.w.log, [e]);
    PendingAppend(Pending(s), [e], s.run);
    SamePending(s, ws, w');
    PostedBooks(s, Commit(s.(withdraws := ws), Ok(w')), [e]);
    KeptIsBacked(s, Commit(s.(withdraws := ws), Ok(w')));
  }

  lemma PostOne(db: Balances, cache: Balances, e: Event)
    ensures PostAll(db, cache, [e]) == Post(db, cache, e)
  {
    assert [e][..0] == [];
  }

  lemma SamePending(s: State, ws: map<nat, WithdrawRecord>, w': World)
    ensures Pending(Commit(s.(withdraws := ws), Ok(w'))) == Pending(Commit(s, Ok(w')))
  {}

  lemma CreateTaskKeeps(cfg: Config, s: State, k: Key, creator: Addr, fee: nat, kind: TaskType,
                        createTime: Option<int>, queueTimeout: nat, timeout: nat)
    requires RelayInv(cfg, s) && Cached(s.db, s.cache, creator) >= fee
    ensures Stepped(cfg, s,
              Commit(s, Create(s.w, NewTask(cfg, k, creator, fee, kind, createTime, queueTimeout, timeout))))
  {
    hide Inv, SeenOk, Chained, OthersOk, OnePending, Backed, BooksKept, Evolves, Pending, NewEvents, PostAll;
    CreateStep(cfg, s.w, k, creator, fee, kind, createTime, queueTimeout, timeout);
    var r := Create(s.w, NewTask(cfg, k, creator, fee, kind, createTime, queueTimeout, timeout));
    if r.Ok? {
      ChainedOthers(s.w, r.value, [Event(TaskPayment(k), creator, fee)]);
      EventKeeps(cfg, s, s.withdraws, r.value, Event(TaskPayment(k), creator, fee));
      assert s.(withdraws := s.withdraws) == s;
    } else {
      SameBooks(s, s);
    }
  }

  /** An event about no task and no vesting, appended alone. */
  lemma EmitKeeps(cfg: Config, s: State, ws: map<nat, WithdrawRecord>, e: Event)
    requires RelayInv(cfg, s) && s.withdraws.Keys <= ws.Keys
    requires OtherEventOk(cfg, ws, e) && TaskOf(e.reason).None? && !e.reason.VestingRelease? &&
               !e.reason.VestingCreated?
    requires Debit(e) ==> Cached(s.db, s.cache, e.address) >= e.amount
    ensures Stepped(cfg, s, Commit(s.(withdraws := ws), Ok(Emit(s.w, [e]))))
  {
    hide Inv, SeenOk, Chained, OthersOk, OnePending, Backed, BooksKept, Evolves, Pending, NewEvents, PostAll;
    var w' := Emit(s.w, [e]);
    InvLog(cfg, s.w, w', [e]);
    ChainedOthers(s.w, w', [e]);
    EvolvesRefl(s.w.tasks);
    EventKeeps(cfg, s, ws, w', e);
  }

  lemma WithdrawKeeps(cfg: Config, s: State, id: nat, a: Addr, amount: nat, fee: nat)
    requires RelayInv(cfg, s)
    ensures Stepped(cfg, s, Withdraw(s, id, a, amount, fee))
  {
    hide Inv, SeenOk, Chained, OthersOk, OnePending, Backed, BooksKept, NewEvents, PostAll, Commit, Emit;
    SameBooks(s, s);
    if id !in s.withdraws {
      if Cached(s.db, s.cache, a) < amount + fee {
        LoadKeeps(s, a);
      } else {
        var ws := s.withdraws[id := WithdrawRecord(a, amount, fee, WithdrawPending, false)];
        EmitKeeps(cfg, s, ws, Event(Reason.Withdraw(id), a, amount + fee));
      }
    }
  }

  lemma FulfillKeeps(cfg: Config, s: State, id: nat)
    requires RelayInv(cfg, s)
    ensures Stepped(cfg, s, Fulfill(cfg, s, id))
  {
    hide Inv, SeenOk, Chained, OnePending, Backed, BooksKept;
    SameBooks(s, s);
    if id in s.withdraws && s.withdraws[id].status.WithdrawPending? && s.withdraws[id].processed {
      var r := s.withdraws[id];
      var ws := s.withdraws[id := r.(status := WithdrawSuccess)];
      if r.fee > 0 {
        EmitKeeps(cfg, s, ws, Event(WithdrawFeeIncome(id), cfg.withdrawFeeAddress, r.fee));
      } else {
        OthersAppend(cfg, s.withdraws, ws, s.w.log, []);
        NothingEmitted(s.(withdraws := ws));
        SameBooks(s, s.(withdraws := ws));
      }
    }
  }

  lemma NothingEmitted(s: State)
    ensures Commit(s, Ok(Emit(s.w, []))) == s
  {
    assert s.w.log + [] == s.w.log && s.w.log[|s.w.log|..] == [];
    assert Emit(s.w, []) == s.w;
  }

  lemma RejectKeeps(cfg: Config, s: State, id: nat)
    requires RelayInv(cfg, s)
    ensures Stepped(cfg, s, Reject(s, id))
  {
    hide Inv, SeenOk, Chained, OthersOk, OnePending, Backed, BooksKept, NewEvents, PostAll, Commit, Emit;
    SameBooks(s, s);
    if id in s.withdraws && s.withdraws[id].status.WithdrawPending? && s.withdraws[id].processed {
      var r := s.withdraws[id];
      EmitKeeps(cfg, s, s.withdraws[id := r.(status := WithdrawFailed)],
                Event(WithdrawRefund(id), r.address, r.amount + r.fee));
    }
  }

  lemma DepositKeeps(cfg: Config, s: State, tx: string, network: string)
    requires RelayInv(cfg, s)
    ensures Stepped(cfg, s, Next(cfg, s, SeeDeposit(tx, network)))
  {
    hide Inv, SeenOk, Chained, OthersOk, OnePending, Backed, BooksKept, NewEvents, PostAll, Commit, Emit;
    SameBooks(s, s);
    if (tx, network) in cfg.deposits {
      var d := cfg.deposits[(tx, network)];
      EmitKeeps(cfg, s, s.withdraws, Event(Deposit(tx, network), d.sender, d.amount));
      assert s.(withdraws := s.withdraws) == s;
    }
  }

  // ---------- Vesting steps ----------

  lemma GrantStep(cfg: Config, s: State, id: nat, v: Vesting)
    requires RelayInv(cfg, s)
    ensures Stepped(cfg, s, Commit(s, Grant(s.w, id, v)))
  {
    hide Inv, SeenOk, Chained, OthersOk, OnePending, Backed, BooksKept, Evolves, Pending, NewEvents, PostAll;
    SameBooks(s, s);
    var r := Grant(s.w, id, v);
    if r.Ok? {
      var e := Event(VestingCreated(id), v.address, 0);
      GrantKeeps(s.w, id, v);
      InvLog(cfg, s.w, r.value, [e]);
      EvolvesRefl(s.w.tasks);
      EventKeeps(cfg, s, s.withdraws, r.value, e);
      assert s.(withdraws := s.withdraws) == s;
    }
  }

  lemma BeginKeeps(cfg: Config, s: State)
    requires RelayInv(cfg, s)
    ensures Stepped(cfg, s, Next(cfg, s, BeginReleases))
  {
    hide Inv, SeenOk, Chained, OthersOk, Backed, BooksKept, OnePending;
    var s' := Next(cfg, s, BeginReleases);
    assert Pending(s') == Pending(s);
    if s'.run != s.run {
      NoneReleased(Pending(s));
    }
    SameBooks(s, s');
  }

  lemma NoneReleased(pending: seq<Event>)
    requires forall e | e in pending :: !e.reason.VestingRelease?
    ensures OnePending(pending, Some(0))
  {
    forall i | 0 <= i < |pending| ensures !pending[i].reason.VestingRelease? {
      assert pending[i] in pending;
    }
  }

  lemma LinkPending(pending: seq<Event>, e: Event, run: nat)
    requires OnePending(pending, Some(run)) && e.reason.VestingRelease? && run < e.reason.vesting
    ensures OnePending(pending + [e], Some(e.reason.vesting))
  {}

  lemma CursorMoves(pending: seq<Event>, run: nat, id: nat)
    requires OnePending(pending, Some(run)) && run <= id
    ensures OnePending(pending, Some(id))
  {}

  lemma ReleaseStep(cfg: Config, s: State, id: nat, now: int)
    requires RelayInv(cfg, s)
    ensures Stepped(cfg, s, Next(cfg, s, ReleaseVesting(id, now)))
  {
    hide Inv, SeenOk, Chained, OthersOk, OnePending, Backed, BooksKept, Evolves, Release, Pending, PostAll, NewEvents,
         ReleasedUpTo;
    SameBooks(s, s);
    SameBooks(s, s.(run := None));
    SameBooks(s, s.(run := Some(id)));
    if s.run.Some? && s.run.value < id {
      ReleaseKeeps(s.w, id, now);
      var r := Release(s.w, id, now);
      if r.Err? {
        RunEnds(s);
        SameRun(s, None);
      } else if r.value.log == s.w.log && r.value.vestings == s.w.vestings {
        assert r.value == s.w;
        NothingEmitted(s);
        CursorMoves(Pending(s), s.run.value, id);
        SameRun(s, Some(id));
        assert Commit(s, r) == s by {
          NothingNew(s);
        }
      } else {
        var to: nat :| ReleasedUpTo(s.w, r.value, id, to);
        LinkStep(cfg, s, r.value, id, to);
      }
    }
  }

  lemma NothingNew(s: State)
    ensures Commit(s, Ok(s.w)) == s
  {}

  lemma RunEnds(s: State)
    requires OnePending(Pending(s), s.run)
    ensures OnePending(Pending(s.(run := None)), None)
  {}

  lemma SameRun(s: State, run: Option<nat>)
    ensures Pending(s.(run := run)) == Pending(s)
  {}

  lemma LinkStep(cfg: Config, s: State, w': World, id: nat, to: nat)
    requires RelayInv(cfg, s) && s.run.Some? && s.run.value < id
    requires ReleasedUpTo(s.w, w', id, to) && w'.tasks == s.w.tasks && w'.nodes == s.w.nodes && Chained(w')
    ensures Stepped(cfg, s, Commit(s, Ok(w')).(run := Some(id)))
  {
    hide Inv, SeenOk, Chained, OthersOk, OnePending, Backed, BooksKept, Evolves, Pending, NewEvents;
    var e := ReleaseEvent(id, s.w.vestings[id], to);
    InvLog(cfg, s.w, w', [e]);
    Appended(s, w', [e]);
    EvolvesRefl(s.w.tasks);
    SeenForward(s.seen, s.w, w');
    OthersAppend(cfg, s.withdraws, s.withdraws, s.w.log, [e]);
    LinkPending(Pending(s), e, s.run.value);
    SameRun(Commit(s, Ok(w')), Some(id));
    PostedBooks(s, Commit(s, Ok(w')).(run := Some(id)), [e]);
    KeptIsBacked(s, Commit(s, Ok(w')).(run := Some(id)));
  }

  lemma GrantsFlagged(cfg: Config, s: State, vs: map<nat, Vesting>)
    requires RelayInv(cfg, s) && VestingsKept(s.w.vestings, vs)
    ensures Stepped(cfg, s, s.(w := s.w.(vestings := vs)))
  {
    hide OthersOk, OnePending, Backed, BooksKept;
    SameBooks(s, s.(w := s.w.(vestings := vs)));
    var w' := s.w.(vestings := vs);
    assert w'.log == s.w.log + [];
    InvLog(cfg, s.w, w', []);
    ChainedOthers(s.w, w', []);
  }

  // ---------- Folding ----------

  lemma AllAdmissible(cfg: Config, s: State)
    requires RelayInv(cfg, s)
    ensures forall i | 0 <= i < |Pending(s)| :: Admissible(cfg, BooksOf(s), Pending(s)[i])
  {
    hide Backed, GroupsOk, Linked, RowsOk, Settled;
    forall i | 0 <= i < |Pending(s)| ensures Admissible(cfg, BooksOf(s), Pending(s)[i]) {
      var e := s.w.log[s.mark + i];
      assert TaskEventOk(s.w.tasks, e) && VestingEventOk(s.w.vestings, e) && OtherEventOk(cfg, s.withdraws, e);
      if e.reason.VestingRelease? {
        PendingReleaseIsLast(s.w, s.mark, s.run, s.mark + i);
      }
    }
  }

  lemma SolventPrefix(db: Balances, pending: seq<Event>, n: nat)
    requires Solvent(db, pending) && n <= |pending|
    ensures Solvent(db, pending[..n])
  {
    forall a, i | 0 <= i <= n ensures Bal(db, a) + Net(pending[..n][..i], a) >= 0 {
      assert pending[..n][..i] == pending[..i];
    }
  }

  /** While the books balance the validator accepts the whole batch. */
  lemma BatchAccepted(cfg: Config, s: State, n: nat)
    requires RelayInv(cfg, s) && Balanced(s) && n <= |Pending(s)|
    ensures var batch := Pending(s)[..n];
            Accepted(cfg, BooksOf(s), s.db, batch) == batch && Rejected(cfg, BooksOf(s), s.db, batch) == []
  {
    hide Inv, SeenOk, Chained, OthersOk, OnePending, Backed, Admissible, Solvent, Pending;
    AllAdmissible(cfg, s);
    SolventPrefix(s.db, Pending(s), n);
    NothingRejected(cfg, BooksOf(s), s.db, Pending(s)[..n]);
  }

  lemma PendingShrinks(pending: seq<Event>, run: Option<nat>, n: nat)
    requires OnePending(pending, run) && n <= |pending|
    ensures OnePending(pending[n..], run)
  {}

  lemma SyncBooks(cfg: Config, s: State)
    requires RelayInv(cfg, s)
    ensures BooksKept(s, Sync(cfg, s))
  {
    hide Inv, SeenOk, Chained, OthersOk, OnePending, InStep, ApplyAll, Processed, Accepted, Rejected;
    var pending, s' := Pending(s), Sync(cfg, s);
    var n := if |pending| < BATCH then |pending| else BATCH;
    var valid := Accepted(cfg, BooksOf(s), s.db, pending[..n]);
    assert pending[n..] == Pending(s');
    AcceptedCovers(cfg, BooksOf(s), s.db, pending[..n]);
    FoldBacks(s.db, s.cache, pending, n, valid);
    if Balanced(s) {
      BatchAccepted(cfg, s, n);
      FoldKeeps(s.db, s.cache, pending, n);
    }
  }

  lemma SyncKeeps(cfg: Config, s: State)
    requires RelayInv(cfg, s)
    ensures Stepped(cfg, s, Sync(cfg, s))
  {
    hide Inv, SeenOk, Chained, OthersOk, OnePending, Backed, BooksKept, ApplyAll, Processed, Accepted, Rejected;
    var pending := Pending(s);
    var n := if |pending| < BATCH then |pending| else BATCH;
    SyncBooks(cfg, s);
    KeptIsBacked(s, Sync(cfg, s));
    PendingShrinks(pending, s.run, n);
    OthersAppend(cfg, s.withdraws, Sync(cfg, s).withdraws, s.w.log, []);
    assert s.w.log + [] == s.w.log;
    assert pending[n..] == Pending(Sync(cfg, s));
  }

  // ---------- Every step, every run ----------

  lemma HandleKeeps(cfg: Config, s: State, h: Handler)
    requires RelayInv(cfg, s) && Copies(h) <= s.seen
    ensures Stepped(cfg, s, Commit(s, Transact(cfg, s.w, h)))
    ensures Kept(cfg, s.w, Transact(cfg, s.w, h))
  {
    hide Inv, Chained, OthersOk, OnePending, Backed, Stepped, Transact, Commit, Kept, Stale;
    TransactKeeps(cfg, s.w, h);
    CommitKeeps(cfg, s, Transact(cfg, s.w, h));
  }

  // A step of the books that posts amounts without logging them.
  ghost predicate BooksLeak(cfg: Config, s: State, s': State, leaked: seq<Event>, leaks: bool) {
    && RelayInv(cfg, s')
    && (forall a :: Drift(s', a) == Drift(s, a) + Net(leaked, a))
    && (Balanced(s) ==> (Balanced(s') <==> !leaks))
  }

  lemma NoLeak(cfg: Config, s: State, s': State)
    requires Stepped(cfg, s, s')
    ensures BooksLeak(cfg, s, s', [], false)
  {
    hide RelayInv, Balanced, Drift;
  }

  lemma {:induction false} RefundsAreCredits(es: seq<Event>)
    requires forall e | e in es :: e.reason.TaskRefund?
    ensures Credits(es)
  {}

  /** A refused request changes the cache alone; the books stay balanced exactly when it leaks nothing. */
  lemma RefusedLeaks(cfg: Config, s: State, h: Handler)
    requires RelayInv(cfg, s) && Transact(cfg, s.w, h).Err?
    ensures BooksLeak(cfg, s, Answer(cfg, s, h), Leftover(cfg, s.w, h), Leaks(s.w, h))
  {
    hide Inv, SeenOk, Chained, OthersOk, OnePending, Transact, Leftover, Leaks, Net, Cached, PostAll, SomeNet;
    var s', es := Answer(cfg, s, h), Leftover(cfg, s.w, h);
    LeftoverIff(cfg, s.w, h);
    RefundsAreCredits(es);
    CreditsBack(s.db, s.cache, Pending(s), es);
    assert Pending(s') == Pending(s);
    forall a ensures Cached(s.db, s'.cache, a) == Cached(s.db, s.cache, a) + Net(es, a) {
      PostAllIs(s.db, s.cache, es, a);
    }
    BackedFront(s.db, s'.cache, Pending(s), es);
    if Balanced(s) {
      LeakUnbalances(s, s', es);
    }
  }

  lemma BackedFront(db: Balances, cache: Balances, pending: seq<Event>, es: seq<Event>)
    requires Backed(db, cache, pending + es)
    ensures Backed(db, cache, pending)
  {}

  lemma LeakUnbalances(s: State, s': State, es: seq<Event>)
    requires Balanced(s) && s'.db == s.db && Pending(s') == Pending(s) && s'.rejected == s.rejected
    requires Backed(s'.db, s'.cache, Pending(s')) && (forall a :: Net(es, a) >= 0)
    requires forall a :: Cached(s.db, s'.cache, a) == Cached(s.db, s.cache, a) + Net(es, a)
    ensures Balanced(s') <==> !SomeNet(es)
  {
    hide Solvent, Net, Cached, Bal;
    if SomeNet(es) {
      var a :| Net(es, a) > 0;
      assert Cached(s.db, s.cache, a) == Bal(s.db, a) + Net(Pending(s), a);
      NotInStep(s'.db, s'.cache, Pending(s'), a);
    } else {
      forall a ensures Cached(s'.db, s'.cache, a) == Bal(s'.db, a) + Net(Pending(s'), a) {
        assert Net(es, a) == 0;
      }
    }
  }

  lemma NotInStep(db: Balances, cache: Balances, pending: seq<Event>, a: Addr)
    requires Cached(db, cache, a) != Bal(db, a) + Net(pending, a)
    ensures !InStep(db, cache, pending)
  {}

  lemma AnswerLeaks(cfg: Config, s: State, h: Handler)
    requires RelayInv(cfg, s) && Copies(h) <= s.seen
    ensures BooksLeak(cfg, s, Answer(cfg, s, h), Leaked(cfg, s, Handle(h)), Leaks(s.w, h))
  {
    hide RelayInv, Stepped, BooksLeak, Transact, Leftover, Leaks, Commit, Copies, Kept;
    if Transact(cfg, s.w, h).Ok? {
      HandleKeeps(cfg, s, h);
      NoLeak(cfg, s, Commit(s, Transact(cfg, s.w, h)));
      InvOf(cfg, s);
      LeaksRefused(cfg, s.w, h);
    } else {
      RefusedLeaks(cfg, s, h);
    }
  }

  lemma InvOf(cfg: Config, s: State)
    requires RelayInv(cfg, s)
    ensures Inv(cfg, s.w)
  {}

  /** Every step but a request keeps the books as they are. */
  lemma QuietStepKeeps(cfg: Config, s: State, step: Step)
    requires RelayInv(cfg, s) && !step.Handle?
    ensures Stepped(cfg, s, Next(cfg, s, step))
  {
    hide Inv, Chained, OthersOk, OnePending, Backed, BooksKept, Transact, Commit, Release, Grant, Withdraw, Fulfill,
         Reject, Sync, Load;
    SameBooks(s, s);
    match step
    case ReadTask(k) =>
      EvolvesRefl(s.w.tasks);
      if k in s.w.tasks {
        InvKey(cfg, s.w, k);
        SameBooks(s, Next(cfg, s, step));
      }
    case QueryBalance(a) =>
      LoadKeeps(s, a);
      KeptIsBacked(s, Next(cfg, s, step));
    case CreateTask(k, creator, fee, kind, createTime, queueTimeout, timeout) =>
      LoadKeeps(s, creator);
      KeptIsBacked(s, s.(cache := Load(s.db, s.cache, creator)));
      if Cached(s.db, s.cache, creator) >= fee {
        CreateTaskKeeps(cfg, s, k, creator, fee, kind, createTime, queueTimeout, timeout);
      }
    case SeeDeposit(tx, network) => DepositKeeps(cfg, s, tx, network);
    case RequestWithdraw(id, a, amount, fee) => WithdrawKeeps(cfg, s, id, a, amount, fee);
    case FulfillWithdraw(id) => FulfillKeeps(cfg, s, id);
    case RejectWithdraw(id) => RejectKeeps(cfg, s, id);
    case GrantVesting(id, v) => GrantStep(cfg, s, id, v);
    case BeginReleases => BeginKeeps(cfg, s);
    case ReleaseVesting(id, now) => ReleaseStep(cfg, s, id, now);
    case EndReleases =>
      RunEnds(s);
      SameBooks(s, s.(run := None));
    case SlashGrants(a) =>
      SlashVestingsKept(s.w.vestings, a);
      GrantsFlagged(cfg, s, SlashVestings(s.w.vestings, a));
    case RestoreGrants(a) => GrantsFlagged(cfg, s, RestoreVestings(s.w.vestings, a));
    case SyncBatch => SyncKeeps(cfg, s);
  }

  /** Every step keeps the invariant. It moves the cache away from the ledger by exactly what it leaks, and balanced
      books stay balanced exactly when it leaks nothing. */
  lemma StepKeeps(cfg: Config, s: State, step: Step)
    requires RelayInv(cfg, s)
    ensures RelayInv(cfg, Next(cfg, s, step))
    ensures forall a :: Drift(Next(cfg, s, step), a) == Drift(s, a) + Net(Leaked(cfg, s, step), a)
    ensures Balanced(s) ==> (Balanced(Next(cfg, s, step)) <==> !LeaksAt(s, step))
  {
    hide RelayInv, Stepped, Balanced, Drift, Leaks, Leftover, Transact, Answer, BooksKept;
    if step.Handle? {
      if Copies(step.handler) <= s.seen {
        AnswerLeaks(cfg, s, step.handler);
      } else {
        NoCopiesNoLeak(s.w, step.handler);
      }
    } else {
      QuietStepKeeps(cfg, s, step);
      NoLeak(cfg, s, Next(cfg, s, step));
    }
  }

  lemma StepInOrder(cfg: Config, s: State, step: Step)
    requires RelayInv(cfg, s)
    ensures RelayInv(cfg, Next(cfg, s, step))
  {
    hide RelayInv, Next, Drift, Balanced, Leaked, LeaksAt;
    StepKeeps(cfg, s, step);
  }

  lemma NoCopiesNoLeak(w: World, h: Handler)
    requires Copies(h) != {}
    ensures !Leaks(w, h)
  {}

  lemma InvKey(cfg: Config, w: World, k: Key)
    requires Inv(cfg, w) && k in w.tasks
    ensures Stale(w, w.tasks[k])
  {
    hide NodeLink, RowsOk, Settled, EventsOk, GroupsOk, Rank;
    assert TaskLink(w.nodes, k, w.tasks[k]);
  }

  lemma CreateFollows(cfg: Config, s: State, step: Step)
    requires RelayInv(cfg, s) && step.CreateTask?
    ensures Follows(s, Next(cfg, s, step))
  {
    hide Inv, SeenOk, Chained, OthersOk, OnePending, Backed, PostAll, Load, Precedes, Create, NewTask, Folded;
    EvolvesRefl(s.w.tasks);
    CreateStep(cfg, s.w, step.k, step.creator, step.fee, step.kind, step.createTime, step.queueTimeout, step.timeout);
    FollowsUnfolded(s, Next(cfg, s, step));
  }

  lemma HandleFollows(cfg: Config, s: State, h: Handler)
    requires RelayInv(cfg, s) && Copies(h) <= s.seen
    ensures Follows(s, Answer(cfg, s, h))
  {
    hide Inv, SeenOk, Chained, OthersOk, OnePending, Backed, BooksKept, Transact, PostAll, Precedes, VestingsKept,
         Leftover, Folded;
    EvolvesRefl(s.w.tasks);
    HandleKeeps(cfg, s, h);
    FollowsUnfolded(s, Answer(cfg, s, h));
  }

  lemma StepFollows(cfg: Config, s: State, step: Step)
    requires RelayInv(cfg, s)
    ensures Follows(s, Next(cfg, s, step))
  {
    hide RelayInv, Follows, Answer, Sync, Release, Commit, Create, NewTask, Load, Withdraw, Fulfill, Reject, Grant,
         Emit, Pending, Tally, SlashVestings, RestoreVestings, Cached;
    MarkInLog(cfg, s);
    SameFollows(s, s);
    match step
    case ReadTask(k) => SameFollows(s, Next(cfg, s, step));
    case QueryBalance(a) => SameFollows(s, Next(cfg, s, step));
    case CreateTask(_, _, _, _, _, _, _) => CreateFollows(cfg, s, step);
    case Handle(h) =>
      if Copies(h) <= s.seen {
        HandleFollows(cfg, s, h);
      }
    case SeeDeposit(tx, network) =>
      if (tx, network) in cfg.deposits {
        var d := cfg.deposits[(tx, network)];
        EmitFollows(s, s.withdraws, [Event(Deposit(tx, network), d.sender, d.amount)]);
        assert s.(withdraws := s.withdraws) == s;
      }
    case RequestWithdraw(id, a, amount, fee) => WithdrawFollows(s, id, a, amount, fee);
    case FulfillWithdraw(id) => FulfillFollows(cfg, s, id);
    case RejectWithdraw(id) => RejectFollows(s, id);
    case GrantVesting(id, v) => GrantFollows(s, id, v);
    case BeginReleases => SameFollows(s, Next(cfg, s, step));
    case ReleaseVesting(id, now) => ReleaseFollows(cfg, s, id, now);
    case EndReleases => SameFollows(s, Next(cfg, s, step));
    case SlashGrants(a) => SameFollows(s, Next(cfg, s, step));
    case RestoreGrants(a) => SameFollows(s, Next(cfg, s, step));
    case SyncBatch => SyncFollows(cfg, s);
  }

  lemma SameFollows(s: State, s': State)
    requires s.mark <= |s.w.log| && s'.w.tasks == s.w.tasks && s'.w.log == s.w.log
    requires s'.mark == s.mark && s'.db == s.db && s'.rejected == s.rejected
    ensures Follows(s, s')
  {
    hide Follows, Evolves;
    EvolvesRefl(s.w.tasks);
    FollowsUnfolded(s, s');
  }

  lemma EmitFollows(s: State, ws: map<nat, WithdrawRecord>, es: seq<Event>)
    requires s.mark <= |s.w.log|
    ensures Follows(s, Commit(s.(withdraws := ws), Ok(Emit(s.w, es))))
  {
    hide Follows, Evolves, PostAll;
    EvolvesRefl(s.w.tasks);
    FollowsUnfolded(s, Commit(s.(withdraws := ws), Ok(Emit(s.w, es))));
  }

  lemma WithdrawFollows(s: State, id: nat, a: Addr, amount: nat, fee: nat)
    requires s.mark <= |s.w.log|
    ensures Follows(s, Withdraw(s, id, a, amount, fee))
  {
    hide Follows, Commit, Emit, Cached;
    SameFollows(s, s);
    SameFollows(s, s.(cache := Load(s.db, s.cache, a)));
    EmitFollows(s, s.withdraws[id := WithdrawRecord(a, amount, fee, WithdrawPending, false)],
                [Event(Reason.Withdraw(id), a, amount + fee)]);
  }

  lemma FulfillFollows(cfg: Config, s: State, id: nat)
    requires s.mark <= |s.w.log|
    ensures Follows(s, Fulfill(cfg, s, id))
  {
    hide Follows, Commit, Emit;
    SameFollows(s, s);
    if id in s.withdraws {
      var r := s.withdraws[id];
      EmitFollows(s, s.withdraws[id := r.(status := WithdrawSuccess)],
                  if r.fee > 0 then [Event(WithdrawFeeIncome(id), cfg.withdrawFeeAddress, r.fee)] else []);
    }
  }

  lemma RejectFollows(s: State, id: nat)
    requires s.mark <= |s.w.log|
    ensures Follows(s, Reject(s, id))
  {
    hide Follows, Commit, Emit;
    SameFollows(s, s);
    if id in s.withdraws {
      var r := s.withdraws[id];
      EmitFollows(s, s.withdraws[id := r.(status := WithdrawFailed)],
                  [Event(WithdrawRefund(id), r.address, r.amount + r.fee)]);
    }
  }

  lemma GrantFollows(s: State, id: nat, v: Vesting)
    requires s.mark <= |s.w.log|
    ensures Follows(s, Commit(s, Grant(s.w, id, v)))
  {
    hide Follows, Evolves, PostAll;
    EvolvesRefl(s.w.tasks);
    FollowsUnfolded(s, Commit(s, Grant(s.w, id, v)));
  }

  lemma ReleaseFollows(cfg: Config, s: State, id: nat, now: int)
    requires s.mark <= |s.w.log|
    ensures Follows(s, Next(cfg, s, ReleaseVesting(id, now)))
  {
    hide Follows, Evolves, PostAll, Release;
    EvolvesRefl(s.w.tasks);
    ReleaseAppends(s.w, id, now);
    FollowsUnfolded(s, Next(cfg, s, ReleaseVesting(id, now)));
  }

  lemma MarkInLog(cfg: Config, s: State)
    requires RelayInv(cfg, s)
    ensures s.mark <= |s.w.log|
  {}

  lemma ReleaseAppends(w: World, id: nat, now: int)
    ensures var r := Release(w, id, now);
            r.Ok? ==> r.value.tasks == w.tasks && |w.log| <= |r.value.log| && r.value.log[..|w.log|] == w.log
  {
    hide ShouldReleased, Tally;
  }

  lemma SyncFollows(cfg: Config, s: State)
    requires RelayInv(cfg, s)
    ensures Follows(s, Sync(cfg, s))
  {
    hide Inv, SeenOk, Chained, OthersOk, OnePending, Backed, ApplyAll, Processed, Accepted, Rejected, Precedes, Net,
         Bal;
    EvolvesRefl(s.w.tasks);
    var pending, s' := Pending(s), Sync(cfg, s);
    var n := if |pending| < BATCH then |pending| else BATCH;
    var batch := pending[..n];
    var valid, invalid := Accepted(cfg, BooksOf(s), s.db, batch), Rejected(cfg, BooksOf(s), s.db, batch);
    assert batch == s.w.log[s.mark..s.mark + n];
    AcceptedOrRejected(cfg, BooksOf(s), s.db, batch);
    ApplyAllIs(s.db, valid);
    assert s'.rejected == s.rejected ==> invalid == [] by {
      assert |s.rejected + invalid| == |s.rejected| + |invalid|;
    }
    assert s.w.log[..s.mark + n] == s.w.log[..s.mark] + batch;
    forall a ensures Folded(s', a) == Folded(s, a) {
      NetConcat(s.rejected, invalid, a);
      NetConcat(s.w.log[..s.mark], batch, a);
    }
  }

  lemma InitialKeeps(cfg: Config, s: State)
    requires Initial(s)
    ensures RelayInv(cfg, s) && Balanced(s)
  {
    assert Pending(s) == [];
  }

  /** Over every run the invariant holds, and the run's end keeps everything its start had. */
  lemma {:induction false} RunKeeps(cfg: Config, s: State, steps: seq<Step>)
    requires RelayInv(cfg, s)
    ensures RelayInv(cfg, Run(cfg, s, steps)) && Follows(s, Run(cfg, s, steps))
  {
    hide RelayInv, Next, Follows, Balanced, Drift;
    if steps == [] {
      RunStart(cfg, s);
    } else {
      var front, last := steps[..|steps| - 1], steps[|steps| - 1];
      var t := Run(cfg, s, front);
      RunKeeps(cfg, s, front);
      StepKeeps(cfg, t, last);
      StepFollows(cfg, t, last);
      FollowsTransitive(s, t, Next(cfg, t, last));
    }
  }

  lemma RunStart(cfg: Config, s: State)
    requires RelayInv(cfg, s)
    ensures Follows(s, s)
  {
    EvolvesRefl(s.w.tasks);
    FollowsUnfolded(s, s);
  }

  lemma {:induction false} RunConcat(cfg: Config, s: State, steps: seq<Step>, more: seq<Step>)
    ensures Run(cfg, s, steps + more) == Run(cfg, Run(cfg, s, steps), more)
  {
    hide Next;
    if more == [] {
      assert steps + more == steps;
    } else {
      assert (steps + more)[..|steps + more| - 1] == steps + more[..|more| - 1];
      RunConcat(cfg, s, steps, more[..|more| - 1]);
    }
  }
}

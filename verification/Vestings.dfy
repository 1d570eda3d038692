/** Vesting grants: the release schedule, and the chain of release events every record leaves in the log. */
module Vestings {
  import opened Basics
  import opened Model
  import opened Lifecycle
  import opened Invariant
  import opened Moves

  // ---------- The schedule ----------

  const DAY := 86400

  function ElapsedDays(start: int, now: int): int {
    now / DAY - start / DAY
  }

  function ShouldReleased(total: nat, start: int, days: nat, now: int): nat
    ensures ShouldReleased(total, start, days, now) <= total
  {
    if total == 0 || days == 0 || now < start then 0
    else
      var elapsed := ElapsedDays(start, now);
      if elapsed >= days then total else
        QuotientBounds(total, elapsed, days);
        total * elapsed / days
  }

  function LockedAt(v: Vesting, now: int): nat {
    if v.status.Deprecated? then 0 else v.total - ShouldReleased(v.total, v.startTime, v.durationDays, now)
  }

  lemma QuotientBounds(total: nat, elapsed: nat, days: nat)
    requires elapsed < days
    ensures 0 <= total * elapsed / days
    ensures total > 0 ==> total * elapsed / days < total
    ensures total * elapsed / days <= total
  {
    var q, r := total * elapsed / days, total * elapsed % days;
    assert total * elapsed == q * days + r;
    if total > 0 {
      StrictProduct(total, elapsed, days);
      NotAbove(total, q, days);
    } else {
      assert total * elapsed == 0;
    }
  }

  lemma StrictProduct(total: nat, elapsed: nat, days: nat)
    requires total > 0 && elapsed < days
    ensures total * elapsed < total * days
  {}

  lemma NotAbove(total: nat, q: int, days: nat)
    requires days > 0 && q * days < total * days
    ensures q < total
  {}

  lemma QuotientMonotone(total: nat, a: nat, b: nat, days: nat)
    requires a <= b && days > 0
    ensures total * a / days <= total * b / days
  {
    assert total * a <= total * b;
    DivMonotone(total * a, total * b, days);
  }

  lemma DivMonotone(x: nat, y: nat, days: nat)
    requires x <= y && days > 0
    ensures x / days <= y / days
  {
    var p, q := x / days, y / days;
    assert p * days <= x && y < q * days + days;
    assert q * days + days == (q + 1) * days;
    NotAbove(q + 1, p, days);
  }

  // Nothing is due before the start and all of it from the last day on; in between, the share of the midnights
  // passed, rounded down.
  predicate DueBy(total: nat, start: int, days: nat, now: int, r: nat) {
    var elapsed := now / 86400 - start / 86400;
    if now < start || days == 0 then r == 0
    else if elapsed >= days then r == total
    else r * days <= total * elapsed < r * days + days
  }

  lemma QuotientIs(x: nat, days: nat)
    requires days > 0
    ensures x / days * days <= x < x / days * days + days
  {}

  lemma ScheduleExact(total: nat, start: int, days: nat, now: int)
    ensures DueBy(total, start, days, now, ShouldReleased(total, start, days, now))
  {
    var elapsed := now / 86400 - start / 86400;
    if days > 0 && start <= now && elapsed < days {
      if total == 0 {
        assert total * elapsed == 0;
      } else {
        QuotientIs(total * elapsed, days);
      }
    }
  }

  /** A later look never asks for less; everything is due exactly from the last day on. */
  lemma ScheduleMonotone(total: nat, start: int, days: nat, now: int, later: int)
    requires now <= later
    ensures ShouldReleased(total, start, days, now) <= ShouldReleased(total, start, days, later)
    ensures total > 0 ==>
              (ShouldReleased(total, start, days, now) == total <==>
                  days > 0 && start <= now && now / 86400 - start / 86400 >= days)
  {
    if total > 0 && days > 0 && start <= now {
      var a, b := ElapsedDays(start, now), ElapsedDays(start, later);
      assert 0 <= a <= b;
      if a < days {
        QuotientBounds(total, a, days);
      }
      if b < days {
        QuotientMonotone(total, a, b, days);
      }
    }
  }

  /** What is locked only shrinks, and is gone exactly when everything is due. */
  lemma LockedShrinks(v: Vesting, now: int, later: int)
    requires now <= later
    ensures LockedAt(v, later) <= LockedAt(v, now) <= v.total
    ensures LockedAt(v, now) == 0 <==>
              || v.status.Deprecated? || v.total == 0
              || (v.durationDays > 0 && v.startTime <= now && now / 86400 - v.startTime / 86400 >= v.durationDays)
    ensures !v.status.Deprecated? && now < v.startTime ==> LockedAt(v, now) == v.total
    ensures !v.status.Deprecated? && v.startTime <= now && now / 86400 - v.startTime / 86400 < v.durationDays ==>
              var due, elapsed := v.total - LockedAt(v, now), now / 86400 - v.startTime / 86400;
              due * v.durationDays <= v.total * elapsed < due * v.durationDays + v.durationDays
  {
    hide ShouldReleased;
    ScheduleMonotone(v.total, v.startTime, v.durationDays, now, later);
    ScheduleExact(v.total, v.startTime, v.durationDays, now);
  }

  // ---------- Transactions ----------

  function Grant(w: World, id: nat, v: Vesting): Tx {
    if id in w.vestings || id == 0 || v.durationDays == 0 || v.total == 0 then Err(InvalidVesting)
    else
      Ok(Emit(w.(vestings := w.vestings[id := v.(released := 0, status := Active, slashed := false)]),
              [Event(VestingCreated(id), v.address, 0)]))
  }

  function Release(w: World, id: nat, now: int): Tx {
    if id !in w.vestings then Err(NotFound)
    else
      var v := w.vestings[id];
      if !v.status.Active? || v.slashed then Ok(w)
      else
        var to := ShouldReleased(v.total, v.startTime, v.durationDays, now);
        if to <= v.released then
          Ok(if v.released >= v.total then w.(vestings := w.vestings[id := v.(status := Completed)]) else w)
        else if to > v.total then Err(ReleaseExceedsSchedule)
        else if Tally(w.log, VestingRelease(id, v.released, to)) > 0 then Err(ReleaseRangeInvalid)
        else Ok(Emit(w.(vestings := w.vestings[id := ReleasedTo(v, to)]), [ReleaseEvent(id, v, to)]))
  }

  function Max(a: nat, b: nat): nat {
    if a < b then b else a
  }

  // One release of an active, unslashed record brings it up to what is due, and logs the difference.
  predicate CaughtUp(w: World, w': World, id: nat, due: nat)
    requires id in w.vestings
  {
    var v := w.vestings[id];
    var r := Max(v.released, due);
    && w'.tasks == w.tasks && w'.nodes == w.nodes
    && w'.vestings == w.vestings[id := v.(released := r, status := if r >= v.total then Completed else Active)]
    && w'.log == w.log + if due > v.released
                         then [Event(VestingRelease(id, v.released, due), v.address, due - v.released)] else []
  }

  /** A release touches only an active, unslashed record, and brings it up to exactly what is due. */
  lemma ReleaseExact(w: World, id: nat, now: int) returns (due: nat)
    requires id in w.vestings && Release(w, id, now).Ok?
    ensures var v := w.vestings[id]; DueBy(v.total, v.startTime, v.durationDays, now, due)
    ensures if w.vestings[id].status.Active? && !w.vestings[id].slashed
            then CaughtUp(w, Release(w, id, now).value, id, due) else Release(w, id, now).value == w
  {
    hide ShouldReleased, DueBy, Tally;
    var v := w.vestings[id];
    due := ShouldReleased(v.total, v.startTime, v.durationDays, now);
    ScheduleExact(v.total, v.startTime, v.durationDays, now);
    assert w.vestings[id := v] == w.vestings;
  }

  function ReleasedTo(v: Vesting, to: nat): Vesting {
    v.(released := to, status := if to == v.total then Completed else Active)
  }

  function ReleaseEvent(id: nat, v: Vesting, to: nat): Event
    requires v.released <= to
  {
    Event(VestingRelease(id, v.released, to), v.address, to - v.released)
  }

  function RestoreVestings(vs: map<nat, Vesting>, a: Addr): (r: map<nat, Vesting>)
    ensures VestingsKept(vs, r)
  {
    map id | id in vs :: if vs[id].address == a then vs[id].(slashed := false) else vs[id]
  }

  // ---------- The chain of releases ----------

  predicate ReleaseOf(e: Event, id: nat) {
    e.reason.VestingRelease? && e.reason.vesting == id
  }

  /** The release events of a record are contiguous ranges from 0 up to r. */
  predicate Chain(log: seq<Event>, id: nat, r: nat) {
    if log == [] then r == 0 else
      var n := |log| - 1;
      var e := log[n];
      if ReleaseOf(e, id) then
        e.reason.from < e.reason.to == r && e.amount == r - e.reason.from && Chain(log[..n], id, e.reason.from)
      else Chain(log[..n], id, r)
  }

  function ReleasedBy(log: seq<Event>, id: nat): nat {
    if log == [] then 0 else
      ReleasedBy(log[..|log| - 1], id) + if ReleaseOf(log[|log| - 1], id) then log[|log| - 1].amount else 0
  }

  /** A chain pays out exactly its end. */
  lemma {:induction false} ChainTotal(log: seq<Event>, id: nat, r: nat)
    requires Chain(log, id, r)
    ensures ReleasedBy(log, id) == r
  {
    if log != [] {
      var n := |log| - 1;
      ChainTotal(log[..n], id, if ReleaseOf(log[n], id) then log[n].reason.from else r);
    }
  }

  lemma {:induction false} ChainEnds(log: seq<Event>, id: nat, r: nat)
    requires Chain(log, id, r)
    ensures forall i | 0 <= i < |log| && ReleaseOf(log[i], id) :: log[i].reason.to <= r
  {
    if log != [] {
      var n := |log| - 1;
      ChainEnds(log[..n], id, if ReleaseOf(log[n], id) then log[n].reason.from else r);
    }
  }

  lemma {:induction false} ChainAppend(log: seq<Event>, es: seq<Event>, id: nat, r: nat)
    requires Chain(log, id, r) && forall e | e in es :: !ReleaseOf(e, id)
    ensures Chain(log + es, id, r)
  {
    if es == [] {
      assert log + es == log;
    } else {
      assert (log + es)[..|log + es| - 1] == log + es[..|es| - 1];
      ChainAppend(log, es[..|es| - 1], id, r);
    }
  }

  /** The last release of a chain ends where the chain does. */
  lemma {:induction false} ChainLast(log: seq<Event>, id: nat, r: nat, i: nat)
    requires Chain(log, id, r) && i < |log| && ReleaseOf(log[i], id)
    requires forall j | i < j < |log| :: !ReleaseOf(log[j], id)
    ensures log[i].reason.to == r
  {
    if i < |log| - 1 {
      ChainLast(log[..|log| - 1], id, r, i);
    }
  }

  // ---------- The invariant ----------

  predicate VestingEventOk(vs: map<nat, Vesting>, e: Event) {
    match e.reason
    case VestingCreated(id) => id != 0 && id in vs && vs[id].address == e.address && e.amount == 0
    case VestingRelease(id, from, to) =>
      id in vs && vs[id].address == e.address && from < to <= vs[id].total && e.amount == to - from
    case _ => true
  }

  predicate GrantOk(v: Vesting) {
    v.total > 0 && v.durationDays > 0 && v.released <= v.total && (v.status.Completed? <==> v.released == v.total)
  }

  function ReleasedOf(vs: map<nat, Vesting>, id: nat): nat {
    if id in vs then vs[id].released else 0
  }

  ghost predicate Chained(w: World) {
    && (forall id | id in w.vestings :: id != 0 && GrantOk(w.vestings[id]))
    && (forall id: nat :: Chain(w.log, id, ReleasedOf(w.vestings, id)))
    && (forall i | 0 <= i < |w.log| :: VestingEventOk(w.vestings, w.log[i]))
  }

  // At most one pending release per record, and none beyond the cursor of a run in progress.
  ghost predicate OnePending(pending: seq<Event>, run: Option<nat>) {
    && (forall i, j | 0 <= i < j < |pending| && pending[i].reason.VestingRelease? ::
          !ReleaseOf(pending[j], pending[i].reason.vesting))
    && (forall i | 0 <= i < |pending| && pending[i].reason.VestingRelease? ::
         run.Some? ==> pending[i].reason.vesting <= run.value)
  }

  /** Events of other kinds, and any change of the slashed flags, leave every chain as it is. */
  lemma ChainedOthers(w: World, w': World, es: seq<Event>)
    requires Chained(w) && w'.log == w.log + es && VestingsKept(w.vestings, w'.vestings)
    requires forall e | e in es :: !e.reason.VestingRelease? && !e.reason.VestingCreated?
    ensures Chained(w')
  {
    forall id: nat ensures Chain(w'.log, id, ReleasedOf(w'.vestings, id)) {
      ChainAppend(w.log, es, id, ReleasedOf(w.vestings, id));
    }
    forall i | 0 <= i < |w'.log| ensures VestingEventOk(w'.vestings, w'.log[i]) {
      if i < |w.log| {
        assert VestingEventOk(w.vestings, w.log[i]);
      } else {
        assert w'.log[i] in es;
      }
    }
  }

  lemma GrantKeeps(w: World, id: nat, v: Vesting)
    requires Chained(w)
    ensures var r := Grant(w, id, v); r.Ok? ==>
              Chained(r.value) && r.value.log == w.log + [Event(VestingCreated(id), v.address, 0)]
  {
    hide Chain;
    var r := Grant(w, id, v);
    if r.Ok? {
      var e := Event(VestingCreated(id), v.address, 0);
      forall j: nat ensures Chain(r.value.log, j, ReleasedOf(r.value.vestings, j)) {
        ChainAppend(w.log, [e], j, ReleasedOf(w.vestings, j));
      }
      forall i | 0 <= i < |w.log| ensures VestingEventOk(r.value.vestings, w.log[i]) {
        assert VestingEventOk(w.vestings, w.log[i]);
      }
    }
  }

  lemma RangeIsNew(w: World, id: nat, to: nat)
    requires Chained(w) && id in w.vestings && w.vestings[id].released < to
    ensures Tally(w.log, VestingRelease(id, w.vestings[id].released, to)) == 0
  {
    ChainEnds(w.log, id, ReleasedOf(w.vestings, id));
    TallyAbsent(w.log, VestingRelease(id, w.vestings[id].released, to));
  }

  // What one release commits: nothing, or one more link of the chain.
  ghost predicate Released(w: World, w': World, id: nat) {
    || (w'.log == w.log && w'.vestings == w.vestings)
    || exists to: nat :: ReleasedUpTo(w, w', id, to)
  }

  ghost predicate ReleasedUpTo(w: World, w': World, id: nat, to: nat) {
    && id in w.vestings && w.vestings[id].released < to <= w.vestings[id].total
    && w'.vestings == w.vestings[id := ReleasedTo(w.vestings[id], to)]
    && w'.log == w.log + [ReleaseEvent(id, w.vestings[id], to)]
  }

  lemma LinkKeeps(w: World, w': World, id: nat, to: nat)
    requires Chained(w) && ReleasedUpTo(w, w', id, to)
    ensures Chained(w')
  {
    var e := ReleaseEvent(id, w.vestings[id], to);
    forall j: nat ensures Chain(w'.log, j, ReleasedOf(w'.vestings, j)) {
      if j == id {
        assert w'.log[..|w'.log| - 1] == w.log && Chain(w.log, id, ReleasedOf(w.vestings, id));
      } else {
        ChainAppend(w.log, [e], j, ReleasedOf(w.vestings, j));
      }
    }
    forall i | 0 <= i < |w.log| ensures VestingEventOk(w'.vestings, w.log[i]) {
      assert VestingEventOk(w.vestings, w.log[i]);
    }
  }

  /** A release never fails on an existing record, and keeps every chain. */
  lemma ReleaseKeeps(w: World, id: nat, now: int)
    requires Chained(w)
    ensures var r := Release(w, id, now);
            && (r.Ok? <==> id in w.vestings)
            && (r.Ok? ==>
                  Chained(r.value) && Released(w, r.value, id) && r.value.tasks == w.tasks && r.value.nodes == w.nodes)
  {
    hide Chain, Tally;
    if id in w.vestings {
      var v := w.vestings[id];
      assert GrantOk(v);
      var to := ShouldReleased(v.total, v.startTime, v.durationDays, now);
      if v.status.Active? && !v.slashed && v.released < to {
        RangeIsNew(w, id, to);
        assert ReleasedUpTo(w, Release(w, id, now).value, id, to);
        LinkKeeps(w, Release(w, id, now).value, id, to);
      }
    }
  }

  // Nothing was released before its time.
  predicate OnSchedule(v: Vesting, now: int) {
    v.released == 0 ||
    (v.startTime <= now && v.released * v.durationDays <= v.total * (now / 86400 - v.startTime / 86400))
  }

  lemma DueOnSchedule(v: Vesting, at: int, now: int, due: nat)
    requires at <= now && due <= v.total && DueBy(v.total, v.startTime, v.durationDays, at, due)
    ensures OnSchedule(v.(released := due), now)
  {
    var a, b := at / 86400 - v.startTime / 86400, now / 86400 - v.startTime / 86400;
    assert a <= b;
    if due > 0 {
      if a >= v.durationDays {
        TimesMonotone(v.total, v.durationDays, b);
      } else {
        TimesMonotone(v.total, a, b);
      }
    }
  }

  lemma TimesMonotone(total: nat, a: int, b: int)
    requires a <= b
    ensures total * a <= total * b
  {}

  /** So a release at or before a time leaves what was on schedule at that time on schedule. */
  lemma ReleaseOnSchedule(w: World, id: nat, at: int, now: int)
    requires at <= now && id in w.vestings && Release(w, id, at).Ok? && OnSchedule(w.vestings[id], now)
    ensures var vs := Release(w, id, at).value.vestings;
            && id in vs && OnSchedule(vs[id], now)
            && vs.Keys == w.vestings.Keys && forall j | j in vs && j != id :: vs[j] == w.vestings[j]
  {
    hide ShouldReleased, Tally;
    var v := w.vestings[id];
    var due := ShouldReleased(v.total, v.startTime, v.durationDays, at);
    ScheduleExact(v.total, v.startTime, v.durationDays, at);
    DueOnSchedule(v, at, now, due);
  }

  /** The one pending release of a record ends at its released amount. */
  lemma PendingReleaseIsLast(w: World, mark: nat, run: Option<nat>, i: nat)
    requires Chained(w) && mark <= i < |w.log| && OnePending(w.log[mark..], run)
    requires w.log[i].reason.VestingRelease?
    ensures var e := w.log[i]; e.reason.vesting in w.vestings && e.reason.to == w.vestings[e.reason.vesting].released
  {
    var id, pending := w.log[i].reason.vesting, w.log[mark..];
    assert VestingEventOk(w.vestings, w.log[i]);
    forall j | i < j < |w.log| ensures !ReleaseOf(w.log[j], id) {
      assert pending[i - mark] == w.log[i] && pending[j - mark] == w.log[j];
    }
    ChainLast(w.log, id, ReleasedOf(w.vestings, id), i);
  }
}

/** Flushing dirty calibration records while calibrations and other flushes go on: snapshot, write, clear. */
module Flush {
  import opened Model
  import opened Pricing

  // One snapshotted record with the dirty version it had.
  datatype Dirty = Dirty(key: CalibrationKey, record: Calibration, version: nat)

  // One flush under way. The ticker's goroutine and the shutdown path each run their own.
  datatype Flusher = Idle | Snapshotted(dirty: seq<Dirty>) | Written(dirty: seq<Dirty>)

  // A row, with the version the last write to it carried (0 for a row as it was loaded).
  datatype Stored = Stored(record: Calibration, version: nat)

  // latest is the last version each record was marked dirty with (0 for never).
  datatype State = State(
    records: Records,
    version: nat,
    latest: map<CalibrationKey, nat>,
    db: map<CalibrationKey, Stored>,
    flushers: map<nat, Flusher>)

  datatype Step =
    | Calibrate(key: CalibrationKey, demand: Uint64, outcome: Fit)
    | Snapshot(flusher: nat, dirty: seq<Dirty>)
    | Write(flusher: nat, ok: bool)
    | Clear(flusher: nat)

  // ---------- The critical sections ----------

  predicate DistinctKeys(dirty: seq<Dirty>) {
    forall i, j | 0 <= i < j < |dirty| :: dirty[i].key != dirty[j].key
  }

  ghost predicate DirtyListed(rs: Records, dirty: seq<Dirty>) {
    && (forall k | k in rs && rs[k].dirtyVersion != 0 :: Dirty(k, rs[k].record, rs[k].dirtyVersion) in dirty)
    && (forall d | d in dirty :: d.key in rs && rs[d.key] == Cached(d.record, d.version) && d.version != 0)
    && DistinctKeys(dirty)
  }

  /** Copies every dirty record with its version, in whatever order the map yields them. */
  method SnapshotDirty(rs: Records) returns (dirty: seq<Dirty>)
    ensures DirtyListed(rs, dirty)
  {
    dirty := [];
    var todo := rs.Keys;
    while todo != {}
      invariant todo <= rs.Keys
      invariant forall k | k in rs && k !in todo && rs[k].dirtyVersion != 0 ::
                  Dirty(k, rs[k].record, rs[k].dirtyVersion) in dirty
      invariant forall d | d in dirty ::
                  d.key in rs && d.key !in todo && rs[d.key] == Cached(d.record, d.version) && d.version != 0
      invariant DistinctKeys(dirty)
      decreases |todo|
    {
      var k :| k in todo;
      assert forall i | 0 <= i < |dirty| :: dirty[i] in dirty;
      if rs[k].dirtyVersion != 0 {
        dirty := dirty + [Dirty(k, rs[k].record, rs[k].dirtyVersion)];
      }
      todo := todo - {k};
    }
  }

  // The upsert by configuration key.
  function Upsert(db: map<CalibrationKey, Stored>, dirty: seq<Dirty>): map<CalibrationKey, Stored> {
    if dirty == [] then db else
      var last := dirty[|dirty| - 1];
      Upsert(db, dirty[..|dirty| - 1])[last.key := Stored(last.record, last.version)]
  }

  lemma {:induction false} UpsertIs(db: map<CalibrationKey, Stored>, dirty: seq<Dirty>)
    requires DistinctKeys(dirty)
    ensures forall d | d in dirty ::
              d.key in Upsert(db, dirty) && Upsert(db, dirty)[d.key] == Stored(d.record, d.version)
    ensures forall k | (forall d | d in dirty :: d.key != k) :: k in Upsert(db, dirty) <==> k in db
    ensures forall k | (forall d | d in dirty :: d.key != k) && k in db ::
              k in Upsert(db, dirty) && Upsert(db, dirty)[k] == db[k]
  {
    hide Upsert, DistinctKeys;
    forall d | d in dirty
      ensures d.key in Upsert(db, dirty) && Upsert(db, dirty)[d.key] == Stored(d.record, d.version)
    {
      UpsertStores(db, dirty, d);
    }
    forall k | (forall d | d in dirty :: d.key != k)
      ensures k in Upsert(db, dirty) <==> k in db
      ensures k in db ==> Upsert(db, dirty)[k] == db[k]
    {
      UpsertSpares(db, dirty, k);
    }
  }

  lemma {:induction false} UpsertStores(db: map<CalibrationKey, Stored>, dirty: seq<Dirty>, d: Dirty)
    requires DistinctKeys(dirty) && d in dirty
    ensures d.key in Upsert(db, dirty) && Upsert(db, dirty)[d.key] == Stored(d.record, d.version)
  {
    var m := |dirty| - 1;
    if d != dirty[m] {
      var i :| 0 <= i < m && dirty[i] == d;
      assert dirty[..m][i] == d;
      UpsertStores(db, dirty[..m], d);
    }
  }

  lemma {:induction false} UpsertSpares(db: map<CalibrationKey, Stored>, dirty: seq<Dirty>, k: CalibrationKey)
    requires forall d | d in dirty :: d.key != k
    ensures k in Upsert(db, dirty) <==> k in db
    ensures k in db ==> Upsert(db, dirty)[k] == db[k]
  {
    if dirty != [] {
      UpsertSpares(db, dirty[..|dirty| - 1], k);
    }
  }

  // A record is clean again only if it is still at the version that was written.
  function ClearOne(rs: Records, d: Dirty): Records {
    if d.key in rs && rs[d.key].dirtyVersion == d.version then rs[d.key := rs[d.key].(dirtyVersion := 0)] else rs
  }

  function ClearAll(rs: Records, dirty: seq<Dirty>): Records {
    if dirty == [] then rs else ClearOne(ClearAll(rs, dirty[..|dirty| - 1]), dirty[|dirty| - 1])
  }

  method ClearDirty(rs: Records, dirty: seq<Dirty>) returns (r: Records)
    ensures r == ClearAll(rs, dirty)
  {
    r := rs;
    for i := 0 to |dirty|
      invariant r == ClearAll(rs, dirty[..i])
    {
      assert dirty[..i + 1][..i] == dirty[..i];
      var d := dirty[i];
      if d.key in r && r[d.key].dirtyVersion == d.version {
        r := r[d.key := r[d.key].(dirtyVersion := 0)];
      }
    }
    assert dirty[..|dirty|] == dirty;
  }

  // ---------- The machine ----------

  function Doing(s: State, f: nat): Flusher {
    if f in s.flushers then s.flushers[f] else Idle
  }

  // No flush is under way.
  ghost predicate Quiet(s: State) {
    forall f :: Doing(s, f).Idle?
  }

  // What the pricing store's calibration leaves behind.
  function Calibrated(initial: map<TaskType, seq<real>>, s: State, k: CalibrationKey, demand: Uint64,
                      outcome: Fit): State
  {
    s.(version := NextVersion(s.version, outcome),
       records := AfterSample(initial, s.records, s.version, k, demand, outcome),
       latest := if outcome.Fitted? then s.latest[k := s.version + 1]
                 else if k in s.records then s.latest
                 else s.latest[k := 0])
  }

  function WrittenBy(s: State, f: nat): State
    requires Doing(s, f).Snapshotted?
  {
    s.(db := Upsert(s.db, Doing(s, f).dirty), flushers := s.flushers[f := Written(Doing(s, f).dirty)])
  }

  function ClearedBy(s: State, f: nat): State
    requires Doing(s, f).Written?
  {
    s.(records := ClearAll(s.records, Doing(s, f).dirty), flushers := s.flushers[f := Idle])
  }

  // A step that does not apply changes nothing; each flusher runs its three sections in order.
  ghost function Next(initial: map<TaskType, seq<real>>, s: State, step: Step): State {
    match step
    case Calibrate(k, demand, outcome) => Calibrated(initial, s, k, demand, outcome)
    case Snapshot(f, dirty) =>
      if Doing(s, f).Idle? && DirtyListed(s.records, dirty) && dirty != []
      then s.(flushers := s.flushers[f := Snapshotted(dirty)]) else s
    case Write(f, ok) =>
      if !Doing(s, f).Snapshotted? then s
      else if ok then WrittenBy(s, f)
      else s.(flushers := s.flushers[f := Idle])
    case Clear(f) =>
      if Doing(s, f).Written? then ClearedBy(s, f) else s
  }

  ghost function Run(initial: map<TaskType, seq<real>>, s: State, steps: seq<Step>): State {
    if steps == [] then s else Next(initial, Run(initial, s, steps[..|steps| - 1]), steps[|steps| - 1])
  }

  // Loaded from the database; a record reset for an outdated formula starts dirty.
  ghost predicate Initial(s: State) {
    && Quiet(s)
    && s.records.Keys == s.db.Keys == s.latest.Keys
    && (forall k | k in s.records :: s.db[k].version == 0 && s.latest[k] == s.records[k].dirtyVersion <= s.version)
    && (forall k | k in s.records && s.records[k].dirtyVersion == 0 :: s.records[k].record == s.db[k].record)
  }

  // ---------- What every run keeps ----------

  // A copy of the record k at a version: the current record if the version is the latest, or one with fewer
  // samples.
  predicate Behind(s: State, k: CalibrationKey, r: Calibration, v: nat) {
    && k in s.records && k in s.latest && v <= s.latest[k]
    && (0 < v == s.latest[k] ==> r == s.records[k].record)
    && (0 < v < s.latest[k] ==> r.samples < s.records[k].record.samples)
  }

  // A clean record that was ever dirty has been written; one that never was is as loaded, or has no samples.
  predicate RecordOk(s: State, k: CalibrationKey) {
    && k in s.records && k in s.latest && s.latest[k] <= s.version
    && (s.records[k].dirtyVersion == 0 || s.records[k].dirtyVersion == s.latest[k])
    && (s.records[k].dirtyVersion == 0 && s.latest[k] > 0 ==> k in s.db && s.db[k].version > 0)
    && (s.latest[k] == 0 && s.records[k].record.samples > 0 ==> k in s.db && s.db[k] == Stored(s.records[k].record, 0))
  }

  ghost predicate DirtyOk(s: State, dirty: seq<Dirty>) {
    DistinctKeys(dirty) && forall d | d in dirty :: d.version > 0 && Behind(s, d.key, d.record, d.version)
  }

  ghost predicate FlusherOk(s: State, fl: Flusher) {
    && (!fl.Idle? ==> DirtyOk(s, fl.dirty))
    && (fl.Written? ==> forall d | d in fl.dirty :: d.key in s.db && s.db[d.key].version > 0)
  }

  ghost predicate Inv(s: State) {
    && s.latest.Keys == s.records.Keys
    && (forall k | k in s.records :: RecordOk(s, k))
    && (forall k | k in s.db :: Behind(s, k, s.db[k].record, s.db[k].version))
    && (forall f | f in s.flushers :: FlusherOk(s, s.flushers[f]))
  }

  lemma CalibrateKeeps(initial: map<TaskType, seq<real>>, s: State, k: CalibrationKey, demand: Uint64, outcome: Fit)
    requires Inv(s)
    ensures Inv(Calibrated(initial, s, k, demand, outcome))
  {
    hide RecordOk, Behind, DirtyOk;
    var t := Calibrated(initial, s, k, demand, outcome);
    forall j | j in t.records ensures RecordOk(t, j) {
      if j in s.records {
        assert RecordOk(s, j);
      }
      RecordCalibrated(initial, s, k, demand, outcome, j);
    }
    forall j | j in t.db ensures Behind(t, j, t.db[j].record, t.db[j].version) {
      BehindIsRecord(s, j, s.db[j].record, s.db[j].version);
      BehindCalibrated(initial, s, k, demand, outcome, j, s.db[j].record, s.db[j].version);
    }
    forall f | f in t.flushers ensures FlusherOk(t, t.flushers[f]) {
      var fl := s.flushers[f];
      if !fl.Idle? {
        DirtyCalibrated(initial, s, k, demand, outcome, fl.dirty);
      }
    }
  }

  lemma RecordCalibrated(initial: map<TaskType, seq<real>>, s: State, k: CalibrationKey, demand: Uint64, outcome: Fit,
                         j: CalibrationKey)
    requires j in Calibrated(initial, s, k, demand, outcome).records
    requires j in s.records ==> RecordOk(s, j)
    ensures RecordOk(Calibrated(initial, s, k, demand, outcome), j)
  {}

  lemma BehindCalibrated(initial: map<TaskType, seq<real>>, s: State, k: CalibrationKey, demand: Uint64, outcome: Fit,
                         j: CalibrationKey, r: Calibration, v: nat)
    requires Behind(s, j, r, v) && RecordOk(s, j)
    ensures Behind(Calibrated(initial, s, k, demand, outcome), j, r, v)
  {}

  lemma DirtyCalibrated(initial: map<TaskType, seq<real>>, s: State, k: CalibrationKey, demand: Uint64, outcome: Fit,
                        dirty: seq<Dirty>)
    requires DirtyOk(s, dirty) && forall j | j in s.records :: RecordOk(s, j)
    ensures DirtyOk(Calibrated(initial, s, k, demand, outcome), dirty)
  {
    hide Behind, RecordOk, DistinctKeys, Calibrated;
    forall d | d in dirty ensures Behind(Calibrated(initial, s, k, demand, outcome), d.key, d.record, d.version) {
      assert Behind(s, d.key, d.record, d.version);
      BehindIsRecord(s, d.key, d.record, d.version);
      BehindCalibrated(initial, s, k, demand, outcome, d.key, d.record, d.version);
    }
  }

  lemma BehindIsRecord(s: State, k: CalibrationKey, r: Calibration, v: nat)
    requires Behind(s, k, r, v)
    ensures k in s.records && k in s.latest
  {}

  lemma SnapshotKeeps(s: State, f: nat, dirty: seq<Dirty>)
    requires Inv(s) && DirtyListed(s.records, dirty)
    ensures Inv(s.(flushers := s.flushers[f := Snapshotted(dirty)]))
  {
    var t := s.(flushers := s.flushers[f := Snapshotted(dirty)]);
    forall d | d in dirty ensures d.version > 0 && Behind(t, d.key, d.record, d.version) {
      assert RecordOk(s, d.key);
    }
    SameButFlushers(s, t);
  }

  // Flushers' own progress touches neither records nor rows.
  lemma SameButFlushers(s: State, t: State)
    requires t == s.(flushers := t.flushers)
    ensures forall k :: RecordOk(t, k) == RecordOk(s, k)
    ensures forall k, r, v: nat :: Behind(t, k, r, v) == Behind(s, k, r, v)
  {}

  // The row k of a snapshot after it was written.
  ghost predicate Listed(dirty: seq<Dirty>, k: CalibrationKey) {
    exists d | d in dirty :: d.key == k
  }

  lemma UpsertAt(db: map<CalibrationKey, Stored>, dirty: seq<Dirty>, k: CalibrationKey)
    requires DistinctKeys(dirty)
    ensures Listed(dirty, k) ==> k in Upsert(db, dirty) && exists d | d in dirty ::
              d.key == k && Upsert(db, dirty)[k] == Stored(d.record, d.version)
    ensures !Listed(dirty, k) ==> (k in Upsert(db, dirty) <==> k in db)
    ensures !Listed(dirty, k) && k in db ==> Upsert(db, dirty)[k] == db[k]
  {
    hide Upsert, DistinctKeys;
    UpsertIs(db, dirty);
  }

  lemma WriteKeeps(s: State, f: nat)
    requires Inv(s) && Doing(s, f).Snapshotted?
    ensures Inv(WrittenBy(s, f))
  {
    hide Upsert, DistinctKeys, Listed;
    var dirty, t := Doing(s, f).dirty, WrittenBy(s, f);
    assert FlusherOk(s, s.flushers[f]);
    UpsertIs(s.db, dirty);
    forall k | k in t.records ensures RecordOk(t, k) {
      assert RecordOk(s, k);
      WriteRecord(s, f, k);
    }
    forall k | k in t.db ensures Behind(t, k, t.db[k].record, t.db[k].version) {
      UpsertAt(s.db, dirty, k);
    }
    forall g | g in t.flushers ensures FlusherOk(t, t.flushers[g]) {
      if g != f {
        assert FlusherOk(s, s.flushers[g]);
        WriteFlusher(s, f, s.flushers[g]);
      }
    }
  }

  lemma WriteRecord(s: State, f: nat, k: CalibrationKey)
    requires Doing(s, f).Snapshotted? && DirtyOk(s, Doing(s, f).dirty) && RecordOk(s, k)
    ensures RecordOk(WrittenBy(s, f), k)
  {
    hide Upsert, DistinctKeys, Listed;
    var dirty := Doing(s, f).dirty;
    UpsertAt(s.db, dirty, k);
    if s.latest[k] == 0 {
      forall d | d in dirty ensures d.key != k {
        assert Behind(s, d.key, d.record, d.version);
      }
      assert !Listed(dirty, k) by { NotListed(dirty, k); }
    }
  }

  lemma NotListed(dirty: seq<Dirty>, k: CalibrationKey)
    requires forall d | d in dirty :: d.key != k
    ensures !Listed(dirty, k)
  {}

  lemma WriteFlusher(s: State, f: nat, fl: Flusher)
    requires Doing(s, f).Snapshotted? && DirtyOk(s, Doing(s, f).dirty) && FlusherOk(s, fl)
    ensures FlusherOk(WrittenBy(s, f), fl)
  {
    hide Upsert, DistinctKeys, Listed;
    var t := WrittenBy(s, f);
    if !fl.Idle? {
      forall d | d in fl.dirty ensures Behind(t, d.key, d.record, d.version) {
        assert Behind(s, d.key, d.record, d.version);
      }
    }
    if fl.Written? {
      forall d | d in fl.dirty ensures d.key in t.db && t.db[d.key].version > 0 {
        UpsertAt(s.db, Doing(s, f).dirty, d.key);
      }
    }
  }

  lemma {:induction false} ClearIs(rs: Records, dirty: seq<Dirty>)
    requires DistinctKeys(dirty)
    ensures var r := ClearAll(rs, dirty);
            && r.Keys == rs.Keys
            && forall k | k in rs ::
                 r[k] == if exists d | d in dirty :: d.key == k && d.version == rs[k].dirtyVersion
                         then rs[k].(dirtyVersion := 0) else rs[k]
  {
    if dirty != [] {
      var front, last := dirty[..|dirty| - 1], dirty[|dirty| - 1];
      ClearIs(rs, front);
      assert forall d | d in dirty :: d in front || d == last;
      assert forall d | d in front :: d in dirty;
      forall d | d in front ensures d.key != last.key {
        var i :| 0 <= i < |front| && front[i] == d;
        assert dirty[i] == d;
      }
    }
  }

  // What clearing does to one record.
  ghost predicate Clears(dirty: seq<Dirty>, k: CalibrationKey, version: nat) {
    exists d | d in dirty :: d.key == k && d.version == version
  }

  lemma ClearAt(rs: Records, dirty: seq<Dirty>, k: CalibrationKey)
    requires DistinctKeys(dirty) && k in rs
    ensures ClearAll(rs, dirty).Keys == rs.Keys
    ensures ClearAll(rs, dirty)[k] ==
            if Clears(dirty, k, rs[k].dirtyVersion) then rs[k].(dirtyVersion := 0) else rs[k]
  {
    hide ClearAll, DistinctKeys;
    ClearIs(rs, dirty);
  }

  lemma ClearKeeps(s: State, f: nat)
    requires Inv(s) && Doing(s, f).Written?
    ensures Inv(ClearedBy(s, f))
  {
    hide ClearAll, DistinctKeys, Clears, RecordOk;
    var dirty, t := Doing(s, f).dirty, ClearedBy(s, f);
    assert FlusherOk(s, s.flushers[f]);
    ClearIs(s.records, dirty);
    forall k | k in t.records ensures RecordOk(t, k) && t.records[k].record == s.records[k].record {
      assert RecordOk(s, k);
      ClearRecord(s, f, k);
    }
    forall g | g in t.flushers ensures FlusherOk(t, t.flushers[g]) {
      assert g != f ==> FlusherOk(s, s.flushers[g]);
    }
  }

  lemma ClearRecord(s: State, f: nat, k: CalibrationKey)
    requires Doing(s, f).Written? && FlusherOk(s, Doing(s, f)) && RecordOk(s, k)
    ensures RecordOk(ClearedBy(s, f), k)
    ensures ClearedBy(s, f).records[k].record == s.records[k].record
  {
    hide ClearAll, DistinctKeys;
    ClearAt(s.records, Doing(s, f).dirty, k);
  }

  lemma StepKeeps(initial: map<TaskType, seq<real>>, s: State, step: Step)
    requires Inv(s)
    ensures Inv(Next(initial, s, step))
  {
    hide ClearAll, Upsert, Calibrated, DistinctKeys, DirtyListed, RecordOk, Behind, DirtyOk;
    match step
    case Calibrate(k, demand, outcome) => CalibrateKeeps(initial, s, k, demand, outcome);
    case Snapshot(f, dirty) =>
      if DirtyListed(s.records, dirty) {
        SnapshotKeeps(s, f, dirty);
      }
    case Write(f, ok) =>
      if Doing(s, f).Snapshotted? {
        WriteKeeps(s, f);
        StopKeeps(s, f);
      }
    case Clear(f) =>
      if Doing(s, f).Written? {
        ClearKeeps(s, f);
      }
  }

  lemma StopKeeps(s: State, f: nat)
    requires Inv(s)
    ensures Inv(s.(flushers := s.flushers[f := Idle]))
  {
    SameButFlushers(s, s.(flushers := s.flushers[f := Idle]));
  }

  lemma {:induction false} RunKeeps(initial: map<TaskType, seq<real>>, s0: State, steps: seq<Step>)
    requires Initial(s0)
    ensures Inv(Run(initial, s0, steps))
  {
    hide Next;
    if steps == [] {
      forall f | f in s0.flushers ensures FlusherOk(s0, s0.flushers[f]) {
        assert Doing(s0, f).Idle?;
      }
    } else {
      RunKeeps(initial, s0, steps[..|steps| - 1]);
      StepKeeps(initial, Run(initial, s0, steps[..|steps| - 1]), steps[|steps| - 1]);
    }
  }

  // ---------- When a clean record is the stored one ----------

  // A clean record that took a sample or was ever dirty is what the database holds.
  ghost predicate CleanStored(s: State, k: CalibrationKey)
    requires k in s.records && k in s.latest
  {
    s.records[k].dirtyVersion == 0 && (s.latest[k] > 0 || s.records[k].record.samples > 0) ==>
      k in s.db && s.db[k].record == s.records[k].record
  }

  ghost predicate CleanIsStored(s: State) {
    forall k | k in s.records && k in s.latest :: CleanStored(s, k)
  }

  /** However calibrations and any number of flushers interleave, a record that is clean again is the stored one
      exactly when the last write to its row carried the record's latest version. */
  lemma StoredIffLastWriteIsLatest(initial: map<TaskType, seq<real>>, s0: State, steps: seq<Step>, k: CalibrationKey)
    requires Initial(s0)
    requires var s := Run(initial, s0, steps);
             k in s.records && k in s.latest && s.records[k].dirtyVersion == 0 && s.latest[k] > 0
    ensures var s := Run(initial, s0, steps);
            && k in s.db
            && (s.db[k].record == s.records[k].record <==> s.db[k].version == s.latest[k])
            && (s.db[k].record != s.records[k].record <==> s.db[k].record.samples < s.records[k].record.samples)
  {
    hide Next;
    RunKeeps(initial, s0, steps);
    assert RecordOk(Run(initial, s0, steps), k);
  }

  // What a flusher would have to check before it writes, and before it clears: no record it holds was flushed at a
  // later version meanwhile; no row it wrote was overwritten with another version meanwhile.
  ghost predicate InTime(s: State, step: Step) {
    match step
    case Write(f, true) =>
      Doing(s, f).Snapshotted? ==> forall d | d in Doing(s, f).dirty && d.key in s.records && d.key in s.latest ::
        s.records[d.key].dirtyVersion == 0 ==> d.version == s.latest[d.key]
    case Clear(f) =>
      Doing(s, f).Written? ==> forall d | d in Doing(s, f).dirty && d.key in s.records && d.key in s.db ::
        s.records[d.key].dirtyVersion == d.version ==> s.db[d.key].version == d.version
    case _ => true
  }

  lemma WriteStoresIff(s: State, f: nat)
    requires Inv(s) && CleanIsStored(s) && Doing(s, f).Snapshotted?
    ensures CleanIsStored(WrittenBy(s, f)) <==> InTime(s, Write(f, true))
  {
    hide Upsert, DistinctKeys, Listed, CleanStored, RecordOk, Behind;
    var dirty, t := Doing(s, f).dirty, WrittenBy(s, f);
    assert FlusherOk(s, s.flushers[f]);
    WriteKeeps(s, f);
    if InTime(s, Write(f, true)) {
      forall k | k in t.records && k in t.latest ensures CleanStored(t, k) {
        assert RecordOk(s, k) && RecordOk(t, k) && CleanStored(s, k);
        WriteInTime(s, f, k);
      }
    }
    if CleanIsStored(t) {
      forall d | d in dirty && d.key in s.records && d.key in s.latest && s.records[d.key].dirtyVersion == 0
        ensures d.version == s.latest[d.key]
      {
        assert CleanStored(t, d.key) && Behind(s, d.key, d.record, d.version);
        UpsertIs(s.db, dirty);
        LateWriteShows(s, t, d);
      }
    }
  }

  lemma WriteInTime(s: State, f: nat, k: CalibrationKey)
    requires Doing(s, f).Snapshotted? && DirtyOk(s, Doing(s, f).dirty)
    requires RecordOk(s, k) && CleanStored(s, k) && InTime(s, Write(f, true))
    ensures CleanStored(WrittenBy(s, f), k)
  {
    hide Upsert, DistinctKeys, Listed;
    var dirty, t := Doing(s, f).dirty, WrittenBy(s, f);
    UpsertAt(s.db, dirty, k);
    if Listed(dirty, k) {
      var d :| d in dirty && d.key == k && t.db[k] == Stored(d.record, d.version);
      assert Behind(s, k, d.record, d.version);
    }
  }

  lemma LateWriteShows(s: State, t: State, d: Dirty)
    requires Behind(s, d.key, d.record, d.version) && d.version > 0 && s.records[d.key].dirtyVersion == 0
    requires t.records == s.records && t.latest == s.latest
    requires d.key in t.db && t.db[d.key] == Stored(d.record, d.version) && CleanStored(t, d.key)
    ensures d.version == s.latest[d.key]
  {}

  lemma ClearStoresIff(s: State, f: nat)
    requires Inv(s) && CleanIsStored(s) && Doing(s, f).Written?
    ensures CleanIsStored(ClearedBy(s, f)) <==> InTime(s, Clear(f))
  {
    hide ClearAll, DistinctKeys, CleanStored, RecordOk, Behind, Clears;
    var dirty, t := Doing(s, f).dirty, ClearedBy(s, f);
    assert FlusherOk(s, s.flushers[f]);
    ClearKeeps(s, f);
    if InTime(s, Clear(f)) {
      forall k | k in t.records && k in t.latest ensures CleanStored(t, k) {
        assert RecordOk(s, k) && RecordOk(t, k) && CleanStored(s, k);
        ClearInTime(s, f, k);
      }
    }
    if CleanIsStored(t) {
      forall d | d in dirty && d.key in s.records && d.key in s.db && s.records[d.key].dirtyVersion == d.version
        ensures s.db[d.key].version == d.version
      {
        assert RecordOk(s, d.key) && CleanStored(t, d.key);
        assert Behind(s, d.key, s.db[d.key].record, s.db[d.key].version);
        ClearShows(s, f, d);
      }
    }
  }

  lemma ClearInTime(s: State, f: nat, k: CalibrationKey)
    requires Doing(s, f).Written? && FlusherOk(s, Doing(s, f)) && RecordOk(s, k) && CleanStored(s, k)
    requires k in s.db ==> Behind(s, k, s.db[k].record, s.db[k].version)
    requires InTime(s, Clear(f))
    ensures k in ClearedBy(s, f).records && CleanStored(ClearedBy(s, f), k)
  {
    hide ClearAll, DistinctKeys;
    ClearAt(s.records, Doing(s, f).dirty, k);
  }

  lemma ClearShows(s: State, f: nat, d: Dirty)
    requires Doing(s, f).Written? && FlusherOk(s, Doing(s, f)) && d in Doing(s, f).dirty && RecordOk(s, d.key)
    requires d.key in s.db && s.records[d.key].dirtyVersion == d.version
    requires Behind(s, d.key, s.db[d.key].record, s.db[d.key].version)
    requires d.key in ClearedBy(s, f).records && CleanStored(ClearedBy(s, f), d.key)
    ensures s.db[d.key].version == d.version
  {
    hide ClearAll, DistinctKeys;
    ClearAt(s.records, Doing(s, f).dirty, d.key);
    assert Clears(Doing(s, f).dirty, d.key, s.records[d.key].dirtyVersion);
  }

  /** A step leaves every clean record stored exactly when it is in time; only a write or a clear can fail to be. */
  lemma StepStoresIff(initial: map<TaskType, seq<real>>, s: State, step: Step)
    requires Inv(s) && CleanIsStored(s)
    ensures CleanIsStored(Next(initial, s, step)) <==> InTime(s, step)
  {
    hide ClearAll, Upsert, DirtyListed, Inv;
    match step
    case Calibrate(k, demand, outcome) =>
      forall j | j in s.records && j in s.latest ensures CleanStored(s, j) {}
    case Snapshot(f, dirty) =>
      forall j | j in s.records && j in s.latest ensures CleanStored(s, j) {}
    case Write(f, ok) =>
      forall j | j in s.records && j in s.latest ensures CleanStored(s, j) {}
      if Doing(s, f).Snapshotted? {
        WriteStoresIff(s, f);
      }
    case Clear(f) =>
      if Doing(s, f).Written? {
        ClearStoresIff(s, f);
      }
  }

  // Clean records are stored in every state of the run.
  ghost predicate StoredThroughout(initial: map<TaskType, seq<real>>, s0: State, steps: seq<Step>) {
    forall n | 0 <= n <= |steps| :: CleanIsStored(Run(initial, s0, steps[..n]))
  }

  // Every step of the run is in time.
  ghost predicate AllInTime(initial: map<TaskType, seq<real>>, s0: State, steps: seq<Step>) {
    forall n | 0 <= n < |steps| :: InTime(Run(initial, s0, steps[..n]), steps[n])
  }

  lemma StoredSnoc(initial: map<TaskType, seq<real>>, s0: State, steps: seq<Step>)
    requires steps != []
    ensures StoredThroughout(initial, s0, steps) <==>
              StoredThroughout(initial, s0, steps[..|steps| - 1]) && CleanIsStored(Run(initial, s0, steps))
  {
    hide Run, CleanIsStored;
    var m := |steps| - 1;
    assert steps[..|steps|] == steps;
    forall n | 0 <= n <= m ensures steps[..n] == steps[..m][..n] {}
    if StoredThroughout(initial, s0, steps) {
      forall n | 0 <= n <= m ensures CleanIsStored(Run(initial, s0, steps[..m][..n])) {
        assert CleanIsStored(Run(initial, s0, steps[..n]));
      }
      assert CleanIsStored(Run(initial, s0, steps[..|steps|]));
    }
  }

  lemma InTimeSnoc(initial: map<TaskType, seq<real>>, s0: State, steps: seq<Step>)
    requires steps != []
    ensures var m := |steps| - 1;
            AllInTime(initial, s0, steps) <==>
              AllInTime(initial, s0, steps[..m]) && InTime(Run(initial, s0, steps[..m]), steps[m])
  {
    hide Run, InTime;
    var m := |steps| - 1;
    forall n | 0 <= n < m ensures steps[..n] == steps[..m][..n] && steps[n] == steps[..m][n] {}
    if AllInTime(initial, s0, steps) {
      forall n | 0 <= n < m ensures InTime(Run(initial, s0, steps[..m][..n]), steps[..m][n]) {
        assert InTime(Run(initial, s0, steps[..n]), steps[n]);
      }
    }
  }

  // The last state of a run, with the run up to it.
  lemma StoredAtEnd(initial: map<TaskType, seq<real>>, s0: State, steps: seq<Step>)
    requires StoredThroughout(initial, s0, steps)
    ensures CleanIsStored(Run(initial, s0, steps))
  {
    hide Run, CleanIsStored;
    assert steps[..|steps|] == steps;
  }

  lemma NothingRun(initial: map<TaskType, seq<real>>, s0: State)
    ensures StoredThroughout(initial, s0, []) <==> CleanIsStored(s0)
    ensures AllInTime(initial, s0, [])
  {
    hide CleanIsStored;
    var none: seq<Step> := [];
    assert none[..0] == none;
    assert StoredThroughout(initial, s0, none) ==> CleanIsStored(Run(initial, s0, none[..0]));
  }

  /** So every state of a run keeps every clean record stored exactly when every step of it is in time. */
  lemma {:induction false} RunStoresIff(initial: map<TaskType, seq<real>>, s0: State, steps: seq<Step>)
    requires Initial(s0)
    ensures StoredThroughout(initial, s0, steps) <==> AllInTime(initial, s0, steps)
  {
    hide Next, CleanIsStored, InTime, Initial, StoredThroughout, AllInTime, Inv;
    if steps == [] {
      InitialStored(s0);
      NothingRun(initial, s0);
    } else {
      var m := |steps| - 1;
      var front := steps[..m];
      RunStoresIff(initial, s0, front);
      RunKeeps(initial, s0, front);
      StoredSnoc(initial, s0, steps);
      InTimeSnoc(initial, s0, steps);
      if StoredThroughout(initial, s0, front) {
        StoredAtEnd(initial, s0, front);
        StepStoresIff(initial, Run(initial, s0, front), steps[m]);
      }
    }
  }

  lemma InitialStored(s: State)
    requires Initial(s)
    ensures CleanIsStored(s)
  {}

  /** Two flushes at once can lose a sample: the earlier snapshot is written after the later one was written and
      cleared, and the record stays clean at two samples while its row holds one. */
  lemma LateWriteLosesSample(initial: map<TaskType, seq<real>>, k: CalibrationKey, demand: Uint64, fit: Fit)
    returns (steps: seq<Step>)
    requires fit.Fitted?
    ensures var empty := State(map[], 0, map[], map[], map[]);
            var s := Run(initial, empty, steps);
            && Initial(empty) && |steps| == 7
            && k in s.records && s.records[k].dirtyVersion == 0 && s.records[k].record.samples == 2
            && k in s.db && s.db[k].record.samples == 1
            && !CleanIsStored(s)
  {
    hide Run, Next, Calibrated, DirtyListed, Upsert, ClearAll, Sampled, CleanIsStored, Initial;
    var s0 := State(map[], 0, map[], map[], map[]);
    var one := Sampled(FreshRecord(initial, k.kind), demand, fit.parameters, fit.fit);
    var two := Sampled(one, demand, fit.parameters, fit.fit);
    var early, late := Dirty(k, one, 1), Dirty(k, two, 2);
    steps := [Calibrate(k, demand, fit), Snapshot(0, [early]), Calibrate(k, demand, fit), Snapshot(1, [late]),
              Write(1, true), Clear(1), Write(0, true)];
    var s1 := Calibrated(initial, s0, k, demand, fit);
    FirstSample(initial, s0, k, demand, fit);
    OneListed(k, one, 1);
    var s2 := s1.(flushers := s1.flushers[0 := Snapshotted([early])]);
    var s3 := Calibrated(initial, s2, k, demand, fit);
    SecondSample(initial, s2, k, demand, fit, one);
    OneListed(k, two, 2);
    var s4 := s3.(flushers := s3.flushers[1 := Snapshotted([late])]);
    var s5 := WrittenBy(s4, 1);
    var s6 := ClearedBy(s5, 1);
    OneCleared(s5.records, late);
    var s7 := WrittenBy(s6, 0);
    OneWritten(s6.db, early);
    CalibrateStep(initial, s0, k, demand, fit);
    SnapshotStep(initial, s1, 0, [early]);
    CalibrateStep(initial, s2, k, demand, fit);
    SnapshotStep(initial, s3, 1, [late]);
    WriteStep(initial, s4, 1);
    ClearStep(initial, s5, 1);
    WriteStep(initial, s6, 0);
    RunOf(initial, s0, steps, [s0, s1, s2, s3, s4, s5, s6, s7]);
    EmptyIsInitial(s0);
    LostAt(s7, k, one, two);
  }

  lemma CalibrateStep(initial: map<TaskType, seq<real>>, s: State, k: CalibrationKey, demand: Uint64, fit: Fit)
    ensures Next(initial, s, Calibrate(k, demand, fit)) == Calibrated(initial, s, k, demand, fit)
  {}

  lemma SnapshotStep(initial: map<TaskType, seq<real>>, s: State, f: nat, dirty: seq<Dirty>)
    requires Doing(s, f).Idle? && DirtyListed(s.records, dirty) && dirty != []
    ensures Next(initial, s, Snapshot(f, dirty)) == s.(flushers := s.flushers[f := Snapshotted(dirty)])
  {}

  lemma WriteStep(initial: map<TaskType, seq<real>>, s: State, f: nat)
    requires Doing(s, f).Snapshotted?
    ensures Next(initial, s, Write(f, true)) == WrittenBy(s, f)
  {}

  lemma ClearStep(initial: map<TaskType, seq<real>>, s: State, f: nat)
    requires Doing(s, f).Written?
    ensures Next(initial, s, Clear(f)) == ClearedBy(s, f)
  {}

  lemma EmptyIsInitial(s: State)
    requires s == State(map[], 0, map[], map[], map[])
    ensures Initial(s)
  {}

  lemma FirstSample(initial: map<TaskType, seq<real>>, s: State, k: CalibrationKey, demand: Uint64, fit: Fit)
    requires s == State(map[], 0, map[], map[], map[]) && fit.Fitted?
    ensures var one := Sampled(FreshRecord(initial, k.kind), demand, fit.parameters, fit.fit);
            && Calibrated(initial, s, k, demand, fit) == State(map[k := Cached(one, 1)], 1, map[k := 1], map[], map[])
            && one.samples == 1
  {}

  lemma SecondSample(initial: map<TaskType, seq<real>>, s: State, k: CalibrationKey, demand: Uint64, fit: Fit,
                     one: Calibration)
    requires s == State(map[k := Cached(one, 1)], 1, map[k := 1], map[], s.flushers) && fit.Fitted?
    ensures var two := Sampled(one, demand, fit.parameters, fit.fit);
            && Calibrated(initial, s, k, demand, fit)
                 == State(map[k := Cached(two, 2)], 2, map[k := 2], map[], s.flushers)
            && two.samples == one.samples + 1
  {}

  lemma LostAt(s: State, k: CalibrationKey, one: Calibration, two: Calibration)
    requires k in s.records && s.records[k] == Cached(two, 0) && k in s.latest && s.latest[k] > 0
    requires k in s.db && s.db[k].record == one && one != two
    ensures !CleanIsStored(s)
  {
    assert !CleanStored(s, k);
  }

  lemma OneListed(k: CalibrationKey, r: Calibration, v: nat)
    requires v > 0
    ensures DirtyListed(map[k := Cached(r, v)], [Dirty(k, r, v)])
  {
    assert Dirty(k, r, v) in [Dirty(k, r, v)];
  }

  lemma OneWritten(db: map<CalibrationKey, Stored>, d: Dirty)
    ensures Upsert(db, [d]) == db[d.key := Stored(d.record, d.version)]
  {
    assert [d][..0] == [];
  }

  lemma OneCleared(rs: Records, d: Dirty)
    ensures ClearAll(rs, [d]) == ClearOne(rs, d)
  {
    assert [d][..0] == [];
  }

  // A run given state by state.
  lemma {:induction false} RunOf(initial: map<TaskType, seq<real>>, s0: State, steps: seq<Step>, states: seq<State>)
    requires |states| == |steps| + 1 && states[0] == s0
    requires forall n | 0 <= n < |steps| :: states[n + 1] == Next(initial, states[n], steps[n])
    ensures Run(initial, s0, steps) == states[|steps|]
  {
    hide Next;
    if steps != [] {
      RunOf(initial, s0, steps[..|steps| - 1], states[..|steps|]);
    }
  }

  // ---------- One flush at a time ----------

  // No flush begins while another is under way.
  ghost predicate Exclusive(initial: map<TaskType, seq<real>>, s0: State, steps: seq<Step>) {
    forall n | 0 <= n < |steps| && steps[n].Snapshot? :: Quiet(Run(initial, s0, steps[..n]))
  }

  // At most one flush is under way; every record it took is still dirty, and every row it wrote is as it wrote it.
  ghost predicate OneFlush(s: State) {
    && (forall f, g | !Doing(s, f).Idle? && !Doing(s, g).Idle? :: f == g)
    && (forall f | !Doing(s, f).Idle? :: forall d | d in Doing(s, f).dirty ::
          d.key in s.records && s.records[d.key].dirtyVersion != 0)
    && (forall f | Doing(s, f).Written? :: forall d | d in Doing(s, f).dirty ::
          d.key in s.db && s.db[d.key] == Stored(d.record, d.version))
  }

  lemma OneFlushKeeps(initial: map<TaskType, seq<real>>, s: State, step: Step)
    requires Inv(s) && OneFlush(s) && (step.Snapshot? ==> Quiet(s))
    ensures OneFlush(Next(initial, s, step)) && InTime(s, step)
  {
    hide ClearAll, Upsert, RecordOk, Behind, CleanIsStored;
    match step
    case Calibrate(k, demand, outcome) =>
      OneFlushStays(initial, s, k, demand, outcome);
    case Snapshot(f, dirty) =>
      if DirtyListed(s.records, dirty) {
        OneFlushBegins(s, f, dirty);
      }
    case Write(f, ok) =>
      if Doing(s, f).Snapshotted? {
        OneFlushWrites(s, f);
        OneFlushEnds(s, f, s.(flushers := s.flushers[f := Idle]));
      }
    case Clear(f) =>
      if Doing(s, f).Written? {
        OneFlushEnds(s, f, ClearedBy(s, f));
      }
  }

  lemma OneFlushStays(initial: map<TaskType, seq<real>>, s: State, k: CalibrationKey, demand: Uint64, outcome: Fit)
    requires OneFlush(s)
    ensures OneFlush(Calibrated(initial, s, k, demand, outcome))
  {
    forall f ensures Doing(Calibrated(initial, s, k, demand, outcome), f) == Doing(s, f) {}
  }

  lemma OneFlushBegins(s: State, f: nat, dirty: seq<Dirty>)
    requires Quiet(s) && DirtyListed(s.records, dirty)
    ensures OneFlush(s.(flushers := s.flushers[f := Snapshotted(dirty)]))
  {
    var t := s.(flushers := s.flushers[f := Snapshotted(dirty)]);
    forall g | g != f ensures Doing(t, g).Idle? {
      assert Doing(s, g).Idle?;
    }
  }

  lemma OneFlushWrites(s: State, f: nat)
    requires Inv(s) && OneFlush(s) && Doing(s, f).Snapshotted?
    ensures OneFlush(WrittenBy(s, f))
  {
    hide Upsert, RecordOk, Behind, DistinctKeys;
    var t := WrittenBy(s, f);
    assert FlusherOk(s, s.flushers[f]);
    UpsertIs(s.db, Doing(s, f).dirty);
    forall g | g != f ensures Doing(s, g).Idle? && Doing(t, g).Idle? {}
  }

  lemma OneFlushEnds(s: State, f: nat, t: State)
    requires OneFlush(s) && !Doing(s, f).Idle? && t.flushers == s.flushers[f := Idle]
    ensures Quiet(t) && OneFlush(t)
  {
    forall g ensures Doing(t, g).Idle? {
      assert g != f ==> Doing(s, g).Idle?;
    }
  }

  /** While flushes exclude one another, as the ticker's do, a clean record that ever took a sample is the stored one
      in every state of every run. */
  lemma {:induction false} NoSampleLost(initial: map<TaskType, seq<real>>, s0: State, steps: seq<Step>)
    requires Initial(s0) && Exclusive(initial, s0, steps)
    ensures CleanIsStored(Run(initial, s0, steps)) && OneFlush(Run(initial, s0, steps))
  {
    hide Next, CleanIsStored, InTime, OneFlush;
    if steps == [] {
      InitialStored(s0);
      InitialQuiet(s0);
    } else {
      var m := |steps| - 1;
      var s := Run(initial, s0, steps[..m]);
      assert forall n | 0 <= n <= m :: steps[..n] == steps[..m][..n];
      NoSampleLost(initial, s0, steps[..m]);
      RunKeeps(initial, s0, steps[..m]);
      OneFlushKeeps(initial, s, steps[m]);
      StepStoresIff(initial, s, steps[m]);
    }
  }

  lemma InitialQuiet(s: State)
    requires Initial(s)
    ensures OneFlush(s)
  {}

  /** And a flush with nothing in between stores every dirty record, touches no other row and leaves no record dirty. */
  lemma QuietFlushCompletes(initial: map<TaskType, seq<real>>, s: State, f: nat, dirty: seq<Dirty>)
    requires Inv(s) && Doing(s, f).Idle? && DirtyListed(s.records, dirty) && dirty != []
    ensures var t := Run(initial, s, [Snapshot(f, dirty), Write(f, true), Clear(f)]);
            && Doing(t, f).Idle? && t.records.Keys == s.records.Keys
            && (forall k | k in s.records :: t.records[k] == Cached(s.records[k].record, 0))
            && (forall d | d in dirty :: d.key in t.db && t.db[d.key] == Stored(d.record, d.version))
            && (forall k | k in s.db && s.records[k].dirtyVersion == 0 :: k in t.db && t.db[k] == s.db[k])
  {
    hide Upsert, ClearAll, DistinctKeys;
    var steps := [Snapshot(f, dirty), Write(f, true), Clear(f)];
    var a := Next(initial, s, steps[0]);
    var b := Next(initial, a, steps[1]);
    RunOf(initial, s, steps, [s, a, b, Next(initial, b, steps[2])]);
    UpsertIs(s.db, dirty);
    ClearIs(s.records, dirty);
    forall k | k in s.db && s.records[k].dirtyVersion == 0 ensures forall d | d in dirty :: d.key != k {}
  }
}

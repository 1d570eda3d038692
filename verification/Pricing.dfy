/** Task pricing: cached mean parameters over calibration records, kept current record by record. */
module Pricing {
  import opened Model
  import opened HashList

  const UINT64 := 0x1_0000_0000_0000_0000

  type Uint64 = x: nat | x < UINT64

  const AUTO := "auto"

  datatype CalibrationKey = CalibrationKey(
    kind: TaskType,
    gpuName: string,
    vram: Uint64,
    modelName: string,
    executionDType: string,
    files: Hash,
    quantization: Hash)

  // The fields of a calibration record that belong to its own task type; fit is the regression state.
  datatype Calibration = Calibration(
    samples: nat,
    minVram: Uint64,
    maxVram: Uint64,
    parameters: seq<real>,
    fit: seq<real>)

  datatype Cached = Cached(record: Calibration, dirtyVersion: nat)

  datatype PricingKey = PricingKey(
    kind: TaskType,
    vramDemand: Uint64,
    modelName: string,
    requestedDType: string,
    quantization: Hash)

  type Records = map<CalibrationKey, Cached>

  // Two parameters for images, six for language models.
  function Dimension(kind: TaskType): nat {
    if kind.SD? then 2 else 6
  }

  function At(v: seq<real>, i: nat): real {
    if i < |v| then v[i] else 0.0
  }

  // ---------- Candidates ----------

  predicate MatchesConfig(k: CalibrationKey, p: PricingKey) {
    && k.kind == p.kind && k.modelName == p.modelName && k.quantization == p.quantization
    && (p.requestedDType == "" || p.requestedDType == AUTO || k.executionDType == p.requestedDType)
  }

  function IntervalDistance(r: Calibration, demand: Uint64): Uint64 {
    if demand < r.minVram then r.minVram - demand
    else if demand > r.maxVram then demand - r.maxVram
    else 0
  }

  // What candidates are looked up for: a configuration, on a required GPU or on any ("").
  datatype Query = Query(key: PricingKey, gpuName: string, gpuVram: Uint64, sampledOnly: bool)

  // The query behind a cached price.
  function Plain(p: PricingKey): Query {
    Query(p, "", 0, true)
  }

  predicate Eligible(r: Calibration, k: CalibrationKey, q: Query) {
    && k.kind == q.key.kind && (q.sampledOnly ==> r.samples > 0)
    && (if q.gpuName == "" then k.vram >= q.key.vramDemand else k.vram == q.gpuVram)
  }

  function Hardware(rs: Records, q: Query): set<CalibrationKey> {
    set k | k in rs && Eligible(rs[k].record, k, q)
  }

  predicate Named(k: CalibrationKey, q: Query) {
    k.gpuName == q.gpuName
  }

  // Past its warm-up.
  predicate Ready(rs: Records, warmup: nat, k: CalibrationKey) {
    k in rs && rs[k].record.samples >= warmup
  }

  predicate Nearest(rs: Records, q: Query, pool: set<CalibrationKey>, k: CalibrationKey) {
    && k in pool && k in rs
    && forall j | j in pool && j in rs ::
         IntervalDistance(rs[k].record, q.key.vramDemand) <= IntervalDistance(rs[j].record, q.key.vramDemand)
  }

  // The records of the required GPU that match, if they are to be used; else all that match; else those nearest in
  // demand, of the GPU named if it has any.
  function Candidates(rs: Records, warmup: nat, q: Query): (r: set<CalibrationKey>)
    ensures r <= rs.Keys
  {
    var hardware := Hardware(rs, q);
    var matching := set k | k in hardware && MatchesConfig(k, q.key);
    var exact := set k | k in matching && Named(k, q);
    if q.gpuName != "" && exact != {} && (q.sampledOnly || forall k | k in exact :: Ready(rs, warmup, k)) then exact
    else if matching != {} then matching
    else
      var named := set k | k in hardware && Named(k, q);
      var pool := if named != {} then named else hardware;
      set k | k in pool && Nearest(rs, q, pool, k)
  }

  function Between(x: Uint64, y: Uint64): nat {
    if x <= y then y - x else x - y
  }

  /** The distance of a demand from the demands a record has seen: from the nearest point between them. */
  lemma NearestPoint(r: Calibration, demand: Uint64) returns (at: Uint64)
    requires r.minVram <= r.maxVram
    ensures r.minVram <= at <= r.maxVram && IntervalDistance(r, demand) == Between(demand, at)
    ensures forall x: Uint64 | r.minVram <= x <= r.maxVram :: IntervalDistance(r, demand) <= Between(demand, x)
  {
    at := if demand < r.minVram then r.minVram else if demand > r.maxVram then r.maxVram else demand;
  }

  // The GPU could run the query, and if asked for has run something.
  predicate CanRun(rs: Records, q: Query, k: CalibrationKey) {
    && k in rs && k.kind == q.key.kind && (q.sampledOnly ==> rs[k].record.samples > 0)
    && (q.gpuName == "" ==> k.vram >= q.key.vramDemand) && (q.gpuName != "" ==> k.vram == q.gpuVram)
  }

  predicate SameModel(k: CalibrationKey, p: PricingKey) {
    && k.modelName == p.modelName && k.quantization == p.quantization
    && (p.requestedDType in {"", "auto"} || k.executionDType == p.requestedDType)
  }

  // A record that could run the query: with the same model, of the named GPU.
  predicate Wanted(rs: Records, q: Query, model: bool, gpu: bool, k: CalibrationKey) {
    CanRun(rs, q, k) && (model ==> SameModel(k, q.key)) && (gpu ==> k.gpuName == q.gpuName)
  }

  predicate AnyWanted(rs: Records, q: Query, model: bool, gpu: bool) {
    exists k | k in rs :: Wanted(rs, q, model, gpu, k)
  }

  // The required GPU's own records of the model are to be used.
  predicate OwnRecords(rs: Records, warmup: nat, q: Query) {
    && q.gpuName != "" && AnyWanted(rs, q, true, true)
    && (q.sampledOnly || forall k | k in rs && Wanted(rs, q, true, true, k) :: rs[k].record.samples >= warmup)
  }

  // How far the demand is from those the record has seen.
  function Gap(r: Calibration, demand: Uint64): int {
    if demand < r.minVram then r.minVram - demand else if demand > r.maxVram then demand - r.maxVram else 0
  }

  lemma WantedAre(rs: Records, q: Query)
    ensures var hardware := Hardware(rs, q);
            var matching := set j | j in hardware && MatchesConfig(j, q.key);
            && (forall j :: j in hardware <==> Wanted(rs, q, false, false, j))
            && (forall j :: j in matching <==> Wanted(rs, q, true, false, j))
            && (forall j :: j in matching && Named(j, q) <==> Wanted(rs, q, true, true, j))
            && (forall j :: j in hardware && Named(j, q) <==> Wanted(rs, q, false, true, j))
  {}

  lemma AnyIs(rs: Records, q: Query, model: bool, gpu: bool, ks: set<CalibrationKey>)
    requires forall j :: j in ks <==> Wanted(rs, q, model, gpu, j)
    ensures ks != {} <==> AnyWanted(rs, q, model, gpu)
  {
    if ks != {} {
      var j :| j in ks;
      assert Wanted(rs, q, model, gpu, j) && j in rs;
    }
  }

  /** Which records a price is the mean of: those of the same model that could run it, on the required GPU where its own
      are to be used; and if there are none, those that could run it, of the named GPU if it has any, nearest in
      demand. */
  lemma CandidateIff(rs: Records, warmup: nat, q: Query, k: CalibrationKey)
    ensures k in Candidates(rs, warmup, q) <==>
              if OwnRecords(rs, warmup, q) then Wanted(rs, q, true, true, k)
              else if AnyWanted(rs, q, true, false) then Wanted(rs, q, true, false, k)
              else
                var named := AnyWanted(rs, q, false, true);
                Wanted(rs, q, false, named, k) && forall j | j in rs && Wanted(rs, q, false, named, j) ::
                  Gap(rs[k].record, q.key.vramDemand) <= Gap(rs[j].record, q.key.vramDemand)
  {
    hide Hardware, Wanted, MatchesConfig, Named, AnyWanted;
    WantedAre(rs, q);
    var hardware := Hardware(rs, q);
    var matching := set j | j in hardware && MatchesConfig(j, q.key);
    var exact := set j | j in matching && Named(j, q);
    var named := set j | j in hardware && Named(j, q);
    AnyIs(rs, q, true, true, exact);
    AnyIs(rs, q, true, false, matching);
    AnyIs(rs, q, false, true, named);
    forall j | j in hardware ensures j in rs {
      WantedExists(rs, q, false, false, j);
    }
    forall j | Wanted(rs, q, true, true, j) ensures j in rs {
      WantedExists(rs, q, true, true, j);
    }
  }

  lemma WantedExists(rs: Records, q: Query, model: bool, gpu: bool, k: CalibrationKey)
    requires Wanted(rs, q, model, gpu, k)
    ensures k in rs
  {}

  // ---------- Means ----------

  ghost function Total(rs: Records, ks: set<CalibrationKey>, i: nat): real
    requires ks <= rs.Keys
  {
    if ks == {} then 0.0 else
      var k :| k in ks;
      At(rs[k].record.parameters, i) + Total(rs, ks - {k}, i)
  }

  /** A total can be taken in any order. */
  lemma {:induction false} TotalWithout(rs: Records, ks: set<CalibrationKey>, k: CalibrationKey, i: nat)
    requires ks <= rs.Keys && k in ks
    ensures Total(rs, ks, i) == At(rs[k].record.parameters, i) + Total(rs, ks - {k}, i)
    decreases ks
  {
    var j :| j in ks && Total(rs, ks, i) == At(rs[j].record.parameters, i) + Total(rs, ks - {j}, i);
    if j != k {
      TotalWithout(rs, ks - {j}, k, i);
      TotalWithout(rs, ks - {k}, j, i);
      assert ks - {j} - {k} == ks - {k} - {j};
    }
  }

  /** A record adds its own parameter to a total, or nothing if it has none there. */
  lemma TotalGains(rs: Records, ks: set<CalibrationKey>, k: CalibrationKey, i: nat)
    requires ks <= rs.Keys && k in ks
    ensures var p := rs[k].record.parameters;
            Total(rs, ks, i) == Total(rs, ks - {k}, i) + if i < |p| then p[i] else 0.0
  {
    TotalWithout(rs, ks, k, i);
  }

  ghost function Mean(initial: seq<real>, rs: Records, ks: set<CalibrationKey>, kind: TaskType): seq<real>
    requires ks <= rs.Keys
  {
    if ks == {} then initial else
      seq(Dimension(kind), i requires 0 <= i => Total(rs, ks, i) / |ks| as real)
  }

  lemma Undivided(x: real, n: real)
    requires n > 0.0
    ensures x / n * n == x
  {}

  /** A mean has two parameters for images and six for other tasks, each times the number of records their total. */
  lemma MeanIs(initial: seq<real>, rs: Records, ks: set<CalibrationKey>, kind: TaskType, i: nat)
    requires ks <= rs.Keys && ks != {}
    ensures |Mean(initial, rs, ks, kind)| == if kind == SD then 2 else 6
    ensures i < |Mean(initial, rs, ks, kind)| ==> Mean(initial, rs, ks, kind)[i] * |ks| as real == Total(rs, ks, i)
  {
    hide Total;
    var total, count := Total(rs, ks, i), |ks| as real;
    Undivided(total, count);
    assert i < |Mean(initial, rs, ks, kind)| ==> Mean(initial, rs, ks, kind)[i] == total / count;
  }

  ghost function Price(initial: map<TaskType, seq<real>>, warmup: nat, rs: Records, q: Query): seq<real> {
    Mean(if q.key.kind in initial then initial[q.key.kind] else [], rs, Candidates(rs, warmup, q), q.key.kind)
  }

  /** Totals depend only on the records in the set. */
  lemma {:induction false} TotalSame(rs: Records, rs': Records, ks: set<CalibrationKey>, i: nat)
    requires ks <= rs.Keys && ks <= rs'.Keys && forall k | k in ks :: rs'[k].record == rs[k].record
    ensures Total(rs', ks, i) == Total(rs, ks, i)
    decreases ks
  {
    if ks != {} {
      var k :| k in ks;
      TotalWithout(rs, ks, k, i);
      TotalWithout(rs', ks, k, i);
      TotalSame(rs, rs', ks - {k}, i);
    }
  }

  /** A record that is not eligible hardware for a query, before and after, does not move its price. */
  lemma PriceUnmoved(initial: map<TaskType, seq<real>>, warmup: nat, rs: Records, k: CalibrationKey, c: Cached,
                     q: Query)
    requires k !in Hardware(rs[k := c], q) && (k in rs ==> k !in Hardware(rs, q))
    ensures Price(initial, warmup, rs[k := c], q) == Price(initial, warmup, rs, q)
  {
    var rs' := rs[k := c];
    assert Hardware(rs', q) == Hardware(rs, q);
    assert Candidates(rs', warmup, q) == Candidates(rs, warmup, q) by {
      CandidatesSame(rs, rs', warmup, q);
    }
    MeanSame(rs, rs', Candidates(rs, warmup, q), if q.key.kind in initial then initial[q.key.kind] else [], q.key.kind);
  }

  /** Whatever a record becomes, it moves no cached price of another type or of a demand above its GPU's VRAM. */
  lemma UnservedPriceUnmoved(initial: map<TaskType, seq<real>>, warmup: nat, rs: Records, k: CalibrationKey, c: Cached,
                             p: PricingKey)
    requires p.kind != k.kind || p.vramDemand > k.vram
    ensures Price(initial, warmup, rs[k := c], Plain(p)) == Price(initial, warmup, rs, Plain(p))
  {
    PriceUnmoved(initial, warmup, rs, k, c, Plain(p));
  }

  lemma CandidatesSame(rs: Records, rs': Records, warmup: nat, q: Query)
    requires Hardware(rs, q) == Hardware(rs', q) && forall k | k in Hardware(rs, q) :: rs'[k].record == rs[k].record
    ensures Candidates(rs', warmup, q) == Candidates(rs, warmup, q)
    ensures forall k | k in Candidates(rs, warmup, q) :: k in Hardware(rs, q)
  {
    hide Hardware, MatchesConfig, Named, Ready, Nearest;
    HardwareWithin(rs, q);
    HardwareWithin(rs', q);
    var hardware := Hardware(rs, q);
    var named := set k | k in hardware && Named(k, q);
    var pool := if named != {} then named else hardware;
    forall k | k in hardware ensures Ready(rs', warmup, k) == Ready(rs, warmup, k) {
      ReadySame(rs, rs', warmup, k);
    }
    forall k | k in pool ensures Nearest(rs', q, pool, k) == Nearest(rs, q, pool, k) {
      NearestSame(rs, rs', q, pool, k);
    }
  }

  lemma HardwareWithin(rs: Records, q: Query)
    ensures Hardware(rs, q) <= rs.Keys
  {}

  lemma ReadySame(rs: Records, rs': Records, warmup: nat, k: CalibrationKey)
    requires k in rs && k in rs' && rs'[k].record == rs[k].record
    ensures Ready(rs', warmup, k) == Ready(rs, warmup, k)
  {}

  lemma NearestSame(rs: Records, rs': Records, q: Query, pool: set<CalibrationKey>, k: CalibrationKey)
    requires pool <= rs.Keys && pool <= rs'.Keys && forall j | j in pool :: rs'[j].record == rs[j].record
    ensures Nearest(rs', q, pool, k) == Nearest(rs, q, pool, k)
  {}

  lemma MeanSame(rs: Records, rs': Records, ks: set<CalibrationKey>, initial: seq<real>, kind: TaskType)
    requires ks <= rs.Keys && ks <= rs'.Keys && forall k | k in ks :: rs'[k].record == rs[k].record
    ensures Mean(initial, rs', ks, kind) == Mean(initial, rs, ks, kind)
  {
    forall i: nat ensures Total(rs', ks, i) == Total(rs, ks, i) {
      TotalSame(rs, rs', ks, i);
    }
  }

  // ---------- Calibration ----------

  function FreshRecord(initial: map<TaskType, seq<real>>, kind: TaskType): Calibration {
    Calibration(0, 0, 0, if kind in initial then initial[kind] else [], [])
  }

  function RecordOf(initial: map<TaskType, seq<real>>, rs: Records, k: CalibrationKey): Calibration {
    if k in rs then rs[k].record else FreshRecord(initial, k.kind)
  }

  // The next record after one sample, given what the regression fitted.
  function Sampled(r: Calibration, demand: Uint64, parameters: seq<real>, fit: seq<real>): Calibration {
    Calibration(r.samples + 1,
                if r.minVram == 0 || demand < r.minVram then demand else r.minVram,
                if demand > r.maxVram then demand else r.maxVram,
                parameters, fit)
  }

  // What one execution reported and the regression made of it.
  datatype Sample = Sample(demand: Uint64, parameters: seq<real>, fit: seq<real>)

  function Fed(r: Calibration, xs: seq<Sample>): Calibration {
    if xs == [] then r else
      var last := xs[|xs| - 1];
      Sampled(Fed(r, xs[..|xs| - 1]), last.demand, last.parameters, last.fit)
  }

  /** After any samples a record has their number, the last fit, and the least and greatest of their demands. */
  lemma {:induction false} RangeOfDemands(initial: map<TaskType, seq<real>>, kind: TaskType, xs: seq<Sample>)
    returns (i: nat, j: nat)
    requires xs != [] && forall x | x in xs :: x.demand > 0
    ensures var r := Fed(FreshRecord(initial, kind), xs);
            && r.samples == |xs| && r.parameters == xs[|xs| - 1].parameters && r.fit == xs[|xs| - 1].fit
            && i < |xs| && j < |xs| && r.minVram == xs[i].demand && r.maxVram == xs[j].demand
            && forall x | x in xs :: r.minVram <= x.demand <= r.maxVram
  {
    var n := |xs| - 1;
    i, j := n, n;
    assert xs[n] in xs;
    if n > 0 {
      var front := xs[..n];
      var r := Fed(FreshRecord(initial, kind), front);
      var i0, j0 := RangeOfDemands(initial, kind, front);
      assert front[i0] in xs;
      i := if xs[n].demand < r.minVram then n else i0;
      j := if xs[n].demand > r.maxVram then n else j0;
      assert forall x | x in xs :: x in front || x == xs[n];
    } else {
      assert xs[..0] == [];
      assert forall x | x in xs :: x == xs[0];
    }
  }

  datatype Fit = Fitted(parameters: seq<real>, fit: seq<real>) | FitFailed

  function NextVersion(version: nat, outcome: Fit): nat {
    if outcome.Fitted? then version + 1 else version
  }

  // The records after one sample: a failed fit leaves at most a new record without samples.
  function AfterSample(initial: map<TaskType, seq<real>>, rs: Records, version: nat, k: CalibrationKey, demand: Uint64,
                       outcome: Fit): Records
  {
    if outcome.Fitted? then
      rs[k := Cached(Sampled(RecordOf(initial, rs, k), demand, outcome.parameters, outcome.fit), version + 1)]
    else if k in rs then rs
    else rs[k := Cached(FreshRecord(initial, k.kind), 0)]
  }

  /** A failed fit leaves the records as they were exactly when the configuration already had one. */
  lemma FailedFitIff(initial: map<TaskType, seq<real>>, rs: Records, version: nat, k: CalibrationKey, demand: Uint64)
    ensures AfterSample(initial, rs, version, k, demand, FitFailed) == rs <==> k in rs
    ensures forall j | j in rs :: j in AfterSample(initial, rs, version, k, demand, FitFailed) &&
              AfterSample(initial, rs, version, k, demand, FitFailed)[j] == rs[j]
  {}

  /** An empty store after its first sample failed to fit: one record, without samples and not dirty. */
  lemma FailedFitLeavesRecord(initial: map<TaskType, seq<real>>, k: CalibrationKey, demand: Uint64)
    ensures var rs := AfterSample(initial, map[], 0, k, demand, FitFailed);
            && rs.Keys == {k} && rs[k].dirtyVersion == 0
            && rs[k].record == Calibration(0, 0, 0, if k.kind in initial then initial[k.kind] else [], [])
  {}

  datatype Store = Store(records: Records, aggregates: map<PricingKey, seq<real>>, version: nat)

  /** Every cached aggregate is the mean recomputed from the current records. */
  ghost predicate Current(initial: map<TaskType, seq<real>>, warmup: nat, s: Store) {
    forall p | p in s.aggregates :: s.aggregates[p] == Price(initial, warmup, s.records, Plain(p))
  }

  class PricingStore {
    const initial: map<TaskType, seq<real>>
    const warmup: nat
    var records: Records
    var aggregates: map<PricingKey, seq<real>>
    var version: nat

    ghost function View(): Store
      reads this
    {
      Store(records, aggregates, version)
    }

    ghost predicate Valid()
      reads this
    {
      Current(initial, warmup, View())
    }

    constructor (initial0: map<TaskType, seq<real>>, warmup0: nat, loaded: Records)
      ensures Valid() && initial == initial0 && warmup == warmup0 && View() == Store(loaded, map[], 0)
    {
      warmup := warmup0;
      initial, records, aggregates, version := initial0, loaded, map[], 0;
    }

    /** The mean over any set of records, summed in whatever order they come. */
    method MeanParameters(ks: set<CalibrationKey>, kind: TaskType) returns (r: seq<real>)
      requires ks <= records.Keys
      ensures r == Mean(if kind in initial then initial[kind] else [], records, ks, kind)
    {
      if ks == {} {
        return if kind in initial then initial[kind] else [];
      }
      var n := Dimension(kind);
      var total := seq(n, i => 0.0);
      var count := 0;
      var todo := ks;
      while todo != {}
        invariant todo <= ks && |total| == n && count + |todo| == |ks|
        invariant forall i: nat | i < n :: total[i] + Total(records, todo, i) == Total(records, ks, i)
        decreases |todo|
      {
        var k :| k in todo;
        forall i: nat | i < n
          ensures Total(records, todo, i) == At(records[k].record.parameters, i) + Total(records, todo - {k}, i)
        {
          TotalWithout(records, todo, k, i);
        }
        var parameters := records[k].record.parameters;
        total := seq(n, i requires 0 <= i < n => total[i] + At(parameters, i));
        count := count + 1;
        todo := todo - {k};
      }
      r := seq(n, i requires 0 <= i < n => total[i] / count as real);
    }

    method HardwareOf(q: Query) returns (hardware: set<CalibrationKey>, named: set<CalibrationKey>)
      ensures hardware == Hardware(records, q)
      ensures named == set k | k in hardware && Named(k, q)
    {
      hide Eligible, Named;
      hardware, named := {}, {};
      var todo := records.Keys;
      while todo != {}
        invariant todo <= records.Keys
        invariant hardware == Hardware(records, q) - todo
        invariant named == set k | k in hardware && Named(k, q)
        decreases |todo|
      {
        var k :| k in todo;
        todo := todo - {k};
        if Eligible(records[k].record, k, q) {
          hardware := hardware + {k};
          if Named(k, q) {
            named := named + {k};
          }
        }
      }
    }

    method MatchingOf(hardware: set<CalibrationKey>, q: Query)
      returns (matching: set<CalibrationKey>, exact: set<CalibrationKey>)
      ensures matching == set k | k in hardware && MatchesConfig(k, q.key)
      ensures exact == set k | k in matching && Named(k, q)
    {
      hide MatchesConfig, Named;
      matching, exact := {}, {};
      var todo := hardware;
      while todo != {}
        invariant todo <= hardware && matching == set k | k in hardware - todo && MatchesConfig(k, q.key)
        invariant exact == set k | k in matching && Named(k, q)
        decreases |todo|
      {
        var k :| k in todo;
        todo := todo - {k};
        if MatchesConfig(k, q.key) {
          matching := matching + {k};
          if Named(k, q) {
            exact := exact + {k};
          }
        }
      }
    }

    method AllReady(ks: set<CalibrationKey>) returns (ready: bool)
      ensures ready <==> forall k | k in ks :: Ready(records, warmup, k)
    {
      var todo := ks;
      while todo != {}
        invariant todo <= ks && forall k | k in ks - todo :: Ready(records, warmup, k)
        decreases |todo|
      {
        var k :| k in todo;
        if k !in records || records[k].record.samples < warmup {
          return false;
        }
        todo := todo - {k};
      }
      ready := true;
    }

    method NearestOf(pool: set<CalibrationKey>, q: Query) returns (nearest: set<CalibrationKey>)
      requires pool <= records.Keys
      ensures nearest == set k | k in pool && Nearest(records, q, pool, k)
    {
      hide IntervalDistance, Nearest;
      nearest := {};
      var minDistance: nat := UINT64 - 1;
      var todo := pool;
      while todo != {}
        invariant todo <= pool
        invariant forall k | k in pool - todo :: minDistance <= IntervalDistance(records[k].record, q.key.vramDemand)
        invariant nearest ==
                  set k | k in pool - todo && IntervalDistance(records[k].record, q.key.vramDemand) == minDistance
        invariant nearest == {} ==> todo == pool && minDistance == UINT64 - 1
        decreases |todo|
      {
        var k :| k in todo;
        todo := todo - {k};
        var distance := IntervalDistance(records[k].record, q.key.vramDemand);
        if distance < minDistance {
          minDistance := distance;
          nearest := {};
        }
        if distance == minDistance {
          nearest := nearest + {k};
        }
      }
      NearestIs(records, q, pool, nearest, minDistance);
    }

    /** The candidates: the required GPU's records that match the configuration (where unsampled records count,
        only once all of these are past their warm-up); else all that match; else those nearest in VRAM demand. */
    method CandidateCalibrations(q: Query) returns (nearest: set<CalibrationKey>)
      ensures nearest == Candidates(records, warmup, q)
    {
      hide Eligible, Named, MatchesConfig, Nearest, Ready;
      var hardware, named := HardwareOf(q);
      var matching, exact := MatchingOf(hardware, q);
      if q.gpuName != "" && exact != {} {
        var exactReady := AllReady(exact);
        if q.sampledOnly || exactReady {
          return exact;
        }
      }
      if matching != {} {
        return matching;
      }
      nearest := NearestOf(if named != {} then named else hardware, q);
    }

    /** The price of a configuration on a required GPU is always computed; on any GPU it is cached. */
    method GetTaskPricingParameters(p: PricingKey, requiredGpu: string, requiredVram: Uint64) returns (r: seq<real>)
      requires Valid()
      modifies this`aggregates
      ensures Valid()
      ensures r == Price(initial, warmup, records,
                         if requiredGpu == "" then Plain(p) else Query(p, requiredGpu, requiredVram, true))
      ensures aggregates == if requiredGpu == "" then old(aggregates)[p := r] else old(aggregates)
    {
      hide Candidates, Mean;
      if requiredGpu != "" {
        var required := CandidateCalibrations(Query(p, requiredGpu, requiredVram, true));
        r := MeanParameters(required, p.kind);
        return;
      }
      if p in aggregates {
        assert aggregates[p := aggregates[p]] == aggregates;
        return aggregates[p];
      }
      var candidates := CandidateCalibrations(Plain(p));
      r := MeanParameters(candidates, p.kind);
      aggregates := aggregates[p := r];
    }

    /** Refreshes every cached key of the type whose demand the changed GPU can serve, and no other. */
    method RecomputeAggregates(kind: TaskType, changedVram: Uint64)
      modifies this`aggregates
      ensures aggregates.Keys == old(aggregates.Keys)
      ensures forall p | p in aggregates ::
                aggregates[p] == if p.kind == kind && p.vramDemand <= changedVram
                                 then Price(initial, warmup, records, Plain(p)) else old(aggregates[p])
    {
      hide Price, Candidates, Mean;
      var todo := aggregates.Keys;
      while todo != {}
        invariant aggregates.Keys == old(aggregates.Keys) && todo <= aggregates.Keys
        invariant forall p | p in aggregates ::
                    aggregates[p] == if p !in todo && p.kind == kind && p.vramDemand <= changedVram
                                     then Price(initial, warmup, records, Plain(p)) else old(aggregates[p])
        decreases |todo|
      {
        var p :| p in todo;
        if p.kind == kind && p.vramDemand <= changedVram {
          var candidates := CandidateCalibrations(Plain(p));
          var r := MeanParameters(candidates, kind);
          PriceIs(initial, warmup, records, Plain(p));
          aggregates := aggregates[p := r];
        }
        todo := todo - {p};
      }
    }

    /** One sample: a failed fit changes no price and no existing record; a fitted one is stored, marked
        dirty with a new version, and every cached price is current again. */
    method Calibrate(k: CalibrationKey, demand: Uint64, outcome: Fit)
      requires Valid()
      modifies this
      ensures Valid() && aggregates.Keys == old(aggregates.Keys)
      ensures outcome.FitFailed? ==> aggregates == old(aggregates)
      ensures version == NextVersion(old(version), outcome)
      ensures records == AfterSample(initial, old(records), old(version), k, demand, outcome)
    {
      hide Price;
      if k !in records {
        FreshUnmoved(initial, warmup, View(), k);
        records := records[k := Cached(FreshRecord(initial, k.kind), 0)];
      }
      if outcome.FitFailed? {
        return;
      }
      version := version + 1;
      ghost var before := View();
      records := records[k := Cached(Sampled(records[k].record, demand, outcome.parameters, outcome.fit), version)];
      RecomputeAggregates(k.kind, k.vram);
      forall p | p in aggregates ensures aggregates[p] == Price(initial, warmup, records, Plain(p)) {
        if !(p.kind == k.kind && p.vramDemand <= k.vram) {
          UnservedPriceUnmoved(initial, warmup, before.records, k, records[k], p);
        }
      }
    }
  }

  lemma NearestIs(rs: Records, q: Query, pool: set<CalibrationKey>, nearest: set<CalibrationKey>, least: nat)
    requires pool <= rs.Keys && (nearest == {} ==> pool == {})
    requires forall k | k in pool :: least <= IntervalDistance(rs[k].record, q.key.vramDemand)
    requires nearest == set k | k in pool && IntervalDistance(rs[k].record, q.key.vramDemand) == least
    ensures nearest == set k | k in pool && Nearest(rs, q, pool, k)
  {
    if nearest != {} {
      var j :| j in nearest;
      assert forall k | k in pool && Nearest(rs, q, pool, k) ::
          IntervalDistance(rs[k].record, q.key.vramDemand) <= IntervalDistance(rs[j].record, q.key.vramDemand);
    }
  }

  lemma PriceIs(initial: map<TaskType, seq<real>>, warmup: nat, rs: Records, q: Query)
    ensures Price(initial, warmup, rs, q) ==
            Mean(if q.key.kind in initial then initial[q.key.kind] else [], rs, Candidates(rs, warmup, q), q.key.kind)
  {}

  lemma FreshUnmoved(initial: map<TaskType, seq<real>>, warmup: nat, s: Store, k: CalibrationKey)
    requires Current(initial, warmup, s) && k !in s.records
    ensures Current(initial, warmup, s.(records := s.records[k := Cached(FreshRecord(initial, k.kind), 0)]))
  {
    hide Price;
    forall p | p in s.aggregates
      ensures Price(initial, warmup, s.records[k := Cached(FreshRecord(initial, k.kind), 0)], Plain(p))
              == Price(initial, warmup, s.records, Plain(p))
    {
      PriceUnmoved(initial, warmup, s.records, k, Cached(FreshRecord(initial, k.kind), 0), Plain(p));
    }
  }
}

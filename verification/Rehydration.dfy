/** Query contexts: building query objects from request data, running every query through the
    cache, and building the same context again from what was kept of it. */
module Rehydration {
  import opened ChartCache
  import opened Options
  import opened Sequences

  datatype Metric = Named(name: string) | Labelled(text: string) | Adhoc(definition: string)

  /** The keyword arguments of one query; `deprecatedExtras` are the retired fields that belong into
      `extras`. */
  datatype RawQuery = RawQuery(
    datasource: Option<Uid>, resultType: Option<ResultType>, layers: seq<Layer>,
    applyFetchValuesPredicate: bool, granularity: Option<string>, granularitySqla: Option<string>,
    metrics: seq<Metric>, groupby: seq<string>, filters: seq<string>, timeRange: Option<string>,
    timeShift: Option<string>, isTimeseries: Option<bool>, timeseriesLimit: nat, rowLimit: Option<nat>,
    rowOffset: Option<nat>, timeseriesLimitMetric: Option<string>, orderDesc: bool,
    extras: map<string, string>, deprecatedExtras: map<string, string>, columns: seq<string>,
    orderby: seq<string>, postProcessing: seq<Option<string>>, isRowcount: bool)

  datatype Config = Config(sip15: bool, graceOver: bool, rowLimit: nat, samplesRowLimit: nat)

  // ----- building a query object -----

  const ENDPOINTS := "time_range_endpoints"
  const DEFAULT_ENDPOINTS := "inclusive,exclusive"

  const DEPRECATED_EXTRAS_FIELDS: seq<(string, string)> :=
    [("where", "where"), ("having", "having"), ("having_filters", "having_druid"),
     ("druid_time_origin", "druid_time_origin")]

  function TimeRangeEndpoints(cfg: Config, extras: map<string, string>): string {
    if !cfg.graceOver && ENDPOINTS in extras && extras[ENDPOINTS] != "" then extras[ENDPOINTS] else DEFAULT_ENDPOINTS
  }

  function WithEndpoints(cfg: Config, extras: map<string, string>): map<string, string> {
    if cfg.sip15 then extras[ENDPOINTS := TimeRangeEndpoints(cfg, extras)] else extras
  }

  /** The first `n` retired fields moved into `extras`. */
  function Moved(extras: map<string, string>, retired: map<string, string>, n: nat): map<string, string>
    requires n <= |DEPRECATED_EXTRAS_FIELDS|
  {
    if n == 0 then extras
    else
      var (oldName, newName) := DEPRECATED_EXTRAS_FIELDS[n - 1];
      var before := Moved(extras, retired, n - 1);
      if oldName in retired && retired[oldName] != "" then before[newName := retired[oldName]] else before
  }

  function FinalExtras(cfg: Config, raw: RawQuery): map<string, string> {
    Moved(WithEndpoints(cfg, raw.extras), raw.deprecatedExtras, |DEPRECATED_EXTRAS_FIELDS|)
  }

  function MetricNames(metrics: seq<Metric>): seq<string> {
    seq(|metrics|, i requires 0 <= i < |metrics| =>
      match metrics[i]
      case Named(name) => name
      case Labelled(text) => text
      case Adhoc(definition) => definition)
  }

  function Present(ops: seq<Option<string>>): seq<string> {
    if ops == [] then []
    else
      var last := ops[|ops| - 1];
      Present(ops[..|ops| - 1]) + if last.Some? && last.value != "" then [last.value] else []
  }

  function DropFormulas(layers: seq<Layer>): seq<Layer> {
    if layers == [] then []
    else
      var last := layers[|layers| - 1];
      DropFormulas(layers[..|layers| - 1])
        + if "annotationType" in last && last["annotationType"] == "FORMULA" then [] else [last]
  }

  function Construct(cfg: Config, raw: RawQuery): QueryObject {
    QueryObject(
      Core(if raw.granularitySqla.Some? && raw.granularitySqla.value != "" then raw.granularitySqla
           else raw.granularity,
           raw.groupby, raw.isRowcount,
           if raw.isTimeseries.Some? then raw.isTimeseries.value else DTTM_ALIAS in raw.columns + raw.groupby,
           MetricNames(raw.metrics),
           if raw.rowLimit.Some? then raw.rowLimit.value else cfg.rowLimit,
           if raw.rowOffset.Some? then raw.rowOffset.value else 0,
           raw.filters, raw.timeseriesLimit, raw.timeseriesLimitMetric, raw.orderDesc,
           FinalExtras(cfg, raw), raw.columns, raw.orderby),
      raw.applyFetchValuesPredicate, raw.timeRange, raw.timeShift, Present(raw.postProcessing),
      raw.datasource, raw.resultType, DropFormulas(raw.layers))
  }

  // ----- what is built, field by field -----

  ghost function TextOf(m: Metric): string {
    match m
    case Named(name) => name
    case Labelled(text) => text
    case Adhoc(definition) => definition
  }

  /** `ops` are the given operations that are neither missing nor empty, in the same order. */
  ghost predicate GivenOperations(given: seq<Option<string>>, ops: seq<string>) {
    exists pos :: OperationsAt(given, pos, ops)
  }

  ghost predicate OperationsAt(given: seq<Option<string>>, pos: seq<nat>, ops: seq<string>) {
    && Increasing(pos) && |ops| == |pos|
    && (forall i :: i in pos <==> 0 <= i < |given| && given[i] != None && given[i] != Some(""))
    && (forall k | 0 <= k < |pos| :: pos[k] < |given| && given[pos[k]] == Some(ops[k]))
  }

  predicate IsFormula(layer: Layer) {
    "annotationType" in layer && layer["annotationType"] == "FORMULA"
  }

  /** `kept` are the given annotation layers that are no formula, in the same order. */
  ghost predicate GivenLayers(given: seq<Layer>, kept: seq<Layer>) {
    exists pos :: LayersAt(given, pos, kept)
  }

  ghost predicate LayersAt(given: seq<Layer>, pos: seq<nat>, kept: seq<Layer>) {
    && Increasing(pos) && |kept| == |pos|
    && (forall i :: i in pos <==> 0 <= i < |given| && !IsFormula(given[i]))
    && (forall k | 0 <= k < |pos| :: pos[k] < |given| && given[pos[k]] == kept[k])
  }

  /** Every field of the query object comes from the field of the request it is named after, with its
      default where the request leaves it out. */
  ghost predicate BuiltFrom(cfg: Config, raw: RawQuery, q: QueryObject) {
    && q.core.groupby == raw.groupby && q.core.columns == raw.columns
    && q.core.filters == raw.filters && q.core.orderby == raw.orderby
    && q.core.granularity == (if raw.granularitySqla in {None, Some("")} then raw.granularity else raw.granularitySqla)
    && q.core.isRowcount == raw.isRowcount && q.core.orderDesc == raw.orderDesc
    && (raw.isTimeseries.Some? ==> q.core.isTimeseries == raw.isTimeseries.value)
    && (raw.isTimeseries.None? ==>
          (q.core.isTimeseries <==> "__timestamp" in raw.columns || "__timestamp" in raw.groupby))
    && |q.core.metrics| == |raw.metrics|
    && (forall i | 0 <= i < |raw.metrics| :: q.core.metrics[i] == TextOf(raw.metrics[i]))
    && (raw.rowLimit.Some? ==> q.core.rowLimit == raw.rowLimit.value)
    && (raw.rowLimit.None? ==> q.core.rowLimit == cfg.rowLimit)
    && (raw.rowOffset.Some? ==> q.core.rowOffset == raw.rowOffset.value)
    && (raw.rowOffset.None? ==> q.core.rowOffset == 0)
    && q.core.timeseriesLimit == raw.timeseriesLimit && q.core.timeseriesLimitMetric == raw.timeseriesLimitMetric
    && q.applyFetchValuesPredicate == raw.applyFetchValuesPredicate
    && q.timeRange == raw.timeRange && q.timeShift == raw.timeShift
    && q.datasource == raw.datasource && q.resultType == raw.resultType
    && GivenOperations(raw.postProcessing, q.postProcessing) && GivenLayers(raw.layers, q.layers)
    && ExtrasFrom(cfg, raw, q.core.extras)
  }

  /** The extras are those of the request, but for the retired fields that hold something, which stand
      under their new names, and for the endpoints. */
  ghost predicate ExtrasFrom(cfg: Config, raw: RawQuery, extras: map<string, string>) {
    && FieldFrom(raw, extras, "where", "where") && FieldFrom(raw, extras, "having", "having")
    && FieldFrom(raw, extras, "having_filters", "having_druid")
    && FieldFrom(raw, extras, "druid_time_origin", "druid_time_origin")
    && (!cfg.sip15 ==> SameField(raw.extras, extras, "time_range_endpoints"))
    && (cfg.sip15 ==>
          && "time_range_endpoints" in extras
          && extras["time_range_endpoints"] ==
             if !cfg.graceOver && "time_range_endpoints" in raw.extras && raw.extras["time_range_endpoints"] != ""
             then raw.extras["time_range_endpoints"] else "inclusive,exclusive")
    && forall f | f !in {"where", "having", "having_druid", "druid_time_origin", "time_range_endpoints"} ::
         SameField(raw.extras, extras, f)
  }

  ghost predicate SameField(a: map<string, string>, b: map<string, string>, f: string) {
    (f in a <==> f in b) && (f in a && f in b ==> a[f] == b[f])
  }

  ghost predicate FieldFrom(raw: RawQuery, extras: map<string, string>, oldName: string, newName: string) {
    if oldName in raw.deprecatedExtras && raw.deprecatedExtras[oldName] != ""
    then newName in extras && extras[newName] == raw.deprecatedExtras[oldName]
    else SameField(raw.extras, extras, newName)
  }

  lemma {:induction false} PresentInOrder(given: seq<Option<string>>) returns (pos: seq<nat>)
    ensures OperationsAt(given, pos, Present(given))
  {
    if given == [] {
      pos := [];
    } else {
      var n := |given| - 1;
      var before := PresentInOrder(given[..n]);
      pos := before + if given[n] != None && given[n] != Some("") then [n] else [];
      OneMoreOperation(given, before, Present(given[..n]));
    }
  }

  lemma OneMoreOperation(given: seq<Option<string>>, pos: seq<nat>, ops: seq<string>)
    requires given != [] && OperationsAt(given[..|given| - 1], pos, ops)
    ensures var last := given[|given| - 1];
      var more := last != None && last != Some("");
      OperationsAt(given, pos + (if more then [|given| - 1] else []), ops + if more then [last.value] else [])
  {
    var n, last := |given| - 1, given[|given| - 1];
    var more := last != None && last != Some("");
    var r := pos + if more then [n] else [];
    assert forall i :: i in r <==> i in pos || (more && i == n);
    assert forall i | 0 <= i < n :: given[..n][i] == given[i];
  }

  lemma {:induction false} FormulasDropped(given: seq<Layer>) returns (pos: seq<nat>)
    ensures LayersAt(given, pos, DropFormulas(given))
  {
    if given == [] {
      pos := [];
    } else {
      var n := |given| - 1;
      var before := FormulasDropped(given[..n]);
      pos := before + if IsFormula(given[n]) then [] else [n];
      OneMoreLayer(given, before, DropFormulas(given[..n]));
    }
  }

  lemma OneMoreLayer(given: seq<Layer>, pos: seq<nat>, kept: seq<Layer>)
    requires given != [] && LayersAt(given[..|given| - 1], pos, kept)
    ensures var last := given[|given| - 1];
      LayersAt(given, pos + (if IsFormula(last) then [] else [|given| - 1]),
               kept + if IsFormula(last) then [] else [last])
  {
    var n, last := |given| - 1, given[|given| - 1];
    var r := pos + if IsFormula(last) then [] else [n];
    assert forall i :: i in r <==> i in pos || (!IsFormula(last) && i == n);
    assert forall i | 0 <= i < n :: given[..n][i] == given[i];
  }

  /** What moving one retired field does to another field. */
  lemma MovedField(extras: map<string, string>, retired: map<string, string>, n: nat, f: string)
    requires n < |DEPRECATED_EXTRAS_FIELDS|
    ensures var (oldName, newName) := DEPRECATED_EXTRAS_FIELDS[n];
      var moves := oldName in retired && retired[oldName] != "";
      && (moves && f == newName ==>
            f in Moved(extras, retired, n + 1) && Moved(extras, retired, n + 1)[f] == retired[oldName])
      && (!moves || f != newName ==> SameField(Moved(extras, retired, n), Moved(extras, retired, n + 1), f))
  {
  }

  lemma {:induction false} OtherFieldStays(extras: map<string, string>, retired: map<string, string>,
                                           n: nat, m: nat, f: string)
    requires n <= m <= |DEPRECATED_EXTRAS_FIELDS|
    requires forall i | n <= i < m :: f != DEPRECATED_EXTRAS_FIELDS[i].1
    ensures SameField(Moved(extras, retired, n), Moved(extras, retired, m), f)
  {
    if n < m {
      OtherFieldStays(extras, retired, n, m - 1, f);
      MovedField(extras, retired, m - 1, f);
    }
  }

  lemma RetiredFieldMoves(cfg: Config, raw: RawQuery, n: nat)
    requires n < |DEPRECATED_EXTRAS_FIELDS|
    ensures FieldFrom(raw, FinalExtras(cfg, raw), DEPRECATED_EXTRAS_FIELDS[n].0, DEPRECATED_EXTRAS_FIELDS[n].1)
  {
    var extras, retired, f := WithEndpoints(cfg, raw.extras), raw.deprecatedExtras, DEPRECATED_EXTRAS_FIELDS[n].1;
    NewNamesApart();
    OtherFieldStays(extras, retired, 0, n, f);
    MovedField(extras, retired, n, f);
    OtherFieldStays(extras, retired, n + 1, |DEPRECATED_EXTRAS_FIELDS|, f);
  }

  lemma NewNamesApart()
    ensures forall i, j | 0 <= i < j < |DEPRECATED_EXTRAS_FIELDS| ::
      DEPRECATED_EXTRAS_FIELDS[i].1 != DEPRECATED_EXTRAS_FIELDS[j].1
    ensures forall i | 0 <= i < |DEPRECATED_EXTRAS_FIELDS| :: DEPRECATED_EXTRAS_FIELDS[i].1 != ENDPOINTS
  {
    assert |"where"| == 5 && |"having"| == 6 && |"having_druid"| == 12 && |"druid_time_origin"| == 17;
    assert |ENDPOINTS| == 20;
  }

  lemma ExtrasMeaning(cfg: Config, raw: RawQuery)
    ensures ExtrasFrom(cfg, raw, FinalExtras(cfg, raw))
  {
    var first, n := WithEndpoints(cfg, raw.extras), |DEPRECATED_EXTRAS_FIELDS|;
    RetiredFieldMoves(cfg, raw, 0);
    RetiredFieldMoves(cfg, raw, 1);
    RetiredFieldMoves(cfg, raw, 2);
    RetiredFieldMoves(cfg, raw, 3);
    NewNamesApart();
    OtherFieldStays(first, raw.deprecatedExtras, 0, n, ENDPOINTS);
    forall f | f !in {"where", "having", "having_druid", "druid_time_origin", "time_range_endpoints"}
      ensures SameField(raw.extras, FinalExtras(cfg, raw), f)
    {
      OtherFieldStays(first, raw.deprecatedExtras, 0, n, f);
    }
  }

  lemma ConstructMeaning(cfg: Config, raw: RawQuery)
    ensures BuiltFrom(cfg, raw, Construct(cfg, raw))
  {
    var ops := PresentInOrder(raw.postProcessing);
    var layers := FormulasDropped(raw.layers);
    ExtrasMeaning(cfg, raw);
  }

  /** The `extras` dictionary of the request is the query object's own unless it is empty, so
      building the object also changes the request data that is kept for later. */
  function Kept(cfg: Config, raw: RawQuery): RawQuery {
    raw.(extras := if raw.extras == map[] then raw.extras else FinalExtras(cfg, raw))
  }

  class ExtrasDict {
    var fields: map<string, string>

    constructor (fields: map<string, string>)
      ensures this.fields == fields
    {
      this.fields := fields;
    }
  }

  /** The constructor; `shared` is the dictionary object inside the request data. */
  method BuildQueryObject(cfg: Config, raw: RawQuery, shared: ExtrasDict) returns (q: QueryObject)
    requires shared.fields == raw.extras
    modifies shared
    ensures q == Construct(cfg, raw) && BuiltFrom(cfg, raw, q)
    ensures shared.fields == Kept(cfg, raw).extras
  {
    var extras := shared;
    if shared.fields == map[] {
      extras := new ExtrasDict(map[]);
    }
    if cfg.sip15 {
      extras.fields := extras.fields[ENDPOINTS := TimeRangeEndpoints(cfg, extras.fields)];
    }
    for i := 0 to |DEPRECATED_EXTRAS_FIELDS|
      invariant extras.fields == Moved(WithEndpoints(cfg, raw.extras), raw.deprecatedExtras, i)
      invariant raw.extras == map[] ==> shared.fields == raw.extras
    {
      var (oldName, newName) := DEPRECATED_EXTRAS_FIELDS[i];
      if oldName in raw.deprecatedExtras {
        var value := raw.deprecatedExtras[oldName];
        if value != "" {
          extras.fields := extras.fields[newName := value];
        }
      }
    }
    q := Construct(cfg, raw).(core := Construct(cfg, raw).core.(extras := extras.fields));
    ConstructMeaning(cfg, raw);
  }

  /** The retired fields among the first `n` stand in `extras` under their new names. */
  ghost predicate Settled(extras: map<string, string>, retired: map<string, string>, n: nat)
    requires n <= |DEPRECATED_EXTRAS_FIELDS|
  {
    forall i | 0 <= i < n :: SettledField(extras, retired, i)
  }

  ghost predicate SettledField(extras: map<string, string>, retired: map<string, string>, i: nat)
    requires i < |DEPRECATED_EXTRAS_FIELDS|
  {
    var (oldName, newName) := DEPRECATED_EXTRAS_FIELDS[i];
    oldName in retired && retired[oldName] != "" ==> newName in extras && extras[newName] == retired[oldName]
  }

  lemma {:induction false} MovingSettles(extras: map<string, string>, retired: map<string, string>, n: nat)
    requires n <= |DEPRECATED_EXTRAS_FIELDS|
    ensures Settled(Moved(extras, retired, n), retired, n)
    ensures ENDPOINTS in extras ==>
      ENDPOINTS in Moved(extras, retired, n) && Moved(extras, retired, n)[ENDPOINTS] == extras[ENDPOINTS]
  {
    if n > 0 {
      MovingSettles(extras, retired, n - 1);
      assert |ENDPOINTS| == 20 && |DEPRECATED_EXTRAS_FIELDS[n - 1].1| < 20;
      forall i | 0 <= i < n
        ensures SettledField(Moved(extras, retired, n), retired, i)
      {
        if i < n - 1 {
          assert SettledField(Moved(extras, retired, n - 1), retired, i);
          NewNamesApart();
        }
      }
    }
  }

  lemma {:induction false} SettledStays(extras: map<string, string>, retired: map<string, string>, n: nat)
    requires n <= |DEPRECATED_EXTRAS_FIELDS| && Settled(extras, retired, n)
    ensures Moved(extras, retired, n) == extras
  {
    if n > 0 {
      SettledStays(extras, retired, n - 1);
      assert SettledField(extras, retired, n - 1);
    }
  }

  /** Building once more from what was kept gives the same query object. */
  lemma ConstructAgain(cfg: Config, raw: RawQuery)
    ensures Construct(cfg, Kept(cfg, raw)) == Construct(cfg, raw)
  {
    var first, final := WithEndpoints(cfg, raw.extras), FinalExtras(cfg, raw);
    MovingSettles(first, raw.deprecatedExtras, |DEPRECATED_EXTRAS_FIELDS|);
    assert WithEndpoints(cfg, final) == final;
    SettledStays(final, raw.deprecatedExtras, |DEPRECATED_EXTRAS_FIELDS|);
    assert FinalExtras(cfg, Kept(cfg, raw)) == final;
  }

  // ----- running a context -----

  predicate Cacheable(kind: ResultType) {
    kind == Samples || kind == Full || kind == Results
  }

  function KindOf(ctx: Context, q: QueryObject): ResultType {
    if q.resultType.Some? then q.resultType.value else ctx.resultType
  }

  /** A request for samples asks for every column of the datasource and for little else. */
  function SamplesQuery(cfg: Config, world: World, ctx: Context, q: QueryObject): QueryObject {
    var datasource := if q.datasource.Some? then q.datasource.value else ctx.datasource;
    var limit := if q.core.rowLimit > 0 && q.core.rowLimit < cfg.samplesRowLimit then q.core.rowLimit
                 else cfg.samplesRowLimit;
    q.(postProcessing := [],
       core := q.core.(isTimeseries := false, orderby := [], groupby := [], metrics := [], rowLimit := limit,
                       rowOffset := 0, columns := world.columnNames(datasource, ctx.changedOn)))
  }

  /** A request for samples: every column of the query's own datasource, or else of the context's, at
      most as many rows as the smaller of the two limits, zero standing for none; no grouping, metric,
      order, offset or post-processing, and the rest as it was. */
  lemma SamplesMeaning(cfg: Config, world: World, ctx: Context, q: QueryObject)
    ensures var s := SamplesQuery(cfg, world, ctx, q);
      && s.core.columns == world.columnNames(if q.datasource.Some? then q.datasource.value else ctx.datasource,
                                             ctx.changedOn)
      && s.core.rowLimit <= cfg.samplesRowLimit && (q.core.rowLimit > 0 ==> s.core.rowLimit <= q.core.rowLimit)
      && s.core.rowLimit in {q.core.rowLimit, cfg.samplesRowLimit} && s.core.rowOffset == 0
      && (q.core.rowLimit == 0 ==> s.core.rowLimit == cfg.samplesRowLimit)
      && s.core.groupby == [] && s.core.metrics == [] && s.core.orderby == [] && s.postProcessing == []
      && !s.core.isTimeseries && s.core.filters == q.core.filters && s.core.extras == q.core.extras
      && s.core.granularity == q.core.granularity && s.core.isRowcount == q.core.isRowcount
      && s.core.timeseriesLimit == q.core.timeseriesLimit && s.core.orderDesc == q.core.orderDesc
      && s.core.timeseriesLimitMetric == q.core.timeseriesLimitMetric
      && s.applyFetchValuesPredicate == q.applyFetchValuesPredicate
      && s.timeRange == q.timeRange && s.timeShift == q.timeShift
      && s.datasource == q.datasource && s.resultType == q.resultType && s.layers == q.layers
  {
  }

  function Asked(cfg: Config, world: World, ctx: Context, q: QueryObject): QueryObject {
    if KindOf(ctx, q) == Samples then SamplesQuery(cfg, world, ctx, q) else q
  }

  /** The answer to one query of a context; descriptions of columns, time grains and query text do
      not go through the cache. */
  datatype QueryResult = Uncached | Frames(payload: Payload)

  /** `raised` when a forced cache missed: the exception ends the run, with nothing answered. */
  datatype ContextRun = ContextRun(results: seq<QueryResult>, cache: Entries, raised: bool)

  function RunQueries(cfg: Config, world: World, ctx: Context, forceCached: bool, cache: Entries, n: nat): ContextRun
    requires n <= |ctx.queries|
  {
    if n == 0 then ContextRun([], cache, false)
    else
      var before := RunQueries(cfg, world, ctx, forceCached, cache, n - 1);
      if before.raised then before else RunQuery(cfg, world, ctx, forceCached, before, ctx.queries[n - 1])
  }

  function RunQuery(cfg: Config, world: World, ctx: Context, forceCached: bool, before: ContextRun, q: QueryObject)
    : ContextRun
  {
    if !Cacheable(KindOf(ctx, q)) then before.(results := before.results + [Uncached])
    else
      var asked := Asked(cfg, world, ctx, q);
      var payload := DfPayload(world, ctx, asked, forceCached, before.cache);
      if payload.CacheLoadError? then before.(raised := true)
      else ContextRun(before.results + [Frames(payload)],
                      CacheAfter(world, ctx, asked, forceCached, true, before.cache), false)
  }

  /** Whether a result came without asking the source. */
  predicate NotAsked(r: QueryResult) {
    r.Frames? ==> r.payload.Payload? && !r.payload.fromSource
  }

  method RunOne(cfg: Config, world: World, ctx: Context, forceCached: bool, cache: DataCache,
                ghost before: seq<QueryResult>, q: QueryObject)
    returns (result: QueryResult, missed: bool)
    modifies cache
    ensures RunQuery(cfg, world, ctx, forceCached, ContextRun(before, old(cache.entries), false), q) ==
      ContextRun(if missed then before else before + [result], cache.entries, missed)
    ensures cache.sourceCalls >= old(cache.sourceCalls)
    ensures missed || NotAsked(result) ==> cache.sourceCalls == old(cache.sourceCalls)
  {
    result, missed := Uncached, false;
    if Cacheable(KindOf(ctx, q)) {
      var payload := cache.GetDfPayload(world, ctx, Asked(cfg, world, ctx, q), forceCached, true);
      if payload.CacheLoadError? {
        missed := true;
      } else {
        result := Frames(payload);
      }
    }
  }

  /** The answer to a query from a given cache: none for a description of columns, time grains or the
      query text; otherwise its payload, or that of the samples it asks for. */
  function AnswerTo(cfg: Config, world: World, ctx: Context, forceCached: bool, cache: Entries, q: QueryObject)
    : QueryResult
  {
    var kind := match q.resultType case Some(own) => own case None => ctx.resultType;
    if kind in {Columns, TimeGrains, QueryText} then Uncached
    else
      var asked := if kind == Samples then SamplesQuery(cfg, world, ctx, q) else q;
      Frames(DfPayload(world, ctx, asked, forceCached, cache))
  }

  /** What becomes of each query: descriptions of columns, time grains and query texts are not cached;
      any other query is answered as it is, or as a request for samples, from the cache that the
      queries before it left. */
  lemma {:induction false} EachQuery(cfg: Config, world: World, ctx: Context, forceCached: bool, cache: Entries,
                                     n: nat, i: nat)
    requires n <= |ctx.queries| && i < |RunQueries(cfg, world, ctx, forceCached, cache, n).results|
    ensures i < n
    ensures RunQueries(cfg, world, ctx, forceCached, cache, n).results[i] ==
      AnswerTo(cfg, world, ctx, forceCached, RunQueries(cfg, world, ctx, forceCached, cache, i).cache, ctx.queries[i])
  {
    RunLength(cfg, world, ctx, forceCached, cache, n);
    var before := RunQueries(cfg, world, ctx, forceCached, cache, n - 1);
    if i < |before.results| {
      EachQuery(cfg, world, ctx, forceCached, cache, n - 1, i);
    } else {
      RunLength(cfg, world, ctx, forceCached, cache, n - 1);
      OneQuery(cfg, world, ctx, forceCached, before, ctx.queries[n - 1]);
    }
  }

  lemma OneQuery(cfg: Config, world: World, ctx: Context, forceCached: bool, before: ContextRun, q: QueryObject)
    ensures var after := RunQuery(cfg, world, ctx, forceCached, before, q).results;
      && before.results <= after
      && |after| <= |before.results| + 1
      && (|after| > |before.results| ==>
            after[|before.results|] == AnswerTo(cfg, world, ctx, forceCached, before.cache, q))
  {
  }

  method GetPayload(cfg: Config, world: World, ctx: Context, forceCached: bool, cache: DataCache)
    returns (results: seq<QueryResult>, raised: bool)
    modifies cache
    ensures ContextRun(results, cache.entries, raised) ==
      RunQueries(cfg, world, ctx, forceCached, old(cache.entries), |ctx.queries|)
    ensures (forall r | r in results :: NotAsked(r)) ==>
      cache.sourceCalls == old(cache.sourceCalls)
  {
    results := [];
    for i := 0 to |ctx.queries|
      invariant ContextRun(results, cache.entries, false) ==
        RunQueries(cfg, world, ctx, forceCached, old(cache.entries), i)
      invariant cache.sourceCalls >= old(cache.sourceCalls)
      invariant (forall r | r in results :: NotAsked(r)) ==>
        cache.sourceCalls == old(cache.sourceCalls)
    {
      var result, missed := RunOne(cfg, world, ctx, forceCached, cache, results, ctx.queries[i]);
      if missed {
        RaisedStays(cfg, world, ctx, forceCached, old(cache.entries), i + 1, |ctx.queries|);
        return results, true;
      }
      assert forall r :: r in results + [result] <==> r in results || r == result;
      results := results + [result];
    }
    raised := false;
  }

  lemma {:induction false} RaisedStays(cfg: Config, world: World, ctx: Context, forceCached: bool,
                                    cache: Entries, n: nat, m: nat)
    requires n <= m <= |ctx.queries| && RunQueries(cfg, world, ctx, forceCached, cache, n).raised
    ensures RunQueries(cfg, world, ctx, forceCached, cache, m) == RunQueries(cfg, world, ctx, forceCached, cache, n)
  {
    if n < m {
      RaisedStays(cfg, world, ctx, forceCached, cache, n, m - 1);
    }
  }

  /** What is kept of a context under its own key, and the context built from it: never forced. */
  datatype Saved = Saved(datasource: Uid, queries: seq<RawQuery>, resultType: ResultType)

  function Constructed(cfg: Config, raws: seq<RawQuery>): seq<QueryObject> {
    seq(|raws|, i requires 0 <= i < |raws| => Construct(cfg, raws[i]))
  }

  function KeptAll(cfg: Config, raws: seq<RawQuery>): seq<RawQuery> {
    seq(|raws|, i requires 0 <= i < |raws| => Kept(cfg, raws[i]))
  }

  function BuildContext(cfg: Config, saved: Saved, changedOn: string, rls: seq<string>, force: bool): Context {
    Context(saved.datasource, changedOn, rls, force, saved.resultType, Constructed(cfg, saved.queries))
  }

  /** What is kept of a request is the request with, unless it had none, the extras of the object. */
  lemma KeptMeaning(cfg: Config, raw: RawQuery)
    ensures Kept(cfg, raw) == raw.(extras := Kept(cfg, raw).extras)
    ensures if raw.extras == map[] then Kept(cfg, raw).extras == map[] else ExtrasFrom(cfg, raw, Kept(cfg, raw).extras)
  {
    ExtrasMeaning(cfg, raw);
  }

  /** A context has the kept datasource and result type, and its queries are built one by one. */
  lemma ContextMeaning(cfg: Config, saved: Saved, changedOn: string, rls: seq<string>, force: bool)
    ensures var ctx := BuildContext(cfg, saved, changedOn, rls, force);
      && ctx.datasource == saved.datasource && ctx.resultType == saved.resultType && ctx.force == force
      && ctx.changedOn == changedOn && ctx.rls == rls && |ctx.queries| == |saved.queries|
      && forall i | 0 <= i < |saved.queries| :: BuiltFrom(cfg, saved.queries[i], ctx.queries[i])
  {
    forall i | 0 <= i < |saved.queries|
      ensures BuiltFrom(cfg, saved.queries[i], Constructed(cfg, saved.queries)[i])
    {
      ConstructMeaning(cfg, saved.queries[i]);
    }
  }

  lemma RebuiltContext(cfg: Config, saved: Saved, changedOn: string, rls: seq<string>, force: bool)
    ensures BuildContext(cfg, saved.(queries := KeptAll(cfg, saved.queries)), changedOn, rls, false)
         == BuildContext(cfg, saved, changedOn, rls, force).(force := false)
  {
    forall i | 0 <= i < |saved.queries|
      ensures Construct(cfg, KeptAll(cfg, saved.queries)[i]) == Construct(cfg, saved.queries[i])
    {
      ConstructAgain(cfg, saved.queries[i]);
    }
  }

  predicate GoesThroughCache(ctx: Context, i: nat)
    requires i < |ctx.queries|
  {
    Cacheable(KindOf(ctx, ctx.queries[i]))
  }

  function QueryKey(cfg: Config, world: World, ctx: Context, i: nat): CacheKey
    requires i < |ctx.queries|
  {
    Key(world, ctx, Asked(cfg, world, ctx, ctx.queries[i]))
  }

  /** Two queries of a forced context that share a key must ask the source the same thing, since the
      later one overwrites the earlier one's entry. */
  ghost predicate Consistent(cfg: Config, world: World, ctx: Context) {
    forall i, j | 0 <= i < |ctx.queries| && 0 <= j < |ctx.queries| &&
                  GoesThroughCache(ctx, i) && GoesThroughCache(ctx, j) &&
                  QueryKey(cfg, world, ctx, i) == QueryKey(cfg, world, ctx, j) ::
      Asked(cfg, world, ctx, ctx.queries[i]).timeShift == Asked(cfg, world, ctx, ctx.queries[j]).timeShift
  }

  ghost predicate AllSucceeded(results: seq<QueryResult>) {
    forall r | r in results && r.Frames? :: r.payload.Payload? && r.payload.status == Success && r.payload.content.Some?
  }

  /** The entry of query `i` holds the content that query was answered with. */
  ghost predicate Holds(cfg: Config, world: World, ctx: Context, run: ContextRun, i: nat)
    requires i < |ctx.queries| && i < |run.results|
  {
    GoesThroughCache(ctx, i) ==>
      var key := QueryKey(cfg, world, ctx, i);
      && run.results[i].Frames? && run.results[i].payload.Payload?
      && key in run.cache && Readable(run.cache[key])
      && run.results[i].payload.content == Some(ContentOf(run.cache[key]))
  }

  lemma {:induction false} RunLength(cfg: Config, world: World, ctx: Context, forceCached: bool, cache: Entries, n: nat)
    requires n <= |ctx.queries|
    ensures var run := RunQueries(cfg, world, ctx, forceCached, cache, n);
      |run.results| <= n && (!run.raised ==> |run.results| == n) && (!forceCached ==> !run.raised)
  {
    if n > 0 {
      RunLength(cfg, world, ctx, forceCached, cache, n - 1);
    }
  }

  /** Under force every answer is the source's. */
  ghost predicate FromSource(cfg: Config, world: World, ctx: Context, run: ContextRun, i: nat)
    requires i < |ctx.queries| && i < |run.results|
  {
    ctx.force && GoesThroughCache(ctx, i) ==>
      run.results[i].Frames? && run.results[i].payload.Payload? &&
      run.results[i].payload.content == Fresh(world, ctx, Asked(cfg, world, ctx, ctx.queries[i]))
  }

  lemma {:induction false} RunFillsCache(cfg: Config, world: World, ctx: Context, cache: Entries, n: nat)
    requires n <= |ctx.queries| && (!ctx.force || Consistent(cfg, world, ctx))
    requires AllSucceeded(RunQueries(cfg, world, ctx, false, cache, n).results)
    ensures var run := RunQueries(cfg, world, ctx, false, cache, n);
      |run.results| == n && forall i | 0 <= i < n :: IsKept(cfg, world, ctx, run, i)
  {
    if n > 0 {
      var before := RunQueries(cfg, world, ctx, false, cache, n - 1);
      var run := RunQueries(cfg, world, ctx, false, cache, n);
      RunLength(cfg, world, ctx, false, cache, n - 1);
      assert forall r | r in before.results :: r in run.results;
      RunFillsCache(cfg, world, ctx, cache, n - 1);
      LastHolds(cfg, world, ctx, cache, n);
      forall i | 0 <= i < n - 1
        ensures IsKept(cfg, world, ctx, run, i)
      {
        KeptOnward(cfg, world, ctx, cache, n, i);
      }
    }
  }

  /** The entry of query `i` holds its answer, which under force is the source's. */
  ghost predicate IsKept(cfg: Config, world: World, ctx: Context, run: ContextRun, i: nat)
    requires i < |ctx.queries| && i < |run.results|
  {
    Holds(cfg, world, ctx, run, i) && FromSource(cfg, world, ctx, run, i)
  }

  lemma KeptOnward(cfg: Config, world: World, ctx: Context, cache: Entries, n: nat, i: nat)
    requires 0 < n <= |ctx.queries| && i < n - 1 && (!ctx.force || Consistent(cfg, world, ctx))
    requires |RunQueries(cfg, world, ctx, false, cache, n - 1).results| == n - 1
    requires |RunQueries(cfg, world, ctx, false, cache, n).results| == n
    requires IsKept(cfg, world, ctx, RunQueries(cfg, world, ctx, false, cache, n - 1), i)
    ensures IsKept(cfg, world, ctx, RunQueries(cfg, world, ctx, false, cache, n), i)
  {
    var before := RunQueries(cfg, world, ctx, false, cache, n - 1);
    if GoesThroughCache(ctx, n - 1) {
      StillHolds(cfg, world, ctx, before, i, n - 1);
    }
  }

  lemma {:induction false} LastHolds(cfg: Config, world: World, ctx: Context, cache: Entries, n: nat)
    requires 0 < n <= |ctx.queries| && AllSucceeded(RunQueries(cfg, world, ctx, false, cache, n).results)
    ensures var run := RunQueries(cfg, world, ctx, false, cache, n);
      |run.results| == n && IsKept(cfg, world, ctx, run, n - 1)
  {
    var before := RunQueries(cfg, world, ctx, false, cache, n - 1);
    var run := RunQueries(cfg, world, ctx, false, cache, n);
    RunLength(cfg, world, ctx, false, cache, n - 1);
    var q := ctx.queries[n - 1];
    if Cacheable(KindOf(ctx, q)) {
      var asked := Asked(cfg, world, ctx, q);
      var p := DfPayload(world, ctx, asked, false, before.cache);
      assert run.results[n - 1] == Frames(p) && run.results[n - 1] in run.results;
      AnswerIsKept(world, ctx, asked, before.cache);
    }
  }

  /** A successful answer is what its key then holds. */
  lemma AnswerIsKept(world: World, ctx: Context, q: QueryObject, cache: Entries)
    requires DfPayload(world, ctx, q, false, cache).Payload? && DfPayload(world, ctx, q, false, cache).status == Success
    ensures var p, after := DfPayload(world, ctx, q, false, cache), CacheAfter(world, ctx, q, false, true, cache);
      var key := Key(world, ctx, q);
      && key in after && Readable(after[key]) && p.content == Some(ContentOf(after[key]))
      && (ctx.force ==> p.content == Fresh(world, ctx, q))
  {
  }

  /** Answering a later query leaves the content under an earlier query's key what it was. */
  lemma StillHolds(cfg: Config, world: World, ctx: Context, before: ContextRun, i: nat, n: nat)
    requires i < n < |ctx.queries| && |before.results| == n && (!ctx.force || Consistent(cfg, world, ctx))
    requires Holds(cfg, world, ctx, before, i) && FromSource(cfg, world, ctx, before, i)
    requires GoesThroughCache(ctx, n)
    ensures GoesThroughCache(ctx, i) ==>
      var key := QueryKey(cfg, world, ctx, i);
      var after := CacheAfter(world, ctx, Asked(cfg, world, ctx, ctx.queries[n]), false, true, before.cache);
      key in after && Readable(after[key]) && ContentOf(after[key]) == ContentOf(before.cache[key])
  {
    if GoesThroughCache(ctx, i) && QueryKey(cfg, world, ctx, i) == QueryKey(cfg, world, ctx, n) && ctx.force {
      var a, b := Asked(cfg, world, ctx, ctx.queries[i]), Asked(cfg, world, ctx, ctx.queries[n]);
      var r, s := Ask(ctx, a, false, true), Ask(ctx, b, false, true);
      KeyFixesInput(world, r, s);
      SameInputSameContent(world, r, s);
    }
  }

  /** Replaying with the cache forced reads entry after entry and changes nothing, until one is
      missing. */
  lemma {:induction false} ReplayReads(cfg: Config, world: World, ctx: Context, cache: Entries, n: nat)
    requires n <= |ctx.queries|
    ensures var again := RunQueries(cfg, world, ctx, true, cache, n);
      && again.cache == cache
      && (!again.raised ==> |again.results| == n)
      && (again.raised <==> exists i | 0 <= i < n :: GoesThroughCache(ctx, i) && !Found(cfg, world, ctx, cache, i))
      && forall i | 0 <= i < n && !again.raised :: again.results[i] == Read(cfg, world, ctx, cache, i)
  {
    if n > 0 {
      ReplayReads(cfg, world, ctx, cache, n - 1);
      ForcedCacheNeverAsks(world, ctx, Asked(cfg, world, ctx, ctx.queries[n - 1]), true, cache);
      var before, again := RunQueries(cfg, world, ctx, true, cache, n - 1), RunQueries(cfg, world, ctx, true, cache, n);
      assert again.raised <==> before.raised || (GoesThroughCache(ctx, n - 1) && !Found(cfg, world, ctx, cache, n - 1));
    }
  }

  predicate Found(cfg: Config, world: World, ctx: Context, cache: Entries, i: nat)
    requires i < |ctx.queries|
  {
    Hit(world, ctx, Asked(cfg, world, ctx, ctx.queries[i]), cache).Some?
  }

  /** What a forced cache answers to query `i`. */
  function Read(cfg: Config, world: World, ctx: Context, cache: Entries, i: nat): QueryResult
    requires i < |ctx.queries|
  {
    if GoesThroughCache(ctx, i)
    then Frames(DfPayload(world, ctx, Asked(cfg, world, ctx, ctx.queries[i]), true, cache)) else Uncached
  }

  /** The replayed answer has the frame, query text and annotations of the first one, and comes from
      the cache. */
  predicate SameFrames(first: QueryResult, again: QueryResult) {
    match first
    case Uncached => again == Uncached
    case Frames(p) =>
      && again.Frames? && again.payload.Payload? && !again.payload.fromSource
      && p.Payload? && again.payload.status == p.status && again.payload.content == p.content
  }

  lemma ReplayFinds(cfg: Config, world: World, ctx: Context, run: ContextRun, i: nat)
    requires i < |ctx.queries| == |run.results| && Holds(cfg, world, ctx, run, i) && AllSucceeded(run.results)
    requires GoesThroughCache(ctx, i) || run.results[i] == Uncached
    ensures var calm := ctx.(force := false);
      && (GoesThroughCache(calm, i) ==> Found(cfg, world, calm, run.cache, i))
      && SameFrames(run.results[i], Read(cfg, world, calm, run.cache, i))
  {
    var calm := ctx.(force := false);
    assert run.results[i] in run.results;
    assert Asked(cfg, world, calm, ctx.queries[i]) == Asked(cfg, world, ctx, ctx.queries[i]);
    assert QueryKey(cfg, world, calm, i) == QueryKey(cfg, world, ctx, i);
  }

  lemma {:induction false} UncachedResults(cfg: Config, world: World, ctx: Context, cache: Entries, n: nat)
    requires n <= |ctx.queries|
    ensures var run := RunQueries(cfg, world, ctx, false, cache, n);
      |run.results| == n && forall i | 0 <= i < n && !GoesThroughCache(ctx, i) :: run.results[i] == Uncached
  {
    if n > 0 {
      UncachedResults(cfg, world, ctx, cache, n - 1);
      RunLength(cfg, world, ctx, false, cache, n - 1);
      RunLength(cfg, world, ctx, false, cache, n);
    }
  }

  function FirstRun(cfg: Config, world: World, ctx: Context, cache: Entries): ContextRun {
    RunQueries(cfg, world, ctx, false, cache, |ctx.queries|)
  }

  /** The context built again from what was kept. */
  function Rebuilt(cfg: Config, saved: Saved, changedOn: string, rls: seq<string>): Context {
    BuildContext(cfg, saved.(queries := KeptAll(cfg, saved.queries)), changedOn, rls, false)
  }

  /** Built again and run on the forced cache, the context finds every entry, gives the same frames
      as the first time, asks the source nothing and leaves the cache alone. */
  ghost predicate Replays(cfg: Config, world: World, saved: Saved, changedOn: string, rls: seq<string>, force: bool,
                          cache: Entries)
  {
    var first := FirstRun(cfg, world, BuildContext(cfg, saved, changedOn, rls, force), cache);
    var rebuilt := Rebuilt(cfg, saved, changedOn, rls);
    var again := RunQueries(cfg, world, rebuilt, true, first.cache, |rebuilt.queries|);
    && !again.raised && again.cache == first.cache && |again.results| == |first.results| == |saved.queries|
    && forall i | 0 <= i < |saved.queries| :: SameFrames(first.results[i], again.results[i])
  }

  /** A context run in which every cacheable query succeeded can be built again from what was kept
      of it, and answered from the cache alone. */
  lemma Rehydrates(cfg: Config, world: World, saved: Saved, changedOn: string, rls: seq<string>, force: bool,
                   cache: Entries)
    requires var ctx := BuildContext(cfg, saved, changedOn, rls, force);
      (!force || Consistent(cfg, world, ctx)) && AllSucceeded(FirstRun(cfg, world, ctx, cache).results)
    ensures Replays(cfg, world, saved, changedOn, rls, force, cache)
  {
    var ctx := BuildContext(cfg, saved, changedOn, rls, force);
    var first := FirstRun(cfg, world, ctx, cache);
    RebuiltContext(cfg, saved, changedOn, rls, force);
    RunFillsCache(cfg, world, ctx, cache, |ctx.queries|);
    UncachedResults(cfg, world, ctx, cache, |ctx.queries|);
    ReplayReads(cfg, world, ctx.(force := false), first.cache, |ctx.queries|);
    forall i | 0 <= i < |ctx.queries|
      ensures var calm := ctx.(force := false);
        && (GoesThroughCache(calm, i) ==> Found(cfg, world, calm, first.cache, i))
        && SameFrames(first.results[i], Read(cfg, world, calm, first.cache, i))
    {
      assert IsKept(cfg, world, ctx, first, i);
      ReplayFinds(cfg, world, ctx, first, i);
    }
  }

  // ----- why a forced context must be consistent -----

  /** Sources over the same columns, metrics and extra keys. */
  ghost predicate SameCatalog(w: World, world: World) {
    w.columnNames == world.columnNames && w.extraKeys == world.extraKeys && w.metricColumns == world.metricColumns
  }

  /** No query of the context names a column its datasource lacks; otherwise no run succeeds. */
  ghost predicate ColumnsValid(cfg: Config, world: World, ctx: Context) {
    forall i | 0 <= i < |ctx.queries| && GoesThroughCache(ctx, i) ::
      InvalidColumns(world, ctx, Asked(cfg, world, ctx, ctx.queries[i])) == {}
  }

  function ShiftText(timeShift: Option<string>): string {
    if timeShift.Some? then "s" + timeShift.value else ""
  }

  /** A source whose frame tells the time shift it was asked for. */
  function ShiftTeller(world: World): World {
    World((input: Input) => Answered([[ShiftText(input.timeShift)]], "q"), _ => Some(map[]),
          world.columnNames, world.extraKeys, world.metricColumns)
  }

  function Told(timeShift: Option<string>): Content {
    Content([[ShiftText(timeShift)]], "q", map[])
  }

  lemma ShiftTextIsInjective(a: Option<string>, b: Option<string>)
    requires ShiftText(a) == ShiftText(b)
    ensures a == b
  {
    if a.Some? && b.Some? {
      assert a.value == ShiftText(a)[1..] && b.value == ShiftText(b)[1..];
    }
  }

  lemma TellerTells(world: World, ctx: Context, q: QueryObject)
    requires InvalidColumns(world, ctx, q) == {}
    ensures Fresh(ShiftTeller(world), ctx, q) == Some(Told(q.timeShift))
  {
    assert InvalidColumns(ShiftTeller(world), ctx, q) == InvalidColumns(world, ctx, q);
  }

  function TellerAnswer(cfg: Config, world: World, ctx: Context, i: nat): QueryResult
    requires i < |ctx.queries|
  {
    if GoesThroughCache(ctx, i)
    then Frames(Payload(Success, Some(Told(Asked(cfg, world, ctx, ctx.queries[i]).timeShift)), false, true))
    else Uncached
  }

  lemma TellerStep(cfg: Config, world: World, ctx: Context, before: ContextRun, i: nat)
    requires i < |ctx.queries| && ctx.force && ColumnsValid(cfg, world, ctx)
    ensures var run := RunQuery(cfg, ShiftTeller(world), ctx, false, before, ctx.queries[i]);
      run.results == before.results + [TellerAnswer(cfg, world, ctx, i)] && (!before.raised ==> !run.raised)
  {
    var asked := Asked(cfg, world, ctx, ctx.queries[i]);
    assert Asked(cfg, ShiftTeller(world), ctx, ctx.queries[i]) == asked;
    if GoesThroughCache(ctx, i) {
      TellerTells(world, ctx, asked);
    }
  }

  /** The answers to the first `n` queries. */
  function TellerAnswers(cfg: Config, world: World, ctx: Context, n: nat): (results: seq<QueryResult>)
    requires n <= |ctx.queries|
    ensures |results| == n && forall i | 0 <= i < n :: results[i] == TellerAnswer(cfg, world, ctx, i)
  {
    if n == 0 then [] else TellerAnswers(cfg, world, ctx, n - 1) + [TellerAnswer(cfg, world, ctx, n - 1)]
  }

  lemma {:induction false} ForcedRunTells(cfg: Config, world: World, ctx: Context, cache: Entries, n: nat)
    requires n <= |ctx.queries| && ctx.force && ColumnsValid(cfg, world, ctx)
    ensures var run := RunQueries(cfg, ShiftTeller(world), ctx, false, cache, n);
      !run.raised && run.results == TellerAnswers(cfg, world, ctx, n) && AllSucceeded(run.results)
  {
    if n > 0 {
      ForcedRunTells(cfg, world, ctx, cache, n - 1);
      TellerStep(cfg, world, ctx, RunQueries(cfg, ShiftTeller(world), ctx, false, cache, n - 1), n - 1);
    }
  }

  /** Queries under one key are answered alike by a forced cache. */
  lemma OneKeyOneAnswer(cfg: Config, world: World, ctx: Context, cache: Entries, i: nat, j: nat)
    requires i < |ctx.queries| && j < |ctx.queries| && GoesThroughCache(ctx, i) && GoesThroughCache(ctx, j)
    requires QueryKey(cfg, world, ctx, i) == QueryKey(cfg, world, ctx, j)
    requires Found(cfg, world, ctx, cache, i) && Found(cfg, world, ctx, cache, j)
    ensures Read(cfg, world, ctx, cache, i).payload == Read(cfg, world, ctx, cache, j).payload
  {
  }

  lemma ReplayForcesConsistency(cfg: Config, world: World, saved: Saved, changedOn: string, rls: seq<string>,
                                cache: Entries, i: nat, j: nat)
    requires var ctx := BuildContext(cfg, saved, changedOn, rls, true);
      && ColumnsValid(cfg, world, ctx) && Replays(cfg, ShiftTeller(world), saved, changedOn, rls, true, cache)
      && i < |ctx.queries| && j < |ctx.queries| && GoesThroughCache(ctx, i) && GoesThroughCache(ctx, j)
      && QueryKey(cfg, world, ctx, i) == QueryKey(cfg, world, ctx, j)
    ensures var ctx := BuildContext(cfg, saved, changedOn, rls, true);
      Asked(cfg, world, ctx, ctx.queries[i]).timeShift == Asked(cfg, world, ctx, ctx.queries[j]).timeShift
  {
    var w := ShiftTeller(world);
    var ctx := BuildContext(cfg, saved, changedOn, rls, true);
    var calm := ctx.(force := false);
    var first := FirstRun(cfg, w, ctx, cache);
    RebuiltContext(cfg, saved, changedOn, rls, true);
    ForcedRunTells(cfg, world, ctx, cache, |ctx.queries|);
    ReplayReads(cfg, w, calm, first.cache, |ctx.queries|);
    var again := RunQueries(cfg, w, calm, true, first.cache, |ctx.queries|);
    assert SameFrames(first.results[i], again.results[i]) && SameFrames(first.results[j], again.results[j]);
    assert QueryKey(cfg, w, calm, i) == QueryKey(cfg, w, calm, j);
    OneKeyOneAnswer(cfg, w, calm, first.cache, i, j);
    ShiftTextIsInjective(Asked(cfg, world, ctx, ctx.queries[i]).timeShift,
                         Asked(cfg, world, ctx, ctx.queries[j]).timeShift);
  }

  lemma ConsistencyNeedsTheCatalog(cfg: Config, w: World, world: World, ctx: Context)
    requires SameCatalog(w, world)
    ensures Consistent(cfg, w, ctx) <==> Consistent(cfg, world, ctx)
  {
    forall i | 0 <= i < |ctx.queries|
      ensures Asked(cfg, w, ctx, ctx.queries[i]) == Asked(cfg, world, ctx, ctx.queries[i])
      ensures QueryKey(cfg, w, ctx, i) == QueryKey(cfg, world, ctx, i)
    {
    }
  }

  /** The condition is exact: a forced context can be replayed from the cache, whatever the source
      answers, if and only if its queries under one key agree in time shift. */
  lemma RehydratesExactly(cfg: Config, world: World, saved: Saved, changedOn: string, rls: seq<string>, cache: Entries)
    requires ColumnsValid(cfg, world, BuildContext(cfg, saved, changedOn, rls, true))
    ensures var ctx := BuildContext(cfg, saved, changedOn, rls, true);
      Consistent(cfg, world, ctx) <==>
        forall w | SameCatalog(w, world) && AllSucceeded(FirstRun(cfg, w, ctx, cache).results) ::
          Replays(cfg, w, saved, changedOn, rls, true, cache)
  {
    var ctx := BuildContext(cfg, saved, changedOn, rls, true);
    if Consistent(cfg, world, ctx) {
      forall w | SameCatalog(w, world) && AllSucceeded(FirstRun(cfg, w, ctx, cache).results)
        ensures Replays(cfg, w, saved, changedOn, rls, true, cache)
      {
        ConsistencyNeedsTheCatalog(cfg, w, world, ctx);
        Rehydrates(cfg, w, saved, changedOn, rls, true, cache);
      }
    }
    ForcedRunTells(cfg, world, ctx, cache, |ctx.queries|);
    assert SameCatalog(ShiftTeller(world), world);
    if Replays(cfg, ShiftTeller(world), saved, changedOn, rls, true, cache) {
      forall i, j | 0 <= i < |ctx.queries| && 0 <= j < |ctx.queries| &&
                    GoesThroughCache(ctx, i) && GoesThroughCache(ctx, j) &&
                    QueryKey(cfg, world, ctx, i) == QueryKey(cfg, world, ctx, j)
        ensures Asked(cfg, world, ctx, ctx.queries[i]).timeShift == Asked(cfg, world, ctx, ctx.queries[j]).timeShift
      {
        ReplayForcesConsistency(cfg, world, saved, changedOn, rls, cache, i, j);
      }
    }
  }

  function Shifted(timeShift: string): RawQuery {
    RawQuery(None, None, [], false, None, None, [], [], [], None, Some(timeShift), None, 0, None, None, None, true,
             map[], map[], [], [], [], false)
  }

  const TWO_SHIFTS := Saved("1__table", [Shifted("1 day"), Shifted("2 days")], Full)

  /** Two queries that differ in time shift alone, in one forced context: some source makes the
      replay answer the first with the frame of the second. */
  lemma ForcedReplayCanDiffer(cfg: Config, cache: Entries) returns (w: World)
    ensures AllSucceeded(FirstRun(cfg, w, BuildContext(cfg, TWO_SHIFTS, "", [], true), cache).results)
    ensures !Replays(cfg, w, TWO_SHIFTS, "", [], true, cache)
  {
    var world := World(_ => SourceRaises(""), _ => None, (_, _) => [], (_, _) => [], _ => []);
    var ctx := BuildContext(cfg, TWO_SHIFTS, "", [], true);
    w := ShiftTeller(world);
    assert ColumnsValid(cfg, world, ctx);
    ForcedRunTells(cfg, world, ctx, cache, |ctx.queries|);
    assert QueryKey(cfg, world, ctx, 0) == QueryKey(cfg, world, ctx, 1);
    assert "1 day" != "2 days";
    if Replays(cfg, w, TWO_SHIFTS, "", [], true, cache) {
      ReplayForcesConsistency(cfg, world, TWO_SHIFTS, "", [], cache, 0, 1);
    }
  }
}

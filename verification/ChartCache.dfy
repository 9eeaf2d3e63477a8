/** The chart-data cache: query objects, the key they are cached under, and the payload retrieval
    that prefers the cache to the data source. The hash of the key dictionary is taken to be free of
    collisions, so the dictionary itself is the key. */
module ChartCache {
  import opened Options

  type Uid = string
  type Frame = seq<seq<string>>
  type Annotations = map<string, string>
  type Layer = map<string, string>

  datatype ResultType = Columns | TimeGrains | QueryText | Samples | Full | Results

  /** The fields of to_dict, the time bounds and the fetch predicate left aside. */
  datatype Core = Core(granularity: Option<string>, groupby: seq<string>, isRowcount: bool, isTimeseries: bool,
                       metrics: seq<string>, rowLimit: nat, rowOffset: nat, filters: seq<string>,
                       timeseriesLimit: nat, timeseriesLimitMetric: Option<string>, orderDesc: bool,
                       extras: map<string, string>, columns: seq<string>, orderby: seq<string>)

  datatype QueryObject = QueryObject(core: Core, applyFetchValuesPredicate: bool, timeRange: Option<string>,
                                     timeShift: Option<string>, postProcessing: seq<string>,
                                     datasource: Option<Uid>, resultType: Option<ResultType>, layers: seq<Layer>)

  datatype Context = Context(datasource: Uid, changedOn: string, rls: seq<string>, force: bool,
                             resultType: ResultType, queries: seq<QueryObject>)

  // ----- the key -----

  const ANNOTATION_FIELDS: set<string> :=
    {"annotationType", "descriptionColumns", "intervalEndColumn", "name", "overrides", "sourceType",
     "timeColumn", "titleColumn", "value"}

  function KeyLayer(layer: Layer): Layer {
    map f | f in layer && f in ANNOTATION_FIELDS :: layer[f]
  }

  function KeyLayers(layers: seq<Layer>): seq<Layer> {
    seq(|layers|, i requires 0 <= i < |layers| => KeyLayer(layers[i]))
  }

  /** An absent and an empty time range leave the same (missing) entry in the key. */
  function Given(s: Option<string>): Option<string> {
    if s.Some? && s.value == "" then None else s
  }

  datatype CacheKey = CacheKey(core: Core, applyFetchValuesPredicate: bool, datasource: Uid,
                               resultType: Option<ResultType>, timeRange: Option<string>,
                               postProcessing: seq<string>, layers: seq<Layer>,
                               extraKeys: seq<string>, rls: seq<string>, changedOn: string)

  function Key(world: World, ctx: Context, q: QueryObject): CacheKey {
    CacheKey(q.core, q.applyFetchValuesPredicate,
             if q.datasource.Some? then q.datasource.value else ctx.datasource,
             q.resultType, Given(q.timeRange), q.postProcessing, KeyLayers(q.layers),
             world.extraKeys(ctx.datasource, q.core), ctx.rls, ctx.changedOn)
  }

  ghost predicate SameFields(a: Layer, b: Layer, fields: set<string>) {
    forall f | f in fields :: (f in a <==> f in b) && (f in a && f in b ==> a[f] == b[f])
  }

  /** Two layers agree in the nine fields an annotation's data depends on. */
  ghost predicate SameLayer(a: Layer, b: Layer) {
    SameFields(a, b, {"annotationType", "descriptionColumns", "intervalEndColumn", "name", "overrides", "sourceType",
                      "timeColumn", "titleColumn", "value"})
  }

  ghost predicate SameLayers(a: seq<Layer>, b: seq<Layer>) {
    |a| == |b| && forall i | 0 <= i < |a| :: SameLayer(a[i], b[i])
  }

  /** Two time ranges are the same, or both are missing or empty. */
  predicate SameRange(a: Option<string>, b: Option<string>) {
    a == b || (a in {None, Some("")} && b in {None, Some("")})
  }

  lemma KeyLayerMeaning(a: Layer, b: Layer)
    ensures KeyLayer(a) == KeyLayer(b) <==> SameLayer(a, b)
  {
    assert ANNOTATION_FIELDS == {"annotationType", "descriptionColumns", "intervalEndColumn", "name", "overrides",
                                 "sourceType", "timeColumn", "titleColumn", "value"};
    KeyLayerFields(a, b);
  }

  lemma KeyLayerFields(a: Layer, b: Layer)
    ensures KeyLayer(a) == KeyLayer(b) <==> SameFields(a, b, ANNOTATION_FIELDS)
  {
    var x, y := KeyLayer(a), KeyLayer(b);
    assert forall f | f in ANNOTATION_FIELDS :: (f in x <==> f in a) && (f in y <==> f in b);
    if SameFields(a, b, ANNOTATION_FIELDS) {
      assert x.Keys == y.Keys;
      assert x == y;
    }
    if x == y {
      forall f | f in ANNOTATION_FIELDS
        ensures (f in a <==> f in b) && (f in a && f in b ==> a[f] == b[f])
      {
        assert f in x <==> f in y;
        assert f in x ==> x[f] == a[f] && y[f] == b[f];
      }
    }
  }

  lemma KeyLayersMeaning(a: seq<Layer>, b: seq<Layer>)
    ensures KeyLayers(a) == KeyLayers(b) <==> SameLayers(a, b)
  {
    forall i | 0 <= i < |a| && |a| == |b|
      ensures KeyLayers(a)[i] == KeyLayers(b)[i] <==> SameLayer(a[i], b[i])
    {
      KeyLayerMeaning(a[i], b[i]);
    }
    assert |KeyLayers(a)| == |a| && |KeyLayers(b)| == |b|;
  }

  /** What two requests with one key have in common: everything but their time shift, the context's
      datasource where the query names one, and the parts of a layer that are not in the key. */
  lemma KeyMeaning(world: World, ctx: Context, q: QueryObject, ctx': Context, q': QueryObject)
    ensures Key(world, ctx, q) == Key(world, ctx', q') <==>
      && q.core == q'.core && q.applyFetchValuesPredicate == q'.applyFetchValuesPredicate
      && (if q.datasource.Some? then q.datasource.value else ctx.datasource) ==
         (if q'.datasource.Some? then q'.datasource.value else ctx'.datasource)
      && q.resultType == q'.resultType && SameRange(q.timeRange, q'.timeRange)
      && q.postProcessing == q'.postProcessing && SameLayers(q.layers, q'.layers)
      && world.extraKeys(ctx.datasource, q.core) == world.extraKeys(ctx'.datasource, q'.core)
      && ctx.rls == ctx'.rls && ctx.changedOn == ctx'.changedOn
  {
    KeyLayersMeaning(q.layers, q'.layers);
  }

  // ----- the source -----

  /** Everything the answer to a query depends on, for a fixed clock: the context's own datasource
      as it stands, the query's fields, its time range and shift (which also fix the time bounds),
      the post-processing and the annotation layers. */
  datatype Input = Input(datasource: Uid, changedOn: string, rls: seq<string>, extraKeys: seq<string>, core: Core,
                         applyFetchValuesPredicate: bool, timeRange: Option<string>, timeShift: Option<string>,
                         postProcessing: seq<string>, layers: seq<Layer>)

  function InputOf(world: World, ctx: Context, q: QueryObject): Input {
    Input(ctx.datasource, ctx.changedOn, ctx.rls, world.extraKeys(ctx.datasource, q.core), q.core,
          q.applyFetchValuesPredicate, Given(q.timeRange), q.timeShift, q.postProcessing, KeyLayers(q.layers))
  }

  datatype SourceResult = Answered(df: Frame, query: string) | QueryFailed(df: Frame, query: string, error: string)
                        | SourceRaises(message: string)

  datatype World = World(source: Input -> SourceResult,
                         annotate: Input -> Option<Annotations>,
                         columnNames: (Uid, string) -> seq<string>,
                         extraKeys: (Uid, Core) -> seq<string>,
                         metricColumns: seq<string> -> seq<string>)

  datatype Status = Success | Failed

  const DTTM_ALIAS := "__timestamp"

  function InvalidColumns(world: World, ctx: Context, q: QueryObject): set<string> {
    set c | c in q.core.columns + q.core.groupby + world.metricColumns(q.core.metrics)
            && c !in world.columnNames(ctx.datasource, ctx.changedOn) && c != DTTM_ALIAS
  }

  /** What asking the source gives, when it gives something that may be kept. */
  datatype Content = Content(df: Frame, query: string, annotations: Annotations)

  function Fresh(world: World, ctx: Context, q: QueryObject): Option<Content> {
    if InvalidColumns(world, ctx, q) != {} then None
    else
      var input := InputOf(world, ctx, q);
      var answer := world.source(input);
      var annotations := world.annotate(input);
      if answer.Answered? && annotations.Some? then Some(Content(answer.df, answer.query, annotations.value)) else None
  }

  /** Every column the query names is one of the datasource's, or the time column's alias. */
  ghost predicate ColumnsKnown(world: World, ctx: Context, q: QueryObject) {
    forall c | c in q.core.columns || c in q.core.groupby || c in world.metricColumns(q.core.metrics) ::
      c in world.columnNames(ctx.datasource, ctx.changedOn) || c == "__timestamp"
  }

  /** The source was asked for known columns and answered with this frame and this query text, and
      the annotations came. */
  ghost predicate GaveAnswer(world: World, ctx: Context, q: QueryObject, df: Frame, query: string, notes: Annotations) {
    && ColumnsKnown(world, ctx, q)
    && world.source(InputOf(world, ctx, q)) == Answered(df, query)
    && world.annotate(InputOf(world, ctx, q)) == Some(notes)
  }

  lemma InvalidColumnsMeaning(world: World, ctx: Context, q: QueryObject)
    ensures InvalidColumns(world, ctx, q) == {} <==> ColumnsKnown(world, ctx, q)
  {
    var asked := q.core.columns + q.core.groupby + world.metricColumns(q.core.metrics);
    forall c | c in asked && c !in world.columnNames(ctx.datasource, ctx.changedOn) && c != DTTM_ALIAS
      ensures c in InvalidColumns(world, ctx, q)
    {
    }
    assert forall c | c in InvalidColumns(world, ctx, q) :: c in asked;
  }

  lemma FreshMeaning(world: World, ctx: Context, q: QueryObject, df: Frame, query: string, notes: Annotations)
    ensures Fresh(world, ctx, q) == Some(Content(df, query, notes)) <==> GaveAnswer(world, ctx, q, df, query, notes)
  {
    InvalidColumnsMeaning(world, ctx, q);
  }

  // ----- the cache -----

  /** A stored value; a foreign or old one may lack parts. */
  datatype Entry = Entry(df: Option<Frame>, query: Option<string>, annotations: Option<Annotations>)

  type Entries = map<CacheKey, Entry>

  function Stored(content: Content): Entry {
    Entry(Some(content.df), Some(content.query), Some(content.annotations))
  }

  predicate Readable(e: Entry) {
    e.df.Some? && e.query.Some?
  }

  function ContentOf(e: Entry): Content
    requires Readable(e)
  {
    Content(e.df.value, e.query.value, if e.annotations.Some? then e.annotations.value else map[])
  }

  /** The value a request may be served from. */
  function Hit(world: World, ctx: Context, q: QueryObject, cache: Entries): Option<Content> {
    var key := Key(world, ctx, q);
    if !ctx.force && key in cache && Readable(cache[key]) then Some(ContentOf(cache[key])) else None
  }

  datatype Payload = Payload(status: Status, content: Option<Content>, isCached: bool, fromSource: bool)
                   | CacheLoadError

  function DfPayload(world: World, ctx: Context, q: QueryObject, forceCached: bool, cache: Entries): Payload {
    var hit := Hit(world, ctx, q, cache);
    var isCached := !ctx.force && Key(world, ctx, q) in cache;
    if hit.Some? then Payload(Success, hit, true, false)
    else if forceCached then CacheLoadError
    else
      var answer := Fresh(world, ctx, q);
      Payload(if answer.Some? then Success else Failed, answer, isCached, true)
  }

  /** `writable` is false when the cache backend refuses the value. */
  function CacheAfter(world: World, ctx: Context, q: QueryObject, forceCached: bool, writable: bool, cache: Entries)
    : Entries
  {
    var p := DfPayload(world, ctx, q, forceCached, cache);
    if p.Payload? && p.fromSource && p.status == Success && writable
    then cache[Key(world, ctx, q) := Stored(p.content.value)] else cache
  }

  predicate HasAnswer(cache: Entries, key: CacheKey) {
    key in cache && cache[key].df.Some? && cache[key].query.Some?
  }

  /** A payload the source was asked for: a success with what the source gave if and only if it gave
      an answer. */
  ghost predicate AskedPayload(world: World, ctx: Context, q: QueryObject, p: Payload)
    requires p.Payload?
  {
    && (p.status == Success <==> p.content.Some?)
    && forall df, query, notes ::
         p.content == Some(Content(df, query, notes)) <==> GaveAnswer(world, ctx, q, df, query, notes)
  }

  /** A payload served from an entry: the entry's parts, without annotations when it has none. */
  predicate ServedPayload(e: Entry, p: Payload)
    requires p.Payload?
  {
    && p.status == Success && p.isCached && p.content.Some?
    && e.df == Some(p.content.value.df) && e.query == Some(p.content.value.query)
    && p.content.value.annotations == match e.annotations case Some(notes) => notes case None => map[]
  }

  function EntryOf(p: Payload): Entry
    requires p.Payload? && p.content.Some?
  {
    Entry(Some(p.content.value.df), Some(p.content.value.query), Some(p.content.value.annotations))
  }

  lemma PayloadMeaning(world: World, ctx: Context, q: QueryObject, forceCached: bool, writable: bool, cache: Entries)
    ensures var p := DfPayload(world, ctx, q, forceCached, cache);
      && (p.CacheLoadError? <==> forceCached && !(!ctx.force && HasAnswer(cache, Key(world, ctx, q))))
      && (p.Payload? ==> p.fromSource == !(!ctx.force && HasAnswer(cache, Key(world, ctx, q))))
      && (p.Payload? && p.fromSource ==> AskedPayload(world, ctx, q, p))
      && (p.Payload? && !p.fromSource ==> ServedPayload(cache[Key(world, ctx, q)], p))
      && CacheAfter(world, ctx, q, forceCached, writable, cache) ==
           if p.Payload? && p.fromSource && p.status == Success && writable
           then cache[Key(world, ctx, q) := EntryOf(p)] else cache
  {
    var p := DfPayload(world, ctx, q, forceCached, cache);
    if p.Payload? && p.fromSource {
      forall df, query, notes
        ensures p.content == Some(Content(df, query, notes)) <==> GaveAnswer(world, ctx, q, df, query, notes)
      {
        FreshMeaning(world, ctx, q, df, query, notes);
      }
    }
  }

  class DataCache {
    var entries: Entries
    var sourceCalls: nat

    constructor ()
      ensures entries == map[] && sourceCalls == 0
    {
      entries, sourceCalls := map[], 0;
    }

    method GetDfPayload(world: World, ctx: Context, q: QueryObject, forceCached: bool, writable: bool)
      returns (payload: Payload)
      modifies this
      ensures payload == DfPayload(world, ctx, q, forceCached, old(entries))
      ensures entries == CacheAfter(world, ctx, q, forceCached, writable, old(entries))
      ensures payload.CacheLoadError? ==> forceCached && unchanged(this)
      ensures payload.Payload? ==> payload.fromSource == !(!ctx.force && HasAnswer(old(entries), Key(world, ctx, q)))
      ensures payload.Payload? && payload.fromSource ==> AskedPayload(world, ctx, q, payload)
      ensures payload.Payload? && !payload.fromSource ==>
        ServedPayload(old(entries)[Key(world, ctx, q)], payload) && entries == old(entries)
      ensures payload.Payload? && payload.fromSource ==>
        entries == if payload.status == Success && writable
                   then old(entries)[Key(world, ctx, q) := EntryOf(payload)] else old(entries)
      ensures payload.Payload? ==> (payload.isCached <==> !ctx.force && Key(world, ctx, q) in old(entries))
      ensures sourceCalls == old(sourceCalls) +
        if payload.Payload? && payload.fromSource && ColumnsKnown(world, ctx, q) then 1 else 0
    {
      var key := Key(world, ctx, q);
      var isLoaded := false;
      var status := Failed;
      var content := None;
      var cacheValue := None;
      if !ctx.force {
        cacheValue := if key in entries then Some(entries[key]) else None;
        if cacheValue.Some? {
          var e := cacheValue.value;
          // a missing part raises KeyError, which is logged
          if e.df.Some? && e.query.Some? {
            content := Some(Content(e.df.value, e.query.value,
                                    if e.annotations.Some? then e.annotations.value else map[]));
            status, isLoaded := Success, true;
          }
        }
      }
      if forceCached && !isLoaded {
        return CacheLoadError;
      }
      var fromSource := !isLoaded;
      if !isLoaded {
        if InvalidColumns(world, ctx, q) == {} {
          sourceCalls := sourceCalls + 1;
          var input := InputOf(world, ctx, q);
          var result := world.source(input);
          if result.Answered? {
            var annotations := world.annotate(input);
            if annotations.Some? {
              content := Some(Content(result.df, result.query, annotations.value));
              status, isLoaded := Success, true;
            }
          }
        }
        if isLoaded && writable {
          entries := entries[key := Stored(content.value)];
        }
      }
      payload := Payload(status, content, cacheValue.Some?, fromSource);
      PayloadMeaning(world, ctx, q, forceCached, writable, old(entries));
      InvalidColumnsMeaning(world, ctx, q);
    }
  }

  // ----- transparency -----

  datatype Request = Ask(ctx: Context, q: QueryObject, forceCached: bool, writable: bool)
                   | Evict(keys: set<CacheKey>)

  function After(world: World, cache: Entries, history: seq<Request>): Entries {
    if history == [] then cache
    else
      var before := After(world, cache, history[..|history| - 1]);
      match history[|history| - 1]
      case Ask(ctx, q, forceCached, writable) => CacheAfter(world, ctx, q, forceCached, writable, before)
      case Evict(keys) => before - keys
  }

  /** Every entry was put there by an earlier request that the source answered. */
  ghost predicate Sound(world: World, cache: Entries, history: seq<Request>) {
    forall key | key in cache :: exists i | 0 <= i < |history| :: Wrote(world, history[i], key, cache[key])
  }

  ghost predicate Wrote(world: World, r: Request, key: CacheKey, e: Entry) {
    && r.Ask? && Key(world, r.ctx, r.q) == key
    && e.df.Some? && e.query.Some? && e.annotations.Some?
    && GaveAnswer(world, r.ctx, r.q, e.df.value, e.query.value, e.annotations.value)
  }

  /** Only answers are stored, never a failure, whatever is asked, forced or evicted. */
  lemma {:induction false} OnlyAnswersAreStored(world: World, history: seq<Request>)
    ensures Sound(world, After(world, map[], history), history)
  {
    if history != [] {
      var init, last := history[..|history| - 1], history[|history| - 1];
      OnlyAnswersAreStored(world, init);
      var before, cache := After(world, map[], init), After(world, map[], history);
      forall key | key in cache
        ensures exists i | 0 <= i < |history| :: Wrote(world, history[i], key, cache[key])
      {
        if key in before && cache[key] == before[key] {
          var i :| 0 <= i < |init| && Wrote(world, init[i], key, before[key]);
          assert history[i] == init[i];
        } else {
          var content := Fresh(world, last.ctx, last.q).value;
          FreshMeaning(world, last.ctx, last.q, content.df, content.query, content.annotations);
          assert Wrote(world, last, key, cache[key]);
        }
      }
    }
  }

  /** Requests for the same key that the key cannot tell apart although the source may. */
  predicate Confused(r: Request, s: Request) {
    r.Ask? && s.Ask? && (r.q.timeShift != s.q.timeShift || r.ctx.datasource != s.ctx.datasource)
  }

  lemma KeyFixesInput(world: World, r: Request, s: Request)
    requires r.Ask? && s.Ask? && Key(world, r.ctx, r.q) == Key(world, s.ctx, s.q)
    ensures !Confused(r, s) <==> InputOf(world, r.ctx, r.q) == InputOf(world, s.ctx, s.q)
  {
    var k := Key(world, r.ctx, r.q);
    assert k.core == r.q.core == s.q.core;
  }

  /** Queries that name no datasource of their own, or the context's, are told apart by it. */
  lemma OwnDatasourceIsInKey(world: World, r: Request, s: Request)
    requires r.Ask? && s.Ask? && Key(world, r.ctx, r.q) == Key(world, s.ctx, s.q)
    requires r.q.datasource.None? || r.q.datasource.value == r.ctx.datasource
    requires s.q.datasource.None? || s.q.datasource.value == s.ctx.datasource
    ensures Confused(r, s) <==> r.q.timeShift != s.q.timeShift
  {
  }

  /** After any history, an answer served from the cache is what the source would answer now,
      provided the history holds no request under the same key that differs in time shift or in the
      context's datasource. */
  lemma {:induction false} CacheIsTransparent(world: World, history: seq<Request>, r: Request)
    requires r.Ask?
    requires forall h | h in history && h.Ask? && Key(world, h.ctx, h.q) == Key(world, r.ctx, r.q) :: !Confused(h, r)
    ensures var p := DfPayload(world, r.ctx, r.q, r.forceCached, After(world, map[], history));
      p.Payload? && !p.fromSource ==> p.status == Success && p.content == Fresh(world, r.ctx, r.q)
  {
    var cache := After(world, map[], history);
    OnlyAnswersAreStored(world, history);
    var key := Key(world, r.ctx, r.q);
    if Hit(world, r.ctx, r.q, cache).Some? {
      var i :| 0 <= i < |history| && Wrote(world, history[i], key, cache[key]);
      assert history[i] in history;
      var e := cache[key];
      FreshMeaning(world, history[i].ctx, history[i].q, e.df.value, e.query.value, e.annotations.value);
      KeyFixesInput(world, history[i], r);
      SameInputSameContent(world, history[i], r);
    }
  }

  lemma SameInputSameContent(world: World, r: Request, s: Request)
    requires r.Ask? && s.Ask? && InputOf(world, r.ctx, r.q) == InputOf(world, s.ctx, s.q)
    requires Fresh(world, r.ctx, r.q).Some?
    ensures Fresh(world, r.ctx, r.q) == Fresh(world, s.ctx, s.q)
  {
    assert InvalidColumns(world, r.ctx, r.q) == InvalidColumns(world, s.ctx, s.q) by {
      assert InputOf(world, r.ctx, r.q).core == InputOf(world, s.ctx, s.q).core;
    }
  }

  /** `s`, asked right after `r`, gets what the source would answer. */
  predicate SecondIsRight(world: World, r: Request, s: Request)
    requires r.Ask? && s.Ask?
  {
    DfPayload(world, s.ctx, s.q, false, After(world, map[], [r])).content == Fresh(world, s.ctx, s.q)
  }

  /** Which worlds the comparison is about: same extra keys, and both requests answered. */
  predicate Answers(world: World, extraKeys: (Uid, Core) -> seq<string>, r: Request, s: Request)
    requires r.Ask? && s.Ask?
  {
    && (world.extraKeys(r.ctx.datasource, r.q.core) == extraKeys(r.ctx.datasource, r.q.core))
    && (world.extraKeys(s.ctx.datasource, s.q.core) == extraKeys(s.ctx.datasource, s.q.core))
    && Fresh(world, r.ctx, r.q).Some? && Fresh(world, s.ctx, s.q).Some?
  }

  /** A source that answers the first request differently from every other. */
  function Adversary(world: World, r: Request, columns: seq<string>): World
    requires r.Ask?
  {
    World(input => if input == InputOf(world, r.ctx, r.q) then Answered([["first"]], "q")
             else Answered([["other"]], "q"),
          _ => Some(map[]), (_, _) => columns, world.extraKeys, world.metricColumns)
  }

  /** The condition is exact: two requests with one key are served alike, and the second gets its
      own answer from every source, if and only if they do not differ in time shift or in the
      context's datasource. */
  lemma TransparencyExactly(world: World, r: Request, s: Request)
    requires r.Ask? && s.Ask? && r.writable && !s.ctx.force && Key(world, r.ctx, r.q) == Key(world, s.ctx, s.q)
    requires !r.forceCached
    ensures !Confused(r, s) <==>
      forall w | Answers(w, world.extraKeys, r, s) :: SecondIsRight(w, r, s)
  {
    if !Confused(r, s) {
      forall w | Answers(w, world.extraKeys, r, s)
        ensures SecondIsRight(w, r, s)
      {
        assert Key(w, r.ctx, r.q) == Key(w, s.ctx, s.q);
        CacheIsTransparent(w, [r], s.(forceCached := false));
      }
    } else {
      var needed := r.q.core.columns + r.q.core.groupby + world.metricColumns(r.q.core.metrics);
      var w := Adversary(world, r, needed);
      assert s.q.core == Key(world, s.ctx, s.q).core == Key(world, r.ctx, r.q).core == r.q.core;
      assert InvalidColumns(w, r.ctx, r.q) == {} && InvalidColumns(w, s.ctx, s.q) == {};
      KeyFixesInput(world, r, s);
      assert Answers(w, world.extraKeys, r, s);
      SecondIsServedFirst(w, r, s);
      assert Fresh(w, r.ctx, r.q).value.df == [["first"]] && Fresh(w, s.ctx, s.q).value.df == [["other"]];
    }
  }

  lemma SecondIsServedFirst(w: World, r: Request, s: Request)
    requires r.Ask? && s.Ask? && r.writable && !s.ctx.force && !r.forceCached
    requires Key(w, r.ctx, r.q) == Key(w, s.ctx, s.q) && Fresh(w, r.ctx, r.q).Some?
    ensures DfPayload(w, s.ctx, s.q, false, After(w, map[], [r])).content == Fresh(w, r.ctx, r.q)
  {
    assert [r][..0] == [] && After(w, map[], []) == map[];
    assert After(w, map[], [r]) == CacheAfter(w, r.ctx, r.q, false, true, map[]);
  }

  /** With the cache forced the source is never asked: the request is served from a readable entry
      or refused. */
  lemma ForcedCacheNeverAsks(world: World, ctx: Context, q: QueryObject, writable: bool, cache: Entries)
    ensures var p := DfPayload(world, ctx, q, true, cache);
      && (p.CacheLoadError? <==> ctx.force || Key(world, ctx, q) !in cache || !Readable(cache[Key(world, ctx, q)]))
      && (p.Payload? ==> !p.fromSource && p.status == Success)
      && CacheAfter(world, ctx, q, true, writable, cache) == cache
  {
  }
}

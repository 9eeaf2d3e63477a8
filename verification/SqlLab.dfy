/** The SQL Lab run machine: statements of one query are executed in order on one connection while the
    stop views of other sessions may write its row. Every outward action is recorded in a log,
    and the promises are read off that log. */
module SqlLab {
  import opened Options
  import opened RowLimit
  import opened Sequences

  datatype Status = Pending | Running | Success | Failed | Stopped | TimedOut
  datatype CtasMethod = CreateTable | CreateView
  datatype Kind = Select | ReadOnly | Writing

  /** One statement as the parser sees it; `text` is stripped and may be empty. */
  datatype Statement = Statement(text: string, kind: Kind)

  datatype Settings = Settings(engine: Engine, allowDml: bool, runAsOne: bool, ctasNoLimit: bool,
                               asyncWithoutBackend: bool, cancellable: bool, storesResults: bool, returnsResults: bool,
                               arrow: bool)

  type Row = seq<string>
  type Key = nat

  /** The text given to the cursor: the statement, wrapped or not, and the limit put into it. */
  datatype Sql = Sql(statement: Statement, createAs: Option<CtasMethod>, limit: SqlLimit)

  datatype Payload = StoppedPayload | FailedPayload | NoPayload | Rows(rows: seq<Row>)

  datatype Effect =
    | Refreshed(status: Status)
    | Committed(status: Status, resultsKey: Option<Key>)
    | Sent(sql: Sql)
    | ConnectionCommitted
    | Stored(key: Key, payload: Payload)

  // ----- what surrounds a run -----

  /** How the database answers a statement: all rows it would yield without a limit, or an error. */
  datatype Answer = Answered(rows: seq<Row>) | SoftTimeout | DatabaseError

  /** What happens after the last statement: the connection may fail to commit, the results to
      serialize or to be stored. */
  datatype Afterwards = Fine | CommitFails | SerializeFails | StoreFails | ReserializeFails

  /** One call of the stop view by another session: it reads the row at one moment, has the engine
      cancel what runs on the connection, and writes the row at a later one. Moments count the
      operations of the worker's session. */
  datatype Stop = Stop(check: nat, write: nat, cancelled: bool)

  /** `connects` is whether the connection is opened and gives its cancel id. */
  datatype World = World(stops: set<Stop>, connects: bool, answers: seq<Answer>, afterwards: Afterwards, newKey: Key)

  function AnswerAt(world: World, i: nat): Answer {
    if i < |world.answers| then world.answers[i] else DatabaseError
  }

  // ----- reading the log -----

  function Sends(log: seq<Effect>): seq<Sql> {
    if log == [] then []
    else
      var last := log[|log| - 1];
      Sends(log[..|log| - 1]) + if last.Sent? then [last.sql] else []
  }

  predicate Committing(log: seq<Effect>) {
    ConnectionCommitted in log
  }

  predicate Succeeds(e: Effect) {
    e.Committed? && e.status == Success
  }

  /** The statements handed to the cursor are the plan's first ones, in order; only the last one of
      the plan may be turned into CREATE AS, and only by the asked method. */
  predicate InOrder(sends: seq<Sql>, plan: seq<Statement>, ctas: Option<CtasMethod>) {
    && |sends| <= |plan|
    && forall i | 0 <= i < |sends| ::
         && sends[i].statement == plan[i]
         && (sends[i].createAs.Some? <==> ctas.Some? && i == |plan| - 1)
         && (sends[i].createAs.Some? ==> sends[i].createAs == ctas)
  }

  /** The run has seen that the query was stopped. */
  predicate SawStop(log: seq<Effect>) {
    Refreshed(Stopped) in log
  }

  /** What holds of every log prefix: nothing is sent or committed once a stop was seen, the
      connection is committed only after the whole plan was sent, success is written only after the
      connection was committed, and a success that names a results key has its payload in the
      backend. */
  ghost predicate EffectInOrder(before: seq<Effect>, e: Effect, plan: seq<Statement>) {
    match e
    case Sent(_) => !Committing(before) && !SawStop(before)
    case ConnectionCommitted => |Sends(before)| == |plan| && !Committing(before) && !SawStop(before)
    case Stored(_, _) => Committing(before)
    case Committed(status, key) =>
      && (status == Success ==> Committing(before))
      && (status == Success && key.Some? ==> exists p :: Stored(key.value, p) in before)
    case Refreshed(_) => !Committing(before)
  }

  ghost predicate Lawful(log: seq<Effect>, plan: seq<Statement>, ctas: Option<CtasMethod>) {
    && InOrder(Sends(log), plan, ctas)
    && forall i | 0 <= i < |log| :: EffectInOrder(log[..i], log[i], plan)
  }

  lemma SendsAppend(log: seq<Effect>, e: Effect)
    ensures Sends(log + [e]) == Sends(log) + if e.Sent? then [e.sql] else []
  {
    assert (log + [e])[..|log|] == log;
  }

  lemma LawfulAppend(log: seq<Effect>, e: Effect, plan: seq<Statement>, ctas: Option<CtasMethod>)
    requires Lawful(log, plan, ctas) && EffectInOrder(log, e, plan)
    requires InOrder(Sends(log + [e]), plan, ctas)
    ensures Lawful(log + [e], plan, ctas)
  {
    var after := log + [e];
    forall i | 0 <= i < |after|
      ensures EffectInOrder(after[..i], after[i], plan)
    {
      assert i < |log| ==> after[..i] == log[..i];
      assert i == |log| ==> after[..i] == log;
    }
  }

  lemma {:induction false} SendsOfPrefix(log: seq<Effect>, i: nat)
    requires i <= |log|
    ensures |Sends(log[..i])| <= |Sends(log)| && Sends(log)[..|Sends(log[..i])|] == Sends(log[..i])
  {
    if i == |log| {
      assert log[..i] == log;
    } else {
      var init := log[..|log| - 1];
      SendsOfPrefix(init, i);
      assert init[..i] == log[..i];
      assert Sends(init) <= Sends(log);
    }
  }

  /** Wherever success is written, the connection was committed before, and before that the whole
      plan had been sent, statement by statement in order. */
  lemma SuccessComesLast(log: seq<Effect>, plan: seq<Statement>, ctas: Option<CtasMethod>, i: nat) returns (j: nat)
    requires Lawful(log, plan, ctas) && i < |log| && Succeeds(log[i])
    ensures j < i && log[j] == ConnectionCommitted
    ensures |Sends(log[..j])| == |plan| && forall k | 0 <= k < |plan| :: Sends(log[..j])[k].statement == plan[k]
    ensures log[i].resultsKey.Some? ==> exists m, p | 0 <= m < i :: log[m] == Stored(log[i].resultsKey.value, p)
  {
    assert EffectInOrder(log[..i], log[i], plan);
    j :| 0 <= j < i && log[..i][j] == ConnectionCommitted;
    assert EffectInOrder(log[..j], log[j], plan);
    SendsOfPrefix(log, j);
    if log[i].resultsKey.Some? {
      var p :| Stored(log[i].resultsKey.value, p) in log[..i];
      var m :| 0 <= m < i && log[..i][m] == Stored(log[i].resultsKey.value, p);
      assert log[m] == Stored(log[i].resultsKey.value, p);
    }
  }

  /** A run that did not get to the end of its plan never commits the connection. */
  lemma EarlyExitCommitsNothing(log: seq<Effect>, plan: seq<Statement>, ctas: Option<CtasMethod>)
    requires Lawful(log, plan, ctas) && |Sends(log)| < |plan|
    ensures !Committing(log) && forall e | e in log :: !Succeeds(e)
  {
    forall i | 0 <= i < |log|
      ensures log[i] != ConnectionCommitted
    {
      SendsOfPrefix(log, i);
      assert EffectInOrder(log[..i], log[i], plan);
    }
    forall i | 0 <= i < |log|
      ensures !Succeeds(log[i])
    {
      assert EffectInOrder(log[..i], log[i], plan);
      assert forall e | e in log[..i] :: e in log;
    }
  }

  /** A run that has seen a stop sends nothing more, never commits the connection and never writes
      success. */
  lemma StopIsObeyed(log: seq<Effect>, plan: seq<Statement>, ctas: Option<CtasMethod>, i: nat)
    requires Lawful(log, plan, ctas) && i < |log| && log[i] == Refreshed(Stopped)
    ensures forall j | i < j < |log| :: !log[j].Sent?
    ensures !Committing(log) && forall e | e in log :: !Succeeds(e)
  {
    forall j | 0 <= j < |log|
      ensures log[j] != ConnectionCommitted && (j > i ==> !log[j].Sent?)
    {
      assert EffectInOrder(log[..j], log[j], plan) && EffectInOrder(log[..i], log[i], plan);
      assert j > i ==> log[..j][i] == Refreshed(Stopped);
      assert j < i ==> log[..i][j] == log[j];
    }
    forall j | 0 <= j < |log|
      ensures !Succeeds(log[j])
    {
      assert EffectInOrder(log[..j], log[j], plan);
      assert forall e | e in log[..j] :: e in log;
    }
  }

  /** At most one text is a CREATE AS, it is made of the plan's last statement, and a committed run
      that was asked for one has it. */
  lemma CreateAsIsLast(log: seq<Effect>, plan: seq<Statement>, ctas: Option<CtasMethod>)
    requires Lawful(log, plan, ctas)
    ensures forall i, j | 0 <= i < |Sends(log)| && 0 <= j < |Sends(log)| &&
                          Sends(log)[i].createAs.Some? && Sends(log)[j].createAs.Some? ::
      i == j == |plan| - 1
    ensures Committing(log) && plan != [] ==> |Sends(log)| == |plan| && Sends(log)[|plan| - 1].createAs == ctas
  {
    if Committing(log) {
      var i :| 0 <= i < |log| && log[i] == ConnectionCommitted;
      SendsOfPrefix(log, i);
      assert EffectInOrder(log[..i], log[i], plan);
    }
  }

  /** While statements are being run: nothing committed, stored or successful yet. */
  ghost predicate Quiet(e: Effect) {
    e.Refreshed? || e.Sent? || (e.Committed? && e.status != Success)
  }

  ghost predicate Underway(log: seq<Effect>, plan: seq<Statement>, ctas: Option<CtasMethod>) {
    && InOrder(Sends(log), plan, ctas) && (forall e | e in log :: Quiet(e))
    && (forall i | 0 <= i < |log| && log[i].Sent? :: !SawStop(log[..i]))
  }

  lemma UnderwayIsLawful(log: seq<Effect>, plan: seq<Statement>, ctas: Option<CtasMethod>)
    requires Underway(log, plan, ctas)
    ensures Lawful(log, plan, ctas) && !Committing(log)
  {
    forall i | 0 <= i < |log|
      ensures EffectInOrder(log[..i], log[i], plan)
    {
      assert log[i] in log && Quiet(log[i]);
      assert forall e | e in log[..i] :: e in log;
    }
  }

  lemma NextInOrder(sends: seq<Sql>, e: Effect, plan: seq<Statement>, ctas: Option<CtasMethod>)
    requires InOrder(sends, plan, ctas)
    requires e.Sent? ==>
      var i := |sends|;
      && i < |plan| && e.sql.statement == plan[i]
      && e.sql.createAs == if ctas.Some? && i == |plan| - 1 then ctas else None
    ensures InOrder(sends + if e.Sent? then [e.sql] else [], plan, ctas)
    ensures sends + [] == sends
  {
  }

  lemma UnderwayAppend(log: seq<Effect>, e: Effect, plan: seq<Statement>, ctas: Option<CtasMethod>)
    requires Underway(log, plan, ctas) && Quiet(e)
    requires e.Sent? ==>
      var i := |Sends(log)|;
      && !SawStop(log) && i < |plan| && e.sql.statement == plan[i]
      && e.sql.createAs == if ctas.Some? && i == |plan| - 1 then ctas else None
    ensures Underway(log + [e], plan, ctas)
    ensures Sends(log + [e]) == if e.Sent? then Sends(log) + [e.sql] else Sends(log)
  {
    SendsAppend(log, e);
    NextInOrder(Sends(log), e, plan, ctas);
    var after := log + [e];
    forall i | 0 <= i < |after| && after[i].Sent?
      ensures !SawStop(after[..i])
    {
      assert i < |log| ==> after[..i] == log[..i];
      assert i == |log| ==> after[..i] == log;
    }
  }

  /** A statement run adds to the log a commit, the text, and at most one refresh. */
  ghost predicate RanOne(before: seq<Effect>, after: seq<Effect>, sql: Sql) {
    exists c, status :: RanWith(before, after, sql, c, status)
  }

  ghost predicate RanWith(before: seq<Effect>, after: seq<Effect>, sql: Sql, c: Effect, status: Status) {
    && Quiet(c) && c.Committed?
    && (after == before + [c] + [Sent(sql)] || after == before + [c] + [Sent(sql)] + [Refreshed(status)])
  }

  lemma UnderwayRanOne(before: seq<Effect>, after: seq<Effect>, sql: Sql, plan: seq<Statement>,
                       ctas: Option<CtasMethod>)
    requires Underway(before, plan, ctas) && RanOne(before, after, sql) && !SawStop(before)
    requires var i := |Sends(before)|;
      && i < |plan| && sql.statement == plan[i]
      && sql.createAs == if ctas.Some? && i == |plan| - 1 then ctas else None
    ensures Underway(after, plan, ctas) && Sends(after) == Sends(before) + [sql]
  {
    var c, status :| RanWith(before, after, sql, c, status);
    var mid := before + [c];
    UnderwayAppend(before, c, plan, ctas);
    assert !SawStop(mid);
    UnderwayAppend(mid, Sent(sql), plan, ctas);
    var sent := mid + [Sent(sql)];
    if after != sent {
      UnderwayAppend(sent, Refreshed(status), plan, ctas);
    }
  }

  // ----- the session -----

  /** The engine was asked to cancel, and did: the stop view has found a cancel id, which can be read
      from moment `since` on. */
  predicate Cancels(stop: Stop, since: Option<nat>) {
    stop.cancelled && since.Some? && since.value <= stop.check <= stop.write
  }

  /** The stop is written at the last of the moments of which `rows` has the status. A finished query
      is not touched, and a status that was read as stopped is not written again. */
  predicate Lands(stop: Stop, since: Option<nat>, rows: seq<Status>) {
    && Cancels(stop, since) && stop.write + 1 == |rows|
    && rows[stop.check] in {Pending, Running}
  }

  /** The row's status after the other sessions had their turn. */
  function Interfered(stops: set<Stop>, since: Option<nat>, rows: seq<Status>): Status
    requires rows != []
  {
    if exists stop :: stop in stops && Lands(stop, since, rows) then Stopped else rows[|rows| - 1]
  }

  /** A stop is written at a moment before `hi`. */
  ghost predicate StopIn(world: World, since: Option<nat>, hi: nat) {
    exists stop :: stop in world.stops && Cancels(stop, since) && stop.write < hi
  }

  /** From moment 1 on the row reads as running until the first stop is written. */
  ghost predicate OnlyStopped(world: World, since: Option<nat>, rows: seq<Status>) {
    && (since.Some? ==> since.value > 0)
    && forall m | 1 <= m < |rows| :: rows[m] == if StopIn(world, since, m) then Stopped else Running
  }

  lemma OnlyStoppedNext(world: World, since: Option<nat>, rows: seq<Status>)
    requires |rows| > 1 && OnlyStopped(world, since, rows)
    ensures OnlyStopped(world, since, rows + [Interfered(world.stops, since, rows)])
  {
    var last := |rows| - 1;
    if stop :| stop in world.stops && Cancels(stop, since) && stop.write < last + 1 {
      if stop.write == last && !StopIn(world, since, last) {
        assert !StopIn(world, since, stop.check);
        assert Lands(stop, since, rows);
      }
    }
    if StopIn(world, since, last) {
      assert StopIn(world, since, last + 1);
    }
  }

  class Session {
    const world: World
    // the row of the query as other sessions see it, and what they saw at the moments before
    var rowStatus: Status
    var rowKey: Option<Key>
    var seen: seq<Status>
    // the moment from which on others find a cancel id in the row
    var cancelSince: Option<nat>
    var log: seq<Effect>

    constructor (world: World, status: Status)
      ensures this.world == world && rowStatus == status && rowKey == None && log == [] && seen == []
      ensures cancelSince == None
    {
      this.world, rowStatus, rowKey, log, seen, cancelSince := world, status, None, [], [], None;
    }

    function Moment(): nat
      reads this`seen
    {
      |seen|
    }

    function Rows(): (r: seq<Status>)
      reads this`seen, this`rowStatus
      ensures r != []
    {
      seen + [rowStatus]
    }

    /** Nothing has been written to the status since the run was committed as running, except by
        stops. */
    ghost predicate Watching(): (w: bool)
      reads this`rowStatus, this`seen, this`cancelSince
      ensures w ==> rowStatus == if StopIn(world, cancelSince, Moment()) then Stopped else Running
    {
      assert Rows()[Moment()] == rowStatus;
      Moment() > 0 && OnlyStopped(world, cancelSince, Rows())
    }

    /** The stop views of the other sessions: those write that read a query under way and could have
        it cancelled. */
    method Interfere()
      modifies this`rowStatus, this`seen
      ensures rowStatus == Interfered(world.stops, cancelSince, old(Rows())) && seen == old(Rows())
      ensures old(Watching()) ==> Watching()
    {
      if Moment() > 0 && Watching() {
        OnlyStoppedNext(world, cancelSince, Rows());
      }
      var lands := exists stop :: stop in world.stops && Lands(stop, cancelSince, Rows());
      seen := Rows();
      if lands {
        rowStatus := Stopped;
      }
    }

    /** `session.refresh(query)` */
    method Refresh() returns (status: Status)
      modifies this`rowStatus, this`seen, this`log
      ensures status == rowStatus == Interfered(world.stops, cancelSince, old(Rows())) && seen == old(Rows())
      ensures old(Watching()) ==> Watching()
      ensures log == old(log) + [Refreshed(status)]
    {
      Interfere();
      status := rowStatus;
      log := log + [Refreshed(status)];
    }

    /** `session.commit()`; only what was assigned since the last commit is written. */
    method Commit(status: Option<Status>, key: Option<Key>)
      modifies this`rowStatus, this`rowKey, this`seen, this`log
      ensures rowStatus == if status.Some? then status.value else Interfered(world.stops, cancelSince, old(Rows()))
      ensures seen == old(Rows()) && (status.None? && old(Watching()) ==> Watching())
      ensures rowKey == if key.Some? then key else old(rowKey)
      ensures log == old(log) + [Committed(rowStatus, rowKey)]
    {
      Interfere();
      if status.Some? {
        rowStatus := status.value;
      }
      if key.Some? {
        rowKey := key;
      }
      log := log + [Committed(rowStatus, rowKey)];
    }

    /** The commit after which the row holds a cancel id. */
    method CommitCancelId()
      requires cancelSince.None?
      modifies this`rowStatus, this`rowKey, this`seen, this`log, this`cancelSince
      ensures cancelSince == Some(Moment()) && seen == old(Rows()) && rowStatus == old(rowStatus)
      ensures rowKey == old(rowKey) && log == old(log) + [Committed(rowStatus, rowKey)]
      ensures old(Watching()) ==> Watching()
    {
      Commit(None, None);
      cancelSince := Some(Moment());
    }

    /** The moments after the run up to `until`: stop views that read the row before success was
        written may still write it. */
    method Settle(until: nat)
      modifies this`rowStatus, this`seen
      ensures rowStatus in {old(rowStatus), Stopped}
      ensures old(rowStatus) == Success ==>
        (rowStatus == Stopped <==>
         exists stop :: stop in world.stops && WritesLate(stop, cancelSince, old(seen)) && stop.write < until)
    {
      ghost var before, status := seen, rowStatus;
      while Moment() < until
        invariant before <= seen && rowStatus in {status, Stopped}
        invariant Moment() <= until || seen == before
        invariant status == Success ==> forall m | |before| <= m < |Rows()| :: Rows()[m] in {Success, Stopped}
        invariant status == Success ==>
          (rowStatus == Stopped <==>
           exists stop :: stop in world.stops && WritesLate(stop, cancelSince, before) && stop.write < |seen|)
      {
        Interfere();
      }
    }

    method Record(e: Effect)
      modifies this`log
      ensures log == old(log) + [e]
    {
      log := log + [e];
    }
  }

  /** The stop view read a query under way while the run was on, and writes after its end. */
  predicate WritesLate(stop: Stop, since: Option<nat>, seen: seq<Status>) {
    Cancels(stop, since) && stop.check < |seen| <= stop.write && seen[stop.check] in {Pending, Running}
  }

  // ----- the query -----

  class Query {
    const selectAsCta: bool
    const ctasMethod: CtasMethod
    var status: Status
    var limit: Option<nat>
    var notLimited: bool
    var tmpTableName: Option<string>
    var selectAsCtaUsed: bool
    var resultsKey: Option<Key>

    constructor (selectAsCta: bool, ctasMethod: CtasMethod, limit: Option<nat>, tmpTableName: Option<string>)
      ensures this.selectAsCta == selectAsCta && this.ctasMethod == ctasMethod && this.limit == limit
      ensures this.tmpTableName == tmpTableName && status == Pending
      ensures !selectAsCtaUsed && !notLimited && resultsKey == None
    {
      this.selectAsCta, this.ctasMethod, this.limit, this.tmpTableName := selectAsCta, ctasMethod, limit, tmpTableName;
      status, selectAsCtaUsed, notLimited, resultsKey := Pending, false, false, None;
    }

    function Ctas(): Option<CtasMethod> {
      if selectAsCta then Some(ctasMethod) else None
    }
  }

  datatype StatementResult = Fetched(rows: seq<Row>) | RaisedStopped | RaisedError

  predicate Applies(settings: Settings, statement: Statement, ctaUsed: bool) {
    statement.kind == Select && !(ctaUsed && settings.ctasNoLimit)
  }

  /** The text the cursor is given for a statement. */
  function TextFor(settings: Settings, statement: Statement, limit: Option<nat>, createAs: Option<CtasMethod>,
                   ctaUsed: bool): Sql
  {
    Sql(statement, createAs, InSql(settings.engine, limit, Applies(settings, statement, ctaUsed)))
  }

  /** The rows a statement comes back with, when it does. */
  function Delivered(settings: Settings, statement: Statement, answer: Answer, limit: Option<nat>, ctaUsed: bool)
    : Option<Delivery<Row>>
  {
    if !answer.Answered? then None
    else Deliver(settings.engine, limit, Applies(settings, statement, ctaUsed), answer.rows)
  }

  predicate Refused(settings: Settings, statement: Statement) {
    statement.kind == Writing && !settings.allowDml
  }

  /** The part of execute_sql_statement that builds the text: CREATE AS, the overall maximum and
      the raised limit. */
  method BuildSql(settings: Settings, statement: Statement, query: Query, applyCtas: bool) returns (sql: Sql)
    modifies query`limit, query`tmpTableName, query`selectAsCtaUsed
    ensures query.selectAsCtaUsed == (old(query.selectAsCtaUsed) || applyCtas)
    ensures query.limit == Capped(settings.engine, old(query.limit),
                              Applies(settings, statement, query.selectAsCtaUsed))
    ensures sql == TextFor(settings, statement, old(query.limit), if applyCtas then Some(query.ctasMethod) else None,
                           query.selectAsCtaUsed)
  {
    var increasedLimit := Increased(query.limit);
    var createAs := None;
    if applyCtas {
      if query.tmpTableName.None? {
        query.tmpTableName := Some("tmp_table");
      }
      createAs := Some(query.ctasMethod);
      query.selectAsCtaUsed := true;
    }
    var sqlLimit := Unlimited;
    if statement.kind == Select && !(query.selectAsCtaUsed && settings.ctasNoLimit) {
      if settings.engine.maxRow > 0 && (!Truthy(query.limit) || query.limit.value > settings.engine.maxRow) {
        query.limit := Some(settings.engine.maxRow);
      }
      if Truthy(query.limit) && settings.engine.limitMethod != FetchMany {
        sqlLimit := if increasedLimit.Some? then LimitTo(increasedLimit.value)
                    else if settings.engine.limitMethod == ForceLimit then LimitIsNone
                    else Unlimited;
      }
    }
    sql := Sql(statement, createAs, sqlLimit);
  }

  /** Fetching, and dropping the extra row: what is answered is the delivery for the limit as it was
      before the overall maximum, and for a limit in step with it the first rows up to the limit,
      flagged as not limited exactly when that is all. */
  method FetchData(settings: Settings, sql: Sql, increasedLimit: Option<nat>, query: Query, rows: seq<Row>,
                   ghost limit: Option<nat>, ghost applies: bool)
    returns (data: seq<Row>)
    requires sql.limit == InSql(settings.engine, limit, applies) && sql.limit != LimitIsNone
    requires increasedLimit == Increased(limit) && query.limit == Capped(settings.engine, limit, applies)
    modifies query`notLimited
    ensures Deliver(settings.engine, limit, applies, rows).Some?
    ensures var delivery := Deliver(settings.engine, limit, applies, rows).value;
      data == delivery.rows && query.notLimited == (old(query.notLimited) || delivery.notLimited)
    ensures applies && InStep(settings.engine, limit) && query.limit.Some? ==>
      && data == First(rows, query.limit.value)
      && (query.notLimited <==> old(query.notLimited) || |rows| <= query.limit.value)
  {
    if applies && InStep(settings.engine, limit) {
      ExactWhenInStep(settings.engine, limit, rows);
    }
    data := if sql.limit.LimitTo? then First(rows, sql.limit.n) else rows;
    if settings.engine.limitMethod == FetchMany && increasedLimit.Some? {
      data := First(data, increasedLimit.value);
    }
    if query.limit.None? || |data| <= query.limit.value {
      query.notLimited := true;
    } else {
      data := data[..|data| - 1];
    }
  }

  method Submit(sql: Sql, session: Session) returns (ghost c: Effect)
    requires session.Watching()
    modifies session`log, session`seen, session`rowStatus, session`rowKey
    ensures session.Watching() && session.Moment() == old(session.Moment()) + 1 && session.rowKey == old(session.rowKey)
    ensures Quiet(c) && c.Committed? && session.log == old(session.log) + [c] + [Sent(sql)]
  {
    session.Commit(None, None);
    c := Committed(session.rowStatus, session.rowKey);
    session.Record(Sent(sql));
  }

  method ExecuteSqlStatement(settings: Settings, statement: Statement, query: Query, session: Session,
                             answer: Answer, applyCtas: bool)
    returns (result: StatementResult)
    requires session.Watching() && !SawStop(session.log)
    modifies query, session`log, session`seen, session`rowStatus, session`rowKey
    ensures !result.RaisedStopped? ==> !SawStop(session.log)
    ensures session.Watching() && session.rowKey == old(session.rowKey)
    ensures Refused(settings, statement) ==> result.RaisedError? && session.log == old(session.log)
    ensures result.Fetched? ==> session.Moment() == old(session.Moment()) + 1
    ensures result.Fetched? <==>
      !Refused(settings, statement)
      && Delivered(settings, statement, answer, old(query.limit), old(query.selectAsCtaUsed) || applyCtas).Some?
    ensures !Refused(settings, statement) ==>
      var ctaUsed := old(query.selectAsCtaUsed) || applyCtas;
      && query.selectAsCtaUsed == ctaUsed
      && query.limit == Capped(settings.engine, old(query.limit), Applies(settings, statement, ctaUsed))
      && RanOne(old(session.log), session.log,
                TextFor(settings, statement, old(query.limit),
                        if applyCtas then Some(query.ctasMethod) else None, ctaUsed))
    ensures result.Fetched? ==>
      var delivery := Delivered(settings, statement, answer, old(query.limit), query.selectAsCtaUsed);
      && result.rows == delivery.value.rows
      && query.notLimited == (old(query.notLimited) || delivery.value.notLimited)
  {
    if statement.kind == Writing && !settings.allowDml {
      return RaisedError;
    }
    ghost var limit := query.limit;
    var increasedLimit := Increased(query.limit);
    var sql := BuildSql(settings, statement, query, applyCtas);
    ghost var before := session.log;
    ghost var c := Submit(sql, session);
    assert RanWith(before, session.log, sql, c, Running);
    if answer.SoftTimeout? {
      return RaisedError;
    }
    if answer.DatabaseError? || sql.limit == LimitIsNone {
      var status := session.Refresh();
      assert RanWith(before, session.log, sql, c, status);
      query.status := status;
      return if status == Stopped then RaisedStopped else RaisedError;
    }
    var data := FetchData(settings, sql, increasedLimit, query, answer.rows, limit,
                          Applies(settings, statement, query.selectAsCtaUsed));
    result := StatementResult.Fetched(data);
  }

  // ----- the whole run -----

  function NonEmpty(parsed: seq<Statement>): seq<Statement> {
    if parsed == [] then []
    else
      var last := parsed[|parsed| - 1];
      NonEmpty(parsed[..|parsed| - 1]) + if last.text != "" then [last] else []
  }

  /** The statements to run: each on its own, or the query as one. */
  function Plan(settings: Settings, parsed: seq<Statement>, whole: Statement): seq<Statement> {
    if settings.runAsOne then [whole] else NonEmpty(parsed)
  }

  /** The limit of the query when statement `i` of the plan is reached. */
  function LimitAt(settings: Settings, limit: Option<nat>, plan: seq<Statement>, i: nat): Option<nat>
    requires i <= |plan|
  {
    if i == 0 then limit
    else Capped(settings.engine, LimitAt(settings, limit, plan, i - 1), plan[i - 1].kind == Select)
  }

  /** What the query's limit has become when statement `i` is reached: an overall maximum has replaced
      it if it was missing, zero or greater, and a SELECT has come before. */
  lemma {:induction false} LimitAtMeaning(settings: Settings, limit: Option<nat>, plan: seq<Statement>, i: nat)
    requires i <= |plan|
    ensures LimitAt(settings, limit, plan, i) ==
      if && settings.engine.maxRow > 0 && (exists j | 0 <= j < i :: plan[j].kind == Select)
         && (limit.None? || limit.value == 0 || limit.value > settings.engine.maxRow)
      then Some(settings.engine.maxRow) else limit
  {
    if i > 0 {
      LimitAtMeaning(settings, limit, plan, i - 1);
      assert (exists j | 0 <= j < i :: plan[j].kind == Select) <==>
        (exists j | 0 <= j < i - 1 :: plan[j].kind == Select) || plan[i - 1].kind == Select;
    }
  }

  /** `plan` are the parsed statements that have a text, at ascending positions. */
  ghost predicate PlannedAt(parsed: seq<Statement>, pos: seq<nat>, plan: seq<Statement>) {
    && Increasing(pos) && |plan| == |pos|
    && (forall i :: i in pos <==> 0 <= i < |parsed| && parsed[i].text != "")
    && (forall k | 0 <= k < |pos| :: pos[k] < |parsed| && plan[k] == parsed[pos[k]])
  }

  /** What is run one by one are the statements that have a text, in the order in which they were
      parsed. */
  lemma {:induction false} NonEmptyInOrder(parsed: seq<Statement>) returns (pos: seq<nat>)
    ensures PlannedAt(parsed, pos, NonEmpty(parsed))
  {
    if parsed == [] {
      pos := [];
    } else {
      var n := |parsed| - 1;
      var before := NonEmptyInOrder(parsed[..n]);
      pos := before + if parsed[n].text != "" then [n] else [];
      OneMorePlanned(parsed, before, NonEmpty(parsed[..n]));
    }
  }

  lemma OneMorePlanned(parsed: seq<Statement>, pos: seq<nat>, plan: seq<Statement>)
    requires parsed != [] && PlannedAt(parsed[..|parsed| - 1], pos, plan)
    ensures var last := parsed[|parsed| - 1];
      var more := last.text != "";
      PlannedAt(parsed, pos + (if more then [|parsed| - 1] else []), plan + if more then [last] else [])
  {
    var n, last := |parsed| - 1, parsed[|parsed| - 1];
    var r := pos + if last.text != "" then [n] else [];
    assert forall i :: i in r <==> i in pos || (last.text != "" && i == n);
    assert forall i | 0 <= i < n :: parsed[..n][i] == parsed[i];
  }

  /** What was sent are the first statements with a text, in the order of the query; none of them
      writes where only reading is allowed. */
  ghost predicate SentInOrder(settings: Settings, parsed: seq<Statement>, whole: Statement, sends: seq<Sql>) {
    && (forall k | 0 <= k < |sends| :: sends[k].statement.kind == Writing ==> settings.allowDml)
    && exists pos, plan :: SentFrom(settings, parsed, whole, sends, pos, plan)
  }

  ghost predicate SentFrom(settings: Settings, parsed: seq<Statement>, whole: Statement, sends: seq<Sql>,
                           pos: seq<nat>, plan: seq<Statement>)
  {
    && (if settings.runAsOne then plan == [whole] else PlannedAt(parsed, pos, plan))
    && |sends| <= |plan| && forall k | 0 <= k < |sends| :: sends[k].statement == plan[k]
  }

  /** Every text is the one made of its statement, the limit as the statements before left it and
      CREATE AS for the last one; what may not be written is not among them. */
  ghost predicate TextsFit(settings: Settings, limit: Option<nat>, ctas: Option<CtasMethod>, plan: seq<Statement>,
                           sends: seq<Sql>)
  {
    |sends| <= |plan| && forall i | 0 <= i < |sends| :: TextFits(settings, limit, ctas, plan, sends, i)
  }

  ghost predicate TextFits(settings: Settings, limit: Option<nat>, ctas: Option<CtasMethod>, plan: seq<Statement>,
                           sends: seq<Sql>, i: nat)
    requires i < |sends| <= |plan|
  {
    var createAs := if i == |plan| - 1 then ctas else None;
    && (plan[i].kind == Writing ==> settings.allowDml)
    && sends[i] == TextFor(settings, plan[i], LimitAt(settings, limit, plan, i), createAs, createAs.Some?)
  }

  lemma TextsFitNext(settings: Settings, limit: Option<nat>, ctas: Option<CtasMethod>, plan: seq<Statement>,
                     sends: seq<Sql>, sql: Sql)
    requires TextsFit(settings, limit, ctas, plan, sends) && |sends| < |plan|
    requires TextFits(settings, limit, ctas, plan, sends + [sql], |sends|)
    ensures TextsFit(settings, limit, ctas, plan, sends + [sql])
  {
    forall i | 0 <= i < |sends|
      ensures TextFits(settings, limit, ctas, plan, sends + [sql], i)
    {
      assert TextFits(settings, limit, ctas, plan, sends, i);
    }
  }

  /** A text in full: the statement, CREATE AS only on the last one and when asked for, and one row
      more than the query's limit for a SELECT, unless it fills a table and those are exempt. */
  lemma TextMeaning(settings: Settings, limit: Option<nat>, ctas: Option<CtasMethod>, plan: seq<Statement>,
                    sends: seq<Sql>, i: nat)
    requires TextsFit(settings, limit, ctas, plan, sends) && i < |sends|
    ensures sends[i].statement == plan[i] && (plan[i].kind == Writing ==> settings.allowDml)
    ensures sends[i].createAs == if i + 1 == |plan| then ctas else None
    ensures var now := LimitAt(settings, limit, plan, i);
      sends[i].limit.LimitTo? <==>
        && plan[i].kind == Select && !(ctas.Some? && i + 1 == |plan| && settings.ctasNoLimit)
        && settings.engine.limitMethod != FetchMany && now.Some? && (now.value > 0 || settings.engine.maxRow > 0)
    ensures sends[i].limit.LimitTo? ==> sends[i].limit.n == LimitAt(settings, limit, plan, i).value + 1
  {
    assert TextFits(settings, limit, ctas, plan, sends, i);
  }

  lemma PlanInOrder(settings: Settings, parsed: seq<Statement>, whole: Statement, limit: Option<nat>,
                    ctas: Option<CtasMethod>, sends: seq<Sql>)
    requires TextsFit(settings, limit, ctas, Plan(settings, parsed, whole), sends)
    ensures SentInOrder(settings, parsed, whole, sends)
  {
    var plan := Plan(settings, parsed, whole);
    forall k | 0 <= k < |sends|
      ensures sends[k].statement == plan[k] && (plan[k].kind == Writing ==> settings.allowDml)
    {
      assert TextFits(settings, limit, ctas, plan, sends, k);
    }
    var pos := NonEmptyInOrder(parsed);
    assert SentFrom(settings, parsed, whole, sends, pos, plan);
  }

  datatype Outcome = Returned(payload: Payload) | Raised

  lemma {:induction false} PlanOfView(settings: Settings, parsed: seq<Statement>, whole: Statement)
    requires |parsed| == 1 || settings.runAsOne
    ensures |Plan(settings, parsed, whole)| <= 1
  {
    if |parsed| == 1 {
      assert NonEmpty(parsed[..0]) == [];
    }
  }

  /** A commit in the course of a run: the first one writes the running status, the others none. */
  method CommitUnderway(status: Option<Status>, session: Session, ghost plan: seq<Statement>,
                        ghost ctas: Option<CtasMethod>)
    requires Underway(session.log, plan, ctas)
    requires if status.None? then session.Watching() else
      status == Some(Running) && session.Moment() == 0 && session.cancelSince == None
    modifies session`log, session`seen, session`rowStatus, session`rowKey
    ensures Underway(session.log, plan, ctas) && Sends(session.log) == Sends(old(session.log))
    ensures SawStop(session.log) <==> SawStop(old(session.log))
    ensures session.Watching() && session.Moment() == old(session.Moment()) + 1 && session.rowKey == old(session.rowKey)
  {
    ghost var log := session.log;
    session.Commit(status, None);
    UnderwayAppend(log, Committed(session.rowStatus, session.rowKey), plan, ctas);
  }

  /** The refresh before a statement. */
  method CheckIfStopped(query: Query, session: Session, ghost plan: seq<Statement>, ghost ctas: Option<CtasMethod>)
    returns (stopped: bool)
    requires Underway(session.log, plan, ctas) && session.Watching() && !SawStop(session.log)
    modifies query`status, session`log, session`seen, session`rowStatus
    ensures Underway(session.log, plan, ctas) && Sends(session.log) == Sends(old(session.log))
    ensures session.Watching() && session.Moment() == old(session.Moment()) + 1
    ensures stopped <==> StopIn(session.world, session.cancelSince, session.Moment())
    ensures stopped ==> session.rowStatus == Stopped
    ensures !stopped ==> !SawStop(session.log)
  {
    ghost var log := session.log;
    var status := session.Refresh();
    UnderwayAppend(log, Refreshed(status), plan, ctas);
    query.status := status;
    stopped := query.status == Stopped;
  }

  /** The moment at which the query is refreshed before statement `i`: two commits, of the running
      status and of the cancel id, come before the loop, and a refresh and two commits belong to
      every statement that is sent. */
  function RefreshAt(settings: Settings, i: nat): nat {
    (if settings.cancellable then 2 else 1) + 3 * i
  }

  /** The session has come to the refresh before statement `i`. */
  ghost predicate DueAt(settings: Settings, session: Session, i: nat)
    reads session`rowStatus, session`seen, session`cancelSince
  {
    session.Watching() && session.Moment() == RefreshAt(settings, i) && session.cancelSince == Since(settings)
  }

  /** Statement `i` of the plan is allowed and comes back with rows. */
  predicate Delivers(settings: Settings, world: World, plan: seq<Statement>, limit: Option<nat>, asCta: bool, i: nat)
    requires i < |plan|
  {
    && !Refused(settings, plan[i])
    && Delivered(settings, plan[i], AnswerAt(world, i), limit, asCta && i == |plan| - 1).Some?
  }

  /** The moment from which on the stop view finds a cancel id: the second commit is the one that
      writes it, on an engine that has them. */
  function Since(settings: Settings): Option<nat> {
    if settings.cancellable then Some(2) else None
  }

  /** A stop that was written since the run began is seen before statement `i`. */
  ghost predicate SeenBefore(settings: Settings, world: World, i: nat) {
    StopIn(world, Since(settings), RefreshAt(settings, i) + 1)
  }

  /** Statement `i` is reached with the query's limit as the statements before it left it, delivers,
      and is not kept back by a stop. */
  ghost predicate GoesThrough(settings: Settings, world: World, plan: seq<Statement>, limit: Option<nat>,
                              asCta: bool, i: nat)
    requires i < |plan|
  {
    Delivers(settings, world, plan, LimitAt(settings, limit, plan, i), asCta, i) && !SeenBefore(settings, world, i)
  }

  ghost predicate GoThrough(settings: Settings, world: World, plan: seq<Statement>, limit: Option<nat>,
                            asCta: bool, n: nat)
    requires n <= |plan|
  {
    forall i | 0 <= i < n :: GoesThrough(settings, world, plan, limit, asCta, i)
  }

  /** The rows the last of the first `n` statements came back with; none when `n` is zero. */
  function RowsAfter(settings: Settings, world: World, plan: seq<Statement>, limit: Option<nat>,
                     asCta: bool, n: nat): seq<Row>
    requires n <= |plan|
  {
    if n == 0 then []
    else
      var i := n - 1;
      var delivery := Delivered(settings, plan[i], AnswerAt(world, i),
                          LimitAt(settings, limit, plan, i), asCta && n == |plan|);
      if delivery.Some? then delivery.value.rows else []
  }

  /** After all statements the rows are what the last one brought back. */
  lemma LastRows(settings: Settings, world: World, plan: seq<Statement>, limit: Option<nat>, asCta: bool)
    requires plan != [] && |plan| <= |world.answers| && world.answers[|plan| - 1].Answered?
    ensures var last := |plan| - 1;
      var applies := plan[last].kind == Select && !(asCta && settings.ctasNoLimit);
      var delivery := Deliver(settings.engine, LimitAt(settings, limit, plan, last), applies, world.answers[last].rows);
      RowsAfter(settings, world, plan, limit, asCta, |plan|) == if delivery.Some? then delivery.value.rows else []
  {
  }

  datatype LoopResult = Completed(rows: seq<Row>) | Ended(payload: Payload)

  /** CREATE AS is applied to a statement only on the last one of the plan. */
  predicate CtasFits(query: Query, plan: seq<Statement>) {
    query.selectAsCta && query.ctasMethod == CreateView ==> |plan| <= 1
  }

  /** The statement loop, sharing one connection. It completes exactly when every statement delivers
      and no stop lands up to the last refresh; a stop keeps back every statement that is refreshed
      after it. */
  method RunStatements(settings: Settings, statements: seq<Statement>, query: Query, session: Session)
    returns (result: LoopResult)
    requires DueAt(settings, session, 0)
    requires !query.selectAsCtaUsed && CtasFits(query, statements)
    requires Underway(session.log, statements, query.Ctas()) && Sends(session.log) == [] && !SawStop(session.log)
    modifies query, session`log, session`seen, session`rowStatus, session`rowKey
    ensures session.rowStatus != Success && session.rowKey == old(session.rowKey)
    ensures Underway(session.log, statements, query.Ctas())
    ensures result.Ended? ==> result.payload in {StoppedPayload, FailedPayload}
    ensures result.Completed? <==>
      GoThrough(settings, session.world, statements, old(query.limit), query.selectAsCta, |statements|)
    ensures TextsFit(settings, old(query.limit), query.Ctas(), statements, Sends(session.log))
    ensures Sends(session.log) != [] ==> !SeenBefore(settings, session.world, |Sends(session.log)| - 1)
    ensures result.Completed? ==> |Sends(session.log)| == |statements| && !SawStop(session.log)
    ensures result.Completed? ==> DueAt(settings, session, |statements|)
    ensures result.Completed? ==>
      result.rows == RowsAfter(settings, session.world, statements, old(query.limit), query.selectAsCta, |statements|)
  {
    var resultSet := [];
    ghost var world, limit, asCta := session.world, query.limit, query.selectAsCta;
    for i := 0 to |statements|
      invariant DueAt(settings, session, i)
      invariant session.rowKey == old(session.rowKey)
      invariant Underway(session.log, statements, query.Ctas()) && |Sends(session.log)| == i && !SawStop(session.log)
      invariant TextsFit(settings, limit, query.Ctas(), statements, Sends(session.log))
      invariant query.selectAsCtaUsed <==> query.selectAsCta && 0 < i == |statements|
      invariant i < |statements| ==> query.limit == LimitAt(settings, limit, statements, i)
      invariant GoThrough(settings, world, statements, limit, asCta, i)
      invariant i > 0 ==> !SeenBefore(settings, world, i - 1)
      invariant resultSet == RowsAfter(settings, world, statements, limit, asCta, i)
    {
      var r := RunStatement(settings, statements, i, query, session, limit);
      if r.Ended? {
        return r;
      }
      GoThroughNext(settings, world, statements, limit, asCta, i);
      resultSet := r.rows;
    }
    result := Completed(resultSet);
  }

  lemma SentFits(settings: Settings, plan: seq<Statement>, i: nat, limit: Option<nat>, ctas: Option<CtasMethod>,
                 before: seq<Sql>, after: seq<Sql>)
    requires i < |plan| && |before| == i && TextsFit(settings, limit, ctas, plan, before)
    requires after == before || SentNext(settings, plan, i, LimitAt(settings, limit, plan, i), ctas, before, after)
    ensures TextsFit(settings, limit, ctas, plan, after)
  {
    if after != before {
      TextsFitNext(settings, limit, ctas, plan, before, after[i]);
    }
  }

  lemma GoThroughNext(settings: Settings, world: World, plan: seq<Statement>, limit: Option<nat>, asCta: bool, i: nat)
    requires i < |plan| && GoThrough(settings, world, plan, limit, asCta, i)
    requires GoesThrough(settings, world, plan, limit, asCta, i)
    ensures GoThrough(settings, world, plan, limit, asCta, i + 1) && !SeenBefore(settings, world, i)
    ensures RowsAfter(settings, world, plan, limit, asCta, i + 1) ==
      Delivered(settings, plan[i], AnswerAt(world, i), LimitAt(settings, limit, plan, i),
                asCta && i == |plan| - 1).value.rows
    ensures i + 1 < |plan| ==>
      LimitAt(settings, limit, plan, i + 1) ==
        Capped(settings.engine, LimitAt(settings, limit, plan, i), Applies(settings, plan[i], asCta && i == |plan| - 1))
  {
  }

  /** The loop body. */
  method RunStatement(settings: Settings, statements: seq<Statement>, i: nat, query: Query, session: Session,
                      ghost limit: Option<nat>)
    returns (result: LoopResult)
    requires DueAt(settings, session, i)
    requires !query.selectAsCtaUsed && CtasFits(query, statements)
    requires i < |statements| && Underway(session.log, statements, query.Ctas()) && |Sends(session.log)| == i
    requires !SawStop(session.log) && query.limit == LimitAt(settings, limit, statements, i)
    requires TextsFit(settings, limit, query.Ctas(), statements, Sends(session.log))
    modifies query, session`log, session`seen, session`rowStatus, session`rowKey
    ensures session.rowStatus != Success && session.rowKey == old(session.rowKey)
    ensures Underway(session.log, statements, query.Ctas()) && i <= |Sends(session.log)| <= i + 1
    ensures TextsFit(settings, limit, query.Ctas(), statements, Sends(session.log))
    ensures SeenBefore(settings, session.world, i) ==>
      result == Ended(StoppedPayload) && |Sends(session.log)| == i && session.rowStatus == Stopped
    ensures |Sends(session.log)| == i ==> result.Ended?
    ensures result.Ended? ==> result.payload in {StoppedPayload, FailedPayload}
    ensures result.Completed? <==> GoesThrough(settings, session.world, statements, limit, query.selectAsCta, i)
    ensures result.Completed? ==>
      var ctaUsed := query.selectAsCta && i == |statements| - 1;
      var delivery := Delivered(settings, statements[i], AnswerAt(session.world, i), old(query.limit), ctaUsed);
      && DueAt(settings, session, i + 1)
      && |Sends(session.log)| == i + 1 && !SawStop(session.log)
      && query.selectAsCtaUsed == ctaUsed
      && query.limit == Capped(settings.engine, old(query.limit), Applies(settings, statements[i], ctaUsed))
      && delivery.Some? && result.rows == delivery.value.rows
  {
    var stopped := CheckIfStopped(query, session, statements, query.Ctas());
    if stopped {
      return Ended(StoppedPayload);
    }
    ghost var sends := Sends(session.log);
    var r := SendStatement(settings, statements, i, query, session);
    SentFits(settings, statements, i, limit, query.Ctas(), sends, Sends(session.log));
    match r
    case RaisedStopped => result := Ended(StoppedPayload);
    case RaisedError =>
      ghost var log := session.log;
      HandleQueryError(query, session);
      UnderwayAppend(log, Committed(Failed, session.rowKey), statements, query.Ctas());
      result := Ended(FailedPayload);
    case Fetched(rows) => result := Completed(rows);
  }

  /** Statement `i` was allowed and sent, with the text for the query's limit. */
  ghost predicate SentNext(settings: Settings, plan: seq<Statement>, i: nat, limit: Option<nat>,
                           ctas: Option<CtasMethod>, before: seq<Sql>, after: seq<Sql>)
    requires i < |plan|
  {
    var createAs := if i == |plan| - 1 then ctas else None;
    && (plan[i].kind == Writing ==> settings.allowDml)
    && after == before + [TextFor(settings, plan[i], limit, createAs, createAs.Some?)]
  }

  /** The rest of the loop body, for a query that was not stopped. */
  method SendStatement(settings: Settings, statements: seq<Statement>, i: nat, query: Query, session: Session)
    returns (result: StatementResult)
    requires session.Watching() && !query.selectAsCtaUsed && CtasFits(query, statements)
    requires i < |statements| && Underway(session.log, statements, query.Ctas()) && |Sends(session.log)| == i
    requires !SawStop(session.log)
    modifies query, session`log, session`seen, session`rowStatus, session`rowKey
    ensures session.Watching() && session.rowKey == old(session.rowKey)
    ensures Underway(session.log, statements, query.Ctas()) && i <= |Sends(session.log)| <= i + 1
    ensures |Sends(session.log)| == i ==> Sends(session.log) == old(Sends(session.log))
    ensures |Sends(session.log)| > i ==> SentNext(settings, statements, i, old(query.limit), query.Ctas(),
                                                  old(Sends(session.log)), Sends(session.log))
    ensures result.Fetched? <==> Delivers(settings, session.world, statements, old(query.limit), query.selectAsCta, i)
    ensures result.Fetched? ==>
      var ctaUsed := query.selectAsCta && i == |statements| - 1;
      && session.Moment() == old(session.Moment()) + 2 && |Sends(session.log)| == i + 1 && !SawStop(session.log)
      && query.selectAsCtaUsed == ctaUsed
      && query.limit == Capped(settings.engine, old(query.limit), Applies(settings, statements[i], ctaUsed))
      && result.rows ==
        Delivered(settings, statements[i], AnswerAt(session.world, i), old(query.limit), ctaUsed).value.rows
  {
    ghost var ctas, limit := query.Ctas(), query.limit;
    var applyCtas := query.selectAsCta &&
      (query.ctasMethod == CreateView || (query.ctasMethod == CreateTable && i == |statements| - 1));
    CommitUnderway(None, session, statements, ctas);
    ghost var log := session.log;
    result := ExecuteSqlStatement(settings, statements[i], query, session, AnswerAt(session.world, i), applyCtas);
    if !Refused(settings, statements[i]) {
      UnderwayRanOne(log, session.log,
                     TextFor(settings, statements[i], limit,
                             if applyCtas then Some(query.ctasMethod) else None, applyCtas),
                     statements, ctas);
    }
  }

  /** What may follow once every statement has been sent. */
  lemma FinalEffect(log: seq<Effect>, e: Effect, plan: seq<Statement>, ctas: Option<CtasMethod>)
    requires Lawful(log, plan, ctas) && !e.Sent? && EffectInOrder(log, e, plan)
    ensures Lawful(log + [e], plan, ctas) && Sends(log + [e]) == Sends(log)
    ensures e in log + [e] && forall x | x in log :: x in log + [e]
  {
    SendsAppend(log, e);
    assert Sends(log) + [] == Sends(log);
    LawfulAppend(log, e, plan, ctas);
  }

  lemma ConnectionCommitFits(log: seq<Effect>, plan: seq<Statement>, ctas: Option<CtasMethod>)
    requires Underway(log, plan, ctas) && |Sends(log)| == |plan| && !SawStop(log)
    ensures var after := log + [ConnectionCommitted];
      Lawful(after, plan, ctas) && Committing(after) && Sends(after) == Sends(log)
  {
    UnderwayIsLawful(log, plan, ctas);
    FinalEffect(log, ConnectionCommitted, plan, ctas);
  }

  lemma SuccessFits(log: seq<Effect>, key: Option<Key>, payload: Payload, plan: seq<Statement>,
                    ctas: Option<CtasMethod>)
    requires Lawful(log, plan, ctas) && Committing(log)
    requires key.Some? ==> Stored(key.value, payload) in log
    ensures var after := log + [Committed(Success, key)];
      && Lawful(after, plan, ctas) && Committing(after) && (key.Some? ==> Stored(key.value, payload) in after)
      && after[|after| - 1] == Committed(Success, key) && Sends(after) == Sends(log)
  {
    FinalEffect(log, Committed(Success, key), plan, ctas);
  }

  /** Whether results are serialized a second time, after success was written. */
  predicate Reserializes(settings: Settings) {
    settings.returnsResults && settings.arrow
  }

  predicate FinishesWell(settings: Settings, world: World) {
    && world.afterwards !in {CommitFails, SerializeFails}
    && !(settings.storesResults && world.afterwards == StoreFails)
    && !(Reserializes(settings) && world.afterwards == ReserializeFails)
  }

  /** Success is the last thing written, and its results are in the backend when there is one. */
  ghost predicate Recorded(settings: Settings, session: Session, rows: seq<Row>)
    reads session`log, session`rowKey
  {
    && session.log != [] && session.log[|session.log| - 1] == Committed(Success, session.rowKey)
    && (session.rowKey.Some? <==> settings.storesResults)
    && (settings.storesResults ==> Stored(session.rowKey.value, Rows(rows)) in session.log)
  }

  /** ... and that came at the moment after the last of `n` statements; until then others saw the query
      running, or stopped by a stop. */
  ghost predicate SucceededWith(settings: Settings, n: nat, rows: seq<Row>, session: Session)
    reads session`log, session`rowKey, session`seen, session`cancelSince
  {
    && session.cancelSince == Since(settings) && session.Moment() == RefreshAt(settings, n) + 1
    && OnlyStopped(session.world, session.cancelSince, session.seen)
    && Recorded(settings, session, rows)
  }

  /** After the loop: commit the connection, store the results, write success. */
  method Finish(settings: Settings, statements: seq<Statement>, resultSet: seq<Row>, query: Query, session: Session)
    returns (outcome: Outcome)
    requires DueAt(settings, session, |statements|) && session.rowKey == None
    requires Underway(session.log, statements, query.Ctas()) && |Sends(session.log)| == |statements|
    requires !SawStop(session.log)
    modifies query, session`log, session`seen, session`rowStatus, session`rowKey
    ensures Lawful(session.log, statements, query.Ctas()) && Sends(session.log) == Sends(old(session.log))
    ensures Committing(session.log) <==> session.world.afterwards != CommitFails
    ensures outcome.Raised? <==> statements == [] || !FinishesWell(settings, session.world)
    ensures session.rowStatus == Success && outcome.Raised? <==>
      statements != [] && Reserializes(settings) && session.world.afterwards == ReserializeFails
    ensures session.rowStatus == Success ==> SucceededWith(settings, |statements|, resultSet, session)
    ensures outcome.Returned? ==>
      session.rowStatus == Success && outcome.payload == if settings.returnsResults then Rows(resultSet) else NoPayload
  {
    var committed := CommitConnection(session, statements, query.Ctas());
    if committed {
      outcome := Conclude(settings, statements, resultSet, query, session, query.Ctas());
    } else {
      outcome := Raised;
    }
  }

  /** `conn.commit()`; nothing is recorded when it raises. */
  method CommitConnection(session: Session, ghost plan: seq<Statement>, ghost ctas: Option<CtasMethod>)
    returns (committed: bool)
    requires Underway(session.log, plan, ctas) && |Sends(session.log)| == |plan| && !SawStop(session.log)
    modifies session`log
    ensures committed <==> session.world.afterwards != CommitFails
    ensures committed <==> Committing(session.log)
    ensures Lawful(session.log, plan, ctas) && Sends(session.log) == Sends(old(session.log))
  {
    ghost var log := session.log;
    committed := session.world.afterwards != CommitFails;
    if committed {
      session.Record(ConnectionCommitted);
      ConnectionCommitFits(log, plan, ctas);
    } else {
      UnderwayIsLawful(log, plan, ctas);
    }
  }

  /** What follows once the connection has been committed. */
  method Conclude(settings: Settings, statements: seq<Statement>, resultSet: seq<Row>, query: Query, session: Session,
                  ghost ctas: Option<CtasMethod>)
    returns (outcome: Outcome)
    requires session.rowStatus != Success && session.rowKey == None && session.world.afterwards != CommitFails
    requires Lawful(session.log, statements, ctas) && Committing(session.log)
    modifies query, session`log, session`seen, session`rowStatus, session`rowKey
    ensures Lawful(session.log, statements, ctas) && Committing(session.log)
    ensures Sends(session.log) == Sends(old(session.log))
    ensures outcome.Raised? <==> statements == [] || !FinishesWell(settings, session.world)
    ensures session.rowStatus == Success && outcome.Raised? <==>
      statements != [] && Reserializes(settings) && session.world.afterwards == ReserializeFails
    ensures session.rowStatus == Success ==>
      session.seen == old(session.Rows()) && Recorded(settings, session, resultSet)
    ensures outcome.Returned? ==>
      session.rowStatus == Success && outcome.payload == if settings.returnsResults then Rows(resultSet) else NoPayload
  {
    if statements == [] || session.world.afterwards == SerializeFails {
      return Raised;
    }
    var payload := Rows(resultSet);
    var stored, key := StoreResults(settings, payload, query, session, statements, ctas);
    if !stored {
      return Raised;
    }
    WriteSuccess(key, payload, query, session, statements, ctas);
    // results kept in the arrow format are serialized once more for the answer
    if settings.returnsResults && settings.arrow && session.world.afterwards == ReserializeFails {
      return Raised;
    }
    outcome := Returned(if settings.returnsResults then payload else NoPayload);
  }

  method WriteSuccess(key: Option<Key>, ghost payload: Payload, query: Query, session: Session,
                      ghost plan: seq<Statement>, ghost ctas: Option<CtasMethod>)
    requires Lawful(session.log, plan, ctas) && Committing(session.log) && session.rowKey == None
    requires key.Some? ==> Stored(key.value, payload) in session.log
    modifies query`status, session`log, session`seen, session`rowStatus, session`rowKey
    ensures Lawful(session.log, plan, ctas) && Committing(session.log) && Sends(session.log) == Sends(old(session.log))
    ensures session.rowStatus == Success && session.rowKey == key && session.seen == old(session.Rows())
    ensures session.log != [] && session.log[|session.log| - 1] == Committed(Success, key)
    ensures key.Some? ==> Stored(key.value, payload) in session.log
  {
    query.status := Success;
    ghost var log := session.log;
    session.Commit(Some(Success), key);
    assert session.rowKey == key && session.log == log + [Committed(Success, key)];
    SuccessFits(log, key, payload, plan, ctas);
  }

  /** Put the payload into the results backend, when there is one, under a new key. */
  method StoreResults(settings: Settings, payload: Payload, query: Query, session: Session,
                      ghost plan: seq<Statement>, ghost ctas: Option<CtasMethod>)
    returns (stored: bool, key: Option<Key>)
    requires Lawful(session.log, plan, ctas) && Committing(session.log)
    modifies query`resultsKey, session`log
    ensures Lawful(session.log, plan, ctas) && Committing(session.log)
    ensures stored <==> !(settings.storesResults && session.world.afterwards == StoreFails)
    ensures stored ==> (key.Some? <==> settings.storesResults)
    ensures stored && key.Some? ==> Stored(key.value, payload) in session.log
    ensures Sends(session.log) == Sends(old(session.log))
  {
    key := None;
    if settings.storesResults {
      if session.world.afterwards == StoreFails {
        return false, None;
      }
      ghost var log := session.log;
      session.Record(Stored(session.world.newKey, payload));
      FinalEffect(log, Stored(session.world.newKey, payload), plan, ctas);
      key := Some(session.world.newKey);
      query.resultsKey := key;
    }
    stored := true;
  }

  /** CREATE TABLE AS needs a SELECT as the last statement, CREATE VIEW AS nothing but a SELECT. */
  predicate CtasValid(parsed: seq<Statement>, ctas: Option<CtasMethod>) {
    && (ctas == Some(CreateTable) ==> parsed != [] && parsed[|parsed| - 1].kind == Select)
    && (ctas == Some(CreateView) ==> |parsed| == 1 && parsed[0].kind == Select)
  }

  /** The loop and what follows it go well; of the stops that could cancel, none is written up to the
      last refresh. */
  ghost predicate EndsWell(settings: Settings, plan: seq<Statement>, ctas: Option<CtasMethod>,
                           world: World, limit: Option<nat>) {
    && plan != [] && FinishesWell(settings, world)
    && (forall i | 0 <= i < |plan| :: Delivers(settings, world, plan, LimitAt(settings, limit, plan, i), ctas.Some?, i))
    && !SeenBefore(settings, world, |plan| - 1)
  }

  /** Everything a successful run needs. */
  ghost predicate AllWell(settings: Settings, parsed: seq<Statement>, whole: Statement, ctas: Option<CtasMethod>,
                          world: World, limit: Option<nat>)
  {
    && !settings.asyncWithoutBackend && CtasValid(parsed, ctas) && world.connects
    && EndsWell(settings, Plan(settings, parsed, whole), ctas, world, limit)
  }

  /** ... in full. The last refresh of `n` statements is at moment 2 + 3 * (n - 1) on an engine with
      cancel ids; a forced limit that is missing under an overall maximum makes an invalid text. */
  lemma AllWellMeaning(settings: Settings, parsed: seq<Statement>, whole: Statement, ctas: Option<CtasMethod>,
                       world: World, limit: Option<nat>)
    ensures AllWell(settings, parsed, whole, ctas, world, limit) <==>
      var plan := Plan(settings, parsed, whole);
      && !settings.asyncWithoutBackend && world.connects && 0 < |plan| <= |world.answers|
      && (ctas == Some(CreateTable) ==> parsed != [] && parsed[|parsed| - 1].kind == Select)
      && (ctas == Some(CreateView) ==> |parsed| == 1 && parsed[0].kind == Select)
      && world.afterwards != CommitFails && world.afterwards != SerializeFails
      && (settings.storesResults ==> world.afterwards != StoreFails)
      && (settings.returnsResults && settings.arrow ==> world.afterwards != ReserializeFails)
      && (forall i | 0 <= i < |plan| ::
            && world.answers[i].Answered? && (plan[i].kind == Writing ==> settings.allowDml)
            && !(&& plan[i].kind == Select && !(ctas.Some? && i == |plan| - 1 && settings.ctasNoLimit)
                 && LimitAt(settings, limit, plan, i).None?
                 && settings.engine.maxRow > 0 && settings.engine.limitMethod == ForceLimit))
      && (settings.cancellable ==> AllStopsAfter(world, 2 + 3 * (|plan| - 1)))
  {
    var plan := Plan(settings, parsed, whole);
    if plan != [] {
      var last := |plan| - 1;
      StopsMeaning(settings, world, last);
      DeliversExactly(settings, world, plan, LimitAt(settings, limit, plan, last), ctas.Some?, last);
    }
    forall i | 0 <= i < |plan|
      ensures Delivers(settings, world, plan, LimitAt(settings, limit, plan, i), ctas.Some?, i) <==>
        && i < |world.answers| && world.answers[i].Answered? && (plan[i].kind == Writing ==> settings.allowDml)
        && !(&& plan[i].kind == Select && !(ctas.Some? && i == |plan| - 1 && settings.ctasNoLimit)
             && LimitAt(settings, limit, plan, i).None?
             && settings.engine.maxRow > 0 && settings.engine.limitMethod == ForceLimit)
    {
      var now := LimitAt(settings, limit, plan, i);
      DeliversExactly(settings, world, plan, now, ctas.Some?, i);
    }
  }

  /** Every stop that the engine obeyed, for a view that found the cancel id, is written after `last`. */
  ghost predicate AllStopsAfter(world: World, last: nat) {
    forall stop | stop in world.stops && stop.cancelled && 2 <= stop.check <= stop.write :: last < stop.write
  }

  lemma StopsMeaning(settings: Settings, world: World, i: nat)
    ensures SeenBefore(settings, world, i) <==> settings.cancellable && !AllStopsAfter(world, 2 + 3 * i)
  {
    assert RefreshAt(settings, i) == (if settings.cancellable then 2 else 1) + 3 * i;
  }

  lemma DeliversExactly(settings: Settings, world: World, plan: seq<Statement>, limit: Option<nat>, asCta: bool, i: nat)
    requires i < |plan|
    ensures Delivers(settings, world, plan, limit, asCta, i) <==>
      && i < |world.answers| && world.answers[i].Answered? && (plan[i].kind == Writing ==> settings.allowDml)
      && !(&& plan[i].kind == Select && !(asCta && i == |plan| - 1 && settings.ctasNoLimit)
           && limit.None? && settings.engine.maxRow > 0 && settings.engine.limitMethod == ForceLimit)
  {
    if i < |world.answers| && world.answers[i].Answered? {
      var applies := Applies(settings, plan[i], asCta && i == |plan| - 1);
      DeliveredExactly(settings.engine, limit, applies, world.answers[i].rows);
    }
  }

  lemma SeenBeforeGrows(settings: Settings, world: World, i: nat, j: nat)
    requires i <= j && SeenBefore(settings, world, i)
    ensures SeenBefore(settings, world, j)
  {
    assert RefreshAt(settings, i) <= RefreshAt(settings, j);
  }

  /** What stops decide: on an engine without cancel ids nothing; on the others a run that would succeed
      undisturbed is successful at its end exactly when every stop that the engine obeys found the row
      without its cancel id or was written after the last refresh. */
  lemma StopDecides(settings: Settings, parsed: seq<Statement>, whole: Statement, ctas: Option<CtasMethod>,
                    world: World, limit: Option<nat>)
    requires AllWell(settings, parsed, whole, ctas, world.(stops := {}), limit)
    ensures AllWell(settings, parsed, whole, ctas, world, limit) <==>
      settings.cancellable ==>
      forall stop | stop in world.stops && stop.cancelled && stop.check <= stop.write ::
        stop.check < 2 || RefreshAt(settings, |Plan(settings, parsed, whole)| - 1) < stop.write
  {
    var plan, calm := Plan(settings, parsed, whole), world.(stops := {});
    forall i | 0 <= i < |plan|
      ensures Delivers(settings, world, plan, LimitAt(settings, limit, plan, i), ctas.Some?, i)
    {
      assert Delivers(settings, calm, plan, LimitAt(settings, limit, plan, i), ctas.Some?, i);
      assert AnswerAt(calm, i) == AnswerAt(world, i);
    }
  }

  method ExecuteSqlStatements(settings: Settings, parsed: seq<Statement>, whole: Statement, query: Query,
                              session: Session)
    returns (outcome: Outcome)
    requires session.log == [] && session.Moment() == 0 && session.cancelSince == None
    requires session.rowStatus != Success && session.rowKey == None && !query.selectAsCtaUsed
    modifies query, session`log, session`seen, session`rowStatus, session`rowKey, session`cancelSince
    ensures Lawful(session.log, Plan(settings, parsed, whole), query.Ctas())
    ensures TextsFit(settings, old(query.limit), query.Ctas(), Plan(settings, parsed, whole), Sends(session.log))
    ensures Sends(session.log) != [] ==> !SeenBefore(settings, session.world, |Sends(session.log)| - 1)
    ensures outcome.Returned? && session.rowStatus == Success <==>
      AllWell(settings, parsed, whole, query.Ctas(), session.world, old(query.limit))
    ensures outcome.Returned? ==> LegalRun(settings, parsed, whole, query, old(query.limit), session, outcome.payload)
  {
    if settings.asyncWithoutBackend {
      return Raised;
    }
    var statements := Plan(settings, parsed, whole);
    query.status := Running;
    CommitUnderway(Some(Running), session, statements, query.Ctas());
    var valid := IsValid(parsed, query);
    if valid {
      if query.selectAsCta && query.ctasMethod == CreateView {
        PlanOfView(settings, parsed, whole);
      }
      outcome := Connect(settings, statements, query, session);
    } else {
      UnderwayIsLawful(session.log, statements, query.Ctas());
      outcome := Raised;
    }
  }

  /** `is_valid_ctas` and `is_valid_cvas`, when a table or a view was asked for. */
  method IsValid(parsed: seq<Statement>, query: Query) returns (valid: bool)
    ensures valid <==> CtasValid(parsed, query.Ctas())
  {
    if query.selectAsCta && query.ctasMethod == CreateTable && (parsed == [] || parsed[|parsed| - 1].kind != Select) {
      return false;
    }
    if query.selectAsCta && query.ctasMethod == CreateView && !(|parsed| == 1 && parsed[0].kind == Select) {
      return false;
    }
    valid := true;
  }

  /** Opening the connection; its cancel id, on an engine that has one, is committed before the loop. */
  method Connect(settings: Settings, statements: seq<Statement>, query: Query, session: Session)
    returns (outcome: Outcome)
    requires session.Watching() && session.Moment() == 1 && session.cancelSince == None && session.rowKey == None
    requires !query.selectAsCtaUsed && CtasFits(query, statements)
    requires Underway(session.log, statements, query.Ctas()) && Sends(session.log) == [] && !SawStop(session.log)
    modifies query, session`log, session`seen, session`rowStatus, session`rowKey, session`cancelSince
    ensures Lawful(session.log, statements, query.Ctas())
    ensures TextsFit(settings, old(query.limit), query.Ctas(), statements, Sends(session.log))
    ensures Sends(session.log) != [] ==> !SeenBefore(settings, session.world, |Sends(session.log)| - 1)
    ensures outcome.Returned? && session.rowStatus == Success <==>
      session.world.connects && EndsWell(settings, statements, query.Ctas(), session.world, old(query.limit))
    ensures outcome.Returned? ==> LegalEnd(settings, statements, query, old(query.limit), session, outcome.payload)
  {
    if !session.world.connects {
      UnderwayIsLawful(session.log, statements, query.Ctas());
      return Raised;
    }
    if settings.cancellable {
      ghost var log := session.log;
      session.CommitCancelId();
      UnderwayAppend(log, Committed(session.rowStatus, session.rowKey), statements, query.Ctas());
    }
    outcome := OnConnection(settings, statements, query, session);
  }

  /** A stop that keeps back no last statement keeps back none. */
  lemma EndsWellGoesThrough(settings: Settings, plan: seq<Statement>, ctas: Option<CtasMethod>,
                          world: World, limit: Option<nat>)
    ensures EndsWell(settings, plan, ctas, world, limit) <==>
      plan != [] && FinishesWell(settings, world) && GoThrough(settings, world, plan, limit, ctas.Some?, |plan|)
  {
    if EndsWell(settings, plan, ctas, world, limit) {
      forall i | 0 <= i < |plan|
        ensures GoesThrough(settings, world, plan, limit, ctas.Some?, i)
      {
        if SeenBefore(settings, world, i) {
          SeenBeforeGrows(settings, world, i, |plan| - 1);
        }
      }
    }
    if plan != [] && GoThrough(settings, world, plan, limit, ctas.Some?, |plan|) {
      assert GoesThrough(settings, world, plan, limit, ctas.Some?, |plan| - 1);
      forall i | 0 <= i < |plan|
        ensures Delivers(settings, world, plan, LimitAt(settings, limit, plan, i), ctas.Some?, i)
      {
        assert GoesThrough(settings, world, plan, limit, ctas.Some?, i);
      }
    }
  }

  /** Everything that happens on the shared connection, and after it. */
  method OnConnection(settings: Settings, statements: seq<Statement>, query: Query, session: Session)
    returns (outcome: Outcome)
    requires DueAt(settings, session, 0) && session.rowKey == None
    requires !query.selectAsCtaUsed && CtasFits(query, statements)
    requires Underway(session.log, statements, query.Ctas()) && Sends(session.log) == [] && !SawStop(session.log)
    modifies query, session`log, session`seen, session`rowStatus, session`rowKey
    ensures Lawful(session.log, statements, query.Ctas())
    ensures TextsFit(settings, old(query.limit), query.Ctas(), statements, Sends(session.log))
    ensures Sends(session.log) != [] ==> !SeenBefore(settings, session.world, |Sends(session.log)| - 1)
    ensures outcome.Returned? && session.rowStatus == Success <==>
      EndsWell(settings, statements, query.Ctas(), session.world, old(query.limit))
    ensures outcome.Returned? ==> LegalEnd(settings, statements, query, old(query.limit), session, outcome.payload)
  {
    var result := RunStatements(settings, statements, query, session);
    UnderwayIsLawful(session.log, statements, query.Ctas());
    EndsWellGoesThrough(settings, statements, query.Ctas(), session.world, old(query.limit));
    match result
    case Ended(payload) => outcome := Returned(payload);
    case Completed(rows) => outcome := Finish(settings, statements, rows, query, session);
  }

  /** How a run that returned, and did not raise, must look: either it stopped or failed on the way
      and committed nothing, or everything ran and success was the last thing written. */
  ghost predicate LegalEnd(settings: Settings, plan: seq<Statement>, query: Query, limit: Option<nat>,
                           session: Session, payload: Payload)
    reads session`log, session`rowStatus, session`rowKey, session`seen, session`cancelSince
  {
    if payload in {StoppedPayload, FailedPayload} then
      !Committing(session.log) && session.rowStatus != Success
    else
      && plan != [] && session.rowStatus == Success
      && var rows := RowsAfter(settings, session.world, plan, limit, query.selectAsCta, |plan|);
         && payload == (if settings.returnsResults then Rows(rows) else NoPayload)
         && SucceededWith(settings, |plan|, rows, session)
  }

  ghost predicate LegalRun(settings: Settings, parsed: seq<Statement>, whole: Statement, query: Query,
                           limit: Option<nat>, session: Session, payload: Payload)
    reads session`log, session`rowStatus, session`rowKey, session`seen, session`cancelSince
  {
    && LegalEnd(settings, Plan(settings, parsed, whole), query, limit, session, payload)
    && (query.selectAsCta ==> parsed != [] && parsed[|parsed| - 1].kind == Select)
  }

  /** The worker: a run that raised is recorded as failed. Success is recorded exactly when all is
      well, and nothing is sent that is refreshed after a stop. */
  method GetSqlResults(settings: Settings, parsed: seq<Statement>, whole: Statement, query: Query, session: Session)
    returns (payload: Payload)
    requires session.log == [] && session.Moment() == 0 && session.cancelSince == None
    requires session.rowStatus != Success && session.rowKey == None && !query.selectAsCtaUsed
    modifies query, session`log, session`seen, session`rowStatus, session`rowKey, session`cancelSince
    ensures Lawful(session.log, Plan(settings, parsed, whole), query.Ctas())
    ensures session.rowStatus == Success <==>
      AllWell(settings, parsed, whole, query.Ctas(), session.world, old(query.limit))
    ensures session.rowStatus == Success <==> payload.Rows? || payload.NoPayload?
    ensures session.rowStatus == Success ==>
      LegalRun(settings, parsed, whole, query, old(query.limit), session, payload)
    ensures TextsFit(settings, old(query.limit), query.Ctas(), Plan(settings, parsed, whole), Sends(session.log))
    ensures SentInOrder(settings, parsed, whole, Sends(session.log))
    ensures Sends(session.log) != [] ==> !SeenBefore(settings, session.world, |Sends(session.log)| - 1)
  {
    var outcome := ExecuteSqlStatements(settings, parsed, whole, query, session);
    match outcome {
      case Returned(p) => payload := p;
      case Raised =>
        RecordFailure(query, session, Plan(settings, parsed, whole));
        payload := FailedPayload;
    }
    assert SentInOrder(settings, parsed, whole, Sends(session.log)) by {
      PlanInOrder(settings, parsed, whole, old(query.limit), query.Ctas(), Sends(session.log));
    }
  }

  /** What the worker does with an exception. */
  method RecordFailure(query: Query, session: Session, ghost plan: seq<Statement>)
    requires Lawful(session.log, plan, query.Ctas())
    modifies query, session`log, session`seen, session`rowStatus, session`rowKey
    ensures Lawful(session.log, plan, query.Ctas()) && Sends(session.log) == Sends(old(session.log))
    ensures session.rowStatus == Failed
  {
    ghost var log := session.log;
    HandleQueryError(query, session);
    FinalEffect(log, Committed(Failed, session.rowKey), plan, query.Ctas());
  }

  method HandleQueryError(query: Query, session: Session)
    modifies query, session`log, session`seen, session`rowStatus, session`rowKey
    ensures session.rowStatus == query.status == Failed && query.tmpTableName == None
    ensures session.rowKey == old(session.rowKey)
    ensures session.log == old(session.log) + [Committed(Failed, session.rowKey)]
    ensures unchanged(query`limit) && unchanged(query`notLimited)
    ensures unchanged(query`selectAsCtaUsed) && unchanged(query`resultsKey)
  {
    query.status, query.tmpTableName := Failed, None;
    session.Commit(Some(Failed), None);
  }

  /** A stop view that read the row before success was written, and while no other stop was in it,
      writes it after that, before moment `until`. */
  ghost predicate StoppedLate(settings: Settings, world: World, plan: seq<Statement>, until: nat) {
    exists stop ::
      && stop in world.stops && Cancels(stop, Since(settings))
      && stop.check <= RefreshAt(settings, |plan|) < stop.write < until
      && !StopIn(world, Since(settings), stop.check)
  }

  /** The run and the stop views still at work after it: success stays exactly when all is well and
      no view that read the query as running writes late. */
  method RunAndSettle(settings: Settings, parsed: seq<Statement>, whole: Statement, query: Query, session: Session,
                      until: nat)
    returns (payload: Payload)
    requires session.log == [] && session.Moment() == 0 && session.cancelSince == None
    requires session.rowStatus != Success && session.rowKey == None && !query.selectAsCtaUsed
    modifies query, session`log, session`seen, session`rowStatus, session`rowKey, session`cancelSince
    ensures session.rowStatus == Success <==>
      && AllWell(settings, parsed, whole, query.Ctas(), session.world, old(query.limit))
      && !StoppedLate(settings, session.world, Plan(settings, parsed, whole), until)
    ensures AllWell(settings, parsed, whole, query.Ctas(), session.world, old(query.limit)) ==>
      session.rowStatus in {Success, Stopped} && (payload.Rows? || payload.NoPayload?)
  {
    payload := GetSqlResults(settings, parsed, whole, query, session);
    ghost var seen, world, plan := session.seen, session.world, Plan(settings, parsed, whole);
    if session.rowStatus == Success {
      LateExactly(settings, world, plan, seen);
    }
    session.Settle(until);
  }

  /** A stop view writes late exactly when what it read was written by no other. */
  lemma LateExactly(settings: Settings, world: World, plan: seq<Statement>, seen: seq<Status>)
    requires OnlyStopped(world, Since(settings), seen) && |seen| == RefreshAt(settings, |plan|) + 1
    ensures forall stop :: WritesLate(stop, Since(settings), seen) <==>
      && Cancels(stop, Since(settings)) && stop.check <= RefreshAt(settings, |plan|) < stop.write
      && !StopIn(world, Since(settings), stop.check)
  {
  }

  lemma TwoStatements(settings: Settings, parsed: seq<Statement>, statement: Statement, world: World)
    requires statement == Statement("SELECT 1", Select) && parsed == [statement, statement]
    requires settings == Settings(Engine(ForceLimit, 0), false, false, false, false,
                                  settings.cancellable, false, true, false)
    requires world == World(world.stops, true, [Answered([["1"]]), Answered([["1"]])], Fine, 0)
    ensures Plan(settings, parsed, statement) == parsed
    ensures AllWell(settings, parsed, statement, None, world.(stops := {}), None)
  {
    NonEmptyTwice(statement);
    assert LimitAt(settings, None, parsed, 0) == LimitAt(settings, None, parsed, 1) == None;
    assert Deliver(settings.engine, None, true, [["1"]]).Some?;
    assert forall i | 0 <= i < 2 :: Delivers(settings, world.(stops := {}), parsed, None, false, i);
  }

  lemma NonEmptyTwice(statement: Statement)
    requires statement.text != ""
    ensures NonEmpty([statement, statement]) == [statement, statement]
  {
    assert [statement, statement][..1] == [statement] && [statement][..0] == [];
    assert NonEmpty([]) == [] && NonEmpty([statement]) == [statement];
  }

  /** Two SELECTs and one stop: the last refresh is at moment 5, success is written at moment 8. With
      cancel ids a stop counts if it reads the row from moment 2 on, and then either writes up to moment
      5 or, having read up to moment 8, after it. */
  method OneStop(cancellable: bool, check: nat, write: nat) returns (done: Status, status: Status)
    requires check <= write
    ensures done == Success <==> !(cancellable && 2 <= check && write <= 5)
    ensures status == Success <==> !(cancellable && 2 <= check && (write <= 5 || check <= 8 < write))
  {
    var statement := Statement("SELECT 1", Select);
    var settings := Settings(Engine(ForceLimit, 0), false, false, false, false, cancellable, false, true, false);
    var stop := Stop(check, write, true);
    var world := World({stop}, true, [Answered([["1"]]), Answered([["1"]])], Fine, 0);
    var session := new Session(world, Pending);
    var query := new Query(false, CreateTable, None, None);
    var parsed := [statement, statement];
    TwoStatements(settings, parsed, statement, world);
    StopDecides(settings, parsed, statement, None, world, None);
    assert stop in world.stops;
    var _ := GetSqlResults(settings, parsed, statement, query, session);
    done := session.rowStatus;
    session.Settle(write + 1);
    status := session.rowStatus;
  }
}

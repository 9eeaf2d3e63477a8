/** How many rows a SQL Lab statement brings back: the limit is raised by one to see whether more
    rows exist, and the extra row is dropped again. */
module RowLimit {
  import opened Options

  datatype LimitMethod = ForceLimit | WrapSql | FetchMany

  /** `maxRow` is zero when no overall maximum is configured. */
  datatype Engine = Engine(limitMethod: LimitMethod, maxRow: nat)

  predicate Truthy(limit: Option<nat>) {
    limit.Some? && limit.value > 0
  }

  /** The limit put into the SQL text; `LimitIsNone` is the text `LIMIT None`. */
  datatype SqlLimit = Unlimited | LimitTo(n: nat) | LimitIsNone

  /** One more than the limit as it stands before the overall maximum is applied. */
  function Increased(limit: Option<nat>): Option<nat> {
    if limit.None? then None else Some(limit.value + 1)
  }

  /** The limit after the overall maximum; `applies` holds for a SELECT that is not exempt. */
  function Capped(engine: Engine, limit: Option<nat>, applies: bool): Option<nat> {
    if applies && engine.maxRow > 0 && (!Truthy(limit) || limit.value > engine.maxRow)
    then Some(engine.maxRow) else limit
  }

  function InSql(engine: Engine, limit: Option<nat>, applies: bool): SqlLimit {
    if !applies || !Truthy(Capped(engine, limit, applies)) || engine.limitMethod == FetchMany then Unlimited
    else if limit.Some? then LimitTo(limit.value + 1)
    else if engine.limitMethod == ForceLimit then LimitIsNone
    else Unlimited
  }

  function First<T>(rows: seq<T>, n: nat): seq<T> {
    if |rows| <= n then rows else rows[..n]
  }

  /** What the cursor hands over, when the database accepts the text. */
  function Fetched<T>(engine: Engine, limit: Option<nat>, applies: bool, rows: seq<T>): Option<seq<T>> {
    var sql := InSql(engine, limit, applies);
    if sql == LimitIsNone then None
    else
      var selected := if sql.LimitTo? then First(rows, sql.n) else rows;
      Some(if engine.limitMethod == FetchMany && limit.Some? then First(selected, limit.value + 1) else selected)
  }

  datatype Delivery<T> = Delivery(rows: seq<T>, notLimited: bool)

  function Deliver<T>(engine: Engine, limit: Option<nat>, applies: bool, rows: seq<T>): Option<Delivery<T>> {
    var data := Fetched(engine, limit, applies, rows);
    var capped := Capped(engine, limit, applies);
    if data.None? then None
    else if capped.None? || |data.value| <= capped.value then Some(Delivery(data.value, true))
    else Some(Delivery(data.value[..|data.value| - 1], false))
  }

  /** Exactly the first rows up to the limit in force, flagged as not limited if and only if that
      is all there is. */
  predicate Exact<T(==)>(engine: Engine, limit: Option<nat>, rows: seq<T>) {
    var capped := Capped(engine, limit, true);
    Deliver(engine, limit, true, rows) ==
      if capped.None? then Some(Delivery(rows, true))
      else Some(Delivery(First(rows, capped.value), |rows| <= capped.value))
  }

  /** The limits for which the raised limit and the limit in force agree. */
  predicate InStep(engine: Engine, limit: Option<nat>) {
    if engine.maxRow > 0 then limit.Some? && 0 < limit.value <= engine.maxRow
    else limit.None? || limit.value > 0 || engine.limitMethod == FetchMany
  }

  lemma ExactWhenInStep<T>(engine: Engine, limit: Option<nat>, rows: seq<T>)
    requires InStep(engine, limit)
    ensures Exact(engine, limit, rows)
  {
    if limit.Some? && |rows| > limit.value {
      assert rows[..limit.value + 1][..limit.value] == rows[..limit.value];
    }
  }

  /** What a statement brings back for any limit. Nothing but a forced limit that is missing under an
      overall maximum fails; of the rows that were asked for, the last is dropped exactly when they are
      more than the limit in force. */
  lemma DeliveredExactly<T>(engine: Engine, limit: Option<nat>, applies: bool, rows: seq<T>)
    ensures Deliver(engine, limit, applies, rows).None? <==>
      applies && limit.None? && engine.maxRow > 0 && engine.limitMethod == ForceLimit
    ensures Deliver(engine, limit, applies, rows).Some? ==>
      var asked := if limit.None? || |rows| <= limit.value then |rows|
                   else if engine.limitMethod == FetchMany then limit.value + 1
                   else if applies && (limit.value > 0 || engine.maxRow > 0) then limit.value + 1
                   else |rows|;
      var capped := applies && engine.maxRow > 0 && (limit.None? || limit.value == 0 || limit.value > engine.maxRow);
      var inForce := if capped then engine.maxRow else if limit.Some? then limit.value else asked;
      Deliver(engine, limit, applies, rows).value ==
        Delivery(rows[..if asked <= inForce then asked else asked - 1], asked <= inForce)
  {
    assert rows[..|rows|] == rows;
    if limit.Some? && |rows| > limit.value {
      var first := rows[..limit.value + 1];
      assert first[..limit.value] == rows[..limit.value];
    }
  }

  /** The limit in the text: one more than the query's, for a SELECT that is not exempt on an engine
      that takes its limit from the text. */
  lemma LimitInText(engine: Engine, limit: Option<nat>, applies: bool)
    ensures InSql(engine, limit, applies).LimitTo? <==>
      && applies && engine.limitMethod != FetchMany && limit.Some? && (limit.value > 0 || engine.maxRow > 0)
    ensures InSql(engine, limit, applies).LimitTo? ==> InSql(engine, limit, applies).n == limit.value + 1
    ensures InSql(engine, limit, applies).LimitIsNone? <==>
      applies && engine.limitMethod == ForceLimit && limit.None? && engine.maxRow > 0
  {
  }

  /** A result set that shows the disagreement. */
  function Witness(engine: Engine): seq<nat> {
    seq(engine.maxRow + 2, i => i)
  }

  lemma InexactOtherwise(engine: Engine, limit: Option<nat>)
    requires !InStep(engine, limit)
    ensures !Exact(engine, limit, Witness(engine))
  {
    var rows := Witness(engine);
    var d := Deliver(engine, limit, true, rows);
    var capped := Capped(engine, limit, true);
    assert capped == Some(engine.maxRow);
    assert First(rows, engine.maxRow) == rows[..engine.maxRow];
    assert d.Some? ==> d.value.notLimited || |d.value.rows| == engine.maxRow + 1;
  }

  /** Row limiting of a SELECT is exact for every result set if and only if the limit is in step:
      positive and at most the overall maximum, when there is one. */
  lemma RowLimitExactly(engine: Engine, limit: Option<nat>)
    ensures InStep(engine, limit) <==> forall rows: seq<nat> :: Exact(engine, limit, rows)
  {
    if InStep(engine, limit) {
      forall rows: seq<nat>
        ensures Exact(engine, limit, rows)
      {
        ExactWhenInStep(engine, limit, rows);
      }
    } else {
      InexactOtherwise(engine, limit);
    }
  }
}

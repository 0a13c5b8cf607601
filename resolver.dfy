/**
 * getAccumulator: the plan-build-time choice of an accumulator factory for one aggregate call, by aggregate kind
 * and declared result type, with the FILTER wrap applied outermost. Failures are values of BuildError.
 */
module Resolver {
  import opened Values
  import opened UdaOps
  import opened AccumSpec

  /** The aggregate function of a call, as far as getAccumulator tells them apart. */
  datatype AggKind = Count | Sum | Sum0 | Min | Max | Avg | OtherAgg

  /** The SqlTypeName of the call's declared type, as far as the dispatch tells them apart. */
  datatype SqlType = Integer | Bigint | Decimal | Boolean | Double | Real | Float | OtherType

  /** An AggregateCall: its aggregate, argument list, filter argument (-1 when absent) and result type. */
  datatype AggregateCall = AggregateCall(kind: AggKind, argList: seq<nat>, filterArg: int, sqlType: SqlType)

  datatype BuildError =
    | ArityNotOne   // UnsupportedOperationException: "aggregate must have precisely one argument"
    | OutsideModel  // a factory this model leaves out: floating point, AVG, generated code

  predicate IsFloating(t: SqlType) {
    t.Double? || t.Real? || t.Float?
  }

  /** The SUM / SUM0 table by declared type; DoubleSum (no table here) for the floating types. */
  function SumTable(t: SqlType): Option<Op> {
    match t
    case Double | Real | Float => None
    case Decimal => Some(BigDecimalSum)
    case Integer => Some(IntSum)
    case _ => Some(LongSum)
  }

  /** The MIN table by declared type; MinFloat and MinDouble (no table here) for the floating types. */
  function MinTable(t: SqlType): Option<Op> {
    match t
    case Integer => Some(MinInt)
    case Float | Double | Real => None
    case Decimal => Some(MinBigDecimal)
    case Boolean => Some(MinBoolean)
    case _ => Some(MinLong)
  }

  /** The MAX table by declared type; BOOLEAN has no case of its own and falls to MaxLong. */
  function MaxTable(t: SqlType): Option<Op> {
    match t
    case Integer => Some(MaxInt)
    case Float | Double | Real => None
    case Decimal => Some(MaxBigDecimal)
    case _ => Some(MaxLong)
  }

  /**
   * new UdaAccumulatorFactory(table, call, nullIfEmpty): the constructor rejects every argument list whose size
   * is not one before anything else; a floating-point table would be built here but is not modelled.
   */
  function NewUdaFactory(table: Option<Op>, call: AggregateCall, nullIfEmpty: bool): (r: Result<BaseFactory, BuildError>)
    ensures r.Err? <==> |call.argList| != 1 || table.None?
    ensures r.Err? && |call.argList| != 1 ==> r.error == ArityNotOne
    ensures r.Err? && |call.argList| == 1 ==> r.error == OutsideModel
    ensures r.Ok? ==> r.value == UdaFactory(UdaConfig(table.value, call.argList[0], nullIfEmpty))
  {
    if |call.argList| != 1 then Err(ArityNotOne)
    else if table.None? then Err(OutsideModel)
    else Ok(UdaFactory(UdaConfig(table.value, call.argList[0], nullIfEmpty)))
  }

  /**
   * getAccumulator(call, ignoreFilter): a FILTER factory exactly when the call has a filter argument that is not
   * ignored; COUNT always resolves; AVG and the generated-code aggregates are outside this model.
   */
  function GetAccumulator(call: AggregateCall, ignoreFilter: bool): (r: Result<Factory, BuildError>)
    ensures r.Ok? ==> (r.value.Filtered? <==> call.filterArg >= 0 && !ignoreFilter)
    ensures r.Ok? && r.value.Filtered? ==> r.value.filterArg == call.filterArg
    ensures call.kind == Count ==> r.Ok? && r.value.base == CountFactory(call.argList)
    ensures call.kind == Avg || call.kind == OtherAgg ==> r == Err(OutsideModel)
    decreases if ignoreFilter then 0 else 1
  {
    if call.filterArg >= 0 && !ignoreFilter then
      match GetAccumulator(call, true)
      case Err(e) => Err(e)
      case Ok(f) => Ok(Filtered(f.base, call.filterArg as nat))
    else
      match call.kind
      case Count => Ok(Plain(CountFactory(call.argList)))
      case Sum => Lift(NewUdaFactory(SumTable(call.sqlType), call, true))
      case Sum0 => Lift(NewUdaFactory(SumTable(call.sqlType), call, false))
      case Min => Lift(NewUdaFactory(MinTable(call.sqlType), call, true))
      case Max => Lift(NewUdaFactory(MaxTable(call.sqlType), call, true))
      case Avg | OtherAgg => Err(OutsideModel)
  }

  function Lift(r: Result<BaseFactory, BuildError>): Result<Factory, BuildError> {
    match r
    case Ok(b) => Ok(Plain(b))
    case Err(e) => Err(e)
  }

  /**
   * The FILTER wrap is applied exactly once and outermost: with ignoreFilter the factory is never a filter; with a
   * filter argument the result is the unfiltered factory wrapped with that argument (or the same failure); without
   * one it is the unfiltered factory itself.
   */
  lemma FilterWrappedOnce(call: AggregateCall)
    ensures GetAccumulator(call, true).Ok? ==> GetAccumulator(call, true).value.Plain?
    ensures call.filterArg >= 0 ==>
      match GetAccumulator(call, true)
      case Ok(f) => GetAccumulator(call, false) == Ok(Filtered(f.base, call.filterArg as nat))
      case Err(e) => GetAccumulator(call, false) == Err(e)
    ensures call.filterArg < 0 ==> GetAccumulator(call, false) == GetAccumulator(call, true)
  {
  }

  /**
   * SUM, SUM0, MIN and MAX fail at factory-build time exactly when the argument list does not have one element;
   * a failure of this kind never depends on the rows.
   */
  lemma TableAggregateArity(call: AggregateCall, ignoreFilter: bool)
    requires call.kind in {Sum, Sum0, Min, Max}
    ensures GetAccumulator(call, ignoreFilter) == Err(ArityNotOne) <==> |call.argList| != 1
  {
  }

  /** COUNT always resolves, to a count over the call's whole argument list, whatever its size. */
  lemma CountAlwaysResolves(call: AggregateCall)
    requires call.kind == Count
    ensures GetAccumulator(call, true) == Ok(Plain(CountFactory(call.argList)))
  {
  }

  /**
   * A resolved table factory reads the call's one argument, uses the table of the declared type, and has
   * nullIfEmpty set for SUM, MIN and MAX and clear for SUM0.
   */
  lemma TableFactoryShape(call: AggregateCall, ignoreFilter: bool)
    requires call.kind in {Sum, Sum0, Min, Max}
    requires GetAccumulator(call, ignoreFilter).Ok?
    ensures GetAccumulator(call, ignoreFilter).value.base.UdaFactory?
    ensures var u := GetAccumulator(call, ignoreFilter).value.base.uda;
      && |call.argList| == 1 && u.argOrdinal == call.argList[0]
      && (u.nullIfEmpty <==> call.kind != Sum0)
      && Some(u.op) == (match call.kind
                        case Sum | Sum0 => SumTable(call.sqlType)
                        case Min => MinTable(call.sqlType)
                        case Max => MaxTable(call.sqlType))
  {
    FilterWrappedOnce(call);
  }

  /**
   * MAX over a BOOLEAN result type resolves to MaxLong, whose add cannot take a Boolean: every non-null argument
   * such a call receives makes the reflective call throw.
   */
  lemma MaxBooleanFallsToLong(call: AggregateCall, b: bool)
    requires call.kind == Max && call.sqlType == Boolean && |call.argList| == 1 && call.filterArg < 0
    ensures GetAccumulator(call, false) == Ok(Plain(UdaFactory(UdaConfig(MaxLong, call.argList[0], true))))
    ensures !Accepts(MaxLong, Bool(b))
  {
  }

  /** The constructor's loop over the aggregate calls: all factories in call order, or the first failure. */
  function ResolveAll(calls: seq<AggregateCall>): (r: Result<seq<Factory>, BuildError>)
    ensures r.Ok? ==> |r.value| == |calls|
    ensures r.Ok? <==> forall i :: 0 <= i < |calls| ==> GetAccumulator(calls[i], false).Ok?
    ensures r.Ok? ==> forall i :: 0 <= i < |calls| ==> r.value[i] == GetAccumulator(calls[i], false).value
    ensures r.Err? ==> exists i :: 0 <= i < |calls| && GetAccumulator(calls[i], false) == Err(r.error)
                                   && forall j :: 0 <= j < i ==> GetAccumulator(calls[j], false).Ok?
  {
    if calls == [] then Ok([])
    else
      match GetAccumulator(calls[0], false)
      case Err(e) => Err(e)
      case Ok(f) =>
        match ResolveAll(calls[1..])
        case Err(e) =>
          var i :| 0 <= i < |calls[1..]| && GetAccumulator(calls[1..][i], false) == Err(e)
                   && forall j :: 0 <= j < i ==> GetAccumulator(calls[1..][j], false).Ok?;
          assert GetAccumulator(calls[i + 1], false) == Err(e);
          assert forall j :: 0 <= j < i + 1 ==> GetAccumulator(calls[j], false).Ok? by {
            forall j | 0 <= j < i + 1 ensures GetAccumulator(calls[j], false).Ok? {
              if j > 0 {
                assert calls[j] == calls[1..][j - 1];
              }
            }
          }
          Err(e)
        case Ok(fs) =>
          assert forall i :: 0 <= i < |calls| - 1 ==> calls[1..][i] == calls[i + 1];
          Ok([f] + fs)
  }
}

/**
 * The accumulator objects: CountAccumulator, UdaAccumulator and the FilterAccumulator decorator. Each send
 * updates the object's fields in place and is proved to take the step AccumSpec.Step describes; end() is proved
 * to return AccumSpec.Finish of the current fields. The Java Accumulator interface becomes the datatypes BaseAcc
 * (what a FilterAccumulator can wrap) and Acc, with SendAcc / EndAcc dispatching on the variant.
 */
module Accumulators {
  import opened Values
  import opened UdaOps
  import opened AccumSpec

  /** Counts the rows whose argument columns are all non-null; with no arguments (COUNT(*)) it counts every row. */
  class CountAccumulator {
    const args: seq<nat>
    var cnt: int64

    constructor (args: seq<nat>)
      ensures this.args == args && cnt == 0
    {
      this.args := args;
      cnt := 0;
    }

    method Send(row: Row)
      requires ArgsWithin(args, row)
      modifies this
      ensures CountState(cnt) == BaseStep(CountFactory(args), CountState(old(cnt)), row)
    {
      var notNull := true;
      var k := 0;
      while k < |args|
        invariant 0 <= k <= |args|
        invariant notNull
        invariant forall j :: 0 <= j < k ==> row[args[j]] != Null
      {
        if row[args[k]] == Null {
          notNull := false;
          break;
        }
        k := k + 1;
      }
      if notNull {
        cnt := Wrap64(cnt + 1);
      }
    }

    method End() returns (r: Value)
      ensures r == BaseFinish(CountFactory(args), CountState(cnt))
    {
      r := I64(cnt);
    }
  }

  /** The accumulator a UdaAccumulatorFactory builds: value and empty, driven by the factory's table. */
  class UdaAccumulator {
    const factory: UdaConfig
    var value: Value
    var empty: bool

    ghost predicate Valid()
      reads this
    {
      StateTyped(factory.op, value)
    }

    constructor (factory: UdaConfig)
      ensures Valid() && this.factory == factory
      ensures UdaState(value, empty) == Initial(Plain(UdaFactory(factory)))
    {
      this.factory := factory;
      value := Init(factory.op);
      empty := true;
    }

    method Send(row: Row)
      requires Valid() && BaseFits(UdaFactory(factory), row)
      modifies this
      ensures Valid()
      ensures UdaState(value, empty) == BaseStep(UdaFactory(factory), old(UdaState(value, empty)), row)
    {
      var v := row[factory.argOrdinal];
      if v == Null {
        return;
      }
      value := Add(factory.op, value, v);
      empty := false;
    }

    method End() returns (r: Value)
      requires Valid()
      ensures r == BaseFinish(UdaFactory(factory), UdaState(value, empty))
    {
      if factory.nullIfEmpty && empty {
        return Null;
      }
      r := UdaOps.Result(factory.op, value);
    }
  }

  /** An accumulator that a FilterAccumulator can wrap: what an unfiltered factory builds. */
  datatype BaseAcc = CountAcc(count: CountAccumulator) | UdaAcc(uda: UdaAccumulator)

  /** The one object whose fields the accumulator changes. */
  function BaseHolder(a: BaseAcc): object {
    match a
    case CountAcc(c) => c
    case UdaAcc(u) => u
  }

  function BaseFactoryOf(a: BaseAcc): BaseFactory {
    match a
    case CountAcc(c) => CountFactory(c.args)
    case UdaAcc(u) => UdaFactory(u.factory)
  }

  ghost predicate BaseValid(a: BaseAcc)
    reads BaseHolder(a)
  {
    match a
    case CountAcc(_) => true
    case UdaAcc(u) => u.Valid()
  }

  /** The accumulator's fields as a State. */
  ghost function BaseView(a: BaseAcc): (s: State)
    reads BaseHolder(a)
    ensures BaseValid(a) ==> BaseTyped(BaseFactoryOf(a), s)
  {
    match a
    case CountAcc(c) => CountState(c.cnt)
    case UdaAcc(u) => UdaState(u.value, u.empty)
  }

  method SendBase(a: BaseAcc, row: Row)
    requires BaseValid(a) && BaseFits(BaseFactoryOf(a), row)
    modifies BaseHolder(a)
    ensures BaseValid(a)
    ensures BaseView(a) == BaseStep(BaseFactoryOf(a), old(BaseView(a)), row)
  {
    match a
    case CountAcc(c) => c.Send(row);
    case UdaAcc(u) => u.Send(row);
  }

  method EndBase(a: BaseAcc) returns (r: Value)
    requires BaseValid(a)
    ensures r == BaseFinish(BaseFactoryOf(a), BaseView(a))
  {
    match a
    case CountAcc(c) => r := c.End();
    case UdaAcc(u) => r := u.End();
  }

  /** Applies a FILTER clause: the wrapped accumulator sees only rows whose column filterArg holds TRUE. */
  class FilterAccumulator {
    const accumulator: BaseAcc
    const filterArg: nat

    constructor (accumulator: BaseAcc, filterArg: nat)
      ensures this.accumulator == accumulator && this.filterArg == filterArg
    {
      this.accumulator := accumulator;
      this.filterArg := filterArg;
    }

    method Send(row: Row)
      requires BaseValid(accumulator) && Fits(Filtered(BaseFactoryOf(accumulator), filterArg), row)
      modifies BaseHolder(accumulator)
      ensures BaseValid(accumulator)
      ensures BaseView(accumulator)
              == Step(Filtered(BaseFactoryOf(accumulator), filterArg), old(BaseView(accumulator)), row)
    {
      if row[filterArg] == Bool(true) {
        SendBase(accumulator, row);
      }
    }

    method End() returns (r: Value)
      requires BaseValid(accumulator)
      ensures r == Finish(Filtered(BaseFactoryOf(accumulator), filterArg), BaseView(accumulator))
    {
      r := EndBase(accumulator);
    }
  }

  /** Any accumulator an AccumulatorFactory builds. */
  datatype Acc = PlainAcc(base: BaseAcc) | FilterAcc(filter: FilterAccumulator)

  /**
   * The one object whose fields the accumulator changes; a FilterAccumulator has only constant fields, so for it
   * this is the accumulator it wraps.
   */
  function Holder(a: Acc): object {
    match a
    case PlainAcc(b) => BaseHolder(b)
    case FilterAcc(f) => BaseHolder(f.accumulator)
  }

  /** The factory that builds accumulators like a. */
  function FactoryOf(a: Acc): Factory {
    match a
    case PlainAcc(b) => Plain(BaseFactoryOf(b))
    case FilterAcc(f) => Filtered(BaseFactoryOf(f.accumulator), f.filterArg)
  }

  function FactoriesOf(accs: seq<Acc>): (fs: seq<Factory>)
    ensures |fs| == |accs| && forall i :: 0 <= i < |accs| ==> fs[i] == FactoryOf(accs[i])
  {
    seq(|accs|, i requires 0 <= i < |accs| => FactoryOf(accs[i]))
  }

  ghost predicate Valid(a: Acc)
    reads Holder(a)
  {
    match a
    case PlainAcc(b) => BaseValid(b)
    case FilterAcc(f) => BaseValid(f.accumulator)
  }

  /** The accumulator's mutable fields; a FilterAccumulator's are those of the accumulator it wraps. */
  ghost function View(a: Acc): (s: State)
    reads Holder(a)
    ensures Valid(a) ==> Typed(FactoryOf(a), s)
  {
    match a
    case PlainAcc(b) => BaseView(b)
    case FilterAcc(f) => BaseView(f.accumulator)
  }

  /** Accumulator.send. */
  method SendAcc(a: Acc, row: Row)
    requires Valid(a) && Fits(FactoryOf(a), row)
    modifies Holder(a)
    ensures Valid(a)
    ensures View(a) == Step(FactoryOf(a), old(View(a)), row)
  {
    match a
    case PlainAcc(b) => SendBase(b, row);
    case FilterAcc(f) => f.Send(row);
  }

  /** Accumulator.end. */
  method EndAcc(a: Acc) returns (r: Value)
    requires Valid(a)
    ensures r == Finish(FactoryOf(a), View(a))
  {
    match a
    case PlainAcc(b) => r := EndBase(b);
    case FilterAcc(f) => r := f.End();
  }

  /** AccumulatorFactory.get(): a fresh accumulator in its initial state; a FILTER factory wraps a fresh base one. */
  method NewAccumulator(f: Factory) returns (a: Acc)
    ensures fresh(Holder(a)) && Valid(a)
    ensures FactoryOf(a) == f && View(a) == Initial(f)
  {
    var b: BaseAcc;
    match f.base {
      case CountFactory(args) =>
        var c := new CountAccumulator(args);
        b := CountAcc(c);
      case UdaFactory(u) =>
        var x := new UdaAccumulator(u);
        b := UdaAcc(x);
    }
    match f {
      case Plain(_) =>
        a := PlainAcc(b);
      case Filtered(_, p) =>
        var w := new FilterAccumulator(b, p);
        a := FilterAcc(w);
    }
  }
}

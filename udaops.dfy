/**
 * The user-defined-aggregate tables that SUM, SUM0, MIN and MAX are built from: IntSum, LongSum, BigDecimalSum,
 * the NumericComparison instances MinInt, MinLong, MinBigDecimal, MaxInt, MaxLong, MaxBigDecimal, and MinBoolean.
 * Each is a stateless triple init / add / result; the reflective Method.invoke calls become direct calls here.
 */
module UdaOps {
  import opened Values

  datatype Op =
    | IntSum | LongSum | BigDecimalSum
    | MinInt | MinLong | MinBigDecimal
    | MaxInt | MaxLong | MaxBigDecimal
    | MinBoolean

  predicate IsMin(op: Op) {
    op.MinInt? || op.MinLong? || op.MinBigDecimal?
  }

  predicate IsMax(op: Op) {
    op.MaxInt? || op.MaxLong? || op.MaxBigDecimal?
  }

  /** The Java type of the running value a table keeps (int, long, BigDecimal or Boolean). */
  predicate StateTyped(op: Op, v: Value) {
    match op
    case IntSum | MinInt | MaxInt => v.I32?
    case LongSum | MinLong | MaxLong => v.I64?
    case BigDecimalSum | MinBigDecimal | MaxBigDecimal => v.Dec?
    case MinBoolean => v.Bool?
  }

  /** A boxed Byte, Short, Integer or Long. */
  predicate IsIntegral(v: Value) {
    v.I8? || v.I16? || v.I32? || v.I64?
  }

  /**
   * The non-null argument values that the reflective call of `add` accepts. Method.invoke unboxes and widens, so
   * IntSum.add(int, int) also takes a Byte, a Short or a Character, and LongSum.add(long, long) a Byte, a Short, a
   * Character or an Integer; the comparison tables take Objects (generics are erased) and cast them, so they accept
   * exactly their own box. A Character cell has no Value here, so no modelled row holds one. Anything else makes
   * the call throw.
   */
  predicate Accepts(op: Op, v: Value) {
    match op
    case IntSum => v.I8? || v.I16? || v.I32?
    case LongSum => IsIntegral(v)
    case _ => StateTyped(op, v)
  }

  /** The integral value of a Byte, a Short, an Integer or a Long. */
  function Integral(v: Value): int
    requires IsIntegral(v)
  {
    match v
    case I8(y) => y
    case I16(h) => h
    case I32(i) => i
    case I64(l) => l
  }

  /** The numeric value of an integral box or a BigDecimal. */
  function Num(v: Value): real
    requires IsIntegral(v) || v.Dec?
  {
    if v.Dec? then v.d else Integral(v) as real
  }

  /** init(): 0, 0L, new BigDecimal("0"), the comparison's initial value, or Boolean.TRUE. */
  function Init(op: Op): (r: Value)
    ensures StateTyped(op, r)
    ensures op.IntSum? || op.LongSum? || op.BigDecimalSum? ==> Num(r) == 0.0
    ensures op.MinInt? || op.MaxInt? ==> forall x: int32 :: Add(op, r, I32(x)) == I32(x)
    ensures op.MinLong? || op.MaxLong? ==> forall x: int64 :: Add(op, r, I64(x)) == I64(x)
    ensures op.MinBoolean? ==> forall b: bool :: Add(op, r, Bool(b)) == Bool(b)
  {
    match op
    case IntSum => I32(0)
    case LongSum => I64(0)
    case BigDecimalSum => Dec(0.0)
    case MinInt => I32(INT_MAX)
    case MinLong => I64(LONG_MAX)
    case MinBigDecimal => Dec(DOUBLE_MAX_VALUE)
    case MaxInt => I32(INT_MIN)
    case MaxLong => I64(LONG_MIN)
    case MaxBigDecimal => Dec(DOUBLE_MIN_VALUE)
    case MinBoolean => Bool(true)
  }

  /**
   * add(accumulator, v): int and long addition wrap around; Math.min / Math.max; BigDecimal.min keeps the receiver
   * when compareTo <= 0 and BigDecimal.max when compareTo >= 0; MinBoolean keeps the accumulator when it compares
   * below the value (false < true) and otherwise takes the value.
   */
  function Add(op: Op, acc: Value, v: Value): (r: Value)
    requires StateTyped(op, acc) && Accepts(op, v)
    ensures StateTyped(op, r)
    ensures op.IntSum? ==> (r.i - acc.i - Integral(v)) % TWO_32 == 0
    ensures op.LongSum? ==> (r.l - acc.l - Integral(v)) % TWO_64 == 0
    ensures op.BigDecimalSum? ==> r.d == acc.d + v.d
    ensures !(op.IntSum? || op.LongSum? || op.BigDecimalSum?) ==> r == acc || r == v
    ensures op.MinInt? ==> r.i <= acc.i && r.i <= v.i
    ensures op.MaxInt? ==> r.i >= acc.i && r.i >= v.i
    ensures op.MinLong? ==> r.l <= acc.l && r.l <= v.l
    ensures op.MaxLong? ==> r.l >= acc.l && r.l >= v.l
    ensures op.MinBigDecimal? ==> r.d <= acc.d && r.d <= v.d
    ensures op.MaxBigDecimal? ==> r.d >= acc.d && r.d >= v.d
    ensures op.MinBoolean? ==> (r.b <==> acc.b && v.b)
  {
    match op
    case IntSum => I32(Wrap32(acc.i + Integral(v)))
    case LongSum => I64(Wrap64(acc.l + Integral(v)))
    case BigDecimalSum => Dec(acc.d + v.d)
    case MinInt => if acc.i <= v.i then acc else v
    case MinLong => if acc.l <= v.l then acc else v
    case MinBigDecimal => if acc.d <= v.d then acc else v
    case MaxInt => if acc.i >= v.i then acc else v
    case MaxLong => if acc.l >= v.l then acc else v
    case MaxBigDecimal => if acc.d >= v.d then acc else v
    case MinBoolean => if !acc.b && v.b then acc else v
  }

  /** result(accumulator): every table returns its accumulator unchanged. */
  function Result(op: Op, acc: Value): (r: Value)
    ensures r == acc
    ensures StateTyped(op, acc) ==> StateTyped(op, r)
  {
    acc
  }

  predicate AllAccepted(op: Op, vs: seq<Value>) {
    forall k :: 0 <= k < |vs| ==> Accepts(op, vs[k])
  }

  /** The running value after add has absorbed vs in order, starting from acc. */
  function Fold(op: Op, acc: Value, vs: seq<Value>): (r: Value)
    requires StateTyped(op, acc) && AllAccepted(op, vs)
    ensures StateTyped(op, r)
  {
    if vs == [] then acc
    else Add(op, Fold(op, acc, vs[..|vs| - 1]), vs[|vs| - 1])
  }

  /** Absorbing one more value is one more add. */
  lemma FoldSnoc(op: Op, acc: Value, vs: seq<Value>, x: Value)
    requires StateTyped(op, acc) && AllAccepted(op, vs) && Accepts(op, x)
    ensures AllAccepted(op, vs + [x])
    ensures Fold(op, acc, vs + [x]) == Add(op, Fold(op, acc, vs), x)
  {
    assert (vs + [x])[..|vs|] == vs;
  }

  /**
   * Two adds commute: the running value does not depend on the order two values arrive in. Wrapped int and long
   * sums wrap to the same value, and a comparison that ties keeps a value equal to the other one.
   */
  lemma AddCommutes(op: Op, acc: Value, x: Value, y: Value)
    requires StateTyped(op, acc) && Accepts(op, x) && Accepts(op, y)
    ensures Add(op, Add(op, acc, x), y) == Add(op, Add(op, acc, y), x)
  {
    if op.IntSum? {
      IntSumAddCommutes(acc.i, x, y);
    } else if op.LongSum? {
      LongSumAddCommutes(acc.l, x, y);
    }
  }

  /** The mathematical sum of integral boxes. */
  function IntegralSum(vs: seq<Value>): int
    requires forall k :: 0 <= k < |vs| ==> IsIntegral(vs[k])
  {
    if vs == [] then 0 else IntegralSum(vs[..|vs| - 1]) + Integral(vs[|vs| - 1])
  }

  /** The mathematical sum of BigDecimals. */
  function DecimalSum(vs: seq<Value>): real
    requires forall k :: 0 <= k < |vs| ==> vs[k].Dec?
  {
    if vs == [] then 0.0 else DecimalSum(vs[..|vs| - 1]) + vs[|vs| - 1].d
  }

  /** IntSum: the running value is a + v1 + ... + vn wrapped to an int; Byte and Short arguments count with their value. */
  lemma {:induction false} IntSumFold(a: int32, vs: seq<Value>)
    requires AllAccepted(IntSum, vs)
    ensures Fold(IntSum, I32(a), vs) == I32(Wrap32(a + IntegralSum(vs)))
  {
    if vs != [] {
      var init := vs[..|vs| - 1];
      IntSumFold(a, init);
      Wrap32AddLeft(a + IntegralSum(init), Integral(vs[|vs| - 1]));
    }
  }

  /** LongSum: the running value is a + v1 + ... + vn wrapped to a long; narrower boxes count with their value. */
  lemma {:induction false} LongSumFold(a: int64, vs: seq<Value>)
    requires AllAccepted(LongSum, vs)
    ensures Fold(LongSum, I64(a), vs) == I64(Wrap64(a + IntegralSum(vs)))
  {
    if vs != [] {
      var init := vs[..|vs| - 1];
      LongSumFold(a, init);
      Wrap64AddLeft(a + IntegralSum(init), Integral(vs[|vs| - 1]));
    }
  }

  /** Two IntSum adds give the start plus both values, wrapped once. */
  lemma IntSumTwice(a: int32, x: Value, y: Value)
    requires Accepts(IntSum, x) && Accepts(IntSum, y)
    ensures Add(IntSum, Add(IntSum, I32(a), x), y) == I32(Wrap32(a + Integral(x) + Integral(y)))
  {
    Wrap32AddLeft(a + Integral(x), Integral(y));
  }

  /** Two LongSum adds give the start plus both values, wrapped once. */
  lemma LongSumTwice(a: int64, x: Value, y: Value)
    requires Accepts(LongSum, x) && Accepts(LongSum, y)
    ensures Add(LongSum, Add(LongSum, I64(a), x), y) == I64(Wrap64(a + Integral(x) + Integral(y)))
  {
    Wrap64AddLeft(a + Integral(x), Integral(y));
  }

  /** Two IntSum adds commute. */
  lemma IntSumAddCommutes(a: int32, x: Value, y: Value)
    requires Accepts(IntSum, x) && Accepts(IntSum, y)
    ensures Add(IntSum, Add(IntSum, I32(a), x), y) == Add(IntSum, Add(IntSum, I32(a), y), x)
  {
    IntSumTwice(a, x, y);
    IntSumTwice(a, y, x);
    var b, c := Integral(x), Integral(y);
    assert a + b + c == a + c + b;
  }

  /** Two LongSum adds commute. */
  lemma LongSumAddCommutes(a: int64, x: Value, y: Value)
    requires Accepts(LongSum, x) && Accepts(LongSum, y)
    ensures Add(LongSum, Add(LongSum, I64(a), x), y) == Add(LongSum, Add(LongSum, I64(a), y), x)
  {
    LongSumTwice(a, x, y);
    LongSumTwice(a, y, x);
    var b, c := Integral(x), Integral(y);
    assert a + b + c == a + c + b;
  }

  /** BigDecimalSum: the running value is a + v1 + ... + vn, exactly. */
  lemma {:induction false} BigDecimalSumFold(a: real, vs: seq<Value>)
    requires AllAccepted(BigDecimalSum, vs)
    ensures Fold(BigDecimalSum, Dec(a), vs) == Dec(a + DecimalSum(vs))
  {
    if vs != [] {
      BigDecimalSumFold(a, vs[..|vs| - 1]);
    }
  }

  /** SUM and SUM0 over int or long without overflow: init() plus the values is their exact sum. */
  lemma IntegralSumWithoutOverflow(op: Op, vs: seq<Value>)
    requires op.IntSum? || op.LongSum?
    requires AllAccepted(op, vs)
    requires op.IntSum? ==> INT_MIN <= IntegralSum(vs) <= INT_MAX
    requires op.LongSum? ==> LONG_MIN <= IntegralSum(vs) <= LONG_MAX
    ensures Integral(Fold(op, Init(op), vs)) == IntegralSum(vs)
  {
    if op.IntSum? {
      IntSumFold(0, vs);
    } else {
      LongSumFold(0, vs);
    }
  }

  /** A MIN table's running value is f(...f(acc, v1)..., vn): the least of acc and the values, and one of them. */
  lemma {:induction false} MinFold(op: Op, acc: Value, vs: seq<Value>)
    requires IsMin(op) && StateTyped(op, acc) && AllAccepted(op, vs)
    ensures Num(Fold(op, acc, vs)) <= Num(acc)
    ensures forall k :: 0 <= k < |vs| ==> Num(Fold(op, acc, vs)) <= Num(vs[k])
    ensures Fold(op, acc, vs) == acc || Fold(op, acc, vs) in vs
  {
    if vs != [] {
      var init := vs[..|vs| - 1];
      MinFold(op, acc, init);
      assert forall k :: 0 <= k < |init| ==> vs[k] == init[k];
    }
  }

  /** A MAX table's running value is the greatest of acc and the values, and one of them. */
  lemma {:induction false} MaxFold(op: Op, acc: Value, vs: seq<Value>)
    requires IsMax(op) && StateTyped(op, acc) && AllAccepted(op, vs)
    ensures Num(Fold(op, acc, vs)) >= Num(acc)
    ensures forall k :: 0 <= k < |vs| ==> Num(Fold(op, acc, vs)) >= Num(vs[k])
    ensures Fold(op, acc, vs) == acc || Fold(op, acc, vs) in vs
  {
    if vs != [] {
      var init := vs[..|vs| - 1];
      MaxFold(op, acc, init);
      assert forall k :: 0 <= k < |init| ==> vs[k] == init[k];
    }
  }

  /**
   * MinInt and MinLong start from MAX_VALUE, which no value exceeds, so over a non-empty list they give the
   * smallest value sent.
   */
  lemma MinIntegralIsSmallestSent(op: Op, vs: seq<Value>)
    requires op.MinInt? || op.MinLong?
    requires AllAccepted(op, vs) && vs != []
    ensures Fold(op, Init(op), vs) in vs
    ensures forall k :: 0 <= k < |vs| ==> Num(Fold(op, Init(op), vs)) <= Num(vs[k])
  {
    MinFold(op, Init(op), vs);
    var last := vs[|vs| - 1];
    assert Num(last) <= Num(Init(op));
    if Fold(op, Init(op), vs) == Init(op) {
      assert Num(Fold(op, Init(op), vs)) <= Num(last);
      assert last == Init(op);
    }
  }

  /** MaxInt and MaxLong start from MIN_VALUE, so over a non-empty list they give the largest value sent. */
  lemma MaxIntegralIsLargestSent(op: Op, vs: seq<Value>)
    requires op.MaxInt? || op.MaxLong?
    requires AllAccepted(op, vs) && vs != []
    ensures Fold(op, Init(op), vs) in vs
    ensures forall k :: 0 <= k < |vs| ==> Num(Fold(op, Init(op), vs)) >= Num(vs[k])
  {
    MaxFold(op, Init(op), vs);
    var last := vs[|vs| - 1];
    assert Num(last) >= Num(Init(op));
    if Fold(op, Init(op), vs) == Init(op) {
      assert Num(Fold(op, Init(op), vs)) >= Num(last);
      assert last == Init(op);
    }
  }

  /**
   * MaxBigDecimal starts from new BigDecimal(Double.MIN_VALUE), a tiny positive number, so MAX over negative
   * decimals gives that number instead of the largest value sent.
   */
  lemma MaxBigDecimalOfNegatives(vs: seq<Value>)
    requires AllAccepted(MaxBigDecimal, vs)
    requires forall k :: 0 <= k < |vs| ==> vs[k].d < 0.0
    ensures Fold(MaxBigDecimal, Init(MaxBigDecimal), vs) == Dec(DOUBLE_MIN_VALUE)
  {
    MaxFold(MaxBigDecimal, Init(MaxBigDecimal), vs);
  }

  /**
   * MinBigDecimal starts from new BigDecimal(Double.MAX_VALUE), so MIN over decimals that all exceed it gives
   * Double.MAX_VALUE instead of the smallest value sent.
   */
  lemma MinBigDecimalAboveDoubleRange(vs: seq<Value>)
    requires AllAccepted(MinBigDecimal, vs)
    requires forall k :: 0 <= k < |vs| ==> vs[k].d > DOUBLE_MAX_VALUE
    ensures Fold(MinBigDecimal, Init(MinBigDecimal), vs) == Dec(DOUBLE_MAX_VALUE)
  {
    MinFold(MinBigDecimal, Init(MinBigDecimal), vs);
  }

  /** MinBoolean: starting from b, the running value is FALSE exactly when b is FALSE or some FALSE was sent. */
  lemma {:induction false} MinBooleanFold(b: bool, vs: seq<Value>)
    requires AllAccepted(MinBoolean, vs)
    ensures Fold(MinBoolean, Bool(b), vs) == Bool(b && Bool(false) !in vs)
  {
    if vs != [] {
      var init := vs[..|vs| - 1];
      MinBooleanFold(b, init);
      assert vs == init + [vs[|vs| - 1]];
    }
  }
}

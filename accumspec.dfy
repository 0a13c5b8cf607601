/**
 * What one accumulator does to its fields per row, as values: the factories getAccumulator builds, the fields an
 * accumulator keeps, one send (Step), end (Finish), and many sends in order (Run). The classes in module
 * Accumulators are proved against these functions; the lemmas here state what COUNT, the table accumulators and
 * FILTER compute over a whole group.
 */
module AccumSpec {
  import opened Values
  import opened UdaOps

  /** A UdaAccumulatorFactory whose constructor succeeded: its table, argOrdinal and nullIfEmpty. */
  datatype UdaConfig = UdaConfig(op: Op, argOrdinal: nat, nullIfEmpty: bool)

  /** What getAccumulator(call, true) returns: the COUNT lambda (over the call's argument list) or a table factory. */
  datatype BaseFactory = CountFactory(args: seq<nat>) | UdaFactory(uda: UdaConfig)

  /** An AccumulatorFactory: a base factory, or the FILTER lambda that wraps what base.get() builds. */
  datatype Factory = Plain(base: BaseFactory) | Filtered(base: BaseFactory, filterArg: nat)

  /**
   * The mutable fields of the accumulator a factory builds: CountAccumulator.cnt, or UdaAccumulator.value and
   * empty. A FilterAccumulator has no mutable field of its own; its state is that of the accumulator it wraps.
   */
  datatype State = CountState(cnt: int64) | UdaState(value: Value, empty: bool)

  predicate BaseTyped(b: BaseFactory, s: State) {
    match b
    case CountFactory(_) => s.CountState?
    case UdaFactory(u) => s.UdaState? && StateTyped(u.op, s.value)
  }

  predicate Typed(f: Factory, s: State) {
    BaseTyped(f.base, s)
  }

  predicate ArgsWithin(args: seq<nat>, row: Row) {
    forall k :: 0 <= k < |args| ==> args[k] < |row|
  }

  /** Every column of the argument list is non-null in row. */
  predicate AllNonNull(row: Row, args: seq<nat>)
    requires ArgsWithin(args, row)
  {
    forall k :: 0 <= k < |args| ==> row[args[k]] != Null
  }

  /**
   * The row is one the accumulator can absorb without a Java exception: the positions it reads exist and a
   * non-null argument of a table accumulator has a type the table's add accepts (the plan's typing guarantees it).
   */
  predicate BaseFits(b: BaseFactory, row: Row) {
    match b
    case CountFactory(args) => ArgsWithin(args, row)
    case UdaFactory(u) =>
      u.argOrdinal < |row| && (row[u.argOrdinal] == Null || Accepts(u.op, row[u.argOrdinal]))
  }

  /** A FilterAccumulator reads its filter column and passes on only the rows where it holds TRUE. */
  predicate Fits(f: Factory, row: Row) {
    match f
    case Plain(b) => BaseFits(b, row)
    case Filtered(b, p) => p < |row| && (row[p] == Bool(true) ==> BaseFits(b, row))
  }

  /** The fields of a fresh accumulator: cnt = 0, or value = init() and empty = true. */
  function Initial(f: Factory): (s: State)
    ensures Typed(f, s)
  {
    match f.base
    case CountFactory(_) => CountState(0)
    case UdaFactory(u) => UdaState(Init(u.op), true)
  }

  /**
   * One send to an unfiltered accumulator. COUNT raises cnt (a Java long) when every argument column is non-null;
   * a table accumulator skips a null argument and otherwise takes value := add(value, v) and empty := false.
   */
  function BaseStep(b: BaseFactory, s: State, row: Row): (r: State)
    requires BaseTyped(b, s) && BaseFits(b, row)
    ensures BaseTyped(b, r)
  {
    match b
    case CountFactory(args) =>
      if AllNonNull(row, args) then CountState(Wrap64(s.cnt + 1)) else s
    case UdaFactory(u) =>
      var v := row[u.argOrdinal];
      if v == Null then s else UdaState(Add(u.op, s.value, v), false)
  }

  /** One send; a FilterAccumulator forwards the row only when its filter column holds TRUE. */
  function Step(f: Factory, s: State, row: Row): (r: State)
    requires Typed(f, s) && Fits(f, row)
    ensures Typed(f, r)
  {
    match f
    case Plain(b) => BaseStep(b, s, row)
    case Filtered(b, p) => if row[p] == Bool(true) then BaseStep(b, s, row) else s
  }

  /** end(): cnt, or null when nullIfEmpty holds and nothing was absorbed, else result(value). */
  function BaseFinish(b: BaseFactory, s: State): Value
    requires BaseTyped(b, s)
  {
    match b
    case CountFactory(_) => I64(s.cnt)
    case UdaFactory(u) => if u.nullIfEmpty && s.empty then Null else UdaOps.Result(u.op, s.value)
  }

  /** A FilterAccumulator's end() delegates to the wrapped accumulator unchanged. */
  function Finish(f: Factory, s: State): Value
    requires Typed(f, s)
  {
    BaseFinish(f.base, s)
  }

  predicate AllFit(f: Factory, rows: seq<Row>) {
    forall k :: 0 <= k < |rows| ==> Fits(f, rows[k])
  }

  /** The state after sending rows in order. */
  function Run(f: Factory, s: State, rows: seq<Row>): (r: State)
    requires Typed(f, s) && AllFit(f, rows)
    ensures Typed(f, r)
  {
    if rows == [] then s else Step(f, Run(f, s, rows[..|rows| - 1]), rows[|rows| - 1])
  }

  /** Sending one more row is one more step. */
  lemma RunSnoc(f: Factory, s: State, rows: seq<Row>, row: Row)
    requires Typed(f, s) && AllFit(f, rows) && Fits(f, row)
    ensures AllFit(f, rows + [row])
    ensures Run(f, s, rows + [row]) == Step(f, Run(f, s, rows), row)
  {
    assert (rows + [row])[..|rows|] == rows;
  }

  // ----- COUNT -----

  /** The number of rows whose argument columns are all non-null. */
  function Qualifying(rows: seq<Row>, args: seq<nat>): nat
    requires forall k :: 0 <= k < |rows| ==> ArgsWithin(args, rows[k])
  {
    if rows == [] then 0
    else Qualifying(rows[..|rows| - 1], args) + (if AllNonNull(rows[|rows| - 1], args) then 1 else 0)
  }

  /** COUNT's cnt after a run is its start plus the number of qualifying rows, as a Java long. */
  lemma {:induction false} CountRun(args: seq<nat>, c: int64, rows: seq<Row>)
    requires AllFit(Plain(CountFactory(args)), rows)
    ensures Run(Plain(CountFactory(args)), CountState(c), rows) == CountState(Wrap64(c + Qualifying(rows, args)))
  {
    if rows != [] {
      var init := rows[..|rows| - 1];
      assert AllFit(Plain(CountFactory(args)), init);
      CountRun(args, c, init);
      Wrap64AddLeft(c + Qualifying(init, args), 1);
    }
  }

  /** With an empty argument list (COUNT(*)) every row qualifies. */
  lemma {:induction false} QualifyingWithoutArgs(rows: seq<Row>)
    ensures Qualifying(rows, []) == |rows|
  {
    if rows != [] {
      QualifyingWithoutArgs(rows[..|rows| - 1]);
    }
  }

  /** A fresh COUNT accumulator ends with the number of qualifying rows sent (below 2^63 rows; a long otherwise). */
  lemma CountEnd(args: seq<nat>, rows: seq<Row>)
    requires AllFit(Plain(CountFactory(args)), rows)
    ensures Finish(Plain(CountFactory(args)), Run(Plain(CountFactory(args)), Initial(Plain(CountFactory(args))), rows))
            == I64(Wrap64(Qualifying(rows, args)))
    ensures Qualifying(rows, args) <= LONG_MAX ==>
            Finish(Plain(CountFactory(args)), Run(Plain(CountFactory(args)), Initial(Plain(CountFactory(args))), rows))
            == I64(Qualifying(rows, args))
  {
    CountRun(args, 0, rows);
  }

  // ----- table accumulators (SUM, SUM0, MIN, MAX) -----

  /** The non-null values of column arg, in row order: what add is applied to. */
  function ArgValues(rows: seq<Row>, arg: nat): (vs: seq<Value>)
    requires forall k :: 0 <= k < |rows| ==> arg < |rows[k]|
    ensures forall k :: 0 <= k < |vs| ==> vs[k] != Null
  {
    if rows == [] then []
    else ArgValues(rows[..|rows| - 1], arg) + (if rows[|rows| - 1][arg] == Null then [] else [rows[|rows| - 1][arg]])
  }

  /** Every non-null value that reaches add is one the table accepts. */
  lemma {:induction false} ArgValuesAccepted(u: UdaConfig, rows: seq<Row>)
    requires AllFit(Plain(UdaFactory(u)), rows)
    ensures AllAccepted(u.op, ArgValues(rows, u.argOrdinal))
  {
    if rows != [] {
      ArgValuesAccepted(u, rows[..|rows| - 1]);
      assert Fits(Plain(UdaFactory(u)), rows[|rows| - 1]);
    }
  }

  /**
   * A table accumulator after a run: value is the table's fold over the non-null argument values, and empty stays
   * true exactly when there were none; null arguments change nothing.
   */
  lemma {:induction false} UdaRun(u: UdaConfig, v: Value, e: bool, rows: seq<Row>)
    requires StateTyped(u.op, v) && AllFit(Plain(UdaFactory(u)), rows)
    ensures AllAccepted(u.op, ArgValues(rows, u.argOrdinal))
    ensures Run(Plain(UdaFactory(u)), UdaState(v, e), rows)
            == UdaState(Fold(u.op, v, ArgValues(rows, u.argOrdinal)), e && ArgValues(rows, u.argOrdinal) == [])
  {
    ArgValuesAccepted(u, rows);
    if rows != [] {
      var f := Plain(UdaFactory(u));
      var init := rows[..|rows| - 1];
      assert AllFit(f, init);
      UdaRun(u, v, e, init);
      ArgValuesAccepted(u, init);
      var vs := ArgValues(init, u.argOrdinal);
      var last := rows[|rows| - 1][u.argOrdinal];
      assert Run(f, UdaState(v, e), rows) == Step(f, Run(f, UdaState(v, e), init), rows[|rows| - 1]);
      if last != Null {
        assert ArgValues(rows, u.argOrdinal) == vs + [last];
        FoldSnoc(u.op, v, vs, last);
      } else {
        assert ArgValues(rows, u.argOrdinal) == vs;
      }
    }
  }

  /**
   * end() of a fresh table accumulator after a run: null exactly when nullIfEmpty holds and no non-null argument
   * was sent, and otherwise result() of the fold from init(); SUM0 over no values therefore yields init().
   */
  lemma UdaEnd(u: UdaConfig, rows: seq<Row>)
    requires AllFit(Plain(UdaFactory(u)), rows)
    ensures AllAccepted(u.op, ArgValues(rows, u.argOrdinal))
    ensures var r := Finish(Plain(UdaFactory(u)), Run(Plain(UdaFactory(u)), Initial(Plain(UdaFactory(u))), rows));
            && (r == Null <==> u.nullIfEmpty && ArgValues(rows, u.argOrdinal) == [])
            && (r != Null ==> r == UdaOps.Result(u.op, Fold(u.op, Init(u.op), ArgValues(rows, u.argOrdinal))))
            && (!u.nullIfEmpty && ArgValues(rows, u.argOrdinal) == [] ==> r == Init(u.op))
  {
    UdaRun(u, Init(u.op), true, rows);
  }

  // ----- FILTER -----

  /** The rows whose column p holds TRUE. */
  function Selected(rows: seq<Row>, p: nat): (sel: seq<Row>)
    requires forall k :: 0 <= k < |rows| ==> p < |rows[k]|
    ensures forall k :: 0 <= k < |sel| ==> sel[k] in rows && sel[k][p] == Bool(true)
  {
    if rows == [] then []
    else
      var init := rows[..|rows| - 1];
      var sel := Selected(init, p);
      assert forall k :: 0 <= k < |sel| ==> sel[k] in rows by {
        forall k | 0 <= k < |sel| ensures sel[k] in rows {
          var j :| 0 <= j < |init| && init[j] == sel[k];
          assert rows[j] == sel[k];
        }
      }
      sel + (if rows[|rows| - 1][p] == Bool(true) then [rows[|rows| - 1]] else [])
  }

  /**
   * An accumulator under FILTER (p) ends in the state the unfiltered accumulator reaches over only the rows where
   * column p holds TRUE; end() is the same function of that state.
   */
  lemma {:induction false} FilterRun(b: BaseFactory, p: nat, s: State, rows: seq<Row>)
    requires BaseTyped(b, s) && AllFit(Filtered(b, p), rows)
    ensures AllFit(Plain(b), Selected(rows, p))
    ensures Run(Filtered(b, p), s, rows) == Run(Plain(b), s, Selected(rows, p))
    ensures Finish(Filtered(b, p), Run(Filtered(b, p), s, rows)) == Finish(Plain(b), Run(Plain(b), s, Selected(rows, p)))
  {
    assert AllFit(Plain(b), Selected(rows, p)) by {
      forall k | 0 <= k < |Selected(rows, p)| ensures Fits(Plain(b), Selected(rows, p)[k]) {
        var j :| 0 <= j < |rows| && rows[j] == Selected(rows, p)[k];
        assert Fits(Filtered(b, p), rows[j]);
      }
    }
    if rows != [] {
      var init := rows[..|rows| - 1];
      var last := rows[|rows| - 1];
      assert AllFit(Filtered(b, p), init);
      FilterRun(b, p, s, init);
      var sel := Selected(init, p);
      if last[p] == Bool(true) {
        assert Selected(rows, p) == sel + [last];
        RunSnoc(Plain(b), s, sel, last);
      } else {
        assert Selected(rows, p) == sel;
      }
    }
  }

  // ----- a list of accumulators, one per aggregate call -----

  predicate RowFits(fs: seq<Factory>, row: Row) {
    forall i :: 0 <= i < |fs| ==> Fits(fs[i], row)
  }

  predicate RowsFit(fs: seq<Factory>, rows: seq<Row>) {
    forall k :: 0 <= k < |rows| ==> RowFits(fs, rows[k])
  }

  predicate AllTyped(fs: seq<Factory>, ss: seq<State>) {
    |ss| == |fs| && forall i :: 0 <= i < |fs| ==> Typed(fs[i], ss[i])
  }

  function InitialAll(fs: seq<Factory>): (ss: seq<State>)
    ensures AllTyped(fs, ss)
    ensures forall i :: 0 <= i < |fs| ==> ss[i] == Initial(fs[i])
  {
    seq(|fs|, i requires 0 <= i < |fs| => Initial(fs[i]))
  }

  /** AccumulatorList.send: every accumulator takes one step on the row. */
  function StepAll(fs: seq<Factory>, ss: seq<State>, row: Row): (r: seq<State>)
    requires AllTyped(fs, ss) && RowFits(fs, row)
    ensures AllTyped(fs, r)
    ensures forall i :: 0 <= i < |fs| ==> r[i] == Step(fs[i], ss[i], row)
  {
    seq(|fs|, i requires 0 <= i < |fs| => Step(fs[i], ss[i], row))
  }

  /** The end() results of a list of accumulators, in list order. */
  function FinishAll(fs: seq<Factory>, ss: seq<State>): (vs: seq<Value>)
    requires AllTyped(fs, ss)
    ensures |vs| == |fs|
    ensures forall i :: 0 <= i < |fs| ==> vs[i] == Finish(fs[i], ss[i])
  {
    seq(|fs|, i requires 0 <= i < |fs| => Finish(fs[i], ss[i]))
  }

  /** A list of accumulators after sending rows in order. */
  function RunAll(fs: seq<Factory>, ss: seq<State>, rows: seq<Row>): (r: seq<State>)
    requires AllTyped(fs, ss) && RowsFit(fs, rows)
    ensures AllTyped(fs, r)
  {
    if rows == [] then ss else StepAll(fs, RunAll(fs, ss, rows[..|rows| - 1]), rows[|rows| - 1])
  }

  /**
   * Sending each row to the whole list, row after row, leaves each accumulator where it would be had it been
   * sent the rows on its own: the accumulators of a list do not interfere.
   */
  lemma {:induction false} RunAllPointwise(fs: seq<Factory>, ss: seq<State>, rows: seq<Row>, i: nat)
    requires AllTyped(fs, ss) && RowsFit(fs, rows) && i < |fs|
    ensures AllFit(fs[i], rows)
    ensures RunAll(fs, ss, rows)[i] == Run(fs[i], ss[i], rows)
  {
    if rows != [] {
      var init := rows[..|rows| - 1];
      assert RowsFit(fs, init);
      RunAllPointwise(fs, ss, init, i);
    }
  }

  // ----- the order of the rows within a group -----

  /** Two sends to one accumulator commute: the state does not depend on the order two rows arrive in. */
  lemma StepCommutes(f: Factory, s: State, a: Row, b: Row)
    requires Typed(f, s) && Fits(f, a) && Fits(f, b)
    ensures Step(f, Step(f, s, a), b) == Step(f, Step(f, s, b), a)
  {
    match f
    case Plain(UdaFactory(u)) =>
      if a[u.argOrdinal] != Null && b[u.argOrdinal] != Null {
        AddCommutes(u.op, s.value, a[u.argOrdinal], b[u.argOrdinal]);
      }
    case Filtered(UdaFactory(u), p) =>
      if a[p] == Bool(true) && b[p] == Bool(true) && a[u.argOrdinal] != Null && b[u.argOrdinal] != Null {
        AddCommutes(u.op, s.value, a[u.argOrdinal], b[u.argOrdinal]);
      }
    case _ =>
  }

  /** In a permutation of init + [x] some position holds x, and the other positions are a permutation of init. */
  lemma TakeOut<T>(init: seq<T>, x: T, xs: seq<T>) returns (j: nat)
    requires multiset(init + [x]) == multiset(xs)
    ensures j < |xs| && xs[j] == x && xs == xs[..j] + [x] + xs[j + 1..]
    ensures multiset(init) == multiset(xs[..j] + xs[j + 1..])
  {
    assert x in multiset(xs);
    j :| 0 <= j < |xs| && xs[j] == x;
    var others := multiset(xs[..j] + xs[j + 1..]);
    assert xs == xs[..j] + [x] + xs[j + 1..];
    assert multiset(xs) == multiset(xs[..j]) + multiset{x} + multiset(xs[j + 1..]);
    assert multiset(init) + multiset{x} == others + multiset{x};
    forall z ensures multiset(init)[z] == others[z] {
      assert (multiset(init) + multiset{x})[z] == (others + multiset{x})[z];
    }
  }

  /** Moving one row of a run to its end does not change where the accumulator ends. */
  lemma {:induction false} RunMoveLast(f: Factory, s: State, front: seq<Row>, x: Row, back: seq<Row>)
    requires Typed(f, s) && AllFit(f, front) && Fits(f, x) && AllFit(f, back)
    ensures AllFit(f, front + [x] + back) && AllFit(f, front + back + [x])
    ensures Run(f, s, front + [x] + back) == Run(f, s, front + back + [x])
    decreases |back|
  {
    if back == [] {
      assert front + [x] + back == front + back + [x];
    } else {
      var rest := back[..|back| - 1];
      var y := back[|back| - 1];
      assert AllFit(f, rest);
      RunMoveLast(f, s, front, x, rest);
      assert back == rest + [y];
      assert front + [x] + back == (front + [x] + rest) + [y];
      assert front + back + [x] == ((front + rest) + [y]) + [x];
      RunSnoc(f, s, front + [x] + rest, y);
      RunSnoc(f, s, front + rest, x);
      RunSnoc(f, s, front + rest, y);
      RunSnoc(f, s, front + rest + [y], x);
      StepCommutes(f, Run(f, s, front + rest), x, y);
    }
  }

  /** An accumulator can absorb every row of a permutation of rows it can absorb. */
  lemma AllFitPermuted(f: Factory, rows: seq<Row>, rows': seq<Row>)
    requires AllFit(f, rows) && multiset(rows) == multiset(rows')
    ensures AllFit(f, rows')
  {
    forall k | 0 <= k < |rows'| ensures Fits(f, rows'[k]) {
      assert rows'[k] in multiset(rows');
      var j :| 0 <= j < |rows| && rows[j] == rows'[k];
    }
  }

  /**
   * The rows of a group may arrive in any order: an accumulator sent a permutation of the same rows ends in the
   * same state, and therefore with the same end().
   */
  lemma {:induction false} RunPermutation(f: Factory, s: State, rows: seq<Row>, rows': seq<Row>)
    requires Typed(f, s) && AllFit(f, rows) && multiset(rows) == multiset(rows')
    ensures AllFit(f, rows')
    ensures Run(f, s, rows) == Run(f, s, rows')
    ensures Finish(f, Run(f, s, rows)) == Finish(f, Run(f, s, rows'))
    decreases |rows|
  {
    AllFitPermuted(f, rows, rows');
    if rows == [] {
      assert |rows'| == |multiset(rows')| == 0;
    } else {
      var init := rows[..|rows| - 1];
      var x := rows[|rows| - 1];
      assert rows == init + [x];
      var j := TakeOut(init, x, rows');
      var front, back := rows'[..j], rows'[j + 1..];
      assert AllFit(f, init);
      RunPermutation(f, s, init, front + back);
      assert AllFit(f, front) && AllFit(f, back) by {
        assert forall k :: 0 <= k < |front| ==> front[k] == rows'[k];
        assert forall k :: 0 <= k < |back| ==> back[k] == rows'[j + 1 + k];
      }
      RunMoveLast(f, s, front, x, back);
      RunSnoc(f, s, front + back, x);
    }
  }

  /** A whole list of accumulators sent a permutation of the same rows ends in the same states. */
  lemma RunAllPermutation(fs: seq<Factory>, ss: seq<State>, rows: seq<Row>, rows': seq<Row>)
    requires AllTyped(fs, ss) && RowsFit(fs, rows) && multiset(rows) == multiset(rows')
    ensures RowsFit(fs, rows')
    ensures RunAll(fs, ss, rows) == RunAll(fs, ss, rows')
  {
    forall k | 0 <= k < |rows'| ensures RowFits(fs, rows'[k]) {
      assert rows'[k] in multiset(rows');
      var j :| 0 <= j < |rows| && rows[j] == rows'[k];
    }
    forall i | 0 <= i < |fs| ensures RunAll(fs, ss, rows)[i] == RunAll(fs, ss, rows')[i] {
      RunAllPointwise(fs, ss, rows, i);
      RunAllPointwise(fs, ss, rows', i);
      RunPermutation(fs[i], ss[i], rows, rows');
    }
  }
}

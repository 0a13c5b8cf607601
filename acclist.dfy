/**
 * AccumulatorList: the accumulators of one group, one per aggregate call, in call order. send passes the row to
 * every accumulator; end writes their results into the last positions of the output row.
 */
module AccumLists {
  import opened Values
  import opened AccumSpec
  import opened Accumulators

  class AccumulatorList {
    /** The list is filled once, by the accumulatorInitializer, and never resized afterwards. */
    const accs: seq<Acc>
    ghost const Repr: set<object>
    /** The fields of accs[i], as a State. */
    ghost var states: seq<State>

    ghost predicate Valid()
      reads this, Repr
    {
      && this in Repr
      && |states| == |accs|
      && (forall i :: 0 <= i < |accs| ==> Holder(accs[i]) in Repr && Holder(accs[i]) != this)
      && (forall i, j :: 0 <= i < j < |accs| ==> Holder(accs[i]) != Holder(accs[j]))
      && (forall i :: 0 <= i < |accs| ==> Accumulators.Valid(accs[i]) && states[i] == View(accs[i]))
    }

    /** Each state is of its factory's kind. */
    lemma StatesTyped()
      requires Valid()
      ensures AllTyped(Factories(), states)
    {
      forall i | 0 <= i < |accs| ensures Typed(Factories()[i], states[i]) {
        assert Accumulators.Valid(accs[i]);
      }
    }

    /** The factories that built the accumulators, in list order. */
    function Factories(): seq<Factory> {
      FactoriesOf(accs)
    }

    /**
     * The accumulatorInitializer: a new list, then one add per factory, in factory order, of a fresh accumulator
     * in its initial state.
     */
    constructor (fs: seq<Factory>)
      ensures Valid() && fresh(Repr)
      ensures Factories() == fs && states == InitialAll(fs)
    {
      var built: seq<Acc> := [];
      ghost var holders: set<object> := {};
      var k := 0;
      while k < |fs|
        invariant 0 <= k <= |fs| && |built| == k && fresh(holders)
        invariant forall i :: 0 <= i < k ==> Holder(built[i]) in holders
        invariant forall i, j :: 0 <= i < j < k ==> Holder(built[i]) != Holder(built[j])
        invariant forall i :: 0 <= i < k ==> FactoryOf(built[i]) == fs[i]
        invariant forall i :: 0 <= i < k ==> Accumulators.Valid(built[i]) && View(built[i]) == Initial(fs[i])
      {
        var a := NewAccumulator(fs[k]);
        built := built + [a];
        holders := holders + {Holder(a)};
        k := k + 1;
      }
      accs := built;
      states := InitialAll(fs);
      Repr := {this} + holders;
    }

    /** send: every accumulator of the list takes one step on the row, in list order. */
    method Send(row: Row)
      requires Valid() && RowFits(Factories(), row)
      modifies Repr
      ensures Valid()
      ensures AllTyped(Factories(), old(states))
      ensures states == StepAll(Factories(), old(states), row)
    {
      ghost var fs := Factories();
      ghost var ss := states;
      StatesTyped();
      var k := 0;
      while k < |accs|
        invariant 0 <= k <= |accs| && states == ss
        invariant forall i :: 0 <= i < |accs| ==> Accumulators.Valid(accs[i])
        invariant forall i :: 0 <= i < k ==> View(accs[i]) == Step(fs[i], ss[i], row)
        invariant forall i :: k <= i < |accs| ==> View(accs[i]) == ss[i]
      {
        SendAcc(accs[k], row);
        k := k + 1;
      }
      states := StepAll(fs, ss, row);
    }

    /**
     * end(r): the results of the accumulators, in list order, go to the last |accs| positions of r; the positions
     * before them are left as they were.
     */
    method End(r: array<Value>)
      requires Valid() && |accs| <= r.Length && r !in Repr
      modifies r
      ensures AllTyped(Factories(), states)
      ensures r[..r.Length - |accs|] == old(r[..r.Length - |accs|])
      ensures r[r.Length - |accs|..] == FinishAll(Factories(), states)
    {
      ghost var fs := Factories();
      StatesTyped();
      var accIndex := 0;
      var rowIndex := r.Length - |accs|;
      while rowIndex < r.Length
        invariant r.Length - |accs| <= rowIndex <= r.Length
        invariant accIndex == rowIndex - (r.Length - |accs|)
        invariant r[..r.Length - |accs|] == old(r[..r.Length - |accs|])
        invariant forall i :: 0 <= i < accIndex ==> r[r.Length - |accs| + i] == Finish(fs[i], states[i])
      {
        var v := EndAcc(accs[accIndex]);
        r[rowIndex] := v;
        rowIndex := rowIndex + 1;
        accIndex := accIndex + 1;
      }
    }
  }
}

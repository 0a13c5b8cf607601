/**
 * MycatSortAggExecutor: the constructor resolves one accumulator factory per aggregate call and one Grouping per
 * grouping set; open() sets up sorted aggregation over the child executor's rows for the node's group set; each
 * next() yields the output row of the next run of equal keys, and null once the input is used up.
 */
module Executors {
  import opened Values
  import opened BitSets
  import opened AccumSpec
  import opened Resolver
  import opened AccumLists
  import opened RowLayout
  import opened Groupings
  import opened SortedAgg

  /**
   * What the executor reads of its Aggregate node: the group set open() groups by, the grouping sets (None for a
   * null list) and the aggregate calls.
   */
  datatype Aggregate = Aggregate(groupSet: BitSet, groupSets: Option<seq<BitSet>>, aggCalls: seq<AggregateCall>)

  /** The grouping sets of the node, none when the list is null. */
  function GroupSetsOf(rel: Aggregate): seq<BitSet> {
    if rel.groupSets.Some? then rel.groupSets.value else []
  }

  /** The child executor: the rows it yields, in order, and how often it has been opened and closed. */
  class Input {
    const rows: seq<Row>
    var opens: nat
    var closes: nat

    constructor (rows: seq<Row>)
      ensures this.rows == rows && opens == 0 && closes == 0
    {
      this.rows := rows;
      opens := 0;
      closes := 0;
    }

    method Open()
      modifies this
      ensures opens == old(opens) + 1 && closes == old(closes)
    {
      opens := opens + 1;
    }

    method Close()
      modifies this
      ensures closes == old(closes) + 1 && opens == old(opens)
    {
      closes := closes + 1;
    }
  }

  class MycatSortAggExecutor {
    const input: Input
    const rel: Aggregate
    const groups: seq<Grouping>
    const unionGroups: BitSet
    const outputRowLength: nat
    const accumulatorFactories: seq<Factory>
    /** iter != null: open() has run. */
    var iterOpen: bool
    /** The input rows the iterator has used up: the first row of the next run. */
    var position: nat
    /** The rows next() has returned so far. */
    ghost var emitted: seq<Row>

    /** The input rows are ones the plan can aggregate (typed for its calls, wide enough for its keys). */
    predicate InputFits() {
      Feasible(unionGroups, rel.groupSet, accumulatorFactories, input.rows)
    }

    /** Once open, the rows returned so far followed by the rows still to come are the whole sorted output. */
    ghost predicate Valid()
      reads this
    {
      && outputRowLength == Cardinality(unionGroups) + |accumulatorFactories|
      && (iterOpen ==>
            && InputFits() && position <= |input.rows|
            && emitted + SortedFrom(unionGroups, rel.groupSet, accumulatorFactories, input.rows, position)
               == SortedOutput(unionGroups, rel.groupSet, accumulatorFactories, input.rows))
    }

    /**
     * The constructor once getAccumulator has succeeded for every call: the union of the grouping sets, one
     * Grouping per grouping set, the output width, and the factories in call order.
     */
    constructor (input: Input, rel: Aggregate, factories: seq<Factory>)
      requires ResolveAll(rel.aggCalls) == Ok(factories)
      ensures Valid() && !iterOpen
      ensures this.input == input && this.rel == rel && accumulatorFactories == factories
      ensures forall i: nat :: Get(unionGroups, i) <==> exists k :: 0 <= k < |GroupSetsOf(rel)| && Get(GroupSetsOf(rel)[k], i)
      ensures outputRowLength == Cardinality(unionGroups) + |rel.aggCalls|
      ensures |groups| == |GroupSetsOf(rel)|
      ensures forall k :: 0 <= k < |groups| ==>
                && groups[k].grouping == GroupSetsOf(rel)[k] && groups[k].factories == factories
                && groups[k].unionGroups == unionGroups && groups[k].outputRowLength == outputRowLength
    ensures forall k :: 0 <= k < |groups| ==> fresh(groups[k].Repr) && groups[k].Valid() && groups[k].contents == map[]
    ensures forall j, k :: 0 <= j < k < |groups| ==> groups[j].Repr !! groups[k].Repr
    {
      var sets := GroupSetsOf(rel);
      var union: BitSet := [];
      var k := 0;
      while k < |sets|
        invariant 0 <= k <= |sets|
        invariant forall i: nat :: Get(union, i) <==> exists j :: 0 <= j < k && Get(sets[j], i)
      {
        union := Union(union, sets[k]);
        k := k + 1;
      }
      var width := Cardinality(union) + |rel.aggCalls|;
      var built := NewGroupings(sets, factories, union, width);
      this.input := input;
      this.rel := rel;
      groups := built;
      unionGroups := union;
      outputRowLength := width;
      accumulatorFactories := factories;
      iterOpen := false;
      position := 0;
      emitted := [];
    }

    /** open: the first call opens the input and starts the iterator at its first row; later calls do nothing. */
    method Open()
      requires Valid() && InputFits()
      modifies this, input
      ensures Valid() && iterOpen
      ensures old(iterOpen) ==> position == old(position) && emitted == old(emitted) && input.opens == old(input.opens)
      ensures !old(iterOpen) ==> position == 0 && emitted == [] && input.opens == old(input.opens) + 1
      ensures input.closes == old(input.closes)
    {
      if !iterOpen {
        input.Open();
        iterOpen := true;
        position := 0;
        emitted := [];
      }
    }

    /**
     * next: the output row of the run of equal keys that starts at the current position, built by the
     * keySelector, a list from the accumulatorInitializer fed by the accumulatorAdder, and the resultSelector;
     * none once the input is used up.
     */
    method Next() returns (r: Option<Row>)
      requires Valid() && iterOpen
      modifies this
      ensures Valid() && iterOpen
      ensures old(position) < |input.rows| ==>
                && r == Some(GroupResult(unionGroups, rel.groupSet, accumulatorFactories, input.rows, old(position)))
                && position == RunEnd(rel.groupSet, input.rows, old(position))
      ensures old(position) == |input.rows| ==> r == None && position == old(position)
      ensures emitted == old(emitted) + (if r.Some? then [r.value] else [])
      ensures r.None? ==> emitted == SortedOutput(unionGroups, rel.groupSet, accumulatorFactories, input.rows)
    {
      var rows := input.rows;
      if position == |rows| {
        assert emitted + [] == emitted;
        return None;
      }
      var out, e := AggregateRun(unionGroups, rel.groupSet, accumulatorFactories, outputRowLength, rows, position);
      SortedFromStep(unionGroups, rel.groupSet, accumulatorFactories, rows, position, emitted);
      position := e;
      emitted := emitted + [out];
      r := Some(out);
    }

    /** close: closes the input, on every call; the iterator is kept. */
    method Close()
      requires Valid()
      modifies input
      ensures Valid()
      ensures input.closes == old(input.closes) + 1 && input.opens == old(input.opens)
    {
      input.Close();
    }

    /** isRewindSupported: always true. */
    function IsRewindSupported(): (r: bool)
      ensures r
    {
      true
    }
  }

  /** The constructor's second loop: a new, empty Grouping per grouping set, each with objects of its own. */
  method NewGroupings(sets: seq<BitSet>, factories: seq<Factory>, union: BitSet, width: nat)
    returns (built: seq<Grouping>)
    requires width == Cardinality(union) + |factories|
    ensures |built| == |sets|
    ensures forall j :: 0 <= j < |sets| ==>
              && built[j].grouping == sets[j] && built[j].factories == factories
              && built[j].unionGroups == union && built[j].outputRowLength == width
    ensures forall j :: 0 <= j < |sets| ==> fresh(built[j].Repr) && built[j].Valid() && built[j].contents == map[]
    ensures forall i, j :: 0 <= i < j < |sets| ==> built[i].Repr !! built[j].Repr
  {
    built := [];
    var k := 0;
    while k < |sets|
      invariant 0 <= k <= |sets| && |built| == k
      invariant forall j :: 0 <= j < k ==>
                  && built[j].grouping == sets[j] && built[j].factories == factories
                  && built[j].unionGroups == union && built[j].outputRowLength == width
      invariant forall j :: 0 <= j < k ==> fresh(built[j].Repr) && built[j].Valid() && built[j].contents == map[]
      invariant forall i, j :: 0 <= i < j < k ==> built[i].Repr !! built[j].Repr
    {
      var grouping := new Grouping(sets[k], factories, union, width);
      built := built + [grouping];
      k := k + 1;
    }
  }

  /**
   * The accumulatorAdder over the rest of a run: list, which holds rows[start] already, is sent each following row
   * while its key is key; returns the position of the first row with another key, or the end of the input.
   */
  method FeedRun(g: BitSet, fs: seq<Factory>, rows: seq<Row>, start: nat, key: Row, list: AccumulatorList)
    returns (e: nat)
    requires AllWithin(g, rows) && RowsFit(fs, rows) && start < |rows| && key == GroupKey(g, rows[start])
    requires list.Valid() && list.Factories() == fs && list.states == RunStates(fs, rows, start, start + 1)
    modifies list.Repr
    ensures e == RunEnd(g, rows, start)
    ensures list.Valid() && list.states == RunStates(fs, rows, start, e)
  {
    e := start + 1;
    while e < |rows|
      invariant start < e <= |rows|
      invariant forall k :: start <= k < e ==> GroupKey(g, rows[k]) == key
      invariant RunEndFrom(g, rows, start, e) == RunEnd(g, rows, start)
      invariant list.Valid() && list.states == RunStates(fs, rows, start, e)
    {
      var current := KeyOf(rows[e], Members(g));
      if current != key {
        break;
      }
      RunStatesExtend(fs, rows, start, e);
      list.Send(rows[e]);
      e := e + 1;
    }
  }

  /**
   * One run of the sorted aggregation: the keySelector takes the key of rows[start], the accumulatorInitializer
   * a fresh list, and the accumulatorAdder sends it each row while the key stays the same; the resultSelector then
   * builds the output row. Returns that row and the position of the first row after the run.
   */
  method AggregateRun(union: BitSet, g: BitSet, fs: seq<Factory>, width: nat, rows: seq<Row>, start: nat)
    returns (out: Row, e: nat)
    requires Feasible(union, g, fs, rows) && start < |rows| && width == Cardinality(union) + |fs|
    ensures e == RunEnd(g, rows, start)
    ensures out == GroupResult(union, g, fs, rows, start)
  {
    var key := KeyOf(rows[start], Members(g));
    var list := new AccumulatorList(fs);
    RunStatesExtend(fs, rows, start, start);
    list.Send(rows[start]);
    e := FeedRun(g, fs, rows, start, key, list);
    var rb := FillResultRow(union, g, key, list, width);
    out := rb[..];
  }

  /** The constructor as a whole: it throws, building no executor, when getAccumulator fails for some call. */
  method NewExecutor(input: Input, rel: Aggregate) returns (r: Result<MycatSortAggExecutor, BuildError>)
    ensures r.Err? <==> ResolveAll(rel.aggCalls).Err?
    ensures r.Err? ==> r.error == ResolveAll(rel.aggCalls).error
    ensures r.Ok? ==> && fresh(r.value) && r.value.Valid() && !r.value.iterOpen
                      && r.value.input == input && r.value.rel == rel
                      && r.value.accumulatorFactories == ResolveAll(rel.aggCalls).value
  {
    match ResolveAll(rel.aggCalls)
    case Err(e) =>
      r := Err(e);
    case Ok(fs) =>
      var executor := new MycatSortAggExecutor(input, rel, fs);
      r := Ok(executor);
  }
}

/**
 * Sorted aggregation, as open() sets it up: the input is cut into runs of consecutive rows with the same key, each
 * run is sent to one fresh accumulator list, and each run yields one output row built by the resultSelector. The
 * functions here say which rows form a run and which output rows the executor yields; the lemmas state the
 * partition of the input into runs, COUNT(*) per run, and agreement with hash grouping when equal keys are adjacent.
 */
module SortedAgg {
  import opened Values
  import opened BitSets
  import opened AccumSpec
  import opened RowLayout
  import opened Groupings

  /** Rows the executor can aggregate: every key column exists, every aggregate fits, the row builder reads inside the key. */
  predicate Feasible(union: BitSet, g: BitSet, fs: seq<Factory>, rows: seq<Row>) {
    AllWithin(g, rows) && RowsFit(fs, rows) && LayoutOk(union, g, |Members(g)|)
  }

  /**
   * The end of the run that starts at start, searching from j: the first position at or after j whose row has a
   * different key from rows[start], or the end of the input.
   */
  function RunEndFrom(g: BitSet, rows: seq<Row>, start: nat, j: nat): (e: nat)
    requires AllWithin(g, rows) && start < j <= |rows|
    requires forall k :: start <= k < j ==> GroupKey(g, rows[k]) == GroupKey(g, rows[start])
    ensures j <= e <= |rows|
    ensures forall k :: start <= k < e ==> GroupKey(g, rows[k]) == GroupKey(g, rows[start])
    ensures e == |rows| || GroupKey(g, rows[e]) != GroupKey(g, rows[start])
    decreases |rows| - j
  {
    if j < |rows| && GroupKey(g, rows[j]) == GroupKey(g, rows[start]) then RunEndFrom(g, rows, start, j + 1) else j
  }

  /** The end of the run that starts at start: the run is rows[start..RunEnd], the longest stretch of start's key. */
  function RunEnd(g: BitSet, rows: seq<Row>, start: nat): (e: nat)
    requires AllWithin(g, rows) && start < |rows|
    ensures start < e <= |rows|
    ensures forall k :: start <= k < e ==> GroupKey(g, rows[k]) == GroupKey(g, rows[start])
    ensures e == |rows| || GroupKey(g, rows[e]) != GroupKey(g, rows[start])
  {
    RunEndFrom(g, rows, start, start + 1)
  }

  /** The accumulator states of a fresh list after it was sent rows[start..end], in order. */
  function RunStates(fs: seq<Factory>, rows: seq<Row>, start: nat, end: nat): (ss: seq<State>)
    requires RowsFit(fs, rows) && start <= end <= |rows|
    ensures AllTyped(fs, ss)
  {
    assert RowsFit(fs, rows[start..end]);
    RunAll(fs, InitialAll(fs), rows[start..end])
  }

  /** Sending one more row of the input to a list is one more step. */
  lemma RunStatesExtend(fs: seq<Factory>, rows: seq<Row>, start: nat, j: nat)
    requires RowsFit(fs, rows) && start <= j < |rows|
    ensures RunStates(fs, rows, start, j + 1) == StepAll(fs, RunStates(fs, rows, start, j), rows[j])
  {
    assert rows[start..j + 1][..j - start] == rows[start..j];
  }

  /** The output row of the run starting at start: the resultSelector applied to the run's key and list. */
  function GroupResult(union: BitSet, g: BitSet, fs: seq<Factory>, rows: seq<Row>, start: nat): (out: Row)
    requires Feasible(union, g, fs, rows) && start < |rows|
    ensures |out| == |Members(union)| + |fs|
  {
    KeyColumns(union, g, GroupKey(g, rows[start])) + FinishAll(fs, RunStates(fs, rows, start, RunEnd(g, rows, start)))
  }

  /** The rows yielded from position start on: one per run, in input order, and none once the input is used up. */
  function SortedFrom(union: BitSet, g: BitSet, fs: seq<Factory>, rows: seq<Row>, start: nat): (out: seq<Row>)
    requires Feasible(union, g, fs, rows) && start <= |rows|
    decreases |rows| - start
  {
    if start == |rows| then []
    else [GroupResult(union, g, fs, rows, start)] + SortedFrom(union, g, fs, rows, RunEnd(g, rows, start))
  }

  /** All rows the executor yields for the input. */
  function SortedOutput(union: BitSet, g: BitSet, fs: seq<Factory>, rows: seq<Row>): seq<Row>
    requires Feasible(union, g, fs, rows)
  {
    SortedFrom(union, g, fs, rows, 0)
  }

  /** Yielding the row of the run at start leaves the rows of the later runs to come. */
  lemma SortedFromStep(union: BitSet, g: BitSet, fs: seq<Factory>, rows: seq<Row>, start: nat, before: seq<Row>)
    requires Feasible(union, g, fs, rows) && start < |rows|
    ensures (before + [GroupResult(union, g, fs, rows, start)]) + SortedFrom(union, g, fs, rows, RunEnd(g, rows, start))
            == before + SortedFrom(union, g, fs, rows, start)
  {
  }

  // ----- the runs as a partition of the input -----

  /** The runs from position start on, in input order. */
  function Runs(g: BitSet, rows: seq<Row>, start: nat): seq<seq<Row>>
    requires AllWithin(g, rows) && start <= |rows|
    decreases |rows| - start
  {
    if start == |rows| then [] else [rows[start..RunEnd(g, rows, start)]] + Runs(g, rows, RunEnd(g, rows, start))
  }

  function Concat(ss: seq<seq<Row>>): seq<Row> {
    if ss == [] then [] else ss[0] + Concat(ss[1..])
  }

  /** Every row of s has the key of s's first row. */
  predicate OneKey(g: BitSet, s: seq<Row>)
    requires AllWithin(g, s) && s != []
  {
    forall k :: 0 <= k < |s| ==> GroupKey(g, s[k]) == GroupKey(g, s[0])
  }

  /** Two non-empty stretches of rows whose first rows have different keys. */
  predicate KeysDiffer(g: BitSet, a: seq<Row>, b: seq<Row>) {
    a != [] && b != [] && AllWithin(g, a) && AllWithin(g, b) && GroupKey(g, a[0]) != GroupKey(g, b[0])
  }

  /**
   * The runs partition the input: laid end to end they are the input from start on, none is empty, all rows of a
   * run share its key, and neighbouring runs have different keys.
   */
  lemma {:induction false} RunsPartition(g: BitSet, rows: seq<Row>, start: nat)
    requires AllWithin(g, rows) && start <= |rows|
    ensures Concat(Runs(g, rows, start)) == rows[start..]
    ensures forall k :: 0 <= k < |Runs(g, rows, start)| ==>
              Runs(g, rows, start)[k] != [] && AllWithin(g, Runs(g, rows, start)[k]) && OneKey(g, Runs(g, rows, start)[k])
    ensures forall k :: 0 <= k < |Runs(g, rows, start)| - 1 ==> KeysDiffer(g, Runs(g, rows, start)[k], Runs(g, rows, start)[k + 1])
    decreases |rows| - start
  {
    if start < |rows| {
      var e := RunEnd(g, rows, start);
      var run := rows[start..e];
      RunsPartition(g, rows, e);
      var rest := Runs(g, rows, e);
      var all := Runs(g, rows, start);
      assert all == [run] + rest;
      assert all[1..] == rest;
      assert Concat(all) == run + rows[e..];
      assert rows[start..] == run + rows[e..];
      assert AllWithin(g, run) && OneKey(g, run) by {
        assert forall k :: 0 <= k < |run| ==> run[k] == rows[start + k];
      }
      if rest != [] {
        assert rest[0][0] == rows[e];
      }
      forall k | 0 <= k < |all| - 1
        ensures KeysDiffer(g, all[k], all[k + 1])
      {
        if k > 0 {
          assert all[k] == rest[k - 1] && all[k + 1] == rest[k];
        }
      }
      forall k | 0 <= k < |all|
        ensures all[k] != [] && AllWithin(g, all[k]) && OneKey(g, all[k])
      {
        if k > 0 {
          assert all[k] == rest[k - 1];
        }
      }
    }
  }

  /** The output has one row per run; the k-th is the key columns of run k, then its list's results. */
  lemma {:induction false} SortedOutputPerRun(union: BitSet, g: BitSet, fs: seq<Factory>, rows: seq<Row>, start: nat)
    requires Feasible(union, g, fs, rows) && start <= |rows|
    ensures |SortedFrom(union, g, fs, rows, start)| == |Runs(g, rows, start)|
    ensures forall k :: 0 <= k < |Runs(g, rows, start)| ==>
              && Runs(g, rows, start)[k] != [] && AllWithin(g, Runs(g, rows, start)[k])
              && RowsFit(fs, Runs(g, rows, start)[k])
              && SortedFrom(union, g, fs, rows, start)[k]
                 == KeyColumns(union, g, GroupKey(g, Runs(g, rows, start)[k][0]))
                    + FinishAll(fs, RunAll(fs, InitialAll(fs), Runs(g, rows, start)[k]))
    decreases |rows| - start
  {
    if start < |rows| {
      var e := RunEnd(g, rows, start);
      SortedOutputPerRun(union, g, fs, rows, e);
      var runs := Runs(g, rows, start);
      var out := SortedFrom(union, g, fs, rows, start);
      assert runs == [rows[start..e]] + Runs(g, rows, e);
      assert out == [GroupResult(union, g, fs, rows, start)] + SortedFrom(union, g, fs, rows, e);
      forall k | 0 <= k < |runs|
        ensures && runs[k] != [] && AllWithin(g, runs[k]) && RowsFit(fs, runs[k])
                && out[k] == KeyColumns(union, g, GroupKey(g, runs[k][0])) + FinishAll(fs, RunAll(fs, InitialAll(fs), runs[k]))
      {
        if k == 0 {
          assert runs[0][0] == rows[start];
          assert AllWithin(g, runs[0]) && RowsFit(fs, runs[0]);
        } else {
          assert runs[k] == Runs(g, rows, e)[k - 1];
          assert out[k] == SortedFrom(union, g, fs, rows, e)[k - 1];
        }
      }
    }
  }

  /** With no input rows the executor yields no row. */
  lemma EmptyInputYieldsNothing(union: BitSet, g: BitSet, fs: seq<Factory>)
    ensures Feasible(union, g, fs, []) <==> LayoutOk(union, g, |Members(g)|)
    ensures LayoutOk(union, g, |Members(g)|) ==> SortedOutput(union, g, fs, []) == []
  {
  }

  /** For an aggregate COUNT(*) in position i, each output row holds the length of its run, as a Java long. */
  lemma CountStarPerRun(union: BitSet, g: BitSet, fs: seq<Factory>, rows: seq<Row>, start: nat, i: nat)
    requires Feasible(union, g, fs, rows) && start < |rows| && i < |fs| && fs[i] == Plain(CountFactory([]))
    ensures GroupResult(union, g, fs, rows, start)[|Members(union)| + i]
            == I64(Wrap64(RunEnd(g, rows, start) - start))
  {
    var e := RunEnd(g, rows, start);
    var run := rows[start..e];
    assert RowsFit(fs, run);
    var ss := RunStates(fs, rows, start, e);
    var key := KeyColumns(union, g, GroupKey(g, rows[start]));
    assert GroupResult(union, g, fs, rows, start)[|Members(union)| + i] == FinishAll(fs, ss)[i] by {
      assert GroupResult(union, g, fs, rows, start) == key + FinishAll(fs, ss);
      assert |key| == |Members(union)|;
    }
    RunAllPointwise(fs, InitialAll(fs), run, i);
    assert ss[i] == Run(fs[i], Initial(fs[i]), run);
    CountEnd([], run);
    QualifyingWithoutArgs(run);
  }

  /** Replacing the stretch xs[s..e] by a permutation of it permutes xs and keeps everything outside the stretch. */
  lemma Splice<T>(xs: seq<T>, s: nat, e: nat, ys: seq<T>)
    requires s <= e <= |xs| && multiset(ys) == multiset(xs[s..e])
    ensures |xs[..s] + ys + xs[e..]| == |xs|
    ensures multiset(xs[..s] + ys + xs[e..]) == multiset(xs)
    ensures (xs[..s] + ys + xs[e..])[s..e] == ys
    ensures forall k :: e <= k < |xs| ==> (xs[..s] + ys + xs[e..])[k] == xs[k]
  {
    assert xs == xs[..s] + xs[s..e] + xs[e..];
    assert |ys| == |multiset(ys)| == e - s;
  }

  /** The executor can aggregate any permutation of rows it can aggregate. */
  lemma FeasiblePermuted(union: BitSet, g: BitSet, fs: seq<Factory>, rows: seq<Row>, rows': seq<Row>)
    requires Feasible(union, g, fs, rows) && multiset(rows) == multiset(rows')
    ensures Feasible(union, g, fs, rows')
  {
    forall k | 0 <= k < |rows'| ensures PositionsWithin(Members(g), rows'[k]) && RowFits(fs, rows'[k]) {
      assert rows'[k] in multiset(rows');
      var j :| 0 <= j < |rows| && rows[j] == rows'[k];
    }
  }

  /**
   * The rows inside one run may come in any order: reordering them changes neither where the run ends nor its
   * output row, that is neither the emitted key nor any aggregate's result.
   */
  lemma RunReorder(union: BitSet, g: BitSet, fs: seq<Factory>, rows: seq<Row>, start: nat, run': seq<Row>)
    requires Feasible(union, g, fs, rows) && start < |rows|
    requires multiset(run') == multiset(rows[start..RunEnd(g, rows, start)])
    ensures var rows' := rows[..start] + run' + rows[RunEnd(g, rows, start)..];
            && Feasible(union, g, fs, rows')
            && RunEnd(g, rows', start) == RunEnd(g, rows, start)
            && GroupResult(union, g, fs, rows', start) == GroupResult(union, g, fs, rows, start)
  {
    var e := RunEnd(g, rows, start);
    var run := rows[start..e];
    var rows' := rows[..start] + run' + rows[e..];
    var key := GroupKey(g, rows[start]);
    Splice(rows, start, e, run');
    FeasiblePermuted(union, g, fs, rows, rows');
    forall k | start <= k < e ensures GroupKey(g, rows'[k]) == key {
      assert rows'[k] == run'[k - start];
      assert run'[k - start] in multiset(run);
      var j :| 0 <= j < |run| && run[j] == run'[k - start];
      assert run[j] == rows[start + j];
    }
    var e' := RunEnd(g, rows', start);
    if e' < |rows'| {
      var next := GroupKey(g, rows'[e']);
      assert next != key;
    }
    if e < |rows| {
      var after := GroupKey(g, rows'[e]);
      assert after != key;
    }
    assert RowsFit(fs, run);
    RunAllPermutation(fs, InitialAll(fs), run, run');
  }

  // ----- agreement with hash grouping -----

  /** Rows with equal keys are adjacent: whatever lies between two rows of one key has that key too. */
  predicate Clustered(g: BitSet, rows: seq<Row>)
    requires AllWithin(g, rows)
  {
    forall i, j, k :: 0 <= i < j < k < |rows| && GroupKey(g, rows[i]) == GroupKey(g, rows[k]) ==>
      GroupKey(g, rows[j]) == GroupKey(g, rows[i])
  }

  /** A run starts at start: no earlier row continues it. */
  predicate RunStart(g: BitSet, rows: seq<Row>, start: nat)
    requires AllWithin(g, rows) && start < |rows|
  {
    start == 0 || GroupKey(g, rows[start - 1]) != GroupKey(g, rows[start])
  }

  /** A stretch of a prefix is that stretch of the whole; a stretch followed by the next element is one longer. */
  lemma Slices<T>(xs: seq<T>, s: nat, e: nat, n: nat)
    requires s <= e <= n <= |xs|
    ensures xs[..n][s..e] == xs[s..e]
    ensures e < |xs| ==> xs[s..e + 1] == xs[s..e] + [xs[e]]
  {
  }

  /** When the rows with a key are exactly those of one stretch, they are that stretch. */
  lemma {:induction false} WithKeyOfStretch(g: BitSet, rows: seq<Row>, key: Row, s: nat, e: nat)
    requires AllWithin(g, rows) && s <= e <= |rows|
    requires forall k :: 0 <= k < |rows| ==> (s <= k < e <==> GroupKey(g, rows[k]) == key)
    ensures WithKey(g, rows, key) == rows[s..e]
  {
    if rows != [] {
      var n := |rows| - 1;
      var init := rows[..n];
      assert AllWithin(g, init);
      if s <= n < e {
        WithKeyOfStretch(g, init, key, s, n);
        Slices(rows, s, n, n);
      } else if e <= n {
        WithKeyOfStretch(g, init, key, s, e);
        Slices(rows, s, e, n);
      } else {
        WithKeyOfStretch(g, init, key, n, n);
      }
    }
  }

  /** In clustered input, the rows of a run are all the input's rows with the run's key. */
  lemma RunIsAllOfItsKey(g: BitSet, rows: seq<Row>, start: nat)
    requires AllWithin(g, rows) && Clustered(g, rows) && start < |rows| && RunStart(g, rows, start)
    ensures WithKey(g, rows, GroupKey(g, rows[start])) == rows[start..RunEnd(g, rows, start)]
  {
    var key := GroupKey(g, rows[start]);
    var e := RunEnd(g, rows, start);
    forall k | 0 <= k < |rows| ensures start <= k < e <==> GroupKey(g, rows[k]) == key {
      if k < start {
        var previous := GroupKey(g, rows[start - 1]);
        assert previous != key;
      }
      if e < k {
        var next := GroupKey(g, rows[e]);
        assert next != key;
      }
    }
    WithKeyOfStretch(g, rows, key, start, e);
  }

  /**
   * When rows of one key are adjacent (input sorted on the key, for instance), each run's output row is the row
   * hash grouping builds for that key: same key columns, and the same accumulator states.
   */
  lemma SortedAgreesWithHash(union: BitSet, g: BitSet, fs: seq<Factory>, rows: seq<Row>, start: nat)
    requires Feasible(union, g, fs, rows) && Clustered(g, rows) && start < |rows| && RunStart(g, rows, start)
    ensures GroupKey(g, rows[start]) in Gather(fs, g, rows)
    ensures GroupResult(union, g, fs, rows, start)
            == KeyColumns(union, g, GroupKey(g, rows[start])) + FinishAll(fs, Gather(fs, g, rows)[GroupKey(g, rows[start])])
  {
    var key := GroupKey(g, rows[start]);
    RunIsAllOfItsKey(g, rows, start);
    GatherGroups(fs, g, rows, key);
  }
}

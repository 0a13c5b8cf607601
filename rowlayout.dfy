/**
 * Building rows: the group key of an input row (keySelector, and the first half of Grouping.send), and one output
 * row (resultSelector, and the body of Grouping.end): the union's key columns first, then one result per
 * aggregate call.
 */
module RowLayout {
  import opened Values
  import opened BitSets
  import opened AccumSpec
  import opened AccumLists

  predicate PositionsWithin(ms: seq<nat>, row: Row) {
    forall k :: 0 <= k < |ms| ==> ms[k] < |row|
  }

  /** The values of row at positions ms, in the order of ms. */
  function Project(row: Row, ms: seq<nat>): (key: Row)
    requires PositionsWithin(ms, row)
    ensures |key| == |ms|
  {
    seq(|ms|, k requires 0 <= k < |ms| => row[ms[k]])
  }

  /** Two rows have the same key exactly when they agree on every key position. */
  lemma SameKeyIffSameColumns(r1: Row, r2: Row, ms: seq<nat>)
    requires PositionsWithin(ms, r1) && PositionsWithin(ms, r2)
    ensures Project(r1, ms) == Project(r2, ms) <==> forall k :: 0 <= k < |ms| ==> r1[ms[k]] == r2[ms[k]]
  {
    if forall k :: 0 <= k < |ms| ==> r1[ms[k]] == r2[ms[k]] {
      assert forall k :: 0 <= k < |ms| ==> Project(r1, ms)[k] == Project(r2, ms)[k];
    } else {
      var k :| 0 <= k < |ms| && r1[ms[k]] != r2[ms[k]];
      assert Project(r1, ms)[k] != Project(r2, ms)[k];
    }
  }

  /** Copies row's values at positions ms, one after another, into a new key row. */
  method KeyOf(row: Row, ms: seq<nat>) returns (key: Row)
    requires PositionsWithin(ms, row)
    ensures |key| == |ms|
    ensures forall k :: 0 <= k < |ms| ==> key[k] == row[ms[k]]
    ensures key == Project(row, ms)
  {
    key := [];
    var j := 0;
    while j < |ms|
      invariant 0 <= j <= |ms| && |key| == j
      invariant forall k :: 0 <= k < j ==> key[k] == row[ms[k]]
    {
      key := key + [row[ms[j]]];
      j := j + 1;
    }
  }

  /**
   * The row builder reads key[index] for the index-th member of the union whenever that member is in the grouping
   * set; this holds when every such index lies inside the key, and otherwise the Java code throws.
   */
  predicate LayoutOk(union: BitSet, grouping: BitSet, keyLength: nat) {
    forall idx :: 0 <= idx < |Members(union)| && Get(grouping, Members(union)[idx]) ==> idx < keyLength
  }

  /**
   * The key part of an output row: one column per member of the union; column idx holds key[idx] when the idx-th
   * union member is in the grouping set and stays null otherwise.
   */
  function KeyColumns(union: BitSet, grouping: BitSet, key: Row): (cols: Row)
    requires LayoutOk(union, grouping, |key|)
    ensures |cols| == |Members(union)|
  {
    seq(|Members(union)|, idx requires 0 <= idx < |Members(union)| =>
      if Get(grouping, Members(union)[idx]) then key[idx] else Null)
  }

  /**
   * When the grouping set is the union itself (one grouping set, as an Aggregate without GROUPING SETS has) the
   * key columns are the key, and so the grouped columns' values in ascending column order.
   */
  lemma KeyColumnsOfWholeUnion(g: BitSet, row: Row)
    requires PositionsWithin(Members(g), row)
    ensures LayoutOk(g, g, |Project(row, Members(g))|)
    ensures KeyColumns(g, g, Project(row, Members(g))) == Project(row, Members(g))
    ensures forall k :: 0 <= k < |Members(g)| ==> KeyColumns(g, g, Project(row, Members(g)))[k] == row[Members(g)[k]]
  {
    MembersAreSetBits(g);
  }

  /**
   * The row builder indexes the key by the position in the union, not in the grouping set: with union {0, 1} and
   * grouping set {1}, whose keys have one column, it reads key[1].
   */
  lemma GroupingSubsetReadsPastKey()
    ensures Members([true, true]) == [0, 1] && Members([false, true]) == [1]
    ensures !LayoutOk([true, true], [false, true], |Members([false, true])|)
  {
    assert Members([true, true]) == [0, 1] by {
      assert [true, true][..1] == [true];
      assert [true][..0] == [];
    }
    assert Members([false, true]) == [1] by {
      assert [false, true][..1] == [false];
      assert [false][..0] == [];
    }
    assert Get([false, true], Members([true, true])[1]);
  }

  /** A sequence whose first elements are those of front, and whose remaining elements are back, is front + back. */
  lemma Concatenation(s: seq<Value>, front: seq<Value>, back: seq<Value>)
    requires |front| <= |s| && s[|front|..] == back
    requires forall j :: 0 <= j < |front| ==> s[j] == front[j]
    ensures s == front + back
  {
  }

  /**
   * A fresh row of the given width whose first columns are the key columns of the union; the columns after them
   * stay null.
   */
  method KeyColumnsRow(union: BitSet, grouping: BitSet, key: Row, width: nat) returns (rb: array<Value>)
    requires LayoutOk(union, grouping, |key|) && |Members(union)| <= width
    ensures fresh(rb) && rb.Length == width
    ensures forall j :: 0 <= j < |Members(union)| ==> rb[j] == KeyColumns(union, grouping, key)[j]
    ensures forall j :: |Members(union)| <= j < width ==> rb[j] == Null
  {
    rb := new Value[width](_ => Null);
    var ms := Members(union);
    ghost var cols := KeyColumns(union, grouping, key);
    var index := 0;
    while index < |ms|
      invariant 0 <= index <= |ms|
      invariant forall j :: 0 <= j < index ==> rb[j] == cols[j]
      invariant forall j :: index <= j < rb.Length ==> rb[j] == Null
    {
      var groupPos := ms[index];
      if Get(grouping, groupPos) {
        rb[index] := key[index];
      }
      index := index + 1;
    }
  }

  /**
   * The resultSelector: builds one output row of width union-cardinality plus list size, the key columns first,
   * then list.end writes the accumulator results into the remaining columns.
   */
  method FillResultRow(union: BitSet, grouping: BitSet, key: Row, list: AccumulatorList, width: nat)
    returns (rb: array<Value>)
    requires list.Valid() && LayoutOk(union, grouping, |key|)
    requires width == Cardinality(union) + |list.accs|
    ensures fresh(rb)
    ensures AllTyped(list.Factories(), list.states)
    ensures rb[..] == KeyColumns(union, grouping, key) + FinishAll(list.Factories(), list.states)
  {
    CardinalityIsMemberCount(union);
    rb := KeyColumnsRow(union, grouping, key, width);
    list.End(rb);
    Concatenation(rb[..], KeyColumns(union, grouping, key), FinishAll(list.Factories(), list.states));
  }
}

/**
 * Grouping: hash aggregation for one grouping set. send looks the row's key up in a map from key to
 * AccumulatorList, creating a fresh list for a new key, and sends the row to that list; end builds one output
 * row per entry. The pure functions Absorb and Gather say what the map holds after one row and after many.
 */
module Groupings {
  import opened Values
  import opened BitSets
  import opened AccumSpec
  import opened AccumLists
  import opened RowLayout

  /** The key of row under grouping set g: its values at g's members, in ascending column order. */
  function GroupKey(g: BitSet, row: Row): (key: Row)
    requires PositionsWithin(Members(g), row)
    ensures |key| == |Members(g)|
  {
    Project(row, Members(g))
  }

  predicate AllWithin(g: BitSet, rows: seq<Row>) {
    forall k :: 0 <= k < |rows| ==> PositionsWithin(Members(g), rows[k])
  }

  /** Every entry of m holds one state per factory, of the factory's kind. */
  predicate EntriesTyped(fs: seq<Factory>, m: map<Row, seq<State>>) {
    forall k :: k in m ==> AllTyped(fs, m[k])
  }

  /** The map with an entry for key: unchanged when it has one, else with a new entry in the initial state. */
  function Opened(fs: seq<Factory>, m: map<Row, seq<State>>, key: Row): (r: map<Row, seq<State>>)
    requires EntriesTyped(fs, m)
    ensures EntriesTyped(fs, r) && r.Keys == m.Keys + {key}
    ensures key in m ==> r == m
    ensures key !in m ==> r[key] == InitialAll(fs) && forall k :: k in m ==> r[k] == m[k]
  {
    if key in m then m else m[key := InitialAll(fs)]
  }

  /** One send: the row's entry, created in its initial state when missing, takes one step; no other entry changes. */
  function Absorb(fs: seq<Factory>, g: BitSet, m: map<Row, seq<State>>, row: Row): (r: map<Row, seq<State>>)
    requires EntriesTyped(fs, m) && PositionsWithin(Members(g), row) && RowFits(fs, row)
    ensures EntriesTyped(fs, r)
    ensures r.Keys == m.Keys + {GroupKey(g, row)}
  {
    var key := GroupKey(g, row);
    var o := Opened(fs, m, key);
    o[key := StepAll(fs, o[key], row)]
  }

  /** The map after sending rows, in order, to a fresh Grouping. */
  function Gather(fs: seq<Factory>, g: BitSet, rows: seq<Row>): (r: map<Row, seq<State>>)
    requires AllWithin(g, rows) && RowsFit(fs, rows)
    ensures EntriesTyped(fs, r)
  {
    if rows == [] then map[]
    else Absorb(fs, g, Gather(fs, g, rows[..|rows| - 1]), rows[|rows| - 1])
  }

  /** The rows whose key under g is key, in order. */
  function WithKey(g: BitSet, rows: seq<Row>, key: Row): (sel: seq<Row>)
    requires AllWithin(g, rows)
    ensures forall k :: 0 <= k < |sel| ==> sel[k] in rows && GroupKey(g, sel[k]) == key
  {
    if rows == [] then []
    else
      var init := rows[..|rows| - 1];
      var sel := WithKey(g, init, key);
      assert forall k :: 0 <= k < |sel| ==> sel[k] in rows by {
        forall k | 0 <= k < |sel| ensures sel[k] in rows {
          var j :| 0 <= j < |init| && init[j] == sel[k];
          assert rows[j] == sel[k];
        }
      }
      sel + (if GroupKey(g, rows[|rows| - 1]) == key then [rows[|rows| - 1]] else [])
  }

  /** Sending one more row to a list of accumulators is one more step. */
  lemma RunAllSnoc(fs: seq<Factory>, ss: seq<State>, rows: seq<Row>, row: Row)
    requires AllTyped(fs, ss) && RowsFit(fs, rows) && RowFits(fs, row)
    ensures RowsFit(fs, rows + [row])
    ensures RunAll(fs, ss, rows + [row]) == StepAll(fs, RunAll(fs, ss, rows), row)
  {
    assert (rows + [row])[..|rows|] == rows;
  }

  /**
   * After a run, the map has an entry exactly for the keys some row has, and each entry is the accumulator list
   * that was sent exactly the rows with that key, in order, starting from its initial state.
   */
  lemma {:induction false} GatherGroups(fs: seq<Factory>, g: BitSet, rows: seq<Row>, key: Row)
    requires AllWithin(g, rows) && RowsFit(fs, rows)
    ensures RowsFit(fs, WithKey(g, rows, key))
    ensures key in Gather(fs, g, rows) <==> WithKey(g, rows, key) != []
    ensures key in Gather(fs, g, rows) ==>
            Gather(fs, g, rows)[key] == RunAll(fs, InitialAll(fs), WithKey(g, rows, key))
  {
    var sel := WithKey(g, rows, key);
    assert RowsFit(fs, sel) by {
      forall k | 0 <= k < |sel| ensures RowFits(fs, sel[k]) {
        var j :| 0 <= j < |rows| && rows[j] == sel[k];
      }
    }
    if rows != [] {
      var init := rows[..|rows| - 1];
      var last := rows[|rows| - 1];
      assert AllWithin(g, init) && RowsFit(fs, init);
      GatherGroups(fs, g, init, key);
      var m := Gather(fs, g, init);
      var w := WithKey(g, init, key);
      if GroupKey(g, last) == key {
        assert sel == w + [last];
        RunAllSnoc(fs, InitialAll(fs), w, last);
        if key !in m {
          assert w == [];
        }
      } else {
        assert sel == w;
      }
    }
  }

  /** Every key of order has an entry in m and a width the row builder can read. */
  predicate KeysOf(union: BitSet, g: BitSet, m: map<Row, seq<State>>, order: seq<Row>) {
    forall i :: 0 <= i < |order| ==> order[i] in m && LayoutOk(union, g, |order[i]|)
  }

  /** What Grouping.end yields for the entries of m visited in the given order: key columns, then the results. */
  function EndRows(union: BitSet, g: BitSet, fs: seq<Factory>, m: map<Row, seq<State>>, order: seq<Row>): (rows: seq<Row>)
    requires EntriesTyped(fs, m) && KeysOf(union, g, m, order)
    ensures |rows| == |order|
  {
    seq(|order|, i requires 0 <= i < |order| => KeyColumns(union, g, order[i]) + FinishAll(fs, m[order[i]]))
  }

  /** The rows for one more key of the order: the rows so far, then that key's row. */
  lemma EndRowsSnoc(union: BitSet, g: BitSet, fs: seq<Factory>, m: map<Row, seq<State>>, order: seq<Row>, i: nat)
    requires EntriesTyped(fs, m) && KeysOf(union, g, m, order) && i < |order|
    ensures KeysOf(union, g, m, order[..i]) && KeysOf(union, g, m, order[..i + 1])
    ensures EndRows(union, g, fs, m, order[..i + 1])
            == EndRows(union, g, fs, m, order[..i]) + [KeyColumns(union, g, order[i]) + FinishAll(fs, m[order[i]])]
  {
    assert KeysOf(union, g, m, order[..i]);
    assert KeysOf(union, g, m, order[..i + 1]);
    var front := EndRows(union, g, fs, m, order[..i]);
    var whole := EndRows(union, g, fs, m, order[..i + 1]);
    assert forall j :: 0 <= j < i ==> whole[j] == front[j];
  }

  class Grouping {
    const grouping: BitSet
    /** The key width: grouping.cardinality(). */
    const keyWidth: nat
    /** What the enclosing executor holds: the factories, the union of the grouping sets and the output width. */
    const factories: seq<Factory>
    const unionGroups: BitSet
    const outputRowLength: nat
    var accumulators: map<Row, AccumulatorList>
    /** The states of each entry's accumulators. */
    ghost var contents: map<Row, seq<State>>
    ghost var Repr: set<object>

    /** The entry for key k: a valid list of the executor's factories, owned by this Grouping, mirrored in contents. */
    ghost predicate EntryOk(k: Row)
      requires k in accumulators && k in contents
      reads this, Repr
    {
      var list := accumulators[k];
      && list in Repr && list.Repr <= Repr && this !in list.Repr
      && list.Valid() && list.Factories() == factories && list.states == contents[k]
    }

    /** Different entries share no object. */
    ghost predicate Disjoint()
      reads this
    {
      forall k1, k2 :: k1 in accumulators && k2 in accumulators && k1 != k2 ==>
        accumulators[k1].Repr !! accumulators[k2].Repr
    }

    ghost predicate Valid()
      reads this, Repr
    {
      && this in Repr
      && keyWidth == Cardinality(grouping)
      && outputRowLength == Cardinality(unionGroups) + |factories|
      && accumulators.Keys == contents.Keys
      && (forall k :: k in accumulators ==> |k| == keyWidth)
      && (forall k :: k in accumulators ==> EntryOk(k))
      && Disjoint()
    }

    lemma ContentsTyped()
      requires Valid()
      ensures EntriesTyped(factories, contents)
    {
      forall k | k in contents ensures AllTyped(factories, contents[k]) {
        assert EntryOk(k);
        accumulators[k].StatesTyped();
      }
    }

    constructor (grouping: BitSet, factories: seq<Factory>, unionGroups: BitSet, outputRowLength: nat)
      requires outputRowLength == Cardinality(unionGroups) + |factories|
      ensures Valid() && fresh(Repr)
      ensures this.grouping == grouping && this.factories == factories
      ensures this.unionGroups == unionGroups && this.outputRowLength == outputRowLength
      ensures contents == map[]
    {
      this.grouping := grouping;
      this.keyWidth := Cardinality(grouping);
      this.factories := factories;
      this.unionGroups := unionGroups;
      this.outputRowLength := outputRowLength;
      accumulators := map[];
      contents := map[];
      Repr := {this};
    }

    /** Valid() depends only on this and the objects of Repr. */
    twostate lemma ValidFramed()
      requires old(Valid()) && unchanged(this) && unchanged(old(Repr))
      ensures Valid()
    {
    }

    /** Adding an entry for a new key with a fresh, valid list keeps the Grouping valid. */
    twostate lemma AddedEntryKeepsValid(key: Row, new list: AccumulatorList)
      requires old(Valid()) && key !in old(accumulators) && |key| == keyWidth
      requires unchanged(old(Repr) - {this})
      requires fresh(list.Repr) && list.Valid() && list.Factories() == factories
      requires accumulators == old(accumulators)[key := list] && contents == old(contents)[key := list.states]
      requires Repr == old(Repr) + list.Repr
      ensures Valid()
    {
      OldEntriesKept(key, list);
      assert EntryOk(key);
    }

    /** The entries a new key leaves alone stay as they were. */
    twostate lemma OldEntriesKept(key: Row, new list: AccumulatorList)
      requires old(Valid()) && key !in old(accumulators)
      requires unchanged(old(Repr) - {this})
      requires fresh(list.Repr)
      requires accumulators == old(accumulators)[key := list] && contents == old(contents)[key := list.states]
      requires Repr == old(Repr) + list.Repr
      ensures forall k :: k in old(accumulators) ==> EntryOk(k) && accumulators[k].Repr !! list.Repr
    {
      forall k | k in old(accumulators) ensures EntryOk(k) && accumulators[k].Repr !! list.Repr {
        assert old(EntryOk(k));
      }
    }

    /** A step of one entry's list, with every other object left alone, keeps the Grouping valid. */
    twostate lemma SentEntryKeepsValid(key: Row)
      requires old(Valid()) && key in old(accumulators)
      requires accumulators == old(accumulators) && Repr == old(Repr)
      requires unchanged(old(Repr) - accumulators[key].Repr - {this})
      requires accumulators[key].Valid()
      requires contents == old(contents)[key := accumulators[key].states]
      ensures Valid()
    {
      forall k | k in accumulators && k != key ensures EntryOk(k) {
        assert old(EntryOk(k));
      }
      assert EntryOk(key);
    }

    /** The accumulator list for key, created with fresh accumulators and added to the map when missing. */
    method ListFor(key: Row) returns (list: AccumulatorList)
      requires Valid() && |key| == keyWidth
      modifies this
      ensures Valid() && fresh(Repr - old(Repr))
      ensures key in accumulators && list == accumulators[key]
      ensures EntriesTyped(factories, old(contents)) && contents == Opened(factories, old(contents), key)
    {
      ContentsTyped();
      if key !in accumulators {
        var created := new AccumulatorList(factories);
        accumulators := accumulators[key := created];
        contents := contents[key := created.states];
        Repr := Repr + created.Repr;
        AddedEntryKeepsValid(key, created);
      }
      list := accumulators[key];
    }

    /** The row goes to the existing entry for key: that list takes one step, no other entry changes. */
    method SendToEntry(key: Row, row: Row)
      requires Valid() && key in accumulators && RowFits(factories, row)
      modifies Repr
      ensures Valid() && Repr == old(Repr) && accumulators == old(accumulators)
      ensures AllTyped(factories, old(contents)[key])
      ensures contents == old(contents)[key := StepAll(factories, old(contents)[key], row)]
    {
      assert EntryOk(key);
      var list := accumulators[key];
      list.StatesTyped();
      contents := contents[key := StepAll(factories, list.states, row)];
      list.Send(row);
      SentEntryKeepsValid(key);
    }

    /** send: the row goes to the accumulator list of its key, a fresh one for a key not seen before. */
    method Send(row: Row)
      requires Valid() && PositionsWithin(Members(grouping), row) && RowFits(factories, row)
      modifies Repr
      ensures Valid() && fresh(Repr - old(Repr))
      ensures EntriesTyped(factories, old(contents))
      ensures contents == Absorb(factories, grouping, old(contents), row)
    {
      CardinalityIsMemberCount(grouping);
      var key := KeyOf(row, Members(grouping));
      var list := ListFor(key);
      SendToEntry(key, row);
    }

    /** The output row of the entry for key: the lambda Grouping.end maps over the entries. */
    method EntryRow(key: Row) returns (out: Row)
      requires Valid() && key in accumulators && LayoutOk(unionGroups, grouping, keyWidth)
      ensures AllTyped(factories, contents[key]) && LayoutOk(unionGroups, grouping, |key|)
      ensures out == KeyColumns(unionGroups, grouping, key) + FinishAll(factories, contents[key])
    {
      assert EntryOk(key);
      var list := accumulators[key];
      list.StatesTyped();
      var rb := FillResultRow(unionGroups, grouping, key, list, outputRowLength);
      out := rb[..];
    }

    /**
     * end: one output row per entry, visited in the map's iteration order (a parameter: any order listing every
     * key once). Each row holds the entry's key columns and the results of the entry's accumulators.
     */
    method End(order: seq<Row>) returns (rows: seq<Row>)
      requires Valid() && LayoutOk(unionGroups, grouping, keyWidth)
      requires forall k :: k in accumulators <==> k in order
      requires forall i, j :: 0 <= i < j < |order| ==> order[i] != order[j]
      ensures EntriesTyped(factories, contents) && KeysOf(unionGroups, grouping, contents, order)
      ensures rows == EndRows(unionGroups, grouping, factories, contents, order)
    {
      ContentsTyped();
      ghost var m := contents;
      assert KeysOf(unionGroups, grouping, m, order);
      rows := [];
      var i := 0;
      while i < |order|
        invariant 0 <= i <= |order|
        invariant KeysOf(unionGroups, grouping, m, order[..i])
        invariant rows == EndRows(unionGroups, grouping, factories, m, order[..i])
        invariant Valid() && contents == m
      {
        EndRowsSnoc(unionGroups, grouping, factories, m, order, i);
        label before:
        var out := EntryRow(order[i]);
        ValidFramed@before();
        rows := rows + [out];
        i := i + 1;
      }
      assert order[..i] == order;
    }
  }
}

/** Calcite's ImmutableBitSet, as the grouping code uses it: a set of column positions iterated in ascending order. */
module BitSets {
  import opened Values

  /** Bit i is set when i < |b| and b[i]; positions past the end are clear. */
  type BitSet = seq<bool>

  /** ImmutableBitSet.get. */
  predicate Get(b: BitSet, i: nat) {
    i < |b| && b[i]
  }

  predicate Ascending(ms: seq<nat>) {
    forall j, k :: 0 <= j < k < |ms| ==> ms[j] < ms[k]
  }

  /** The set positions in ascending order: what toArray() returns and what iteration visits. */
  function Members(b: BitSet): seq<nat> {
    if |b| == 0 then []
    else Members(b[..|b| - 1]) + (if b[|b| - 1] then [|b| - 1] else [])
  }

  /** Members lists exactly the set bits, each once, in ascending order, all below |b|. */
  lemma {:induction false} MembersAreSetBits(b: BitSet)
    ensures Ascending(Members(b))
    ensures forall k :: 0 <= k < |Members(b)| ==> Get(b, Members(b)[k]) && Members(b)[k] < |b|
    ensures forall i :: 0 <= i < |b| && b[i] ==> i in Members(b)
  {
    if |b| > 0 {
      var init := b[..|b| - 1];
      MembersAreSetBits(init);
      var ms := Members(init);
      assert forall k :: 0 <= k < |ms| ==> Get(b, ms[k]) by {
        forall k | 0 <= k < |ms| ensures Get(b, ms[k]) {
          assert Get(init, ms[k]);
        }
      }
      assert forall i :: 0 <= i < |init| && init[i] ==> i in ms;
    }
  }

  /** ImmutableBitSet.cardinality: the number of set bits. */
  function Cardinality(b: BitSet): nat {
    if |b| == 0 then 0
    else Cardinality(b[..|b| - 1]) + (if b[|b| - 1] then 1 else 0)
  }

  lemma {:induction false} CardinalityIsMemberCount(b: BitSet)
    ensures |Members(b)| == Cardinality(b)
  {
    if |b| > 0 {
      CardinalityIsMemberCount(b[..|b| - 1]);
    }
  }

  /** ImmutableBitSet.union. */
  function Union(a: BitSet, b: BitSet): (u: BitSet)
    ensures forall i: nat :: Get(u, i) <==> Get(a, i) || Get(b, i)
  {
    seq(if |a| < |b| then |b| else |a|, i requires 0 <= i => Get(a, i) || Get(b, i))
  }

  /** Every member of b lies inside a row of the given width. */
  predicate Within(b: BitSet, width: nat) {
    forall k :: 0 <= k < |Members(b)| ==> Members(b)[k] < width
  }
}

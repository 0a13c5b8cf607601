# MycatSortAggExecutor in Dafny

This project models the in-memory GROUP BY executor of Mycat's HBT engine,
`hbt/src/main/java/io/mycat/hbt4/executor/MycatSortAggExecutor.java`. It proves properties of that model.

The executor has five parts, and the model follows them file by file:

- **Accumulators** (`accumulators.dfy`). These are the objects that absorb rows one at a time:
  - `CountAccumulator` counts rows whose argument columns are all non-null.
  - `UdaAccumulator` keeps `value` and `empty` and is driven by an init/add/result table.
  - `FilterAccumulator` forwards a row only when its filter column holds TRUE.

  Each is a class whose `Send` and `End` are proved against the pure step functions in `accumspec.dfy`.
- **Tables** (`udaops.dfy`). These are the stateless init/add/result tables:
  - `IntSum`, `LongSum` and `BigDecimalSum`;
  - the `NumericComparison` instances `MinInt`, `MinLong`, `MinBigDecimal`, `MaxInt`, `MaxLong` and `MaxBigDecimal`;
  - `MinBoolean`.

  They are written as functions. Lemmas give the closed form of each fold.
- **Factory resolver** (`resolver.dfy`). `getAccumulator` picks a factory by aggregate kind and declared type and puts the FILTER wrap outermost. A table factory rejects any argument list whose size is not one.
- **Accumulator lists and hash grouping** (`acclist.dfy`, `rowlayout.dfy`, `grouping.dfy`, `bitsets.dfy`):
  - `AccumulatorList` sends a row to every accumulator and writes the results into the tail of an output row.
  - `Grouping` maps each key to its accumulator list in place.
  - The key-projection closure (keySelector) and the result-row closure (resultSelector) are modelled too.
  - `ImmutableBitSet` is modelled as a sequence of booleans.
- **Executor lifecycle** (`executor.dfy`, `sortedagg.dfy`):
  - The constructor's loops build the grouping-set union, the `Grouping` objects and the factories.
  - `open` is idempotent, `next` yields one output row per run of equal keys, and `close` always closes the input.
  - The pure functions in `sortedagg.dfy` define that run-by-run output. Lemmas there prove:
    - the runs partition the input;
    - COUNT(*) of a run is its length;
    - when rows of one key are adjacent, the sorted path and `Grouping` give the same row for each key.
    - reordering the rows inside a run changes neither its key nor any of its aggregates.

Java `int` and `long` arithmetic wraps around (two's complement), and the model writes that wrap-around out: `Wrap32`, `Wrap64`, and COUNT's `cnt++`.

`BigDecimal` is modelled by its numeric value, as a `real`. `Double.MIN_VALUE` and `Double.MAX_VALUE` are the exact values `new BigDecimal(double)` gives them.

Two quirks of the code are modelled as written, and each is shown by a lemma:
- `MaxBigDecimal` starts from `Double.MIN_VALUE`, which is a tiny positive number.
- The result row reads `key[index]`, where `index` counts members of the union of grouping sets and not of the grouping set.

## Model

| member | source | states |
|---|---|---|
| Values.Wrap32 | hbt/src/main/java/io/mycat/hbt4/executor/MycatSortAggExecutor.java:553-555 | int addition: the result is the 32-bit value congruent to the exact sum and equals it when no overflow occurs |
| Values.Wrap64 | hbt/src/main/java/io/mycat/hbt4/executor/MycatSortAggExecutor.java:578-580 | long addition (LongSum.add, cnt++): congruent modulo 2^64, exact when in range |
| UdaOps.Init | hbt/src/main/java/io/mycat/hbt4/executor/MycatSortAggExecutor.java:549-551 | init() has the table's state type; the sums start at 0, and MinInt/MaxInt, MinLong/MaxLong and MinBoolean start at a value the first add replaces by the value sent |
| UdaOps.Add | hbt/src/main/java/io/mycat/hbt4/executor/MycatSortAggExecutor.java:553-555 | add() keeps the state type; IntSum and LongSum add modulo 2^32 and 2^64, BigDecimalSum exactly; a comparison returns one of its two arguments, at most (MIN) or at least (MAX) both; MinBoolean is the conjunction |
| UdaOps.Result | hbt/src/main/java/io/mycat/hbt4/executor/MycatSortAggExecutor.java:561-563 | result() returns the accumulator itself, of the table's state type, for every table |
| UdaOps.AddCommutes | hbt/src/main/java/io/mycat/hbt4/executor/MycatSortAggExecutor.java:647-671 | two adds in either order give the same accumulator, for every modelled table (tied comparisons keep equal values) |
| UdaOps.IntSumFold | hbt/src/main/java/io/mycat/hbt4/executor/MycatSortAggExecutor.java:545-564 | IntSum folded over v1..vn (Byte, Short or Integer, widened by Method.invoke) from a is a + v1 + ... + vn wrapped to an int |
| UdaOps.LongSumFold | hbt/src/main/java/io/mycat/hbt4/executor/MycatSortAggExecutor.java:570-589 | LongSum folded over Byte, Short, Integer or Long values (widened by Method.invoke) is a + the sum wrapped to a long |
| UdaOps.BigDecimalSumFold | hbt/src/main/java/io/mycat/hbt4/executor/MycatSortAggExecutor.java:620-639 | BigDecimalSum folded over v1..vn is a + v1 + ... + vn exactly |
| UdaOps.IntegralSumWithoutOverflow | hbt/src/main/java/io/mycat/hbt4/executor/MycatSortAggExecutor.java:549-555 | without overflow, SUM over int from init() 0 is the exact sum of the values |
| UdaOps.MinFold | hbt/src/main/java/io/mycat/hbt4/executor/MycatSortAggExecutor.java:647-671 | a MIN comparison fold is at most its start and every value, and is its start or one of the values |
| UdaOps.MaxFold | hbt/src/main/java/io/mycat/hbt4/executor/MycatSortAggExecutor.java:647-671 | a MAX comparison fold is at least its start and every value, and is its start or one of the values |
| UdaOps.MinIntegralIsSmallestSent | hbt/src/main/java/io/mycat/hbt4/executor/MycatSortAggExecutor.java:677-691 | MinInt and MinLong start at MAX_VALUE, so over non-empty input they give the smallest value sent |
| UdaOps.MaxIntegralIsLargestSent | hbt/src/main/java/io/mycat/hbt4/executor/MycatSortAggExecutor.java:756-770 | MaxInt and MaxLong start at MIN_VALUE, so over non-empty input they give the largest value sent |
| UdaOps.MaxBigDecimalOfNegatives | hbt/src/main/java/io/mycat/hbt4/executor/MycatSortAggExecutor.java:796-804 | MaxBigDecimal over negative values yields Double.MIN_VALUE, not the largest value sent |
| UdaOps.MinBigDecimalAboveDoubleRange | hbt/src/main/java/io/mycat/hbt4/executor/MycatSortAggExecutor.java:717-725 | MinBigDecimal over values above Double.MAX_VALUE yields Double.MAX_VALUE |
| UdaOps.MinBooleanFold | hbt/src/main/java/io/mycat/hbt4/executor/MycatSortAggExecutor.java:731-750 | MinBoolean from b is FALSE exactly when b is FALSE or some FALSE was sent |
| AccumSpec.CountRun | hbt/src/main/java/io/mycat/hbt4/executor/MycatSortAggExecutor.java:350-361 | after a run, cnt is its start plus the number of rows whose argument columns are all non-null, as a Java long |
| AccumSpec.QualifyingWithoutArgs | hbt/src/main/java/io/mycat/hbt4/executor/MycatSortAggExecutor.java:351-357 | with an empty argument list every row qualifies |
| AccumSpec.CountEnd | hbt/src/main/java/io/mycat/hbt4/executor/MycatSortAggExecutor.java:341-366 | a fresh COUNT ends with the number of qualifying rows (exactly, below 2^63) |
| AccumSpec.UdaRun | hbt/src/main/java/io/mycat/hbt4/executor/MycatSortAggExecutor.java:861-874 | after a run, value is the table fold over the non-null argument values and empty is true exactly when there were none |
| AccumSpec.UdaEnd | hbt/src/main/java/io/mycat/hbt4/executor/MycatSortAggExecutor.java:876-886 | end() is null exactly when nullIfEmpty holds and no non-null value came; otherwise result(fold from init()); SUM0 over nothing gives init() |
| AccumSpec.FilterRun | hbt/src/main/java/io/mycat/hbt4/executor/MycatSortAggExecutor.java:893-911 | a filtered accumulator ends where the unfiltered one ends over only the rows whose filter column is TRUE, with the same end() |
| AccumSpec.RunAllPointwise | hbt/src/main/java/io/mycat/hbt4/executor/MycatSortAggExecutor.java:517-521 | sending rows to a whole list leaves each accumulator where it would be if sent the rows alone |
| AccumSpec.StepCommutes | hbt/src/main/java/io/mycat/hbt4/executor/MycatSortAggExecutor.java:861-874 | sending two rows to any accumulator, COUNT, table or FILTER, in either order leaves it in the same state |
| AccumSpec.RunPermutation | hbt/src/main/java/io/mycat/hbt4/executor/MycatSortAggExecutor.java:129-133 | sending any permutation of the same rows leaves an accumulator in the same state with the same end() |
| AccumSpec.RunAllPermutation | hbt/src/main/java/io/mycat/hbt4/executor/MycatSortAggExecutor.java:517-521 | sending any permutation of the same rows leaves a whole accumulator list in the same states |
| Accumulators.CountAccumulator.constructor | hbt/src/main/java/io/mycat/hbt4/executor/MycatSortAggExecutor.java:345-348 | a new COUNT keeps the call's argument list and starts at cnt = 0 |
| Accumulators.CountAccumulator.Send | hbt/src/main/java/io/mycat/hbt4/executor/MycatSortAggExecutor.java:350-361 | cnt rises by one (wrapping) exactly when every argument column is non-null, else stays |
| Accumulators.CountAccumulator.End | hbt/src/main/java/io/mycat/hbt4/executor/MycatSortAggExecutor.java:363-365 | end() returns cnt as a Long |
| Accumulators.UdaAccumulator.constructor | hbt/src/main/java/io/mycat/hbt4/executor/MycatSortAggExecutor.java:851-859 | a new table accumulator starts at value = init(), empty = true |
| Accumulators.UdaAccumulator.Send | hbt/src/main/java/io/mycat/hbt4/executor/MycatSortAggExecutor.java:861-874 | a null argument changes nothing; otherwise value := add(value, v) and empty := false |
| Accumulators.UdaAccumulator.End | hbt/src/main/java/io/mycat/hbt4/executor/MycatSortAggExecutor.java:876-886 | null when nullIfEmpty and empty, otherwise result(value) |
| Accumulators.FilterAccumulator.constructor | hbt/src/main/java/io/mycat/hbt4/executor/MycatSortAggExecutor.java:897-900 | a new FilterAccumulator keeps the accumulator it wraps and the filter column |
| Accumulators.FilterAccumulator.Send | hbt/src/main/java/io/mycat/hbt4/executor/MycatSortAggExecutor.java:902-906 | the wrapped accumulator steps only when the filter column holds TRUE; null or FALSE leave it unchanged |
| Accumulators.FilterAccumulator.End | hbt/src/main/java/io/mycat/hbt4/executor/MycatSortAggExecutor.java:908-910 | end() is the wrapped accumulator's end() |
| Accumulators.SendAcc | hbt/src/main/java/io/mycat/hbt4/executor/MycatSortAggExecutor.java:535-539 | Accumulator.send, dispatched to whichever accumulator it is, takes exactly the step of that accumulator's factory |
| Accumulators.EndAcc | hbt/src/main/java/io/mycat/hbt4/executor/MycatSortAggExecutor.java:535-539 | Accumulator.end, dispatched, returns that factory's end() of the current state |
| Accumulators.NewAccumulator | hbt/src/main/java/io/mycat/hbt4/executor/MycatSortAggExecutor.java:184-190 | factory.get() builds a fresh accumulator of that factory in its initial state, a FILTER factory wrapping a fresh base one |
| Resolver.GetAccumulator | hbt/src/main/java/io/mycat/hbt4/executor/MycatSortAggExecutor.java:180-264 | the factory is a FILTER factory on filterArg exactly when filterArg >= 0 and the filter is not ignored; COUNT always resolves to a count over the call's arguments; AVG and the other aggregates are outside the model |
| Resolver.NewUdaFactory | hbt/src/main/java/io/mycat/hbt4/executor/MycatSortAggExecutor.java:815-836 | the factory fails with UnsupportedOperationException exactly when the argument list size is not one (a one-argument failure is only the unmodelled floating-point table), else reads argument 0 with the given nullIfEmpty |
| Resolver.FilterWrappedOnce | hbt/src/main/java/io/mycat/hbt4/executor/MycatSortAggExecutor.java:182-188 | the FILTER wrap is applied once, outermost, around the unfiltered factory, and only when filterArg >= 0 |
| Resolver.TableAggregateArity | hbt/src/main/java/io/mycat/hbt4/executor/MycatSortAggExecutor.java:818-821 | SUM, SUM0, MIN and MAX fail at build time exactly when the call does not have one argument |
| Resolver.CountAlwaysResolves | hbt/src/main/java/io/mycat/hbt4/executor/MycatSortAggExecutor.java:189-190 | COUNT always resolves to a count over the call's argument list |
| Resolver.TableFactoryShape | hbt/src/main/java/io/mycat/hbt4/executor/MycatSortAggExecutor.java:191-264 | a resolved SUM/SUM0/MIN/MAX reads the one argument, uses the declared type's table, and sets nullIfEmpty except for SUM0 |
| Resolver.MaxBooleanFallsToLong | hbt/src/main/java/io/mycat/hbt4/executor/MycatSortAggExecutor.java:243-264 | MAX over BOOLEAN falls to MaxLong, whose add rejects Booleans |
| Resolver.ResolveAll | hbt/src/main/java/io/mycat/hbt4/executor/MycatSortAggExecutor.java:90-94 | the factories of all calls in call order, or the failure of the first call that fails |
| BitSets.MembersAreSetBits | hbt/src/main/java/io/mycat/hbt4/executor/MycatSortAggExecutor.java:108-109 | toArray lists exactly the set bits, ascending, each below the bit set's length |
| BitSets.CardinalityIsMemberCount | hbt/src/main/java/io/mycat/hbt4/executor/MycatSortAggExecutor.java:476-480 | cardinality() is the number of members iterated |
| BitSets.Union | hbt/src/main/java/io/mycat/hbt4/executor/MycatSortAggExecutor.java:81-81 | a bit is set in the union exactly when it is set in either operand |
| AccumLists.AccumulatorList.constructor | hbt/src/main/java/io/mycat/hbt4/executor/MycatSortAggExecutor.java:119-128 | the accumulatorInitializer: one fresh accumulator per factory, in factory order, each in its initial state |
| AccumLists.AccumulatorList.Send | hbt/src/main/java/io/mycat/hbt4/executor/MycatSortAggExecutor.java:517-521 | every accumulator of the list takes one step on the row |
| AccumLists.AccumulatorList.End | hbt/src/main/java/io/mycat/hbt4/executor/MycatSortAggExecutor.java:523-528 | accumulator i's end() goes to position r.size() - size() + i; positions before that are untouched |
| RowLayout.KeyOf | hbt/src/main/java/io/mycat/hbt4/executor/MycatSortAggExecutor.java:110-118 | the keySelector: the key has one column per group-set member, holding the row's value there, in ascending column order |
| RowLayout.SameKeyIffSameColumns | hbt/src/main/java/io/mycat/hbt4/executor/MycatSortAggExecutor.java:476-481 | two rows have equal keys exactly when they agree on every grouped column |
| RowLayout.KeyColumnsRow | hbt/src/main/java/io/mycat/hbt4/executor/MycatSortAggExecutor.java:139-147 | a fresh row of the output width whose key columns are filled by union position, with null where the member is not grouped and in every column after the key columns |
| RowLayout.FillResultRow | hbt/src/main/java/io/mycat/hbt4/executor/MycatSortAggExecutor.java:136-151 | the resultSelector: key columns, then the list's results in call order |
| RowLayout.KeyColumnsOfWholeUnion | hbt/src/main/java/io/mycat/hbt4/executor/MycatSortAggExecutor.java:139-147 | when the grouping set is the union, the key columns are the key |
| RowLayout.GroupingSubsetReadsPastKey | hbt/src/main/java/io/mycat/hbt4/executor/MycatSortAggExecutor.java:499-506 | with union {0,1} and grouping {1}, the row builder reads past the one-column key |
| Groupings.Opened | hbt/src/main/java/io/mycat/hbt4/executor/MycatSortAggExecutor.java:483-489 | an entry is added only for an absent key, in the initial state; existing entries are kept |
| Groupings.GatherGroups | hbt/src/main/java/io/mycat/hbt4/executor/MycatSortAggExecutor.java:474-492 | after any sequence of sends, a key has an entry exactly when some row had it, and the entry is a fresh list run over exactly those rows in order |
| Groupings.Grouping.constructor | hbt/src/main/java/io/mycat/hbt4/executor/MycatSortAggExecutor.java:470-472 | a new Grouping has an empty map |
| Groupings.Grouping.ListFor | hbt/src/main/java/io/mycat/hbt4/executor/MycatSortAggExecutor.java:483-489 | a missing key gets a fresh list with one accumulator per factory; no other entry changes |
| Groupings.Grouping.SendToEntry | hbt/src/main/java/io/mycat/hbt4/executor/MycatSortAggExecutor.java:491-491 | only that key's list absorbs the row; every other entry is unchanged |
| Groupings.Grouping.Send | hbt/src/main/java/io/mycat/hbt4/executor/MycatSortAggExecutor.java:474-492 | the map after send is Absorb of the map before: the row's key entry, created when missing, takes one step |
| Groupings.Grouping.EntryRow | hbt/src/main/java/io/mycat/hbt4/executor/MycatSortAggExecutor.java:495-509 | the row for one entry: key columns by union position, then the list's results |
| Groupings.Grouping.End | hbt/src/main/java/io/mycat/hbt4/executor/MycatSortAggExecutor.java:494-510 | one output row per entry, in the given enumeration order of the map |
| SortedAgg.RunEnd | hbt/src/main/java/io/mycat/hbt4/executor/MycatSortAggExecutor.java:152-158 | a run is the longest stretch of rows with the key of its first row |
| SortedAgg.RunsPartition | hbt/src/main/java/io/mycat/hbt4/executor/MycatSortAggExecutor.java:152-158 | the runs, end to end, are the input; none is empty; rows of a run share a key; neighbouring runs differ |
| SortedAgg.SortedOutputPerRun | hbt/src/main/java/io/mycat/hbt4/executor/MycatSortAggExecutor.java:152-158 | the output has one row per run: its key columns and a fresh list's results over exactly that run |
| SortedAgg.EmptyInputYieldsNothing | hbt/src/main/java/io/mycat/hbt4/executor/MycatSortAggExecutor.java:162-168 | empty input yields no row |
| SortedAgg.CountStarPerRun | hbt/src/main/java/io/mycat/hbt4/executor/MycatSortAggExecutor.java:189-190 | a COUNT(*) column of a run's row holds the run's length |
| SortedAgg.RunReorder | hbt/src/main/java/io/mycat/hbt4/executor/MycatSortAggExecutor.java:129-158 | reordering the rows inside one run leaves the run's extent and its output row, key and every aggregate, unchanged |
| SortedAgg.SortedAgreesWithHash | hbt/src/main/java/io/mycat/hbt4/executor/MycatSortAggExecutor.java:474-510 | when equal keys are adjacent, each run's row equals the row Grouping builds for that key |
| Executors.FeedRun | hbt/src/main/java/io/mycat/hbt4/executor/MycatSortAggExecutor.java:129-135 | the accumulatorAdder over a run: the list absorbs each following row while the key stays the same, and stops at the run's end |
| Executors.AggregateRun | hbt/src/main/java/io/mycat/hbt4/executor/MycatSortAggExecutor.java:110-151 | the closures over one run yield that run's output row and the run's end |
| Executors.MycatSortAggExecutor.constructor | hbt/src/main/java/io/mycat/hbt4/executor/MycatSortAggExecutor.java:74-95 | the union holds exactly the bits of some grouping set; one fresh, valid Grouping per set, each with an empty map and sharing no object with another; width = union cardinality + call count; factories in call order |
| Executors.NewGroupings | hbt/src/main/java/io/mycat/hbt4/executor/MycatSortAggExecutor.java:79-84 | `groups.add(new Grouping(group))` per grouping set: one Grouping per set in set order, each fresh, valid and with an empty map, no two sharing an object |
| Executors.NewExecutor | hbt/src/main/java/io/mycat/hbt4/executor/MycatSortAggExecutor.java:90-94 | construction fails exactly when getAccumulator fails for some call |
| Executors.MycatSortAggExecutor.Open | hbt/src/main/java/io/mycat/hbt4/executor/MycatSortAggExecutor.java:98-160 | the first open opens the input once and starts at the first row; a later open changes nothing |
| Executors.MycatSortAggExecutor.Next | hbt/src/main/java/io/mycat/hbt4/executor/MycatSortAggExecutor.java:162-168 | returns the next run's row and moves past the run, or none at the end; the rows returned are a prefix of the sorted output, all of it once none comes |
| Executors.MycatSortAggExecutor.Close | hbt/src/main/java/io/mycat/hbt4/executor/MycatSortAggExecutor.java:170-173 | every close closes the input once more |
| Executors.MycatSortAggExecutor.IsRewindSupported | hbt/src/main/java/io/mycat/hbt4/executor/MycatSortAggExecutor.java:175-178 | always true |

## Left out

- Floating point: `DoubleSum`, `MinFloat`, `MinDouble`, `MaxFloat`, `MaxDouble` and `AvgAccumulator` use IEEE doubles and floats. The resolver returns `Err(OutsideModel)` where the code builds them.
- The generated fallback accumulator (lines 267-335 and 918-978) and `ScalarAccumulator` need Calcite code generation, Janino and `Unsafe`. The resolver returns `Err(OutsideModel)` for any other aggregate.
- Reflection (the constructor lookup and `Method.invoke`) becomes direct calls into a closed set of tables.
- `Character` cells: `Method.invoke` widens a `char` to `int` and to `long`, so both `IntSum` and `LongSum` accept a `Character`. There is no `Value` for it, so a model row cannot hold one. The other cell types the model does not have are left out in the same way.
- Argument values of the wrong Java type make the reflective call throw: for `IntSum` a `Long` or anything neither integral nor a `Character`, for `LongSum` anything not a `Byte`, `Short`, `Character`, `Integer` or `Long`, for a comparison table anything but its own box (a `Short` sent to `MinLong` fails the cast to `Long`). The model excludes them by precondition (`Fits`, `InputFits`) instead of modelling those exceptions. So are column indices outside the row, and key widths the result-row builder would read past.
- `merge` of the tables: the executor never calls it.
- The streaming loop belongs to Calcite's `SortedAggregateEnumerator`, and the comparator comes from `BaseExecutorImplementor.comparator`. Neither is part of this model.
  - `Next` drives the shown closures over runs of consecutive rows, taking "same group" to mean equal keys. A comparator that orders on other columns is not modelled.
  - The row that ends a run is kept as the current position.
- `Row` equality and hashing become value equality on sequences.
- `HashMap` iteration order in `Grouping.end` is a parameter: any listing of the keys, each once.
- The child executor is a stand-in `Input`: a fixed row sequence plus open and close counters. What its own `open` and `close` do is not shown.
- Executors.MycatSortAggExecutor.Next: calling `next` before `open` throws a NullPointerException in Java; here it is a precondition.
- Executors.MycatSortAggExecutor.constructor: the Java loop builds each `Grouping` while the union is still growing; the model builds them after the union is complete. The inner class reads the executor's fields only when used, so nothing observable differs.
- The `Grouping` objects are built but never driven by `open`, which supports only the single group set. `Grouping` is proved on its own, and `SortedAgg.SortedAgreesWithHash` relates the two paths.
- `ArrayList.add` on an `AccumulatorList` is used only to fill a new list. The `AccumulatorList` constructor builds the whole list in one go, and the list is not resized afterwards.
- `FilterAccumulator.send` tests `== Boolean.TRUE`, which compares references. The model compares values, so a separately allocated `new Boolean(true)` is not told apart.
- `UdaAccumulator.send` loops over a two-element argument array from index 1. It is modelled as the single null test it performs.
- `BigDecimal` scale is not modelled: values are compared and added by their numeric value only.

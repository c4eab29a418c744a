# SciQLop variable cache, AMDA progress bookkeeping and zone range synchronisation, in Dafny

This project models four parts of SciQLop, the space-physics data viewer, and proves properties about them.

- **The time interval** `SqpDateTime` (`SqpDateTime.dfy`). It is a closed range `[tStart, tEnd]` with the `contains` and `intersect` tests. Lemmas tie both tests to the point sets they stand for.
- **The variable cache** `VariableCacheController` (`VariableCache.dfy`). For each variable it keeps the list of time intervals already fetched.
  - `addDateTime` merge-inserts a new interval into that list.
  - `provideNotInCacheDateTimeList` computes the parts of a request that are not yet cached.
  - The source's recursive helpers become `while` loops. Each loop is proved equal to a structural specification function: `MergeInsert` for the insertion, and the mutually recursive `GapsByStart` / `GapsByEnd` for the gap scan.
  - The proved properties cover both operations:
    - the insertion preserves the ordering invariant;
    - the insertion adds exactly the new points;
    - the insertion is idempotent and order-independent;
    - its exact outcome is known: one contiguous run of intersecting intervals is replaced by its hull;
    - on a proper request, the gap scan returns ascending gaps that lie inside the request and share no interior point with a cached interval (they may share endpoints), and that together with the cache cover the whole request.
- **The AMDA provider's progress map** (`AmdaProvider.dfy`). It records one progress value per network request of each acquisition, and reports the mean of those values. The mean is proved to lie between the smallest and the largest value.
- **The zone's range synchronisation** (`VisualizationZone.dfy`). When one graph of a zone changes its range, every other graph is shifted by the same amounts as the emitter's start and end, provided the zoom type is known; for an unknown zoom type each graph is set back to its own range. Acquisition is switched off around the change.

`Wrappers.dfy` holds an `Option` type. It stands for a null `std::shared_ptr<Variable>` and for a missing product id.

Time values are exact reals. Acquisition identifiers (`QUuid`), variables and network requests are type parameters with equality.

### Where the code differs from what a caller might expect (the model follows the code)

- **Unknown variable.** `provideNotInCacheDateTimeList` and `dateCacheList` look the variable up with `at`, which fails when the variable is not registered: `provideNotInCacheDateTimeList` throws `std::out_of_range`, and `dateCacheList`, being `noexcept`, terminates the program. The model therefore makes "the variable is registered" a precondition. A caller might expect an unknown variable to act as an empty cache: the whole request back from the gap query, an empty list from the snapshot.
- **Fully cached request.** The gap scan never returns an empty list (`NotInCacheNonEmpty`). A well-formed request that one cached interval contains yields the single interval from that cached interval's end to the request's end (`NotInCacheContainedRequest`). That interval is zero-width when both end together, for example a request equal to a cached interval (`NotInCacheCoveredRequestIsDegenerate`). It is inverted, its start after its end, when the request ends first, for example a request strictly inside a cached interval (`NotInCacheInnerRequestIsInverted`). The model reproduces both. For a request of positive width, every gap has positive width exactly when no single cached interval contains the request (`NotInCachePositiveIffProper`). The correctness theorem `NotInCacheCorrect` is stated for requests with `tStart < tEnd` that no single cached interval contains (`ProperRequest`).
- **Gap order.** Successive gaps are ascending with `g.tEnd <= next.tStart`, and the inequality is not strict. A zero-width cached interval can make two gaps touch.

## Model

| member | source | states |
|---|---|---|
| SqpDateTimes.Hull | core/src/Variable/VariableCacheController.cpp:103-105 | the merged interval contains both inputs and takes each bound from one of them |
| SqpDateTimes.ContainsMeansSubset | core/include/Data/SqpDateTime.h:18-21 | for a well-formed argument, `contains` holds exactly when every point of the argument lies in the receiver |
| SqpDateTimes.IntersectMeansCommonPoint | core/include/Data/SqpDateTime.h:23-26 | for well-formed intervals, `intersect` holds exactly when they share a point |
| SqpDateTimes.HullOfIntersecting | core/include/Data/SqpDateTime.h:23-26 | two intersecting well-formed intervals cover exactly the points of their hull |
| SqpDateTimes.ContainsReflexive | core/include/Data/SqpDateTime.h:18-21 | every interval contains itself |
| SqpDateTimes.ContainsTransitive | core/include/Data/SqpDateTime.h:18-21 | containment is transitive |
| SqpDateTimes.IntersectSymmetric | core/include/Data/SqpDateTime.h:23-26 | intersection is symmetric |
| SqpDateTimes.TouchingIntersect | core/include/Data/SqpDateTime.h:23-26 | intervals that share only an endpoint intersect |
| SqpDateTimes.ContainsImpliesIntersect | core/include/Data/SqpDateTime.h:18-26 | containing a well-formed interval implies intersecting it |
| SqpDateTimes.NotIntersectIsDisjoint | core/include/Data/SqpDateTime.h:23-26 | not intersecting is exactly "ends before" or "starts after", the two tests of the insertion |
| VariableCache.OrderedSeparated | core/src/Variable/VariableCacheController.cpp:40-42 | in an ordered list, any earlier interval ends strictly before any later one starts |
| VariableCache.CoversConcat | core/src/Variable/VariableCacheController.cpp:80-110 | the points covered by a concatenation are the points covered by either part |
| VariableCache.MergeInsert | core/src/Variable/VariableCacheController.cpp:80-110 | the list after insertion is non-empty and at most one longer than before |
| VariableCache.MergeBranchIsIntersect | core/src/Variable/VariableCacheController.cpp:92-109 | the merge branch is taken exactly when the stored interval intersects the inserted one |
| VariableCache.MergeInsertHead | core/src/Variable/VariableCacheController.cpp:92-109 | after insertion into an ordered list, the first start is the smaller of the inserted start and the old first start |
| VariableCache.MergeInsertOrdered | core/src/Variable/VariableCacheController.cpp:40-42 | inserting a well-formed interval keeps the list ordered and well formed |
| VariableCache.MergeInsertCovers | core/src/Variable/VariableCacheController.cpp:44-49 | after insertion, the covered points are the old covered points plus the points of the inserted interval |
| VariableCache.MergeInsertShape | core/src/Variable/VariableCacheController.cpp:80-110 | the stored intervals that intersect the inserted one form one contiguous run; it is replaced by its hull with the inserted interval, and everything before and after is kept |
| VariableCache.MergeInsertAbsorbs | core/src/Variable/VariableCacheController.cpp:100-109 | inserting an interval that a stored one already contains leaves the list unchanged |
| VariableCache.MergeInsertContainsInserted | core/src/Variable/VariableCacheController.cpp:100-109 | after insertion, some stored interval contains the inserted one |
| VariableCache.MergeInsertIdempotent | core/src/Variable/VariableCacheController.cpp:80-110 | inserting the same interval twice gives the list of one insertion |
| VariableCache.OrderedCanonical | core/src/Variable/VariableCacheController.cpp:40-42 | two ordered lists that cover the same points are equal |
| VariableCache.MergeInsertCommutes | core/src/Variable/VariableCacheController.cpp:30-55 | inserting two intervals in either order gives the same list |
| VariableCache.MergeInsertExamples | core/src/Variable/VariableCacheController.cpp:92-109 | disjoint intervals stay apart; an interval touching two neighbours joins them; touching at a single point merges |
| VariableCache.AddDateTimeRecurse | core/src/Variable/VariableCacheController.cpp:80-110 | the in-place scan with insert, skip, merge-and-remove and push_back computes `MergeInsert` |
| VariableCache.NotInCacheCorrect | core/src/Variable/VariableCacheController.cpp:57-72 | on an ordered cache and a proper request: between 1 and one more than the cache length of gaps; each has positive width and lies in the request; they ascend; they avoid the interiors of stored intervals; with the cache they cover the request |
| VariableCache.GapsByStartNonEmpty | core/src/Variable/VariableCacheController.cpp:142-170 | the start scan appends at least one interval whatever its inputs |
| VariableCache.NotInCacheNonEmpty | core/src/Variable/VariableCacheController.cpp:57-72 | the gap query never returns an empty list |
| VariableCache.NotInCacheAfterAll | core/src/Variable/VariableCacheController.cpp:147-150 | a request starting at or after the end of every stored interval comes back whole |
| VariableCache.NotInCacheBeforeFirst | core/src/Variable/VariableCacheController.cpp:128-131 | a request of positive width ending at or before the first stored start comes back whole |
| VariableCache.NotInCacheEmpty | core/src/Variable/VariableCacheController.cpp:147-150 | with nothing cached, the whole request comes back |
| VariableCache.NotInCacheBridgesGap | core/src/Variable/VariableCacheController.cpp:113-170 | a request spanning the hole between two stored intervals yields exactly that hole |
| VariableCache.NotInCacheCoveredRequestIsDegenerate | core/src/Variable/VariableCacheController.cpp:146-150 | a request equal to a stored interval yields the zero-width gap at its end |
| VariableCache.NotInCacheInnerRequestIsInverted | core/src/Variable/VariableCacheController.cpp:127-133 | a request strictly inside a stored interval yields an inverted gap |
| VariableCache.GapsByStartSkipToContainer | core/src/Variable/VariableCacheController.cpp:153-169 | before the cached interval that contains the request, the start scan passes every interval without moving its frontier |
| VariableCache.NotInCacheContainedRequest | core/src/Variable/VariableCacheController.cpp:142-170 | a well-formed request that one cached interval contains yields exactly the interval from that cached end to the request end, whose end is not after its start |
| VariableCache.NotInCachePositiveIffProper | core/src/Variable/VariableCacheController.cpp:113-170 | for a request of positive width on an ordered cache, all gaps have positive width if and only if no single cached interval contains the request |
| VariableCache.AddInCacheDataByEnd | core/src/Variable/VariableCacheController.cpp:113-140 | the end scan appends exactly the `GapsByEnd` gaps to the given list |
| VariableCache.AddInCacheDataByStart | core/src/Variable/VariableCacheController.cpp:142-170 | the start scan appends exactly the `GapsByStart` gaps to the given list |
| VariableCache.VariableCacheController.constructor | core/src/Variable/VariableCacheController.cpp:25-28 | a new controller has no variable and satisfies the invariant |
| VariableCache.VariableCacheController.AddDateTime | core/src/Variable/VariableCacheController.cpp:30-55 | a null variable changes nothing; a new variable gets a one-interval list; a known one gets the merge-insert; the invariant is kept; coverage grows by exactly the new interval |
| VariableCache.VariableCacheController.ProvideNotInCacheDateTimeList | core/src/Variable/VariableCacheController.cpp:57-72 | returns the gaps of the request against the variable's list, never empty, and on a valid cache with a proper request they are correct as in `NotInCacheCorrect` |
| VariableCache.VariableCacheController.DateCacheList | core/src/Variable/VariableCacheController.cpp:74-78 | returns the variable's stored list, which is ordered when the invariant holds |
| AmdaProvider.ValueTypeOf | plugins/amda/src/AmdaProvider.cpp:44-55 | "scalar" maps to the scalar type and "vector" to the vector type, and exactly the other strings map to the unknown type |
| AmdaProvider.SumOverRemove | plugins/amda/src/AmdaProvider.cpp:138-140 | the progress sum does not depend on the order in which requests are visited |
| AmdaProvider.SumOverBounds | plugins/amda/src/AmdaProvider.cpp:138-140 | the sum of values within [lo, hi] lies between count copies of lo and count copies of hi added up |
| AmdaProvider.MeanProgressWithin | plugins/amda/src/AmdaProvider.cpp:133-144 | the reported progress lies between the smallest and the largest request progress |
| AmdaProvider.AggregateProgress | plugins/amda/src/AmdaProvider.cpp:133-144 | the aggregation loop returns the mean of the request progress values, or 0 for no request |
| AmdaProvider.WithRequestProgress | plugins/amda/src/AmdaProvider.cpp:240-260 | key set grows by at most the acquisition; the request holds the new value; other acquisitions are unchanged; other requests of the acquisition are unchanged; a new request adds one entry; an unknown acquisition gets a one-entry map |
| AmdaProvider.AmdaProvider.constructor | plugins/amda/src/AmdaProvider.cpp:59-75 | a new provider has no acquisition in progress |
| AmdaProvider.AmdaProvider.UpdateRequestProgress | plugins/amda/src/AmdaProvider.cpp:240-260 | the map becomes `WithRequestProgress` of the old map |
| AmdaProvider.AmdaProvider.OnReplyDownloadProgress | plugins/amda/src/AmdaProvider.cpp:105-152 | the value is stored only when both the acquisition and the request are known, otherwise nothing changes; the emitted progress is the mean for a known acquisition and 0 otherwise |
| AmdaProvider.AmdaProvider.RetrieveData | plugins/amda/src/AmdaProvider.cpp:154-238 | without a product id nothing changes; otherwise the new request is recorded with progress 0 |
| VisualizationZone.SynchronizedRange | gui/src/Visualization/VisualizationZoneWidget.cpp:156-215 | for every known zoom type, the sibling's start moves by the emitter's start change and its end by the emitter's end change; an unknown type leaves the sibling unchanged |
| VisualizationZone.SynchronizedRangeFollowsEmitter | gui/src/Visualization/VisualizationZoneWidget.cpp:156-204 | a sibling that showed the emitter's old range ends up with its new range |
| VisualizationZone.SynchronizedRangeWidth | gui/src/Visualization/VisualizationZoneWidget.cpp:156-204 | a sibling's width changes by exactly the change of the emitter's width |
| VisualizationZone.SynchronizedRangeComposes | gui/src/Visualization/VisualizationZoneWidget.cpp:156-204 | two successive synchronisations compose into one from the first old range to the last new range |
| VisualizationZone.GraphWidget.constructor | gui/src/Visualization/VisualizationGraphWidget.cpp:29-80 | a new graph has the given range, acquisition on, and no recorded calls |
| VisualizationZone.GraphWidget.EnableAcquisition | gui/src/Visualization/VisualizationGraphWidget.cpp:95-98 | sets the acquisition flag, keeps the range, and logs the call |
| VisualizationZone.GraphWidget.SetGraphRange | gui/src/Visualization/VisualizationGraphWidget.cpp:178-184 | sets the range, keeps the acquisition flag, and logs the call |
| VisualizationZone.SynchronizeZoneWidget | gui/src/Visualization/VisualizationZoneWidget.cpp:145-227 | every graph other than the emitter gets its synchronised range, which is set between acquisition off and acquisition on, and ends with acquisition on; the emitter is untouched |

## Left out

- Logging (`qCDebug`, `qCCritical`, `qCInfo`), the `QDebug` output operator of `SqpDateTime`, and Qt signal emission. `OnReplyDownloadProgress` returns the value that `dataProvidedProgress` would carry.
- Floating point. Times and progress values are exact reals, so rounding, NaN and infinities are not modelled.
- Concurrency and the Qt event loop.
- The C++ `int` cache index. It is modelled as an unbounded `nat`, so overflow of the index is not modelled.
- In `AmdaProvider.retrieveData`: the URL building, the date formatting, the temporary file, result parsing, the two reply lambdas, and the `erase` calls inside them (lines 180-228). Only the product-id guard and the first `updateRequestProgress` call are modelled. The request object it creates is passed in as a parameter.
- `AmdaProvider::requestDataLoading`, `requestDataAborting`, `clone` and the constructor's signal connections. The first calls `retrieveData` once per time range with a one-second sleep, so it reaches the progress map only through `retrieveData`, whose bookkeeping is modelled. The others are network-controller plumbing.
- Request identity. The source finds a request by comparing pointers; the model uses equality on an opaque request type.
- `VariableController::getZoomType`. It is not part of this model: the zoom type is a parameter of `SynchronizeZoneWidget`.
- The `default` branch of the zoom switch. It cannot be reached with the closed `AcquisitionZoomType` enumeration.
- Walking the frame layout and the cast to `VisualizationGraphWidget`. The layout is a sequence of graph references, with `null` for a layout item that is not a graph.
- `VisualizationZone.GraphWidget.SetGraphRange`: the graph's range is a field, so reading it back gives exactly the range that was set. In the source, `graphRange()` reads the plot's x axis, and the plot library is not part of this model, so that the axis returns the range it was given is an assumption.
- `VisualizationGraphWidget::setGraphRange`'s redraw. Re-entrant synchronisation through `onRangeChanged` is also not modelled.
- `VariableCache.VariableCacheController.ProvideNotInCacheDateTimeList`, `DateCacheList`: the variable must be registered. Otherwise the source throws `std::out_of_range` from `provideNotInCacheDateTimeList`. `dateCacheList` is declared `noexcept`, so the same failure there terminates the program. The model represents neither.

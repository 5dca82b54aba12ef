# Retrieval core, modelled and proved in Dafny

A model of the retrieval core of the repository, and proofs of what its parts promise. `dafny verify dfyconfig.toml`
checks all of it.

The model follows the program's own structure, one module per component:

- **The 1-bit scan** (`Words`, `Vectors`, `Hadamard`, `Signs`, `Database`, `QueryCodec`, `BitPlanes`, `OneBit`,
  `Scans`, `Pipeline`). The in-place Walsh-Hadamard transform is proved to be the recursive transform and the matrix
  product, hence linear, its own inverse up to n, and, with the sign flip, an isometry. The blocked writer and the
  three scans work on 64-bit words, popcounts and masked lanes; each scan is proved equal to the plain squared
  distance between the stored sign vector and the query its codec stands for, which for one bit is the nearest there
  is and for integers is within a stated error of it. The integer scan adds in wrapping 32-bit lanes, and no prefix
  leaves the lane.
- **Beam search** (`Ranking`, `SortedSets`, `BeamSearch`, `BeamTheorems`, `PagedGraph`, `DiskSearch`). The loops of
  `disk_search`, reading adjacency and payload records through the page caches, are proved against a step function;
  over that function: termination on every finite graph, local optimality at the stop, exactness with a wide heap,
  exactly which nodes a gated search scores, and a simulation showing that a sound gate changes nothing else.
- **The page store** (`Layout`, `PageStore`, `Encoding`, `GraphFile`, `PageCache`, `LeastRecent`, `ReadPlan`,
  `PageReaders`, `MemoryReader`, `SharedReads`, `PayloadReads`). Writers, readers and the graph file are proved to
  round-trip; the read plan is minimal and its counters are conserved; the bounded cache evicts the page used longest
  ago; caches and coalescing are invisible to every caller of the direct reader, over any run of reads by one reader
  at a time; of several readers at once, what each can still rely on is proved.
- **Clustering** (`Lloyd`, `KMeans`, `KMeans1D`). Every iteration of both k-means loops makes each centre the cheapest
  for its samples and lowers, or keeps, the total squared distance to the nearest centre; in one dimension the centres
  stay in order, which is what makes the midpoint search right.
- **State machines** (`VisitedLists`, `VisitedPool`, `Bruteforce`). The stamped visited list is a set through any
  number of resets; its pool is safe in every interleaving although resets run outside the lock; the vector table is a
  map under any run of additions and removals, and its search is exact.
- **Codecs and bookkeeping** (`Packing`, `Pareto`, `Contract`, `Schedule`). The bit packers are bijections on whole
  groups; the Pareto filter returns exactly the unbeaten rows; the schedule runs everything once, turns the methods
  through all positions, and passes the separately written completeness check exactly when nothing was left out of it.

`Arith`, `Rounding`, `Collections`, `Vectors` and `Wrappers` hold what several of them share.

Three claims are false of the code as it stands. Each has an input that shows it and the exact condition under which it
holds, for all inputs:

- `MemoryPageReader` stores the misses before it copies the hits, so a small shared cache can evict a hit, and the page
  comes back as `None`. The answer is right exactly when no page requested is in the shared cache before the call, or
  the cache has room for those that are and those cached nowhere (`MemoryReader.RightIffRoom`); `MemoryReader.EvictedHit`
  makes two reads of which the second goes wrong. `DirectPageReader` copies first and has no such condition while one
  reader works at a time. With several at once another reader can evict a hit between look-up and copy; the page then
  comes back as `None`, never as another page (`SharedReads.RunSafe`), and `SharedReads.HitStays` and
  `SharedReads.StaysIff` say when it does not.
- `removePoint` stores the label of the last slot again even when it is the label being removed, and the dictionary then
  points past the used slots. One call is right exactly when the label is unknown or not in the last slot
  (`Bruteforce.AsWrittenIff`, `Bruteforce.LostPoint`), a whole run exactly when all its removals are
  (`Bruteforce.RunAsWrittenIff`). The class models the intended removal, which saves the index first and does not store
  the removed label again; the source also reads the iterator after the erase, which the model takes to mean the saved
  index.
- A completed test run fails the completeness check when the method filter or the storage modes left something out
  (`Schedule.AcceptedIff`; `Schedule.IncompleteRuns` has two such runs). Fast mode leaves the extra GIST runs
  out, which would fail the check as well, but the program skips the check there; `Schedule.CoverageIff` covers it.

Two conditions are for the callers, and the callers meet them. The packers document the range of their codes;
`Packing.RoundTrip` shows that it is exactly what they need. `PageWriter` and `PageWriterAligned` are chosen by record
size; their contracts say what either does with records of any size.

Conventions: floats are reals. Vector registers are sequences of lanes, and one SIMD instruction is a loop over its
lanes. A heap is the set of its entries, which are all different. Dimension, block count, bits and
record size are parameters. Random choices (signs, samples) and distances from code outside the model are inputs.
A method given a `ghost` parameter or result uses it only in its contract.

## Model

| member | source | states |
|---|---|---|
| `Hadamard.Transform` | experiments/04_query_codec_1bit_scan/query_codec_1bit_scan.cpp:249-270 | the in-place butterfly loops leave the recursive Walsh-Hadamard transform of the input, for every power-of-two length |
| `Hadamard.Round` | experiments/04_query_codec_1bit_scan/query_codec_1bit_scan.cpp:250-268 | after the round of one step size every aligned block of twice that size holds the transform of its own input block |
| `Hadamard.Butterfly` | experiments/04_query_codec_1bit_scan/query_codec_1bit_scan.cpp:262-267 | one block pair becomes its sums and differences, and nothing else in the array changes |
| `Hadamard.WhtIsMatrix` | experiments/04_query_codec_1bit_scan/query_codec_1bit_scan.cpp:249-270 | entry i of the transform is the inner product of the input with row i of the matrix whose signs are the parity of the common bits of i and j |
| `Hadamard.WhtLinear` | experiments/04_query_codec_1bit_scan/query_codec_1bit_scan.cpp:249-270 | the transform of a sum is the sum of the transforms, and the same for differences |
| `Hadamard.WhtTwice` | experiments/04_query_codec_1bit_scan/query_codec_1bit_scan.cpp:249-270 | transforming twice multiplies every coordinate by n |
| `Hadamard.WhtDot` | experiments/04_query_codec_1bit_scan/query_codec_1bit_scan.cpp:249-270 | the transform multiplies every inner product by n |
| `Hadamard.Rotate` | experiments/04_query_codec_1bit_scan/query_codec_1bit_scan.cpp:272-277 | the array returned is the transform of the zero-padded, sign-flipped input |
| `Hadamard.RotatedEntry` | experiments/04_query_codec_1bit_scan/query_codec_1bit_scan.cpp:272-277 | coordinate i of the rotated vector is the sum of the raw coordinates, each times its sign entry and the sign at its column of row i |
| `Hadamard.RotatedDot` | experiments/04_query_codec_1bit_scan/query_codec_1bit_scan.cpp:239-277 | with sign entries whose square is 1/n, rotation preserves every inner product of the unpadded inputs |
| `Hadamard.RotatedSqDist` | experiments/04_query_codec_1bit_scan/query_codec_1bit_scan.cpp:239-277 | and every squared distance |
| `Words.SetBit` | experiments/04_query_codec_1bit_scan/query_codec_1bit_scan.cpp:373 | or-ing in a shifted one sets exactly that bit |
| `Words.XorBit` | experiments/04_query_codec_1bit_scan/query_codec_1bit_scan.cpp:585 | bit i of the xor of two words is the inequality of their bits i |
| `Words.AndBit` | experiments/04_query_codec_1bit_scan/query_codec_1bit_scan.cpp:631 | bit i of the and of two words is the conjunction of their bits i |
| `Words.PopcountIsCount` | experiments/04_query_codec_1bit_scan/query_codec_1bit_scan.cpp:494-506 | the nibble-table byte sums of a 64-bit lane count its set bits |
| `Database.SlotUnique` | experiments/04_query_codec_1bit_scan/query_codec_1bit_scan.cpp:375 | two (row, word) pairs share a slot of the blocked layout only when they are the same pair |
| `Database.PackWord` | experiments/04_query_codec_1bit_scan/query_codec_1bit_scan.cpp:371-374 | bit j of a word is set exactly when coordinate 64 word + j is positive |
| `Database.WriteRow` | experiments/04_query_codec_1bit_scan/query_codec_1bit_scan.cpp:370-376 | the row written reads back as its sign bits and every other row is untouched |
| `Database.Build` | experiments/04_query_codec_1bit_scan/query_codec_1bit_scan.cpp:359-380 | every row of the database holds the sign bits of its rotated vector |
| `Database.RowBit` | experiments/04_query_codec_1bit_scan/query_codec_1bit_scan.cpp:650-657 | the word read for (row, i / 64) has at bit i % 64 the stored sign of coordinate i |
| `Rounding.RoundMonotone` | experiments/05_disk_system_fair/orchestrator.py:762 | rounding half to even never reverses an order |
| `QueryCodec.CodeError` | experiments/04_query_codec_1bit_scan/query_codec_1bit_scan.cpp:434-443 | every code is in range before the clamp, so the clamp never acts, and scale times the code is within scale/2 of the coordinate |
| `QueryCodec.IntegerDotError` | experiments/04_query_codec_1bit_scan/query_codec_1bit_scan.cpp:441-445 | scale times the integer dot product is within n scale/2 of the dot product with the raw query, for every sign vector |
| `QueryCodec.QueryFits` | experiments/04_query_codec_1bit_scan/query_codec_1bit_scan.cpp:434-443 | the scale is 1 for a zero query, and otherwise the one that makes the largest code stand for the largest magnitude; every code is a nearest one, ties to even |
| `QueryCodec.LargestCode` | experiments/04_query_codec_1bit_scan/query_codec_1bit_scan.cpp:436-443 | so, unless the query is zero, some code is plus or minus 2^(bits-1) - 1 |
| `QueryCodec.DotErrorByMagnitude` | experiments/04_query_codec_1bit_scan/query_codec_1bit_scan.cpp:434-445 | with n coordinates of at most m the error of the dot product is at most n m / (2 (2^(bits-1) - 1)), for every sign vector |
| `QueryCodec.PlanesDecode` | experiments/04_query_codec_1bit_scan/query_codec_1bit_scan.cpp:659-668 | the two's-complement bits of a code, read with a negative top plane, add up to the code |
| `QueryCodec.PartialBound` | experiments/04_query_codec_1bit_scan/query_codec_1bit_scan.cpp:625-635 | every partial sum over planes stays within the code range |
| `BitPlanes.MakeOneBitQuery` | experiments/04_query_codec_1bit_scan/query_codec_1bit_scan.cpp:472-479 | the plane holds the sign bits of the query, the scale is the mean magnitude, the constant is n(1 + scale squared) |
| `OneBit.NearestOneBit` | experiments/04_query_codec_1bit_scan/query_codec_1bit_scan.cpp:472-479 | of all sign vectors times any number, the one-bit query, its signs times the mean magnitude, is nearest to the query |
| `BitPlanes.WriteCode` | experiments/04_query_codec_1bit_scan/query_codec_1bit_scan.cpp:446-452 | writing one code sets its bit in every plane and disturbs no earlier coordinate |
| `BitPlanes.MakeIntegerQuery` | experiments/04_query_codec_1bit_scan/query_codec_1bit_scan.cpp:427-456 | scale and codes fit the query as QueryCodec.QueryFits says, the planes hold the codes, and the sum and the constant are those of the codes |
| `BitPlanes.DecodeQueryCode` | experiments/04_query_codec_1bit_scan/query_codec_1bit_scan.cpp:659-668 | decoding coordinate `dim` of the planes gives the code that was written |
| `Signs.DistanceByDot` | experiments/04_query_codec_1bit_scan/query_codec_1bit_scan.cpp:556-559 | the squared distance of a sign vector to q is n + |q|^2 - 2 (sign . q) |
| `Signs.DotBySelected` | experiments/04_query_codec_1bit_scan/query_codec_1bit_scan.cpp:557-558 | the sign dot product is twice the sum over the positive coordinates minus the sum |
| `Signs.OneBitDistance` | experiments/04_query_codec_1bit_scan/query_codec_1bit_scan.cpp:592-594 | the squared distance to a one-bit query is n(1 + s^2) - 2 s (n - 2 mismatches) |
| `Signs.IntegerDistance` | experiments/04_query_codec_1bit_scan/query_codec_1bit_scan.cpp:642-644 | the squared distance to an integer query is a constant minus twice the scale times the integer dot product |
| `Signs.DotError` | experiments/04_query_codec_1bit_scan/query_codec_1bit_scan.cpp:442-444 | if no coordinate moves by more than e, no sign dot product moves by more than n e |
| `Scans.LaneWord` | experiments/04_query_codec_1bit_scan/query_codec_1bit_scan.cpp:544 | the scan's own index into the blocked layout reads the word of that row |
| `Scans.QuarterSum` | experiments/04_query_codec_1bit_scan/query_codec_1bit_scan.cpp:546-552 | one masked vector addition adds to the reduced accumulator exactly the selected coordinates of that quarter word |
| `Scans.AddQuarter` | experiments/04_query_codec_1bit_scan/query_codec_1bit_scan.cpp:545-554 | the sixteen accumulators advance by one quarter word each |
| `Scans.ScanFp32` | experiments/04_query_codec_1bit_scan/query_codec_1bit_scan.cpp:529-563 | every row gets the plain sum over dimensions of (sign - q)^2, and cells past the rows are untouched |
| `Scans.AddMismatches` | experiments/04_query_codec_1bit_scan/query_codec_1bit_scan.cpp:579-587 | xor and popcount add, per lane, the mismatches of one word |
| `Scans.ScanB1` | experiments/04_query_codec_1bit_scan/query_codec_1bit_scan.cpp:565-598 | every row gets the squared distance to the plus-or-minus-scale query |
| `Scans.OnePlane` | experiments/04_query_codec_1bit_scan/query_codec_1bit_scan.cpp:627-634 | the and-popcounts of one plane, weighted, are that plane's share of the selected codes of the word |
| `Scans.AllPlanes` | experiments/04_query_codec_1bit_scan/query_codec_1bit_scan.cpp:627-635 | with all planes in, a word contributes the sum of its selected codes |
| `Scans.PrefixFits` | experiments/04_query_codec_1bit_scan/query_codec_1bit_scan.cpp:623-637 | at every prefix of words and planes the signed lane sum fits in 32 bits, so the wrapping addition does not wrap |
| `Scans.ProductFits` | experiments/04_query_codec_1bit_scan/query_codec_1bit_scan.cpp:633-634 | no product of a popcount and a plane weight leaves a 32-bit lane |
| `Scans.AddPlane` | experiments/04_query_codec_1bit_scan/query_codec_1bit_scan.cpp:628-634 | one plane of one word is added to every lane by wrapping 32-bit arithmetic |
| `Scans.ScanInteger` | experiments/04_query_codec_1bit_scan/query_codec_1bit_scan.cpp:600-648 | every row gets the squared distance to scale times the codes |
| `Pipeline.PrepareQuery` | experiments/04_query_codec_1bit_scan/query_codec_1bit_scan.cpp:458-492 | the prepared query is the rotated vector, its sums, its one-bit code, and its 4-bit and 8-bit integer codes |
| `Pipeline.KernelLanesFit` | experiments/04_query_codec_1bit_scan/query_codec_1bit_scan.cpp:31-39 | the sizes the program uses satisfy the lane bound |
| `Pipeline.ScanAllCodecs` | experiments/04_query_codec_1bit_scan/query_codec_1bit_scan.cpp:670-731 | from raw vectors to distances: each codec reports, for every base vector, the squared distance between its sign vector and the query that codec represents |
| `Ranking.PeekLeast` | experiments/05_disk_system_fair/disk_search.py:261 | the root of a min-heap is the entry before all others |
| `BeamSearch.StepTyped` | experiments/05_disk_system_fair/disk_search.py:258-337 | every iteration keeps the results non-empty and at most L, and all heap entries visited and in range |
| `BeamSearch.StepProgress` | experiments/05_disk_system_fair/disk_search.py:258-337 | an iteration visits a new node or shrinks the frontier, so the search stops on every finite graph |
| `BeamTheorems.PopExact` | experiments/05_disk_system_fair/disk_search.py:259-268 | one turn takes the nearest frontier entries, at most beam of them and none too far for a full heap; fewer only when none is left or the next is too far, which is dropped |
| `BeamTheorems.PushExact` | experiments/05_disk_system_fair/disk_search.py:232-236 | a scored node enters when the heap has room or it is nearer than some result; of a full heap it replaces, of the farthest results, the one with the smallest id; and exactly then it is queued |
| `BeamTheorems.StepScores` | experiments/05_disk_system_fair/disk_search.py:302-323 | an iteration scores exactly the nodes it visits first that the gate lets through: no gate, or room in the heap, or an estimate of at most epsilon0 times the distance of the farthest result |
| `BeamTheorems.GatePrunes` | experiments/05_disk_system_fair/disk_search.py:302-316 | with epsilon0 not negative: of the nodes an iteration visits first, those within epsilon0 times the distance of some result are scored, or all while the heap has room, and no others |
| `BeamTheorems.ScoredExactly` | experiments/05_disk_system_fair/disk_search.py:302-323 | over a whole search the nodes scored are the entry and those let through when they were first visited |
| `PagedGraph.ExportHolds` | experiments/05_disk_system_fair/graph.py:50-104 | an exported file holds the first max_degree neighbours of every node as its adjacency lists |
| `PagedGraph.FetchLists` | experiments/05_disk_system_fair/disk_search.py:272-280 | through any coherent caches the pages read give the record of every node to expand |
| `PagedGraph.ReadList` | experiments/05_disk_system_fair/disk_search.py:283-286 | the list decoded from such a record is the list in the file |
| `PagedGraph.ScoreBatch` | experiments/05_disk_system_fair/disk_search.py:131-168 | the distances are the scores of the records in the payload file, for every reader and setting |
| `DiskSearch.PopLoop` | experiments/05_disk_system_fair/disk_search.py:259-268 | the nodes popped and the frontier left are those of the specification, the dropped node included |
| `DiskSearch.Collect` | experiments/05_disk_system_fair/disk_search.py:282-294 | of the lists read from the pages, exactly the unseen in-range neighbours are marked |
| `DiskSearch.Expand` | experiments/05_disk_system_fair/disk_search.py:272-294 | the lists are read through both caches, and the nodes marked are the unseen neighbours in the files, whatever the caches hold |
| `DiskSearch.ApplyGate` | experiments/05_disk_system_fair/disk_search.py:302-316 | the ids kept are, in order, those of the specification, of which BeamTheorems.StepScores says that they are exactly the nodes the gate lets through |
| `DiskSearch.PushLoop` | experiments/05_disk_system_fair/disk_search.py:232-236 | pushing the scored ids in order leaves the two heaps of the specification |
| `DiskSearch.Iteration` | experiments/05_disk_system_fair/disk_search.py:258-337 | one turn of the loop is one step of the specification |
| `DiskSearch.MainLoop` | experiments/05_disk_system_fair/disk_search.py:258-337 | the loop ends in the final state of the search, for every graph and beam |
| `DiskSearch.NLargest` | experiments/05_disk_system_fair/disk_search.py:357-359 | the k largest entries, largest first |
| `DiskSearch.Search` | experiments/05_disk_system_fair/disk_search.py:228-359 | whatever coherent caches hold, and however reads are coalesced and pages reused, the answer is the top k of the final results heap of the search over the lists and scores in the files, and the number of distances computed is that of the entry and of the nodes the gate let through when they were first visited |
| `BeamTheorems.WorstBounds` | experiments/05_disk_system_fair/disk_search.py:235 | no result is farther than the root says |
| `BeamTheorems.StepSound` | experiments/05_disk_system_fair/disk_search.py:258-337 | every node seen is kept or no nearer than the worst of a full heap, every kept node is expanded or queued, and every neighbour of an expanded node was seen: kept by each ungated iteration |
| `BeamTheorems.LocalOptimum` | experiments/05_disk_system_fair/disk_search.py:232-236 | at the stop every node kept has been expanded, and each of its in-range neighbours is kept, or the heap is full and the neighbour is no nearer than the worst kept |
| `BeamTheorems.DroppedIsFar` | experiments/05_disk_system_fair/disk_search.py:302-316 | a node the gate drops is farther than every kept node |
| `BeamTheorems.GateStep` | experiments/05_disk_system_fair/disk_search.py:302-336 | one gated iteration leaves the heaps, the visited and the expanded set of the ungated iteration |
| `BeamTheorems.GateSimulation` | experiments/05_disk_system_fair/disk_search.py:302-336 | after every number of iterations the gated and ungated searches hold the same heaps and visited set, on every graph, when no estimate exceeds epsilon0 times the distance |
| `BeamTheorems.GateSameAnswer` | experiments/05_disk_system_fair/disk_search.py:302-336 | so both searches end with the same results, the gated one having scored no more nodes |
| `BeamTheorems.GatedLocalOptimum` | experiments/05_disk_system_fair/disk_search.py:302-336 | and the gated search ends in a local optimum too |
| `BeamTheorems.WideBeamExact` | experiments/05_disk_system_fair/disk_search.py:258-337 | when L is at least the number of reachable nodes, exactly the reachable nodes are evaluated and all are kept |
| `DiskSearch.WideSearchTopK` | experiments/05_disk_system_fair/disk_search.py:357-359 | and the answer is k distinct reachable nodes such that no reachable node left out is nearer than any returned |
| `Lloyd.MeanIsBest` | experiments/01_quantizer_fair/faiss_quantizer_smoke.cpp:940-949 | no centre coordinate is cheaper for a cluster than its mean |
| `Lloyd.BestIsMean` | experiments/01_quantizer_fair/faiss_quantizer_smoke.cpp:940-949 | nothing but the mean is that cheap: a coordinate is best for its cluster, or unchanged when the cluster is empty, exactly when it is the one computed |
| `Lloyd.MoveToMean` | experiments/01_quantizer_fair/faiss_quantizer_smoke.cpp:940-949 | moving one coordinate to its mean never raises the cost of an assignment |
| `Lloyd.ObjectiveBelowCost` | experiments/01_quantizer_fair/faiss_quantizer_smoke.cpp:919-933 | no assignment costs less than the objective |
| `Lloyd.NearestAttains` | experiments/01_quantizer_fair/faiss_quantizer_smoke.cpp:919-933 | and an assignment to nearest centres costs exactly that |
| `KMeans.FindNearest` | experiments/01_quantizer_fair/faiss_quantizer_smoke.cpp:920-933 | the centre found is the first of the nearest |
| `KMeans.Tally` | experiments/01_quantizer_fair/faiss_quantizer_smoke.cpp:916-939 | the buffers hold, for every cluster, its size and the sum of its samples in each coordinate |
| `KMeans.Update` | experiments/01_quantizer_fair/faiss_quantizer_smoke.cpp:940-949 | after the update no value of any coordinate of any centre is cheaper for the samples of its cluster than the one it has; an empty cluster keeps its centre; the cost of the assignment does not grow |
| `KMeans.Iterate` | experiments/01_quantizer_fair/faiss_quantizer_smoke.cpp:915-950 | with every sample at its nearest centre, every centre becomes the cheapest for its samples, and the total squared distance to the nearest centre does not grow, in any dimension, empty clusters included |
| `KMeans.Train` | experiments/01_quantizer_fair/faiss_quantizer_smoke.cpp:890-952 | from the drawn samples on, every one of the iterations is such a step, and the centroids returned serve the samples no worse than the ones drawn |
| `KMeans1D.InitialCenters` | experiments/05_disk_system_fair/quantizers.py:126-127 | the initial centres are the interior quantiles of the sorted values, in order |
| `KMeans1D.QuantilesEven` | experiments/05_disk_system_fair/quantizers.py:126-127 | the quantiles cut the positions into k + 1 equal parts |
| `KMeans1D.SearchSorted` | experiments/05_disk_system_fair/quantizers.py:130 | the binary search splits the midpoints at the value |
| `KMeans1D.SplitIsNearest` | experiments/05_disk_system_fair/quantizers.py:129-130 | the side of the midpoints a value falls on is a nearest centre |
| `KMeans1D.SplitTakesUpper` | experiments/05_disk_system_fair/quantizers.py:129-130 | and of two centres equally near the upper one |
| `KMeans1D.NewCenterBetween` | experiments/05_disk_system_fair/quantizers.py:131-134 | a centre that moves stays between the midpoints on either side of it |
| `KMeans1D.NewCentersAscend` | experiments/05_disk_system_fair/quantizers.py:131-134 | the centres stay in order, empty clusters included |
| `KMeans1D.SpreadFalls` | experiments/05_disk_system_fair/quantizers.py:129-138 | an iteration never raises the total squared distance |
| `KMeans1D.NeverWorse` | experiments/05_disk_system_fair/quantizers.py:128-138 | over any number of iterations the total squared distance never rises |
| `KMeans1D.KMeans` | experiments/05_disk_system_fair/quantizers.py:118-139 | no values give zeros and at most k values themselves; otherwise, from the interior quantiles on, in every entry of the history each centre is the cheapest for the values that had the one before it nearest, ties upwards; in order, spreading no more, until all iterations were made or the first that moved no centre by more than the tolerance; the result is the last |
| `Layout.NodeLayout.SmallInPage` | experiments/05_disk_system_fair/diskio.py:51-54 | a small record lies inside one page |
| `Layout.NodeLayout.LargeAligned` | experiments/05_disk_system_fair/diskio.py:55 | a record of a page or more starts a page and fits in its own pages |
| `Layout.NodeLayout.RecordInPages` | experiments/05_disk_system_fair/diskio.py:64-67 | a record lies in the pages listed for it, and only a large one has more than one |
| `Layout.NodeLayout.RecordsInOrder` | experiments/05_disk_system_fair/diskio.py:50-55 | no two records overlap |
| `Layout.NodeLayout.RecordInFile` | experiments/05_disk_system_fair/diskio.py:69-73 | every record of the layout ends inside the file |
| `Layout.NodeLayout.Tight` | experiments/05_disk_system_fair/diskio.py:42-48 | a page holds as many small records as fit, and a record gets no more pages than it needs |
| `Layout.NodeLayout.NoPageToSpare` | experiments/05_disk_system_fair/diskio.py:69-73 | the last page of the file is the last page of the last record |
| `PageStore.PageWriter.Append` | experiments/05_disk_system_fair/diskio.py:97-103 | a long record is refused and changes nothing; any other is stored padded, at the next id |
| `PageStore.PageWriter.Flush` | experiments/05_disk_system_fair/diskio.py:105-114 | records past the last page are an index error; up to a page in size, every record is at its offset and zeros elsewhere; larger records make the file longer by what they have too much |
| `PageStore.PageWriterAligned.Append` | experiments/05_disk_system_fair/diskio.py:125-133 | a long record is refused and changes nothing; any other is stored padded, at the next id |
| `PageStore.PageWriterAligned.Flush` | experiments/05_disk_system_fair/diskio.py:135-138 | every record starts its own pages; with at most one record to a page that is its offset, with zeros elsewhere, and the size returned is the size of the file exactly when every node was appended |
| `PageStore.AlignedSmallLost` | experiments/05_disk_system_fair/diskio.py:117-138 | where records share a page, the second record of an aligned file is at its offset only if it is all zeros |
| `PageStore.ExtractNode` | experiments/05_disk_system_fair/diskio.py:459-480 | the record is cut out of the pages given, or a missing page is a key error |
| `PageStore.ExtractStored` | experiments/05_disk_system_fair/diskio.py:459-480 | from any set of pages of a written file that has the record's pages, the record that was stored comes back |
| `PageStore.ExtractMissing` | experiments/05_disk_system_fair/diskio.py:459-480 | a key error is reported exactly when a page of the record is missing |
| `PageStore.JoinPages` | experiments/05_disk_system_fair/diskio.py:472-480 | consecutive pages join to a stretch of the file |
| `Encoding.DecEnc` | experiments/05_disk_system_fair/graph.py:21-24 | decoding the w low-order-first bytes of a number below 256^w gives the number |
| `Encoding.EncDec` | experiments/05_disk_system_fair/graph.py:21-24 | and encoding what bytes decode to gives the bytes |
| `Encoding.IdsOfBytes` | experiments/05_disk_system_fair/graph.py:30 | the little-endian ids of the bytes of an id array are the array |
| `GraphFile.Load` | experiments/05_disk_system_fair/graph.py:16-47 | the loading loop computes the parse of the file, with its three error cases |
| `GraphFile.LoadSerialized` | experiments/05_disk_system_fair/graph.py:16-47 | a written graph loads as itself, whatever its size field said; the size reported is the length of the file |
| `GraphFile.SerializedLoad` | experiments/05_disk_system_fair/graph.py:16-47 | only written graphs load: every accepted file is the serialisation of what was loaded |
| `GraphFile.LoadErrors` | experiments/05_disk_system_fair/graph.py:19-31 | a file is refused exactly when its header is short, or when after some whole lists a tail is left that is none: a format error for one to three bytes, a value error for a list cut off |
| `GraphFile.LoadedHeader` | experiments/05_disk_system_fair/graph.py:21-24 | the header fields are the little-endian numbers at bytes 8, 12 and 16 |
| `GraphFile.AdjacencyBytes` | experiments/05_disk_system_fair/graph.py:50-63 | every row of the packed array is the truncated degree, the first neighbours, zeros |
| `GraphFile.Export` | experiments/05_disk_system_fair/graph.py:78-105 | the page file is the image of the packed rows, through the small or the aligned writer by record size |
| `GraphFile.ExportedWord` | experiments/05_disk_system_fair/graph.py:50-63 | word t of the record of a node in the file is the number of neighbours kept, neighbour t, or zero |
| `GraphFile.AdjacencyRoundTrip` | experiments/05_disk_system_fair/graph.py:120-131 | every node reads back as its first max_degree neighbours in order, from any set of pages that has its own, for records below, at and above a page |
| `GraphFile.GraphRoundTrip` | experiments/05_disk_system_fair/graph.py:16-131 | the whole way: written, loaded, exported, read back |
| `GraphFile.NodePagesInFile` | experiments/05_disk_system_fair/diskio.py:64-67 | the pages a reader asks for a node are in the exported file |
| `PageCache.SharedPageCache.Get` | experiments/05_disk_system_fair/diskio.py:214-225 | a hit makes its page the newest and returns it; a miss changes only the count |
| `PageCache.SharedPageCache.Put` | experiments/05_disk_system_fair/diskio.py:231-237 | the new contents, at most the oldest page evicted, never above the capacity rounded up to a page |
| `PageCache.QueryPageCache.Get` | experiments/05_disk_system_fair/diskio.py:186-192 | a look-up counts a hit or a miss and leaves the pages alone |
| `PageCache.SharedPageCache.SizeBytes` | experiments/05_disk_system_fair/diskio.py:243-245 | the size reported is below the capacity plus one page |
| `PageCache.Filled` | experiments/05_disk_system_fair/diskio.py:231-237 | what a full cache keeps after a put: the new page, and of the old ones only pages it had, unchanged |
| `LeastRecent.EvictsLeastRecent` | experiments/05_disk_system_fair/diskio.py:214-237 | over any run of gets and puts the cache agrees with one that stamps each page when it arrives and at each look-up, and evicts the page with the oldest stamp |
| `PageCache.IOStats.Merge` | experiments/05_disk_system_fair/diskio.py:158-173 | merging conserved counters keeps them conserved |
| `ReadPlan.Coalesce` | experiments/05_disk_system_fair/diskio.py:277-283 | the runs list exactly the pages, in order, and none continues the one before it |
| `ReadPlan.FewestReads` | experiments/05_disk_system_fair/diskio.py:277-288 | no list of contiguous reads that fetches exactly these pages is shorter |
| `ReadPlan.SameCount` | experiments/05_disk_system_fair/diskio.py:373-379 | so the runs the reader builds are as many as the plan counted |
| `ReadPlan.SplitPages` | experiments/05_disk_system_fair/diskio.py:261-275 | each distinct page is looked up once, first in the query cache, and the shared cache is left as after those look-ups |
| `ReadPlan.PlanReads` | experiments/05_disk_system_fair/diskio.py:248-288 | hits and misses are, in order, the distinct pages found and not found; the runs list the misses; the counters are those cardinalities and are conserved |
| `ReadPlan.PlanLists` | experiments/05_disk_system_fair/diskio.py:261-275 | the hits are the distinct pages in some cache and the misses those in none, in order |
| `ReadPlan.PlanCounts` | experiments/05_disk_system_fair/diskio.py:261-288 | a page in both caches counts as a hit of the query cache, one only in the shared cache as a hit there, and the sectors read are the pages in neither |
| `PageReaders.StoreRun` | experiments/05_disk_system_fair/diskio.py:393-403 | the pages of one run end up in the result and in the caches |
| `PageReaders.DirectPageReader.ReadRuns` | experiments/05_disk_system_fair/diskio.py:382-403 | runs are read in chunks, a failing chunk stores nothing, and the read fails exactly when some run is not in the file |
| `PageReaders.SameAsPlain` | experiments/05_disk_system_fair/diskio.py:364-403 | with coherent caches the hits and the fetched misses together are the answer of a read without caches |
| `PageReaders.DirectPageReader.ReadPages` | experiments/05_disk_system_fair/diskio.py:347-405 | whatever coherent caches hold, the answer or the error is that of a read without caches; caches stay coherent, also on an error; the new contents of both caches; the counters |
| `PageReaders.ReadRun` | experiments/05_disk_system_fair/diskio.py:347-405 | any run of reads on any files sharing the two caches: every answer is that of a read without caches, and the shared cache never exceeds its capacity rounded up to a page |
| `MemoryReader.TouchedOrder` | experiments/05_disk_system_fair/diskio.py:222-224 | looking pages up moves them, in order, behind all others |
| `MemoryReader.FilledOrder` | experiments/05_disk_system_fair/diskio.py:231-237 | storing new pages keeps the newest of all, as many as the capacity in pages |
| `MemoryReader.HitsSurvive` | experiments/05_disk_system_fair/diskio.py:436-446 | pages just looked up are still cached after new ones were stored, exactly when there were none or the cache has room for both |
| `MemoryReader.RightIffRoom` | experiments/05_disk_system_fair/diskio.py:436-446 | the answer is that of a read without caches exactly when, of the pages requested, none is in the shared cache before the call or it has room for those that are and those cached nowhere |
| `MemoryReader.EvictedHit` | experiments/05_disk_system_fair/diskio.py:436-446 | two reads through a cache of one page after which the answer for pages 0 and 1 has nothing for page 0 |
| `MemoryReader.MemoryPageReader.ReadPages` | experiments/05_disk_system_fair/diskio.py:423-447 | fails exactly when a page is not in the file; otherwise keeps the caches coherent, is right exactly when there is room, and each page answered is that of the file or, evicted, missing |
| `SharedReads.RunSafe` | experiments/05_disk_system_fair/diskio.py:214-237 | any number of readers at once: in any interleaving of their locked calls the cache holds pages of the files only, within its capacity, so a page looked at is right or missing |
| `SharedReads.HitStays` | experiments/05_disk_system_fair/diskio.py:364-368 | a page found is still there when its reader peeks at it if the calls in between brought fewer other pages than the cache has room for |
| `SharedReads.StaysIff` | experiments/05_disk_system_fair/diskio.py:364-368 | and against another reader that stores new pages, exactly then |
| `PayloadReads.ReadThrough` | experiments/05_disk_system_fair/disk_search.py:146-148 | without a shared cache the direct and the memory reader answer alike |
| `PayloadReads.ReadOne` | experiments/05_disk_system_fair/disk_search.py:152-157 | a page on its own: the default namespace never answers, and the page read is that of the file |
| `PayloadReads.Read` | experiments/05_disk_system_fair/disk_search.py:143-157 | the pages are the same whether reads are coalesced and whether pages are reused |
| `PayloadReads.Records` | experiments/05_disk_system_fair/disk_search.py:142-161 | the records the distances are computed from are a function of the file alone, for every setting |
| `VisitedLists.VisitedList.constructor` | Ours/core/hnswlib/visited_list_pool.h:17-21 | a new list satisfies the stamp invariant whatever its memory holds |
| `VisitedLists.VisitedList.Reset` | Ours/core/hnswlib/visited_list_pool.h:23-29 | after a reset nothing is visited, across the wrap as well |
| `VisitedLists.VisitedList.Mark` | Ours/core/hnswlib/visited_list_pool.h:13-14 | marking adds exactly that node |
| `VisitedLists.VisitedList.IsVisited` | Ours/core/hnswlib/visited_list_pool.h:13-14 | a node counts as visited exactly when it is in the set |
| `VisitedLists.ResetEmpties` | Ours/core/hnswlib/visited_list_pool.h:23-29 | a reset leaves no stamp equal to the current one |
| `VisitedLists.RunRefines` | Ours/core/hnswlib/visited_list_pool.h:11-32 | any run of resets and marks is the same run on a set |
| `VisitedLists.FromFresh` | Ours/core/hnswlib/visited_list_pool.h:17-29 | from arbitrary memory, once reset, the list is a set through any number of resets |
| `VisitedLists.StampAfter` | Ours/core/hnswlib/visited_list_pool.h:23-29 | the stamp after n resets is (n - 1) mod 65535, plus one: memory is cleared once in 65535 resets |
| `VisitedPool.VisitedListPool.Get` | Ours/core/hnswlib/visited_list_pool.h:51-64 | the list handed out is empty, shares no memory with the pool, and is the front one or new |
| `VisitedPool.VisitedListPool.Release` | Ours/core/hnswlib/visited_list_pool.h:66-69 | the list is back at the front of the pool |
| `VisitedPool.StepKeeps` | Ours/core/hnswlib/visited_list_pool.h:51-69 | every atomic step of every user, the steps of an unlocked reset included, keeps the invariant |
| `VisitedPool.RunKeeps` | Ours/core/hnswlib/visited_list_pool.h:51-69 | in any interleaving no list is held by two users or held and pooled, and every user sees exactly what it marked itself |
| `VisitedPool.HandedOutEmpty` | Ours/core/hnswlib/visited_list_pool.h:51-64 | the moment a user starts searching its list is empty and nobody else has it |
| `VisitedPool.ResetRun` | Ours/core/hnswlib/visited_list_pool.h:23-29 | the single steps of an unlocked reset together leave the list that the method leaves |
| `VisitedPool.OthersKeep` | Ours/core/hnswlib/visited_list_pool.h:51-69 | no step of another user touches a list in between |
| `Bruteforce.AddedContents` | Ours/core/hnswlib/bruteforce.h:64-83 | adding keeps labels and slots in correspondence and updates the map at that label |
| `Bruteforce.RemovedContents` | Ours/core/hnswlib/bruteforce.h:86-103 | the intended removal keeps the correspondence and removes exactly that label |
| `Bruteforce.AsWrittenIff` | Ours/core/hnswlib/bruteforce.h:86-103 | as written, removal keeps the correspondence, and equals the intended one, exactly when the label is unknown or not in the last slot |
| `Bruteforce.LostPoint` | Ours/core/hnswlib/bruteforce.h:94-102 | a concrete run after which an added point is in no used slot |
| `Bruteforce.CountIsSize` | Ours/core/hnswlib/bruteforce.h:76-78 | there are as many labels as used slots |
| `Bruteforce.RunAsWrittenIff` | Ours/core/hnswlib/bruteforce.h:86-103 | a whole run with the removal as written keeps the correspondence exactly when no removal finds its label in the last slot, and is then the intended run |
| `Bruteforce.RunRefines` | Ours/core/hnswlib/bruteforce.h:64-103 | under any run of additions, refused ones included, and removals the table is the map |
| `Bruteforce.BruteforceSearch.AddPoint` | Ours/core/hnswlib/bruteforce.h:64-83 | fails exactly on a new label in a full table, leaving it unchanged; otherwise the map gains the point |
| `Bruteforce.BruteforceSearch.RemovePoint` | Ours/core/hnswlib/bruteforce.h:86-103 | the map loses exactly that label |
| `Bruteforce.BruteforceSearch.SearchKnn` | Ours/core/hnswlib/bruteforce.h:106-125 | the result is the k lexicographically least (distance, label) pairs among the allowed labels, or all of them when fewer |
| `Bruteforce.PushKeeps` | Ours/core/hnswlib/bruteforce.h:115-118 | pushing and popping the greatest keeps the k least |
| `Bruteforce.SkipKeeps` | Ours/core/hnswlib/bruteforce.h:113 | skipping an entry beyond the last distance of a full heap loses nothing |
| `Bruteforce.KBestUnique` | Ours/core/hnswlib/bruteforce.h:106-125 | there is only one such answer |
| `Bruteforce.SameAnswer` | Ours/core/hnswlib/bruteforce.h:106-125 | tables with the same map, in any slot order, give the same answer |
| `Packing.GroupRoundTrip` | experiments/05_disk_system_fair/quantizers.py:32-111 | one group of codes comes back from its bytes exactly when every code is in range, in all three formats |
| `Packing.GroupOnto` | experiments/05_disk_system_fair/quantizers.py:32-111 | one group of bytes is the packing of what it unpacks to |
| `Packing.RoundTrip` | experiments/05_disk_system_fair/quantizers.py:32-111 | unpacking a packed row of any length gives the codes, then zero padding, exactly when every code is in range |
| `Packing.Onto` | experiments/05_disk_system_fair/quantizers.py:32-111 | packing what a byte string of whole groups unpacks to gives the byte string |
| `Packing.ThreeIsOctal` | experiments/05_disk_system_fair/quantizers.py:53-66 | the three bytes of a 3-bit group are the bytes, lowest first, of the number whose base-8 digits are the codes, lowest first |
| `Packing.FourIsHex` | experiments/05_disk_system_fair/quantizers.py:32-40 | the byte of a 4-bit group is the number whose base-16 digits are the codes, lowest first |
| `Packing.OneIsBinary` | experiments/05_disk_system_fair/quantizers.py:87-100 | the byte of a 1-bit group is the number whose bits are the codes, lowest first |
| `Packing.Unpack` | experiments/05_disk_system_fair/quantizers.py:43-111 | the strided fills produce the groups' codes in order, and bytes that are not whole groups are refused |
| `Packing.PackSigns` | experiments/05_disk_system_fair/quantizers.py:87-100 | the loop over bits packs the signs of the values as the 1-bit format |
| `Pareto.BestByRecall` | experiments/05_disk_system_fair/orchestrator.py:760-765 | for each rounded recall a row as fast as any of that recall |
| `Pareto.Scan` | experiments/05_disk_system_fair/orchestrator.py:769-775 | the kept rows rise strictly in speed, cover every row scanned, and no row of higher recall is as fast as a kept one |
| `Pareto.ParetoFront` | experiments/05_disk_system_fair/orchestrator.py:754-777 | strictly rising recall with strictly falling speed, no row beats one of the front, every row is covered by one; in recall as it is, every row has one of the front as fast that loses at most 1e-10, and no row as fast as one of the front gains more than that |
| `Pareto.FrontInRecall` | experiments/05_disk_system_fair/orchestrator.py:754-777 | what is true at rounded recall holds in recall itself to within 1e-10 |
| `Pareto.FrontIsUnbeaten` | experiments/05_disk_system_fair/orchestrator.py:754-777 | a row is unbeaten exactly when the front has a row with its rounded recall and speed |
| `Contract.SpecsWellFormed` | experiments/05_disk_system_fair/native_contract.py:44-58 | no layer lists two methods of one name, and every method has distinct storage modes |
| `Contract.SpecsForExact` | experiments/05_disk_system_fair/native_contract.py:136-141 | unknown names are an error and nothing else is; the specs are exactly those asked for, in the order of the table, with distinct names |
| `Contract.Validate` | experiments/05_disk_system_fair/native_contract.py:520-558 | the loops report exactly the missing runs, so they report none exactly when the rows are complete |
| `Schedule.LatinSquare` | experiments/05_disk_system_fair/orchestrator.py:243-244 | in any n turns in a row each of n methods is in each position exactly once, at the turn given |
| `Schedule.TestInOrder` | experiments/05_disk_system_fair/orchestrator.py:240-261 | the list of a test run has that order, for any specs, workers, repeats and modes |
| `Schedule.RepeatsRotate` | experiments/05_disk_system_fair/orchestrator.py:241-244 | in exactly one of any n repeats in a row the pass with a given number of workers has a given method in a given position |
| `Schedule.WorkersRotate` | experiments/05_disk_system_fair/orchestrator.py:242-244 | in exactly one of any n numbers of workers in a row, within one repeat, a given method is in a given position |
| `Schedule.GoesOnIff` | experiments/05_disk_system_fair/orchestrator.py:241-244 | across repeats the turning goes on, from the last pass of one to the first of the next, exactly when, modulo the number of methods, there is one number of workers |
| `Schedule.ExtrasRotate` | experiments/05_disk_system_fair/orchestrator.py:252-254 | and so for any n repeats in a row of an extra setting |
| `Schedule.WorkItems` | experiments/05_disk_system_fair/orchestrator.py:222-262 | the list is, one after the other, the passes of every repeat and then of the three extra settings; in position p the pass of repeat r and worker index i has the selected modes of method (p + r + i) mod n, an extra pass of repeat r those of method (p + r) mod n; tuning runs have them in table order |
| `Schedule.EachOnce` | experiments/05_disk_system_fair/orchestrator.py:222-262 | for distinct worker counts, every planned combination of method, mode, workers, repeat, budget and cache is in the list exactly once, and nothing else is |
| `Schedule.CoverageIff` | experiments/05_disk_system_fair/native_contract.py:520-558 | for any specs left by the method filter, one row per scheduled run passes the coverage loops exactly when there is a run at all, every storage mode was selected, no method was filtered out, and fast mode did not drop an extra GIST run |
| `Schedule.RunSpecsAgree` | experiments/05_disk_system_fair/orchestrator.py:939-950 | filtering the specs of a layer by name is asking for those names, errors included |
| `Schedule.AcceptedIff` | experiments/05_disk_system_fair/orchestrator.py:939-1071 | outside fast mode a completed test run is accepted exactly when no method of the layer was filtered out, there is a run at all and every storage mode was selected |
| `Schedule.IncompleteRuns` | experiments/05_disk_system_fair/orchestrator.py:939-1071 | two runs that complete and are refused: 05B with the hybrid mode alone, and 05C with one method |

## Left out

- Files and devices: mmap, O_DIRECT, thread pools, hashing and JSON. A file is its bytes and a read is a slice of them.
- Float rounding, infinities and NaN: reals throughout, so the float comparisons of the source are exact here.
- Timing fields and microsecond counters.
- Random choices: rotation signs, the k-means sample and the shuffles are inputs; the modulus that draws a sample is
  not modelled.
- `disk_search` with an entry node that has no payload (lines 214-226), with `max_expansions` above zero, or with
  `rerank` above zero: entry below the data count, and both limits off.
- `heapq` and `std::priority_queue` themselves: a heap is the set of its entries and its root is the least or greatest.
  `np.sort` and `sorted` on numbers are library calls, modelled as selection of the least.
- Distances inside `disk_search`: how a quantizer scores a record against the query is a function given to the search,
  and the one-bit estimates of the gate are a table over the nodes.
- PagedGraph.FetchLists: adjacency is read with the direct reader; with a shared cache the memory reader can lose a page.
- `topk_indices`, `fixed_candidate_recall_at_k` and `pairwise_flip_rate_at_k`: easy members beside the ones here.
- `nodes_for_pages`, `packed_size` and `to_dict`: easy members.
- KMeans1D.KMeans: asks for at least one centre, as its callers do.
- `np.interp` at a single value: with more than k values there are at least two of them.
- Packing.Unpack: one row at a time; reshaping a matrix of rows is not modelled.
- PageCache.SharedPageCache.constructor: asks for a capacity of at least one byte, because with less the first `put`
  into the empty cache raises StopIteration.
- PageReaders.DirectPageReader.constructor: asks for at least one request in flight, because a thread pool
  with no worker is an error.
- PayloadReads.Records: assumes that no file is named "default", the namespace the page-by-page branch asks; files are
  named by absolute paths.
- Scans.ScanFp32: row counts that are not whole blocks of 32 are refused by the program before it scans, and here.
- Bruteforce.BruteforceSearch.SearchKnn: the assertion k <= count is not needed; the contract holds for every k.
- Contract.Validate: the graph-hash, graph-role, dataset and phase checks after the coverage loops.
- Pareto: recall is rounded as a real; the rounding of its float representation is not modelled.
- VisitedLists.VisitedList.Mark: the code that marks and tests nodes, hnswalg.h, is not part of this model; a mark
  writes the current stamp.
- VisitedPool: memory ordering below the level of single writes; a list is released only by the user that holds it.

# Verified model of VAPRO

VAPRO profiles MPI programs. A hook before and after every MPI call records the time since the previous
hook as a snippet of computation or communication; at the end of the run the snippets are clustered,
turned into relative performance, and merged into one-second bins. It ships with `jevents` (a JSON
tokenizer, a reader of event files, a perf ring-buffer iterator, a lock-free counter read and event
sessions), with a client that sends the computation graph to a server, and with the template parser of
`wrap.py`. This project models these parts in Dafny 4.11 and proves what they promise.

Code that updates state is modelled by classes and methods with loops. Each such method is proved equal
to a function on values, and the properties are lemmas about these functions, so they hold of the code's
results. `dafny verify dfyconfig.toml` checks everything.

## Main results

- **Recording and report.** For every offline run that begins with the hook after MPI_Init under an increasing
  clock, the graphs hold exactly the records of the run, the recorded intervals are disjoint over all three
  graphs, and nested calls leave no trace but the time base. Every call outside another leaves one record of
  computation since the reading before and one record of itself since the last reading in it, on edges and with
  contents given in numbers; what was recorded is never lost; the records of computation are those made before
  calls, and file operations are those and only those of four functions. What is measured of a vertex is its
  classes of five or more calls with the same target and count, and the number noted is that of these classes.
  Each timeline the report prints is the overlap-weighted mean of the measured performance in every bin, and the
  covered communication time never exceeds the run time. Covered computation and communication time together do
  not exceed it when no record of computation is measured twice, and the exact condition for that is proved: on
  no edge do two of the gaps behind negative counts that pass the filters meet. In particular it holds where at
  most five counts are negative. A run is given on which it fails and the covered time exceeds the run time.
- **Clustering.** The two pointers that never retreat find the window a fresh search finds; the centres stay
  apart through every push and replacement; which windows become centres is given without the loop: those of
  elements strictly wider than every window before them that begins right of the centre before, and at least as
  wide as every later one that begins no further right than their end; every element whose window is not empty
  is reached by some final centre at least as wide; the groups hold every record of a sorted prefix exactly once
  if and only if no negative count has another at or below it within the radius; the stability filter never
  rejects a centre's group.
- **Tokenizer.** The open tokens are the stack of unmatched brackets at every loop head; success means balanced,
  and an error code tells whether any further text could complete the input: "more input needed" means that some
  does, "invalid" that none does unless an escape was cut; a restart after "no memory" equals one run with more
  tokens; a restart after "more input needed" equals one run on the longer text exactly when the cut is not
  inside a primitive; printing any JSON value, tokenizing it and reading the tokens gives the value back.
- **Event files.** From the bytes of any JSON file to callbacks: the walk steered by `size` fields hands over
  the named objects once and in order, and the code it returns is given for every array, whatever follows it. It
  is 0 exactly when every object is answered, but for an empty last object, or when after at least one answered
  object an element is not flat or tokens follow the array.
- **Ring buffer and counters.** Under any interleaving with the kernel, what the reader returned is a prefix of
  the kernel's log, and at every address handed out in the ring lies the record returned, until the reader
  continues; a counter read that leaves through the lock test with an index other than 0 is the count at one
  instant, unless the 32-bit lock word made full turns in between.
- **Timelines.** The sweep over the bins gives the overlap-weighted mean when the intervals that end before a
  bin's end precede, in order of left ends, all that do not; it counts the time covered by every bin if and only
  if they do. Any two of the program's own intervals have the same span or are disjoint, and so always meet
  this.
- **Wire format, event groups, templates.** Serialising, joining and printing are undone by decoding, parsing
  and lexing, with the exact condition where they are not. The text of a template tree parses back to that tree
  if and only if it has no index macro and no end name in its own body; an index macro comes back in its normal
  form. Which templates are rejected is decided by counting open macros. A message is given byte by byte.
  Parsing a list of events succeeds if and only if the database knows every event.

Where the code does not meet a promise, a lemma shows a failing input, and the exact condition under which it
does is proved:

- no record of computation measured twice, on which covered time of at most the run time rests
  (`Report.ReportRun`): `Report.EdgeMeasuredOnce` with `MeasuredOnce.MeasuredOnceIff`, failing on the run of
  `Overcount.ReportExceedsRun`, where the covered time does exceed the run time;
- a restart after more input: `JsmnRestart.MoreInput`;
- a tokenizer that calls a text invalid only if no further text completes it: `JsmnErrors.CompletableIff`,
  failing exactly on texts that end in a backslash that opens an escape;
- groups without repetition: `Clustering.ClassifyIsPrefix` and `Clustering.ClassifyIsDisjoint`, failing on the
  input of `Clustering.NegativeCountsRepeat`;
- a counter read at one instant: `Rdpmc.SameLock` with `Rdpmc.Snapshot`, failing on the pairs of
  `Rdpmc.FullTurnsMislead`;
- a counter difference: `Rdpmc.DifferenceIff`;
- the result of reading an event file: `Events.SucceedsIff`, with `Events.FailureAfterSuccess`;
- groups of events: `SessionGroups.GroupsRoundTrip`, failing on the group of `SessionOpen.GroupOfOneLeaks`;
- templates: `TemplateRoundTrip.RoundTrip`, failing on the macros of `TemplateRoundTrip.IndexForgets`.

## Assumptions

- Timestamps and counters are integers with the 64-bit wrap of the code; seconds and performance are exact
  reals; the clock is strictly increasing between records and a run lasts less than 2^64 ticks.
- A graph never holds an edge without records, so the classifier is not called on an empty input, where its
  `centers.size()-1` would wrap.
- `std::sort` is any ascending rearrangement; the order in which a map is walked does not matter to the report.
- One byte past a JSON text that ends in a backslash reads as 0.
- The kernel writes whole records, 8-aligned and no larger than the buffer, into free space only.
- Slashes in a list of events are balanced; the code reads past the end of the string when they are not.
- Python does not read the word `args` as an integer.

## Model

| member | source | states |
|---|---|---|
| Hooks.Recorder.PmcGetData | papi_wrap.cpp:173-186 | counter and time differences since the last reading, with 64-bit wrap; the reading becomes the new base |
| Hooks.Recorder.InsertData | papi_wrap.cpp:235-250 | the record is appended on its key, new addresses are numbered, the current one first and with its function |
| Hooks.Recorder.Record | papi_wrap.cpp:421-463 | which graph and key an outermost hook's record goes to, and the filters that drop it |
| Hooks.Recorder.PapiUpdate | papi_wrap.cpp:328-477 | the whole new state of the recorder after one hook: late start, nesting, record, new time base |
| HookRuns.GraphsHoldTheLog | papi_wrap.cpp:437-463 | after any run each graph holds exactly the records of the run with its keys, in order |
| HookRuns.KeysAreAddresses | papi_wrap.cpp:421-434 | every key recorded is a pair of 64-bit addresses, also for hooks of Dyninst, whose address is a negated target |
| HookRuns.CommKeys | papi_wrap.cpp:997-1005 | every key recorded in the communication and I/O graphs has first = 0 or first = second, as the printer asserts |
| HookRuns.IntervalsInOrder | papi_wrap.cpp:353-376 | in a run that starts with the MPI_Init hook, all recorded intervals are non-empty, ordered, disjoint and within the run |
| HookRuns.SumInOrder | papi_wrap.cpp:173-186 | ordered disjoint intervals take no more time than lies between their bounds |
| HookRuns.DepthIsNesting | papi_wrap.cpp:364-376 | the flag says that a call is under way and `recursive_depth` is the nesting below it |
| HookRuns.NestedIsInert | papi_wrap.cpp:364-375 | well-nested calls inside a call change nothing but the time base |
| HookRuns.NestedCallsAreErased | papi_wrap.cpp:328-477 | a well-nested run records the same keys and call data as the run with the nested calls removed, and ends outside any call at depth 0 |
| HookRuns.WholeRunIsErased | papi_wrap.cpp:328-477 | the same for whole runs from the first hook on |
| Recorded.GraphKinds | papi_wrap.cpp:437-463 | after any run the records of computation were made by hooks before calls, those of the other two graphs by hooks after them, and the I/O graph holds those of functions 117, 118, 137 and 138, which the communication graph does not |
| Recorded.OneCall | papi_wrap.cpp:352-477 | a call outside any other, with any calls inside it: the one record on the edge from the call before, the one record of the call since the last reading in it, their contents, and the records that are left out |
| Recorded.RecordKept | papi_wrap.cpp:437-463 | the record of a hook outside any other call is in the graph of its kind at the end of the run, whatever comes after it |
| Recorded.RunNumbers | papi_wrap.cpp:237-245 | after any run the addresses of all edges are numbered from 0 on, each with its own number |
| Recorded.FirstNumbers | papi_wrap.cpp:237-245 | the first record gives 0 to the address it ends at, with its function, and 1 to the one it comes from |
| Recorded.StartIsFirst | papi_wrap.cpp:330-349 | time counts from the first hook of a run on, which does nothing else if MPI is not initialised |
| Recorded.StartStays | papi_wrap.cpp:350-352 | no later hook moves the start, and a finished recorder stays as it is |
| Clustering.SortByIns | clustering.cpp:31-33 | ascending instruction counts, a permutation of the input |
| Clustering.Advance | clustering.cpp:37-38 | a pointer moved from where it was stops at the first element a fresh search finds |
| Clustering.FindCenters | clustering.cpp:34-47 | the double loop gives the centres of the greedy rule over fresh windows, those `CentersChosen` describes |
| Clustering.PushCenters | clustering.cpp:48-54 | one group per centre, the slice from its l to its r |
| Clustering.PushGaps | clustering.cpp:56-70 | the groups before the first centre and between neighbours |
| Clustering.CalcClassify | clustering.cpp:27-72 | sorting, centres and both kinds of groups together |
| Clustering.WindowMoves | clustering.cpp:37-38 | windows of larger counts lie no further left at either end, whatever the sign of the counts |
| Clustering.WindowOfNegative | clustering.cpp:37-38 | the window of a negative count begins at its element, and is empty or ends before it begins; it ends there exactly when all before it are out of reach |
| Clustering.WindowHolds | clustering.cpp:37-38 | the ends of a window in numbers: what lies before its l has fewer than 1 - alpha of the element's instructions, what lies before its r fewer than 1 + alpha, and what lies at them does not |
| Clustering.CentersChosen | clustering.cpp:39-46 | of which elements the windows are the centres: each is strictly wider than the windows before it that begin right of the centre before, and at least as wide as the later ones that begin at or before its r |
| Clustering.CentersAreWindows | clustering.cpp:39-46 | every centre is the window of some element |
| Clustering.CentersApart | clustering.cpp:39-46 | centres stay ordered at both ends with the r of each below the l of the next, whatever the sign of the counts |
| Clustering.SomeCenterDominates | clustering.cpp:39-46 | for every element whose window does not end before it begins, a final centre reaches its l and is at least as wide |
| Clustering.GroupsPartition | clustering.cpp:48-70 | all groups together are the sorted records up to the last centre's r, each exactly once, if and only if no centre ends before it begins |
| Clustering.ClassifyIsPrefix | clustering.cpp:27-72 | the groups the code computes are that prefix, each record once, if and only if no negative count has another at or below it within the radius |
| Clustering.ClassifyIsDisjoint | clustering.cpp:27-72 | no record is in two groups if of any three in order of counts a negative middle one has the first out of reach; for distinct records only then |
| Clustering.NegativeCountsRepeat | clustering.cpp:37-70 | an input that is not sparse: three negative counts close together give empty centre groups and a record repeated in the gaps |
| MeasuredOnce.CentersShaped | clustering.cpp:34-47 | the windows of the negative counts are the first centres, and later ones lie behind them and do not end before they begin |
| MeasuredOnce.GapPasses | papi_wrap.cpp:638-655 | the gap behind a negative count passes both filters if and only if there is a centre behind it, it has five records, and its least count outweighs its greatest |
| MeasuredOnce.MeasuredOnceIff | papi_wrap.cpp:783-791 | of distinct records none is measured twice if and only if of two such gaps that pass the later begins where the earlier has ended, or after |
| MeasuredOnce.OnceAnyhow | clustering.cpp:31-33 | whether this holds does not depend on how the sort orders equal counts |
| MeasuredOnce.FewNegatives | papi_wrap.cpp:638-655 | it holds with at most five negative counts |
| MeasuredOnce.SparseIsOnce | clustering.cpp:37-70 | it holds when the counts are sparse, so that no record is in two groups |
| CommGroups.CommClassify | clustering.cpp:91-107 | the groups by target and count, in key order, each in input order |
| CommGroups.CommOrder | clustering.cpp:91-107 | each group is all records of one target and count, in order, and targets ascend, then counts |
| CommMeasured.VertexMeasures | papi_wrap.cpp:900-925 | of a class of calls of a vertex nothing is measured if it has fewer than 5, all if it has up to 16, and all but the last 16 if it has more |
| CommMeasured.VertexCounts | papi_wrap.cpp:900-928 | the number noted for a vertex is that of its classes of at least 5 calls |
| CommMeasured.EdgeMeasures | papi_wrap.cpp:791-806 | what is measured of an edge is in groups of at least 5 records, no two of them as far apart in instructions as 49 to 51 |
| CommGroups.CommPartition | clustering.cpp:91-107 | these groups hold every record exactly once |
| Stability.PathStable | papi_wrap.cpp:643-655 | the relative spread of the counts is below 0.04 |
| Stability.StableIff | papi_wrap.cpp:643-655 | positive counts are stable if and only if no two of them are as far apart as 49 to 51 |
| Stability.CenterGroupsAreStable | papi_wrap.cpp:643-655 | every non-empty window of radius 0.02 is stable |
| Stability.EveryCenterGroupIsStable | papi_wrap.cpp:783-792 | the filter never rejects a non-empty centre group of the clustering |
| Paths.Smooth | papi_wrap.cpp:513-524 | the wrapping running sum is the sum of the 16 elapsed values from each position |
| Paths.TotalFits | papi_wrap.cpp:520-524 | the sum of any run of records of a sound log fits 64 bits |
| Paths.WindowStep | papi_wrap.cpp:520-524 | moving the window by one adds the entering and drops the leaving value |
| Paths.Least | papi_wrap.cpp:525-526 | the least of the values |
| Paths.Intervals | papi_wrap.cpp:527-535 | interval ends in seconds and performance as a fraction of the best |
| Paths.CalcPath | papi_wrap.cpp:502-557 | one interval per record used, smoothed or not, with its time span and a performance in (0,1] |
| Sweep.SortByLeft | papi_wrap.cpp:709-710 | intervals ascending by l, a permutation of the input |
| Sweep.MergeIntervalWeightedMean | papi_wrap.cpp:707-768 | the code's sweep with its carried sums, on the order by l that also serves as the order by r |
| Sweep.TurnSums | papi_wrap.cpp:731-757 | after each turn the carried and partial sums add up to the weighted overlap with that bin, and to what ended intervals not yet let go have over |
| Sweep.TurnTime | papi_wrap.cpp:731-757 | the time a turn divides by is at least the time covered in its bin, and equal to it if and only if the intervals that end before the bin does precede all that do not |
| Sweep.SweepIsMean | papi_wrap.cpp:731-766 | when that holds at the end of every bin, each bin is sum(perf * overlap) / sum(overlap), or the sentinel below eps |
| Sweep.SweepFromStart | papi_wrap.cpp:707-768 | the same from the first bin on |
| Sweep.SweepTimeIff | papi_wrap.cpp:731-757 | the sweep divides every bin by the time covered in it if and only if the ends are in that order at the end of every bin |
| Sweep.SeparateAligned | papi_wrap.cpp:709-729 | intervals sorted by l, any two of which have the same span or are disjoint, are in that order at the end of every bin |
| Sweep.BinBounds | papi_wrap.cpp:758-761 | a bin that is not the sentinel lies in [0,1] when the performances do |
| Sweep.BinsAreFractions | papi_wrap.cpp:758-765 | the same for all bins of a timeline |
| Sweep.BinsHold | papi_wrap.cpp:758-766 | there is one bin for each second; it holds work over time of the parts of intervals in it if they last 1e-10 s or more, else -0.005 |
| Sweep.NestedIntervalsMislead | papi_wrap.cpp:728-729 | why the order is needed: with an interval inside another, of performance 1 and 1/2, a bin is not the mean |
| Report.AddCovered | papi_wrap.cpp:801-804 | the covered time grows by exactly the elapsed time of the records measured |
| Report.IntervalIs | papi_wrap.cpp:502-557 | the intervals of a group in numbers: its span on the time axis, and the least time of one record, or of 16 on end, over its own |
| Report.Classify | papi_wrap.cpp:783-791 | the groups of one edge or vertex, each part of its records; those of a vertex, and of an edge with sparse counts, hold no record twice |
| Report.ClassifiedOnce | papi_wrap.cpp:783-791 | the groups of computation hold no record twice if the counts are sparse, and for distinct records only then |
| Report.EdgeHeldOnce | papi_wrap.cpp:783-791 | on an edge of a recorded run the groups hold no record twice if and only if its counts are sparse |
| Report.EdgeMeasuredOnce | papi_wrap.cpp:783-806 | on an edge of a recorded run no record is measured twice if and only if no two gaps behind negative counts that pass meet |
| Report.FewerIntervals | papi_wrap.cpp:915-927 | the groups of one edge or vertex add no more intervals than it has records, as the code asserts |
| Report.IntervalsDisjoint | papi_wrap.cpp:801-805 | the intervals of one graph start at or after 0, have performance in [0,1] and any two have the same span or are disjoint; all are disjoint if and only if no record is measured twice |
| Report.CountsAt | papi_wrap.cpp:810-810 | the number of groups noted for an edge is that of its own groups that pass |
| Report.PerformanceProcess | papi_wrap.cpp:777-815 | timeline and covered time of one graph, its group counts written over those before; what is measured is part of the records, and its intervals disjoint, if and only if every edge of computation measures once |
| Report.ReportFits | papi_wrap.cpp:1036-1042 | what is measured in the three graphs together takes at most the time of the run |
| Report.GeneratePerformanceGraph | papi_wrap.cpp:1034-1063 | covered communication time is at most the run time, and so is computation plus communication if every edge of computation measures once; each is exactly the time measured, with the three timelines, the group counts of the three graphs in one map, and the edge and vertex counts |
| Report.RunIsReportable | papi_wrap.cpp:328-477 | every offline run that starts with the MPI_Init hook leaves books and intervals as the report needs them |
| Report.ReportRun | papi_wrap.cpp:1034-1063 | from the hooks of any whole run to its report: timelines the weighted means, communication at most the run time, and covered time at most the run time if every edge of computation measures once |
| Overcount.ReportExceedsRun | papi_wrap.cpp:777-815 | a run of 123 ticks, eight calls at one site with 100 fewer instructions before each, whose report covers 180 ticks of computation |
| Jsmn.Parser.AllocToken | jevents/jsmn.c:31-42 | a fresh token is taken in place, or nothing changes when there is none |
| Jsmn.Parser.ParsePrimitive | jevents/jsmn.c:59-111 | the primitive's span, or the error with the position restored |
| Jsmn.Parser.ParseString | jevents/jsmn.c:116-168 | the string's span between its quotes, or the error with the position restored |
| Jsmn.Parser.OpenBracket | jevents/jsmn.c:187-197 | a new open token becomes the superior, its parent counts one more child |
| Jsmn.Parser.CloseBracket | jevents/jsmn.c:198-221 | the last open token is closed and the one below it becomes the superior, or a mismatch is reported |
| Jsmn.Parser.Turn | jevents/jsmn.c:181-277 | one iteration of the main loop on the whole token array |
| Jsmn.Parser.Parse | jevents/jsmn.c:173-286 | code, parser fields and every token of a call; tokens past the last used one stay |
| JsmnStack.StepKeeps | jevents/jsmn.c:181-277 | one iteration keeps the invariant and moves the open tokens as a bracket scanner moves its stack |
| JsmnStack.EveryLoopHead | jevents/jsmn.c:181-283 | at every loop head the open tokens are the unmatched brackets, `toksuper` is the last of them, spans are nested or disjoint with increasing starts, and each `size` counts its direct children |
| JsmnStack.SuccessIffBalanced | jevents/jsmn.c:279-285 | unless tokens run out, a call succeeds exactly on balanced inputs, and then nothing is open |
| JsmnStack.OneTokenPerByteIsEnough | jevents/json.c:82-89 | with one token per byte tokens never run out, and success means balanced |
| JsmnErrors.CompletableIff | jevents/jsmn.c:116-168 | unless tokens run out, some further text completes the input if and only if the code is success or "more input needed", or the input ends in a backslash that opens an escape, which is called invalid |
| JsmnErrors.OneMark | jevents/jsmn.c:186-278 | what a bracket or a quote alone is: an open token and more input needed, invalid, or more input needed |
| JsmnErrors.OneOther | jevents/jsmn.c:59-111 | of any other byte alone: blanks, colon and comma are no token, what is printable is a primitive, the rest is invalid |
| JsmnErrors.EndsPrimitive | jevents/jsmn.c:66-92 | the bytes that end a primitive |
| JsmnErrors.Escapes | jevents/jsmn.c:140-160 | the bytes that may follow a backslash |
| JsmnRestart.MoreTokens | jevents/jsmn.c:36-41 | after "no memory", going on with a larger array equals one run with it; any other result is the same with a larger array |
| JsmnRestart.MoreInput | jevents/jsmn.c:279-283 | after "more input needed", going on with more text equals one run on all of it, if and only if the end did not cut a primitive |
| JsmnRestart.ClosedStays | jevents/jsmn.c:198-221 | a closed token keeps its end for the rest of the call |
| JsmnRoundTrip.Tokenizes | jevents/jsmn.c:173-286 | tokenizing any JSON text succeeds with exactly the preorder tokens: types, spans and sizes |
| JsmnRoundTrip.ReadValue | jevents/jsmn.h:39-44 | a reader steered only by types, spans and sizes rebuilds the value and stops behind its tokens |
| JsmnRoundTrip.RoundTrip | jevents/jsmn.c:173-286 | text to tokens and back gives the value, and every token is used |
| JsmnRoundTrip.TokensFit | jevents/json.c:82-89 | a JSON text has no more tokens than bytes |
| Events.FindName | jevents/jevents.c:305-306 | an object has an event name exactly when a field is called EventName, case aside |
| Events.NameIs | jevents/jevents.c:305-306 | that is, one of nine letters each of which is that of EventName in upper or lower case |
| Events.ReadFields | jevents/jevents.c:281-291 | the pairs of an object as strings, or a failed expectation; the cursor's move |
| Events.ReadEvents | jevents/jevents.c:268-373 | calls made and code returned by the walk, with every expectation |
| Events.WalkArray | jevents/jevents.c:270-373 | on any array of JSON values, and whatever tokens follow it, the cursor stands at each element's token at its turn, up to the first that is not a flat object |
| Events.EventsOfTokens | jevents/jevents.c:268-373 | the calls and the code for the tokens of any value, with and without tokens behind it |
| Events.ReadsEventFile | jevents/jevents.c:251-386 | from the bytes of any JSON file to the calls made and the code returned |
| Events.SucceedsIff | jevents/jevents.c:280-373 | the code is 0 exactly when every element is a flat object with a name that the callback accepts, up to the end, an empty last object, or, after at least one call, an element that is not flat or tokens behind the array; then every named object before that was handed over once, in order |
| Events.NothingRead | jevents/jevents.c:268-283 | a file that is not an array, or whose first element is no flat object or has no name, gives -5 and no call |
| Events.FailureAfterSuccess | jevents/jevents.c:280-291 | a failed expectation after an accepted object returns the 0 of the last callback |
| PerfIter.Iter.CopyWrapped | jevents/perf-iter.c:89-98 | a wrapped record is put together from the end and the start of the ring |
| PerfIter.Iter.PerfBufferRead | jevents/perf-iter.c:74-103 | the new cursor and the bytes left; a record that lies at the iterator is at the address returned in the ring, or at the start of the buffer, or null is returned because it wraps and is larger than the buffer |
| PerfIter.Iter.PerfIterContinue | jevents/perf-iter.c:112-116 | the tail moves to the head the iterator was started with |
| PerfIter.AppendKeeps | jevents/perf-iter.c:43-116 | a kernel write into free space leaves everything that may still be read |
| PerfIter.TakeKeeps | jevents/perf-iter.c:74-103 | a read returns the next record of the log, or changes nothing when the record wraps and does not fit the buffer |
| PerfIter.ReadsRecord | jevents/perf-iter.c:74-103 | where a record lies in the ring, a read gives exactly its bytes and moves behind it, also at the very end of the ring |
| PerfIter.RunReturnsTheLog | jevents/perf-iter.c:43-116 | in any interleaving what was returned is a prefix of the kernel's log; between sessions it is all up to the tail |
| PerfIter.FinishedIsDrained | jevents/perf-iter.h:49-52 | a finished iterator has returned every record that was there when it was started |
| PerfIter.ReturnedStays | jevents/perf-iter.c:79-83 | at the address handed out in the ring for a record lies that record, whatever the kernel has written since, until the reader continues |
| PerfIter.LogStays | jevents/perf-iter.c:79-83 | a record of the log that lies whole in the ring keeps its bytes there until the reader continues |
| PerfIter.BigEnoughBuffer | jevents/perf-iter.c:84-102 | with a buffer for the largest record every read returns the next record |
| PerfIter.AlwaysReadable | jevents/perf-iter.c:74-79 | an unfinished iterator stands at a record's header |
| Rdpmc.SameLock | jevents/rdpmc.c:125-136 | two lock words are equal if and only if the number of changes between them is a multiple of 2^31 |
| Rdpmc.Snapshot | jevents/rdpmc.c:125-137 | if the lock is the same before and after, without full turns, the masked sum is the count at the instant of the read |
| Rdpmc.FullTurnsMislead | jevents/rdpmc.c:126-136 | for every number of full turns of the 32-bit lock within one attempt, and wherever it starts, the test can pass with a wrong value |
| Rdpmc.Machine.Attempt | jevents/rdpmc.c:125-136 | one attempt against any events and reschedules between its instructions |
| Rdpmc.Machine.RdpmcRead | jevents/rdpmc.c:117-138 | the value returned is the count at an instant of the call modulo 2^48 if the lock made no full turn, or the offset when reading is not allowed |
| Rdpmc.DifferenceIff | papi_wrap.cpp:175-184 | the recorded difference of two readings is the number of events between them if and only if the 48-bit counter did not wrap |
| Wire.SentIsMaximal | SocketClient.cpp:79-85 | the edges sent are the longest prefix whose message is smaller than the buffer |
| Wire.LeAt | SocketClient.h:29-39 | byte i of a number is that number over 256 to the i, modulo 256 |
| Wire.MessageLaid | SocketClient.h:29-39 | where every field of header, keys and records lies in a message, in numbers of bytes |
| Wire.DataBack | papi_wrap.h:42-50 | a record read back from its bytes is the record |
| Wire.DecodesEdges | SocketClient.cpp:76-113 | keys followed by records decode to the edges |
| Wire.MessageDecodes | SocketClient.h:29-39 | a buffer with header, keys and records decodes to the message |
| Wire.SocketClient.WriteKeys | SocketClient.cpp:75-91 | the first loop writes the keys of exactly the edges that fit |
| Wire.SocketClient.WriteValues | SocketClient.cpp:92-113 | the second loop writes their records behind the keys |
| Wire.SocketClient.Serialize | SocketClient.cpp:68-117 | the message is smaller than 2097152 bytes, decodes to rank, times and the prefix sent, has its fields where `MessageLaid` says, and nothing behind it is written |
| Sending.RunIsSendable | SocketClient.cpp:68-113 | the edges of computation of any run whose hooks read values that fit their types are such as `Serialize` takes |
| Session.CutAtSeparator | jevents/session.c:81-93 | an event ends at the first comma with an even number of slashes before it |
| Session.SkipSection | jevents/session.c:83-87 | from behind a slash to the slash that closes it, with the cut of the rest unchanged |
| Session.GrabEvent | jevents/session.c:75-95 | the event is cut off in place at that comma, and the rest follows it |
| Session.Trim | jevents/session.c:119-126 | braces are taken off a piece in place and become flags |
| Session.EventList.AddClones | jevents/session.c:137-159 | one clone per further unit outside groups, an error inside |
| Session.EventList.ParseEvents | jevents/session.c:106-169 | the event list and the result of parsing a whole text |
| Session.SlashesHide | jevents/session.c:83-87 | no comma between two slashes cuts |
| Session.CommaCuts | jevents/session.c:88-91 | outside slashes the first comma does |
| Session.OkIffFound | jevents/session.c:131-159 | parsing succeeds if and only if the database knows every event that was asked for, once if it is in a group |
| Session.EventsAnswered | jevents/session.c:128-159 | every event is of the kind of unit the database says, has as many clones as further units know it, outside groups, and they follow it |
| SessionGroups.GroupsRoundTrip | jevents/session.c:115-162 | parsing the joined text of singles and groups gives their events and flags, if and only if no group has one member |
| SessionGroups.JoinReadable | jevents/session.c:75-95 | the joined text is one the parser may be given |
| SessionOpen.OpenOn | jevents/session.c:294-323 | one event is opened on exactly the processors the mask allows, in order |
| SessionOpen.SetupEvents | jevents/session.c:284-332 | the calls made, each with the leader seen last, and the result: an error only if all calls failed |
| SessionOpen.OpenedOn | jevents/session.c:294-323 | the processors an event is opened on: of an uncore event one of each socket, of any other all, that the mask allows |
| SessionOpen.LeaderIs | jevents/session.c:293-328 | the leader of each call is the nearest leader before, with no end of a group in between |
| SessionOpen.GroupsOpen | jevents/session.c:293-328 | single events and heads of groups are opened without a leader, other members with their own head |
| SessionOpen.GroupOfOneLeaks | jevents/session.c:119-126 | a group of one keeps the brace in its name and leads the event after it |
| CpuMasks.CpumaskMatch | jevents/session.c:187-211 | the loop decides whether the mask names the processor |
| CpuMasks.StrtoulBack | jevents/session.c:193-193 | a decimal number reads back and the end is behind it |
| CpuMasks.HexBack | jevents/session.c:193-193 | after 0x the number is hexadecimal, in either case |
| CpuMasks.OctalBack | jevents/session.c:193-193 | after a leading 0 it is octal |
| CpuMasks.SignedBack | jevents/session.c:193-193 | blanks and a sign may come first; a number below 0 wraps at 64 bits, and one too large is the largest there is |
| CpuMasks.LowBits | jevents/session.c:193-193 | the low 32 bits are kept, with the sign of the upper half |
| CpuMasks.MaskBack | jevents/session.c:187-211 | a mask of numbers, ranges and an open last range names exactly the processors in them, of a descending range its first number alone |
| Template.RelexIsLighter | wrap/wrap.py:1226-1227 | lexing text again and pushing the words back makes the token stream lighter, so parsing ends |
| Template.BlankSeparates | wrap/wrap.py:1226-1227 | the six characters that separate words |
| TemplateParser.Parser.PushTokens | wrap/wrap.py:1191-1194 | pushed tokens come before the lookahead and the rest |
| TemplateParser.Parser.Accept | wrap/wrap.py:1196-1202 | the next token is taken if it is of the kind wanted |
| TemplateParser.Parser.ParseMacro | wrap/wrap.py:1224-1248 | the macro read, its arguments with nested macros, and the tokens left, or a syntax error |
| TemplateParser.Parser.ParseArgs | wrap/wrap.py:1238-1247 | the loop over the arguments, with text lexed again |
| TemplateParser.Parser.ParseText | wrap/wrap.py:1250-1274 | chunks up to the end macro, bodies as children, indices as arguments of the function |
| TemplateParser.Parser.Parse | wrap/wrap.py:1276-1282 | lexing and parsing a whole file |
| TemplateRoundTrip.MacroBack | wrap/wrap.py:1224-1248 | a macro's text reads back as its name and arguments |
| TemplateRoundTrip.ChunksBack | wrap/wrap.py:1250-1274 | the text of chunks reads back in normal form, with index macros replaced, before any text that follows |
| TemplateRoundTrip.NormalForm | wrap/wrap.py:1250-1282 | lexing and parsing a whole tree's text gives its normal form, with no token left |
| TemplateRoundTrip.ParseIsNormal | wrap/wrap.py:1250-1274 | whatever the tokens, a parsed tree has no index macro and no end name in its own body |
| TemplateRoundTrip.RoundTrip | wrap/wrap.py:1250-1282 | for every tree whose text lexes into its own chunks, lexing and parsing give the tree back if and only if it has no index macro, no end name in its own body and no macro with a body among arguments |
| TemplateRoundTrip.IndexForgets | wrap/wrap.py:1264-1267 | an index macro comes back as `args` with its number, and loses the arguments it is written with |
| TemplateErrors.ParsesIff | wrap/wrap.py:1224-1282 | a file is parsed to its end if and only if each macro has a name and is closed, no other braces close, and no macro with a body is inside another; else it is rejected |
| TemplateErrors.BodyLeftOpen | wrap/wrap.py:1250-1274 | a body whose end macro is missing ends with the file |

## Left out

- MPI, sockets, files, memory maps, ioctl, sysfs, the time stamp counter and environment variables: inputs of the hooks or steps of an environment.
- Online analysis and the server branch of `papi_update`: switched off by compile-time flags.
- Rounding of doubles; what the report prints, and `finish_flag`, which only printing sets.
- `merge_interval_arithmetic_mean`: no caller, and the same sort as the weighted mean.
- Strict mode of the tokenizer, and the width of its positions (texts shorter than 2^31 bytes).
- How `json_events` puts together the event string: fields are passed on as pairs of strings, and the callback's answer is a parameter.
- Event files that read past the tokens (a nested value in a flat walk): a failed expectation in the model, where the code reads on in memory.
- The second default file of `json_events` when no name is given.
- The 64-bit wrap of ring positions, memory barriers, and `head`, which the iterator sets and does not use.
- The kernel's update of the counter page in several writes: one step of the model, as a thread that reads its own counters sees it.
- Endless interference with a counter read: the retry loop ends because the environment reschedules finitely often.
- The communication and I/O graphs in `serialize`: the code does not send them.
- Padding bytes in messages: the receiver does not look at them.
- Name lookup for events and units (`resolve.c`, `cache.c`): a parameter that says what the database answers.
- The descriptors and attributes of opened events: a call is recorded with its event, processor and leader.
- Quoted words and comments in the lexers of `wrap.py`, code generation, and the MPI declarations it reads; which names Python reads as integers is a parameter.
- Session.GrabEvent: a text with an unclosed slash is excluded, because the code then reads past its end.
- TemplateRoundTrip.RoundTrip: trees are excluded whose text does not lex into their own chunks: text chunks that are empty or side by side, text with a pair of braces or ending in one before a macro, words with blanks, quotes or pairs of braces, names or arguments that end in a brace before the closing pair, and children of arguments or of macros without a body.
- The 64-bit wrap of the difference and the sum of two counts in the stability test.

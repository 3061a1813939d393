# A model of the profiler's data path, with proofs

The repository is a sampling profiler: samples are captured, queued, aggregated and
encoded. This project models the places where a compact or concurrent representation
has to mean the same as a simple one, and proves that it does.

| module (file) | what it models |
|---|---|
| `ProfileFormat` (ProfileFormat.dfy) | the tables of the public pprof format and a reader, `Resolve`, that turns them back into stacks |
| `PprofEncode` (PprofEncode.dfy) | the session encoder, as the mutable builder and the nested loops of the source |
| `PprofBuilder`, `PprofBuilderObjects`, `PprofReset` (PprofBuilder.dfy, PprofBuilderClass.dfy, PprofReset.dfy) | the incremental encoder of the signal profiler, as functions on a state value and as the two structs of the source tied to these functions |
| `SigRing`, `SignalPipeline` (SigRing.dfy, SignalPipeline.dfy) | the record format, and signal handlers and reader as interleaved steps over locks, buffers and queues |
| `ReaderRuns`, `ReaderWindows` (ReaderRuns.dfy, ReaderWindows.dfy) | what whole runs of these steps commit, take, drop and send, said over the events |
| `StackBuffers`, `SessionEncoding` (StackBuffers.dfy, Session.dfy) | the buffer of counts, its split into reports by a hash, and the way from a buffer to a profile |
| `TagRules`, `PprofBackend` (TagRules.dfy, PprofBackend.dfy) | per-thread tags and the backend that applies them lazily |
| `PprofCalls` (PprofCalls.dfy) | the same backend called from several threads, each call in its small steps under the mutex around the backend |
| `SharedBuffers` (SharedBuffers.dfy) | the Python and Ruby backends, whose sampler thread shares its buffer with `report` |
| `Unwinding` (Unwind.dfy) | the frame walk over memory that may be unreadable anywhere |
| `Kindasafe`, `SliceCopies` (Kindasafe.dfy, SliceCopies.dfy) | the instruction sequences that read memory, run by a machine whose faults go to the crash handler, and what a copy by them means |
| `Utf8`, `PyUnicode` (Utf8.dfy, PyUnicode.dfy) | RFC 3629 and the converters that read Python names into a fixed buffer |
| `UnicodeObjects` (UnicodeObjects.dfy) | unicode objects as CPython writes them, which are read back |
| `Agent` (Agent.dfy) | start, stop and shutdown: four threads, two channels, a condition variable |
| `Coredump`, `NtFile` (Coredump.dfy, NtFile.dfy) | memory reads from a core dump, and its table of mapped files |
| `MapsFile` (MapsFile.dfy) | /proc/self/maps and the search for the Python binary |
| `TransformReport`, `TagStrings` (TransformReport.dfy, TagStrings.dfy) | path trimming of the Ruby extension, and the tag string that crosses the foreign function interface |

`Wrappers`, `Interning`, `Bags`, `I64`, `LittleEndian` and `BackendTypes` hold what the
others share. An interning table is a map and the sequence of its keys (`Interning`); a
HashMap is a `map` iterated in any order; a hash is an arbitrary function, and the one
theorem that needs it to tell things apart says so. Address arithmetic wraps at 64 bits.

## Where the code does not do what it says

* The unwinder's comment says that it prevents infinite loops
  (kit/python_unwind/src/lib.rs:50-52). A cycle of two or more frames that are all skipped
  never advances the depth. `Unwinding.TerminatesIff` gives the exact condition and
  `Unwinding.TwoSkippedFramesLoop` a memory on which the loop does not end.
* On x86_64 `slice` copies the count modulo 2^32, and on both machines it copies forward, so a
  buffer that starts inside its source is overrun by its own bytes. Either way it reports
  success. `SliceCopies.SuccessMeansCopiedIff` gives the exact condition under which success
  can be trusted, `SliceCopies.TruncatedRefutes` and `SliceCopies.ChasedRefutes` the memories.
* `read_ucs2_to_utf8` can cut a name that is within its cap of 128 units, because 128 units
  can take 384 bytes and the buffer has 256: `PyUnicode.Ucs2CanTruncate`. The other two
  converters never do.
* A `report` of the Python and Ruby backends loses what is recorded between its clone and its
  clear: `SharedBuffers.RecordCanBeLost`, and exactly that: `SharedBuffers.NothingMissingIff`.
* The pprof backend records nothing between clone and clear
  (`PprofCalls.NothingBetweenCloneAndClear`), but it loses the samples that come after it has
  read the profiler and before the profiler runs again: `PprofCalls.SampleCanBeMissed`, and
  exactly those: `PprofCalls.NothingMissingIff`.
* `add_tag` and `remove_tag` restart the profiler before they change the rules. A sample in between
  is counted under a tag that its thread does not have yet, or without one that it still has:
  `PprofCalls.SampleCanBeEarly`, and exactly such samples: `PprofCalls.NeverEarlyIff`.
* Traces of one buffer whose metadata hashes collide end up in one report under one metadata:
  `StackBuffers.MetadataRightIffInjective`.
* A tag with ',' or '=' in its key or value does not arrive as it was (`TagStrings.TransferredIff`),
  and the call panics exactly if some tag has, between its commas, a piece without '=':
  `TagStrings.TransferPanicsIff`, for instance the value "a,b" (`TagStrings.TransferCanPanic`).
* `ProfileBuilder::encode` leaves its index maps behind. Before the reset every stack of the
  encoded profile indexes an empty vector when it is added again (`PprofReset.LoggedStacksPanic`),
  and so can a stack that was never there (`PprofReset.NewStackCanPanic`). No stack panics exactly
  if the builder had no sample: `PprofReset.ResetIsNeeded`. Even then a stack means something else
  as soon as one of its names is "", "cpu" or "nanoseconds", and only then:
  `PprofReset.EmptyNeedsResetToo`. The file names that the signal profiler's reader passes are all "".
* `transform_report` panics on a path that ends with the first mention of the working directory,
  such as "/usr/bin/app" in "/app", or in which a character outside ASCII follows it:
  `TransformReport.PathCanPanic`, and exactly on those: `TransformReport.PathPanicsIff`,
  `TransformReport.RbspyPanicsIff`.
* A read from a core dump with overlapping segments need not be the concatenation of the reads of
  its parts: `Coredump.OverlapBreaks`, with the exact condition in `Coredump.SplitIff`.
* A Python function whose names are ASCII and have 256 bytes or more has the name "<unknown>":
  `PyUnicode.LongNamesAreUnknown`, with such a memory in `PyUnicode.LongNamesExist`;
  `PyUnicode.ResolvedIs` says what every name depends on.

## Model

| member | source | states |
|---|---|---|
| `ProfileFormat.ResolveSamplesExtend` | src/encode/pprof.rs:26-77 | what a reader gets for a sample does not change while the tables grow |
| `PprofEncode.GreatestExists` | src/encode/pprof.rs:136-146 | a set of tags with a given key has a greatest value for it, so the tag loops leave a defined label |
| `PprofEncode.OverrideGreater` | src/encode/pprof.rs:136-146 | inserting the tags in ascending order leaves, per key, the greatest value, over whatever was there |
| `PprofEncode.SpellsInsert` | src/encode/pprof.rs:136-146 | the map from string numbers to string numbers stays a faithful copy of the map from key to value, as the string table has no duplicates |
| `PprofEncode.PProfBuilder.AddString` | src/encode/pprof.rs:26-36 | the returned index reads back as the string; the table only grows, by this string if it was new; the first string gets index 0; the assert never fires |
| `PprofEncode.PProfBuilder.AddFunction` | src/encode/pprof.rs:38-55 | the id is nonzero and names a function with this key; only the function table changes; the assert never fires |
| `PprofEncode.PProfBuilder.AddLocation` | src/encode/pprof.rs:57-77 | the id is nonzero and names a location with this key; only the location table changes; the assert never fires |
| `PprofEncode.PProfBuilder.AddFrameFunction` | src/encode/pprof.rs:129-132 | the function id names a function whose name and file read back as the frame's, with "" where one is missing |
| `PprofEncode.PProfBuilder.AddFrame` | src/encode/pprof.rs:128-135 | a reader resolves the location id to the frame, with "" and 0 for missing fields |
| `PprofEncode.PProfBuilder.AddFrames` | src/encode/pprof.rs:128-135 | the location ids resolve to the frames, in order |
| `PprofEncode.PProfBuilder.AddTag` | src/encode/pprof.rs:138-140 | the label map says the same as the map from key to value with this tag inserted |
| `PprofEncode.PProfBuilder.AddTags` | src/encode/pprof.rs:137-146 | the labels say that these tags override the earlier ones and that the greatest value per key wins |
| `PprofEncode.PProfBuilder.EmitLabels` | src/encode/pprof.rs:147-154 | for any order of the label map the emitted labels resolve to exactly its entries |
| `PprofEncode.PProfBuilder.MakeSample` | src/encode/pprof.rs:123-154 | the sample resolves to the trace's frames, count times period, and labels; nothing but the tables has changed |
| `PprofEncode.PProfBuilder.AddSample` | src/encode/pprof.rs:122-156 | exactly one sample is added and it resolves to the trace's frames, count times period, and labels; everything before resolves as it did |
| `PprofEncode.PProfBuilder.AddReport` | src/encode/pprof.rs:121-157 | for any order of the HashMap the report adds one resolved sample per trace |
| `PprofEncode.StartProfile` | src/encode/pprof.rs:86-120 | the header says cpu and nanoseconds, string 0 is "", and there is no sample yet |
| `PprofEncode.Encode` | src/encode/pprof.rs:80-159 | the profile resolves, as a multiset, to exactly the meaning of the reports; string 0 is ""; strings are distinct; ids count up from 1; header fields as given |
| `PprofEncode.MeaningSays` | src/encode/pprof.rs:123-154 | that meaning: a sample has the trace's frames in order, by name, file and line, count times period, and each label once |
| `PprofEncode.LabelsAre` | src/encode/pprof.rs:136-146 | the labels: the report's greatest value where the report has the key, else the trace's greatest |
| `SessionEncoding.GroupedMeaning` | src/session.rs:122-129 | grouping a buffer and encoding the reports means one sample per buffered trace with its own count and tags, if the hash tells the metadata apart |
| `SessionEncoding.EncodeReports` | src/session.rs:122-129 | a session's profile means its reports, begins with the session's window and lasts as long, in nanoseconds |
| `I64.WrapProduct` | src/encode/pprof.rs:125 | casting the count to 64 bits before multiplying gives the wrapped product of the unbounded numbers |
| `PprofBuilder.NewCorrect` | kit/pprof_enc/src/lib.rs:169-182 | a new builder is consistent and represents nothing |
| `PprofBuilder.InternCorrect` | kit/pprof_enc/src/lib.rs:122-130 | the index reads back as the string, the table only grows and stays free of duplicates |
| `PprofBuilder.InternKeyCorrect` | kit/pprof_enc/src/lib.rs:237-250 | the id names the function with exactly this name, file and line |
| `PprofBuilder.InternFunctionCorrect` | kit/pprof_enc/src/lib.rs:234-251 | the function's key spells the frame |
| `PprofBuilder.InternLocationKeeps` | kit/pprof_enc/src/lib.rs:253-267 | although locations are keyed by function alone, the location keeps pointing at a function with the same line |
| `PprofBuilder.InternFrameCorrect` | kit/pprof_enc/src/lib.rs:191-195 | the location id resolves to the exact name, file and line of the frame |
| `PprofBuilder.StackInjective` | kit/pprof_enc/src/lib.rs:197-207 | two location sequences resolve to the same stack only if they are equal |
| `PprofBuilder.AddSampleCorrect` | kit/pprof_enc/src/lib.rs:190-208 | adding never panics, and afterwards the tables represent the log with this sample added |
| `PprofBuilder.EncodeCorrect` | kit/pprof_enc/src/lib.rs:270-291 | the encoded profile represents the log, with "" first, distinct strings, numbered ids and the cpu/nanoseconds type |
| `PprofBuilder.FlushTracks` | kit/pysignalprof/src/lib.rs:444-481 | a flush sends a faithful profile of the window, or nothing if nothing was added, and starts over |
| `PprofBuilder.RunFaithful` | kit/pprof_enc/src/lib.rs:111-291 | over every run of adding and flushing nothing panics and each sent profile says exactly what was added in its window |
| `PprofBuilder.RunTimed` | kit/pysignalprof/src/lib.rs:476-480 | over every run each sent profile begins at the time of the last earlier flush that sent something, or at 0, and lasts fifteen seconds |
| `PprofBuilder.SampleOfStack` | kit/pprof_enc/src/lib.rs:197-207 | two samples are the same one iff their stacks are equal frame by frame, and the value is period times the total where that is within 64 bits |
| `PprofBuilder.NothingWraps` | kit/pprof_enc/src/lib.rs:197-207 | with counts that are not negative, no product and no running total of a log wraps if the stack's final value is within 64 bits |
| `PprofBuilder.RunNeverWraps` | kit/pprof_enc/src/lib.rs:197-207 | in every run, neither the product of a call nor its addition to the stored value wraps if the counts of its window are not negative and its stack's last value in the window is within 64 bits |
| `PprofReset.ResetIsNeeded` | kit/pprof_enc/src/lib.rs:270-291 | after `encode` without a reset, adding panics for no stack iff the builder had no sample |
| `PprofReset.LoggedStacksPanic` | kit/pprof_enc/src/lib.rs:197-207 | after `encode` without a reset, adding any stack of the encoded profile again panics |
| `PprofReset.NewStackCanPanic` | kit/pprof_enc/src/lib.rs:122-130 | so does a stack that was never added, whose new name takes number 0 of the emptied table |
| `PprofReset.EmptyNeedsResetToo` | kit/pprof_enc/src/lib.rs:122-130 | an empty builder that was encoded and not reset takes every stack, and the new sample means the stack iff no name or file name in it is "", "cpu" or "nanoseconds" |
| `PprofReset.EmptyFilenameIsMisread` | kit/pysignalprof/src/lib.rs:412-420 | so a stack whose leaf has the file name "", as every one of the reader's, is never read back |
| `PprofReset.EmptyFilenameIsFirstString` | kit/pprof_enc/src/lib.rs:122-130 | function "a" without a file name becomes function "a" in file "a" |
| `PprofReset.InternFramesAgain` | kit/pprof_enc/src/lib.rs:191-196 | a stack that the tables held is found again under the same ids, whatever happened to the tables since |
| `PprofBuilderObjects.StringTable.Intern` | kit/pprof_enc/src/lib.rs:122-130 | the object's whole new state |
| `PprofBuilderObjects.ProfileBuilder.constructor` | kit/pprof_enc/src/lib.rs:169-182 | the object starts as the value that the theorems start from |
| `PprofBuilderObjects.ProfileBuilder.InternFunction` | kit/pprof_enc/src/lib.rs:234-251 | the method computes the function the theorems are about |
| `PprofBuilderObjects.ProfileBuilder.InternLocation` | kit/pprof_enc/src/lib.rs:253-267 | the method computes the function the theorems are about |
| `PprofBuilderObjects.ProfileBuilder.InternFrames` | kit/pprof_enc/src/lib.rs:191-196 | the method computes the function the theorems are about |
| `PprofBuilderObjects.ProfileBuilder.AddSample` | kit/pprof_enc/src/lib.rs:190-208 | the method computes the function the theorems are about, for any state in which the source does not panic |
| `PprofBuilderObjects.ProfileBuilder.Encode` | kit/pprof_enc/src/lib.rs:270-291 | the method computes the function the theorems are about, leaving the index maps as they were |
| `PprofBuilderObjects.ProfileBuilder.Reset` | kit/pprof_enc/src/lib.rs:212-222 | every table and index is new, the period stays |
| `PprofBuilderObjects.FlushPprof` | kit/pysignalprof/src/lib.rs:444-481 | the reader's flush on the object is the flush of the theorems |
| `SigRing.Write` | kit/sig_ring/src/lib.rs:37-65 | on a grant exactly one frame with the record's bytes is committed, otherwise the queue is unchanged |
| `SigRing.ParseRecord` | kit/sig_ring/src/lib.rs:100-114 | a view is handed out exactly for a buffer that has the header and room for the header's depth; thread id and depth are the header's two words |
| `SigRing.ParseWritten` | kit/sig_ring/src/lib.rs:37-114 | parsing what was written yields the same thread id, depth and frames, for every depth below 2^32 |
| `SignalPipeline.StepKeeps` | kit/pysignalprof/src/lib.rs:109-171 | every step of every handler and of the reader keeps all invariants |
| `SignalPipeline.RunRight` | kit/pysignalprof/src/lib.rs:380-440 | every reachable state satisfies them: locks, buffers, queues and builder |
| `SignalPipeline.MutualExclusion` | kit/pysignalprof/src/lib.rs:127-143 | in every interleaving a shard has at most one owner: a handler or the reader |
| `SignalPipeline.CommittedIsTakenThenQueued` | kit/pysignalprof/src/lib.rs:145-164 | per shard, in order, what was committed is what was taken followed by what is queued, and each queued frame parses to the stack its own handler unwound under its own thread id |
| `SignalPipeline.HandlersStayInOwnShards` | kit/pysignalprof/src/lib.rs:128-139 | in every interleaving a handler that got a lock is in one of the three shards picked by its thread id |
| `SignalPipeline.ProfilesAreFaithful` | kit/pysignalprof/src/lib.rs:380-440 | every sent profile says exactly what was taken in its window, and the builder what was taken since |
| `ReaderRuns.CommittedIsGranted` | kit/pysignalprof/src/lib.rs:145-164 | in every run the records of a shard are, in order, those for which a handler inside it got a grant, each with the stack that its own handler unwound last |
| `ReaderRuns.FlushingHasSwept` | kit/pysignalprof/src/lib.rs:390-432 | in every run, when the reader flushes, it has held every shard since the last flush and given it up with an empty queue |
| `ReaderRuns.SweepTakesAll` | kit/pysignalprof/src/lib.rs:390-432 | so it has then taken all that was committed when its sweep began |
| `ReaderRuns.EveryRecordCanBeTaken` | kit/pysignalprof/src/lib.rs:380-440 | from every reachable state the run can go on so that all that is committed by then is taken |
| `ReaderRuns.WhyHandlersLeave` | kit/pysignalprof/src/lib.rs:127-164 | a handler leaves only after it has found its three shards locked, with an empty stack, or after it has asked for a grant |
| `ReaderRuns.FirstFreeShard` | kit/pysignalprof/src/lib.rs:128-139 | a handler gets the first of the shards tid, tid + 1 and tid + 2, modulo their number, that it finds free |
| `ReaderWindows.RunTimed` | kit/pysignalprof/src/lib.rs:476-480 | in every run each sent profile begins at the time of the last earlier flush that sent something, or at 0, and lasts fifteen seconds |
| `ReaderWindows.NamesAreResolved` | kit/pysignalprof/src/lib.rs:395-404 | in every run each cached name is what the reader got for that code object since the last due flush |
| `ReaderWindows.WindowsClosed` | kit/pysignalprof/src/lib.rs:434-439 | each sent window was closed by a due flush, with the samples taken and the names known at that moment |
| `ReaderWindows.SentCounts` | kit/pysignalprof/src/lib.rs:406-429 | each sent profile has, for every stack taken in its window, a sample with its code objects' names in order and no file or line, whose value is ten milliseconds for each time it was taken |
| `StackBuffers.StackBuffer.RecordOne` | src/backend/types.rs:44-48 | one more of this trace, everything else the same |
| `StackBuffers.StackBuffer.RecordWithCount` | src/backend/types.rs:51-55 | `count` more of this trace, everything else the same |
| `StackBuffers.StackBuffer.Clear` | src/backend/types.rs:58-60 | nothing is left |
| `StackBuffers.FoldReports` | src/backend/types.rs:68-83 | for any hash and any order the fold puts every trace, with its count, into the entry of its own id |
| `StackBuffers.IntoReports` | src/backend/types.rs:63-87 | the reports partition the buffer: every trace in exactly one, with its exact count, under the metadata of one of the report's traces |
| `StackBuffers.GroupingDisjoint` | src/backend/types.rs:63-87 | no trace is in two reports |
| `StackBuffers.MetadataRightIffInjective` | src/backend/types.rs:104-109 | every report's metadata is that of all its traces iff the hash tells the metadata present apart |
| `TagRules.ThreadTagsSet.Add` | src/backend/ruleset.rs:30-36 | the set with the rule, and whether it was new |
| `TagRules.ThreadTagsSet.Remove` | src/backend/ruleset.rs:38-44 | the set without the rule, and whether it was there |
| `TagRules.ApplyRules` | src/backend/ruleset.rs:61-81 | for any order of the rules the trace gets exactly the tags of its own thread |
| `TagRules.TagsAre` | src/backend/ruleset.rs:61-81 | a trace has the tags it had and those of the rules for its own thread, and is otherwise unchanged |
| `TagRules.MergeableIff` | src/backend/ruleset.rs:61-81 | some rules make two traces equal iff they are samples of one known thread that differ in tags only |
| `TagRules.UntaggedNeverMerge` | src/backend/types.rs:191-227 | traces as the constructor leaves them stay apart under every rule set |
| `BackendTypes.BornTagsAre` | src/backend/types.rs:191-227 | which tags a new trace has, by key, for every configuration |
| `BackendTypes.DigitsAreDecimal` | src/backend/types.rs:203-211 | its numbers are in decimal without leading zeros |
| `BackendTypes.StringLessIs` | src/backend/types.rs:8-30 | the order in which tags are iterated is the dictionary's |
| `PprofBackend.TagAllRecord` | src/backend/pprof.rs:139-146 | one more untagged sample is one more of its tagged trace and of no other |
| `PprofBackend.StepBalance` | src/backend/pprof.rs:87-157 | delivered plus buffered plus pending changes by the samples taken and by nothing else |
| `PprofBackend.LazyIsEager` | src/backend/pprof.rs:87-157 | over every run, delivered plus buffered plus pending is, per tagged trace, the number of samples whose thread had those tags when sampled |
| `PprofBackend.ReportDeliversAll` | src/backend/pprof.rs:87-99 | right after a report the delivered counts are those of the eager tagging |
| `PprofBackend.Pprof.Initialize` | src/backend/pprof.rs:69-85 | a profiler with nothing in it runs; buffer and rules are as they were |
| `PprofBackend.Pprof.TagPending` | src/backend/pprof.rs:139-146 | for any order of the profiler's map the tagged map has one entry per trace, with its count |
| `PprofBackend.Pprof.AddToBuffer` | src/backend/pprof.rs:150-152 | for any order the buffer becomes the sum of both maps, trace by trace |
| `PprofBackend.Pprof.DumpReport` | src/backend/pprof.rs:124-157 | with a profiler, its counts are tagged and added to the buffer without merging traces and the profiler restarts; without one it is an error and nothing changes |
| `PprofBackend.Pprof.AddTag` | src/backend/pprof.rs:101-109 | the object takes the step of the theorem |
| `PprofBackend.Pprof.RemoveTag` | src/backend/pprof.rs:111-119 | the object takes the step of the theorem |
| `PprofBackend.Pprof.Report` | src/backend/pprof.rs:87-99 | the object takes the step of the theorem and returns a grouping of all that it delivers |
| `PprofBackend.Pprof.Reset` | src/backend/pprof.rs:159-173 | the profiler starts again with nothing |
| `PprofCalls.MoveRefines` | src/backend/pprof.rs:87-173 | every small step of a call keeps the shared state in its relation to a backend on which the call is one step |
| `PprofCalls.SampleRefines` | src/backend/pprof.rs:124-157 | so does a sample at any moment, and one that comes between reading and restarting the profiler leaves nothing behind |
| `PprofCalls.RunRight` | src/backend/backend.rs:78-134 | every reachable state of every interleaving satisfies these relations |
| `PprofCalls.MutualExclusion` | src/backend/backend.rs:96-134 | at most one call is past the mutex |
| `PprofCalls.NothingBetweenCloneAndClear` | src/backend/pprof.rs:90-96 | in every interleaving the buffer that a report clears is the one it has cloned |
| `PprofCalls.CallsAreSteps` | src/backend/backend.rs:96-134 | each call takes effect once, in the order of the mutex, and when none is inside the state is that of the events run one by one |
| `PprofCalls.CountsBooked` | src/backend/pprof.rs:87-173 | in every interleaving the same sum is the number of samples that were this trace under the rules of the calls that had taken effect |
| `PprofCalls.CountsRight` | src/backend/pprof.rs:87-173 | in every interleaving without early samples, delivered plus buffered plus pending plus missed is, per tagged trace, the number of samples that were this trace under the rules in force when they were taken |
| `PprofCalls.RuleMatters` | src/backend/pprof.rs:101-119 | a call changes the tags of a trace iff its rule is new (or, for `remove_tag`, there), is for the trace's thread, and has a tag that the trace was not born with |
| `PprofCalls.NeverEarlyIff` | src/backend/pprof.rs:101-119 | at every moment of a run the two counts agree for every trace iff no counted sample comes after a call has restarted the profiler and before it changes that sample's tags |
| `PprofCalls.SampleCanBeEarly` | src/backend/pprof.rs:101-109 | a run of `add_tag` after which a sample counts under a tag that its thread did not have when it was taken |
| `PprofCalls.EarlySamplesCanCancel` | src/backend/pprof.rs:101-119 | early samples of `add_tag` and `remove_tag` can cancel out, so the counts at the end alone do not show them |
| `PprofCalls.NothingMissingIff` | src/backend/pprof.rs:124-173 | no count is missing iff no action of the run is a sample between the reading of the profiler and its restart |
| `PprofCalls.SampleCanBeMissed` | src/backend/pprof.rs:124-173 | a run of one report after which a sample of the running profiler is nowhere |
| `SharedBuffers.RecordsConserved` | pyroscope_ffi/python/rust/src/backend.rs:101-133 | in every interleaving, per trace: recorded = delivered + buffered + recorded between a report's clone and clear |
| `SharedBuffers.NothingMissingIff` | pyroscope_ffi/ruby/ext/rbspy/src/backend.rs:105-137 | nothing is missing iff no action records a trace after a clone and before a later clear, read off the sequence of actions alone |
| `SharedBuffers.RecordCanBeLost` | pyroscope_ffi/python/rust/src/backend.rs:126-134 | a run of four steps after which a recorded sample is nowhere |
| `SharedBuffers.RecordedAsTagged` | pyroscope_ffi/python/rust/src/backend.rs:98-103 | every sample is recorded once, in order, with the tags of the rules that the earlier calls have left when it was looked at |
| `Unwinding.FirstOfChainUnique` | kit/python_unwind/src/lib.rs:53-149 | the first entries of a chain are well defined although the chain may be infinite |
| `Unwinding.Unwind` | kit/python_unwind/src/lib.rs:53-149 | writes exactly the first min(buf.len, 128) entries of the chain and leaves the rest of the buffer alone, and ends, whenever the walk can end |
| `Unwinding.WrittenChainUnwinds` | kit/python_unwind/src/lib.rs:53-149 | for every chain of frames in memory the walk gives exactly the code objects and instruction pointers of those with owner 0, 1 or 2, in order, up to the first without code object or with an unreadable word and up to the room there is |
| `Unwinding.TerminatesIff` | kit/python_unwind/src/lib.rs:77-142 | the loop ends iff it never gets to a cycle of skipped frames |
| `Unwinding.TwoSkippedFramesLoop` | kit/python_unwind/src/lib.rs:77-90 | two skipped frames that point at each other keep the loop running for ever |
| `Kindasafe.Context.CrashHandler` | kit/kindasafe_init/src/lib.rs:41-72 | the first matching crash point moves the pc and sets its signal register; no match leaves the context alone |
| `Kindasafe.X86Word` | kit/kindasafe/src/lib.rs:74-81 | the sequence returns with the word and signal 0 or with the signal, memory unchanged |
| `Kindasafe.Aarch64Word` | kit/kindasafe/src/lib.rs:132-139 | the same for aarch64 |
| `Kindasafe.WordResultRight` | kit/kindasafe/src/lib.rs:10-17 | `u64` gives the word iff all its bytes are readable and otherwise the signal, never both |
| `Kindasafe.ReadableIsLongest` | kit/kindasafe/src/lib.rs:89-100 | the length that the slice theorems speak of is that of the longest readable prefix |
| `Kindasafe.X86Slice` | kit/kindasafe/src/lib.rs:88-100 | for every memory and every source, overlapping ones included, the sequence, resumed by the handler, returns having copied byte by byte forward the longest readable prefix of the count modulo 2^32, with signal 0 iff all was readable, and with no other byte changed |
| `Kindasafe.Aarch64Slice` | kit/kindasafe/src/lib.rs:146-163 | the same for aarch64, with the whole count |
| `Kindasafe.SuccessReadsAll` | kit/kindasafe/src/lib.rs:19-26 | `slice` succeeds iff all bytes are readable |
| `SliceCopies.ForwardCopies` | kit/kindasafe/src/lib.rs:88-100 | unless the buffer starts inside the source, copying forward leaves at the destination what was at the source and changes nothing else |
| `SliceCopies.CopyReadsBack` | kit/kindasafe/src/lib.rs:19-26 | what was copied reads at the destination as the source did |
| `SliceCopies.SliceReturnsOnce` | kit/kindasafe/src/lib.rs:88-163 | any run that returns ends as the slice theorems say |
| `SliceCopies.TruncatedRefutes` | kit/kindasafe/src/lib.rs:88-100 | on x86_64, for every count from 2^32 on and every two places, a memory on which success is reported and the buffer differs from the source |
| `SliceCopies.ChasedRefutes` | kit/kindasafe/src/lib.rs:88-163 | the same for a buffer that starts inside the source, on both machines |
| `SliceCopies.SuccessMeansCopiedIff` | kit/kindasafe/src/lib.rs:19-26 | on every memory a returned success means that the buffer holds what was at the source, iff source and destination are the same, or the count is not truncated and the buffer does not start inside the source |
| `SliceCopies.CopyIsIdeal` | kit/kindasafe/src/lib.rs:19-46 | for a whole count and a buffer that does not start inside the source, any run that returns gives the readable bytes or the signal, which is how `str` and the name converters take the copy |
| `Kindasafe.ReturnedStays` | kit/kindasafe/src/lib.rs:74-183 | a run that has returned stays so, hence its result is the result |
| `Kindasafe.Str` | kit/kindasafe/src/lib.rs:28-46 | the bytes before the first NUL if the whole buffer is readable and they are UTF-8; otherwise the signal, 228 or 229; "" for a null pointer |
| `Utf8.DecodeEncode` | kit/pysignalprof/src/lib.rs:241-311 | the grammar of RFC 3629 decodes an encoded text to that text |
| `Utf8.EncodeDecode` | kit/kindasafe/src/lib.rs:37-41 | what the grammar accepts is the one encoding of what it decodes to |
| `PyUnicode.Transcode` | kit/pysignalprof/src/lib.rs:246-256 | the buffer holds the text of the first units, and the loop stopped at the end or before a unit that does not fit |
| `PyUnicode.AppendUnit` | kit/pysignalprof/src/lib.rs:248-255 | the unit's UTF-8 bytes follow what was there, or nothing changes because they do not fit |
| `PyUnicode.Put` | kit/pysignalprof/src/lib.rs:253 | the scalar's bytes follow what was there and what is behind them is untouched |
| `PyUnicode.StoppedAt` | kit/pysignalprof/src/lib.rs:250-252 | what the loop leaves is the longest prefix of the scalars that fits |
| `PyUnicode.ReadUcs` | kit/pysignalprof/src/lib.rs:241-311 | each of the three converters returns that, nothing when the units cannot be read, and never fails the UTF-8 check |
| `PyUnicode.LongestFitIsLongest` | kit/pysignalprof/src/lib.rs:250-252 | a prefix fits iff it is no longer than the one kept, and all is kept iff all fits |
| `PyUnicode.ConvertedDecodes` | kit/pysignalprof/src/lib.rs:241-311 | the result decodes to the longest prefix of the units, non-scalar values removed, that fits |
| `PyUnicode.WholeTextIff` | kit/pysignalprof/src/lib.rs:241-311 | nothing is cut iff the whole text has room |
| `PyUnicode.Ucs1HasRoom` | kit/pysignalprof/src/lib.rs:241-261 | 128 one-byte units always have room in 256 bytes |
| `PyUnicode.Ucs4HasRoom` | kit/pysignalprof/src/lib.rs:289-311 | 64 four-byte units always have room in 256 bytes |
| `PyUnicode.Ucs2CanTruncate` | kit/pysignalprof/src/lib.rs:264-286 | 128 two-byte units need not have room |
| `PyUnicode.ReadPyUnicode` | kit/pysignalprof/src/lib.rs:183-238 | the name is read from the place that the object's state word, cached pointer and length select, and from nowhere else |
| `UnicodeObjects.ObjectReadsBack` | kit/pysignalprof/src/lib.rs:183-238 | for either build and each of the three representations, an object in memory as CPython writes it is read back to exactly its characters, if they have room |
| `UnicodeObjects.ExampleReads` | kit/pysignalprof/src/lib.rs:228-237 | a concrete memory with the one-byte string "é", whose name is C3 A9 |
| `PyUnicode.ReadTerminated` | kit/pysignalprof/src/lib.rs:206-222 | the bytes before the first NUL if they are readable, not empty and UTF-8 |
| `PyUnicode.StateReadsBack` | kit/pysignalprof/src/lib.rs:196-205 | the ascii bit and the kind are read back from the state word of either build |
| `PyUnicode.NameIsText` | kit/pysignalprof/src/lib.rs:183-238 | whatever the memory holds, a name is non-empty valid UTF-8 within the buffer |
| `PyUnicode.NameIsWhole` | kit/pysignalprof/src/lib.rs:318-319 | in the 256-byte buffer a one-byte or four-byte string is read whole up to its cap |
| `PyUnicode.ResolveFunctionName` | kit/pysignalprof/src/lib.rs:318-346 | the qualified name if the object has one, else the name, else "<unknown>" |
| `PyUnicode.NamelessIff` | kit/pysignalprof/src/lib.rs:183-238 | an object has no name iff its text is unreadable, empty, unterminated within the buffer, not UTF-8, or without any scalar value |
| `PyUnicode.ResolvedIs` | kit/pysignalprof/src/lib.rs:318-346 | which of the three it is, as a condition on the memory alone |
| `PyUnicode.LongNamesAreUnknown` | kit/pysignalprof/src/lib.rs:318-346 | ASCII or cached names with no NUL in their first 256 bytes give "<unknown>" |
| `PyUnicode.LongNamesExist` | kit/pysignalprof/src/lib.rs:318-346 | a memory on which this happens, for either build and all offsets |
| `Agent.StepKeeps` | src/pyroscope.rs:439-538 | every step of client, timer, main loop and manager keeps all invariants |
| `Agent.RunRight` | src/pyroscope.rs:380-428 | every reachable state satisfies them; no thread ends in an error |
| `Agent.SessionsInOrder` | src/session.rs:43-86 | at any moment the sessions made are, in order, those pushed, the one being pushed, those queued and the one waiting, one for each snapshot signal taken |
| `Agent.SessionsCarryReports` | src/pyroscope.rs:472-487 | in every run the i-th session carries the i-th report that the backend gave to the main loop |
| `Agent.TicksArePosted` | src/timer/epoll.rs:69-95 | in every run the signals posted, but for those of `stop`, are the ticks that fired while the agent was listening, each once and in order |
| `Agent.StopReturnsAfterLastSession` | src/pyroscope.rs:520-538 | when `stop` returns, everything posted before Terminate has become a session and is in the queue or past it, the last snapshot included |
| `Agent.ManagerExitsLast` | src/session.rs:53-71 | the manager exits only after it has pushed every session there will ever be |
| `Agent.ShutdownJoinsAll` | src/pyroscope.rs:380-428 | when `shutdown` has returned, timer, manager and main loop have all exited |
| `Agent.NeverStuck` | src/pyroscope.rs:420-425 | no reachable state is deadlocked, despite the 10-slot channel and without help from spurious wake-ups; only joining the timer may wait for the clock |
| `Agent.StepWorks` | src/timer/epoll.rs:49-97 | every thread step uses up work, an event from outside (a tick, a spurious wake-up) adds at most eight |
| `Agent.RunsAreBounded` | src/pyroscope.rs:466-503 | a run with finitely many ticks and spurious wake-ups is bounded in length |
| `Agent.EverySchedulerFinishes` | src/pyroscope.rs:380-428 | under every scheduler that always picks something that can happen, with finitely many ticks and spurious wake-ups, `stop` and `shutdown` return within a bound |
| `Agent.CanFinish` | src/pyroscope.rs:380-428 | every reachable state can be continued, without spurious wake-ups, until `shutdown` has returned |
| `Agent.SessionWindows` | src/session.rs:107-120 | in every run a session's window is the ten seconds before the slot of a tick, and that of the last session is the slot in which `stop` read the clock |
| `Coredump.Read` | kit/coredump/src/memory.rs:22-51 | on success the buffer holds the file bytes of the first segment that covers the range, on failure it is untouched and the error is the right one |
| `Coredump.FindOnly` | kit/coredump/src/memory.rs:29-30 | with disjoint segments a non-empty range inside a segment is answered by that segment |
| `Coredump.SplitRead` | kit/coredump/src/memory.rs:22-51 | with disjoint segments a successful read is the concatenation of the reads of its two parts, wherever it is split |
| `Coredump.SplitIff` | kit/coredump/src/memory.rs:22-51 | for any segments, overlapping or not: a read splits, whatever the file holds, iff the parts are found at the file position of the whole and within what the file has of their segments |
| `Coredump.WordIsTwoHalves` | kit/coredump/src/lib.rs:117-133 | a 64-bit read is its two 32-bit reads, low half first |
| `Coredump.WrittenDumpReads` | kit/coredump/src/memory.rs:22-51 | from a dump of disjoint memory images any part of an image is read back |
| `Coredump.OverlapBreaks` | kit/coredump/src/memory.rs:28-48 | with overlapping segments it can fail, on a concrete dump |
| `NtFile.ParseNtFile` | kit/coredump/src/notes.rs:83-139 | the two loops compute the parse that `ParseNote` is about, with every error |
| `NtFile.ParseAfterHeader` | kit/coredump/src/notes.rs:91-113 | the announced number of entries is read, or the note is too short or the number too large |
| `NtFile.PairUp` | kit/coredump/src/notes.rs:115-138 | the second loop takes the next name for each range |
| `NtFile.ParseNote` | kit/coredump/src/notes.rs:83-139 | parsing what a writer of the format wrote gives each range, with its start, length and offset in bytes, its own name iff no range is backwards and no offset leaves 64 bits, and otherwise overflows |
| `NtFile.AllFitIff` | kit/coredump/src/notes.rs:133-135 | that condition, file by file |
| `MapsFile.ParseInvertsPrint` | kit/python_offsets/src/lib.rs:220-277 | the line parser inverts a printer of the kernel's format, for all field values and trimmed paths and any padding |
| `MapsFile.NumberParses` | kit/python_offsets/src/lib.rs:229-230 | a printed number, zero-padded to any width, parses to itself |
| `MapsFile.PathContains` | kit/python_offsets/src/lib.rs:328-333 | true iff the needle is a non-empty substring |
| `MapsFile.FindPython` | kit/python_offsets/src/lib.rs:279-324 | the first well-formed line that mentions libpython3, else the first that mentions python3, else an error |
| `MapsFile.KeptIsFirst` | kit/python_offsets/src/lib.rs:303-320 | the candidate that a scan keeps is the first |
| `MapsFile.MentionsPrinted` | kit/python_offsets/src/lib.rs:279-324 | on printed lines the search answers for the mappings themselves |
| `TransformReport.Find` | pyroscope_ffi/ruby/ext/rbspy/src/lib.rs:31-41 | the first place of the pattern, or that there is none |
| `TransformReport.Transform` | pyroscope_ffi/ruby/ext/rbspy/src/lib.rs:17-63 | it panics iff some frame has no file name or a bad path; else, for any order of the HashMap, every trimmed trace is in the result with the count of a trace that trims to it, and a report of the Ruby backend keeps every count |
| `TransformReport.PathPanicsIff` | pyroscope_ffi/ruby/ext/rbspy/src/lib.rs:30-41 | trimming a path panics iff the first mention of the working directory is followed by nothing or by a character outside ASCII |
| `TransformReport.PathCanPanic` | pyroscope_ffi/ruby/ext/rbspy/src/lib.rs:31-33 | "/usr/bin/app" in "/app" is such a path |
| `TransformReport.TrimTraceIff` | pyroscope_ffi/ruby/ext/rbspy/src/lib.rs:22-53 | a trace can be trimmed iff all its frames have file names and none is a bad path |
| `TransformReport.RbspyPanicsIff` | pyroscope_ffi/ruby/ext/rbspy/src/lib.rs:22-53 | for a trace of the Ruby backend it depends on the paths alone |
| `TransformReport.TrimDirectory` | pyroscope_ffi/ruby/ext/rbspy/src/lib.rs:31-32 | in the working directory what is left is the path below it |
| `TransformReport.TrimGem` | pyroscope_ffi/ruby/ext/rbspy/src/lib.rs:33-34 | elsewhere a path into a gem is kept from "gems/" on |
| `TransformReport.TrimRuby` | pyroscope_ffi/ruby/ext/rbspy/src/lib.rs:35-39 | a path into the library of Ruby is kept from behind its version on |
| `TransformReport.TrimRubyFile` | pyroscope_ffi/ruby/ext/rbspy/src/lib.rs:35-39 | a file directly in it by its name |
| `TransformReport.TrimOther` | pyroscope_ffi/ruby/ext/rbspy/src/lib.rs:28-45 | any other path stays as it is |
| `TransformReport.RbspyNeverMerges` | pyroscope_ffi/ruby/ext/rbspy/src/backend.rs:148-158 | trimming makes no two traces of this backend equal |
| `TransformReport.CountsConserved` | pyroscope_ffi/ruby/ext/rbspy/src/lib.rs:17-63 | every trace of this backend's report keeps its own count, nothing else is in the result, and there are as many traces as before |
| `TransformReport.OthersCanMerge` | pyroscope_ffi/ruby/ext/rbspy/src/lib.rs:30-41 | what keeps them apart is the relative path: of two traces that differ in the file name only, which this backend does not make, the result has one entry with one of the two counts |
| `TagStrings.StringToTags` | pyroscope_ffi/python/rust/src/lib.rs:236-252 | the loop computes the parse that `TransferredIff` is about, with the panic on a piece without '=' |
| `TagStrings.SplitAt` | pyroscope_ffi/python/rust/src/lib.rs:244-245 | splitting at a separator splits both sides |
| `TagStrings.PairSurvivesIff` | pyroscope_ffi/python/rust/src/lib.rs:245-248 | one pair survives iff neither side has a '=' |
| `TagStrings.TransferredIff` | pyroscope_ffi/python/python/pyroscope/__init__.py:80-83 | a list of tags, also the empty one, arrives as it was iff no key or value has a ',' or '=' |
| `TagStrings.TransferPanicsIff` | pyroscope_ffi/python/rust/src/lib.rs:236-252 | the transfer panics iff some tag has, between its commas, a piece without '=' |
| `TagStrings.TransferCanPanic` | pyroscope_ffi/python/rust/src/lib.rs:244-247 | the value "a,b" does it |

## Left out

- HTTP pushing, gzip, URL building and protobuf wire bytes. The model stops at the `Profile` value; its constant zero fields (mapping, comment, drop_frames and the like) are not listed.
- Clocks, timers, signals, mmap and the kernel. They are events and parameters; what a function would ask the clock is an argument, and it is past the first ten seconds of the epoch.
- `bbqueue`, `pprof`, `py-spy`, `rbspy` and the protobuf library are modelled by their interface only; a grant may be refused at any time.
- The native byte order of the queue's records is taken to be little-endian, which both supported architectures are.
- When the reader wakes up. It never reads the eventfd, and no claim depends on it.
- The conversion from the profiler library's symbols to stack traces. It can make two stacks one before the model starts.
- Logging, and the unwinder's type check of the code object, which only logs.
- The mutexes inside the pprof backend (guard, buffer, rules): each is held within one step of `PprofCalls`. Poisoned locks and a profiler that cannot be built are left out.
- Agent runs that start threads without stopping them, and error returns of the backend.
- Ids and table indexes are unbounded integers; a table of 2^63 entries is not considered. Sample values wrap as 64-bit integers do in a release build; a debug build panics instead.
- PprofEncode.Encode: requires a nonzero sample rate, because the source divides by it.
- PprofBuilderObjects.ProfileBuilder.AddSample: requires a state in which the source does not panic; `PprofBuilder.AddSampleCorrect` shows that every state with a current index is one.
- Unwinding.Unwind: requires that the walk does not reach a cycle of skipped frames, because the source does not end otherwise.
- Kindasafe.X86Slice: the destination has to be writable, which the caller's `&mut` slice is; a write fault is not modelled.
- Kindasafe.Str: takes the copy as one step that is all or nothing. By `SliceCopies.CopyIsIdeal` it is, unless the buffer starts inside its source or, on x86_64, has 2^32 bytes or more.
- PyUnicode.ReadUcs: takes the copy in the same way; its buffers have 256 bytes at most, so only one that starts inside its source is left out.
- Symbol lookup in ELF files, debug-offset structs and version checks: library-driven or straight-line, with only easy claims.
- Coredump.SplitRead: requires disjoint segments inside the address space, and of one that reaches its last address that `p_filesz` is not above `p_memsz`, as the ELF format does; `Coredump.SplitIff` needs none of this.
- NtFile.ParseNote: a path is its bytes; the lossy conversion of bytes that are not UTF-8 is not part of this model, and neither is what wraps in a release build where a debug build panics.
- MapsFile.FindPython: takes the lines of the file; read errors are left out. `str::trim` knows white space outside ASCII, which the model of the inode field does not.
- TransformReport.Find: positions count characters, not bytes. The one slice that can fall inside a character is the one after the working directory, and there the panic is modelled.

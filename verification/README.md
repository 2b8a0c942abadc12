# A verified model of the Post tag system engine

*PostTagSystem* evolves Post's tag system of 1921, `{0,_,_} -> {0,0}`, `{1,_,_} -> {1,1,0,1}`, and two
relatives, very fast, and draws conclusions from the runs: an init gets down to 8 cells or fewer, cycles,
meets a known checkpoint, or merges with another init. This project models the engine in Dafny 4.11 and proves
that each of its representations agrees with a machine that does one event at a time, and that each
conclusion it reports is true of that machine.

`dafny verify dfyconfig.toml` checks everything.

## How the model is laid out

| file | what it models |
|---|---|
| `Bits.dfy` | bits, bytes and the C++ shift, mask and cast operators on naturals, with explicit widths |
| `TagSystem.dfy` | the three rule tables and the reference machine: `Step` (one event), `Run` (n events), `Emit` (what a chunk of input outputs) |
| `ChunkTable.dfy` | building the 256 x phaseCount table |
| `Chunks.dfy`, `ChunkedState.dfy` | the queue of 8-bit chunks: meaning, canonical form, packing, one table lookup, unpacking |
| `CheckpointsTrie.dfy` | the path-compressed trie with signed indices |
| `History.dfy` | both `evaluate` loops: limits, explicit and automatic checkpoints, the shared trie, the table cache |
| `HistoryTheorems.dfy` | what the reported conclusions imply about orbits: cycles, merges, termination |
| `PostLength.dfy` | tape lengths under the Post rule |
| `PairRule.dfy` | the rule 000010111: its events and its tape lengths |
| `StateGraph.dfy`, `Multihistory.dfy` | the incrementally grown state graph and its cycle sources |
| `TagStates.dfy`, `Searcher.dfy` | the increment, range enumeration, group evaluation and filtering |
| `Packing.dfy` | packed states against the original, unpacked systems |
| `Codec.dfy`, `ResultFile.dfy` | byte streams, packed bits, the result-file writer and its parser |

The specification a reader has to trust is short. `TagSystem.Step` is one event. `History.Outcome` says
what one reported result means without mentioning chunks or the trie: the final state is the single-event
machine after `eventCount` events, no earlier chunk boundary gave a reason to stop, and the reason holds
at this one. `Packing.RawStep` is one event of the original system. Objects that the source updates in
place are classes; each method is proved against a function or predicate on values, and the theorems are
about those.

## What the model found

The member named with each item states it, with the exact condition unless the item says otherwise.

- `evaluateRange(n, 2^n, 2^n)` is not empty: the begin is truncated to n bits, so all 3 * 2^n states are
  enumerated (lemma `Searcher.IntegerRangeExact`).
- `Terminated` does not mean that the machine dies out, only that at most 8 cells are left: the state with
  tape 01 in phase 0 is reported `Terminated` at event 0 and cycles with period 2
  (lemma `PostLength.TerminatedMayCycle`). When such a state does die out is shown in one direction each: never
  before one event per unpacked cell (lemma `PostLength.DiesNoSooner`), and after exactly that many if the tape
  holds only zeros (lemma `PostLength.ZerosDieOut`).
- `insert` returns false for a key that is already there only if the key has no chunks, because the
  recursive results are dropped; the header comment promises false for every present key (an `ensures` of the
  method `CheckpointsTries.CheckpointsTrie.Insert`). The map itself is first-insert-wins for all keys.
- The searcher reports `MaxTapeLengthExceeded` as `InvalidInput` (lemma `Searcher.ReasonsToldApart`).
- `isPowerOfTwo` is true when the number is neither 0 nor a power of two; its caller negates it, so the net
  schedule is 0 and the powers of two (lemma `History.PowerOfTwoSchedule`).
- Once the time is up, the remaining inits are `NotEvaluated`, not `TimeConstraintExceeded` as the comment at
  `libPostTagSystem/PostTagSearcher.hpp:49-52` says (lemma `HistoryTheorems.RestNotEvaluated`); and one trie is
  shared by all inits of a call, unlike the comment at lines 60-63 there.
  The model follows the code.
- A phase that the rule does not know makes the evaluator read the row of a later chunk, or past its table
  (lemma `ChunkTable.UnknownPhase`).
- Unpacking fails on an empty tape with a non-zero phase, and for 002211 it drops an odd last bit (the guard
  takes the length of the pair, not of the tape) and can produce a cell 3; otherwise packing after unpacking is
  the identity (lemma `Packing.RoundTrip`).
- A result record is read back if and only if its initial tape has 1 to 64 cells, both head states fit two bits
  and a written final tape has the stated length (lemma `ResultFile.RecordRoundTrip`). A search with an event
  limit that is not a multiple of 8 produces records with head state 255, which do not survive (lemma
  `ResultFile.ReportsRecordable`).

## Model

| member | source | states |
|---|---|---|
| TagSystem.RunConsumesFront | libPostTagSystem/PostTagHistory.cpp:128-142 | first in, first out: the front cells of any tape are all read before any appended cell, so consuming them leaves the rest followed by what they emit |
| TagSystem.RunAdd | libPostTagSystem/PostTagHistory.cpp:194-223 | running m and then n events is running m + n events |
| TagSystem.RunPeriodic | libPostTagSystem/PostTagHistory.cpp:204-221 | a state that recurs once recurs forever with the same period |
| TagSystem.RunWraps | libPostTagSystem/PostTagHistory.cpp:204-221 | every later state of a periodic orbit already occurs within its first period, chunk boundaries at chunk boundaries |
| TagSystem.RunRecurs | libPostTagSystem/PostTagHistory.cpp:204-221 | a state on a cycle recurs arbitrarily late, from a chunk boundary on always at chunk boundaries |
| ChunkTable.CreateChunkOutput | libPostTagSystem/PostTagHistory.cpp:128-142 | the shifting and masking loop packs exactly the bits and the phase the single-event machine produces from the chunk, without overflowing 16 bits |
| ChunkTable.CreateChunkEvaluationTable | libPostTagSystem/PostTagHistory.cpp:113-126 | the wrapping byte loop fills every entry of the 256 x phaseCount table with the output for its chunk and phase |
| ChunkTable.UnknownPhase | libPostTagSystem/PostTagHistory.cpp:239-240 | with any phase a byte can hold, the index of a lookup stays inside the table exactly if the chunk plus phase / phaseCount is below 256, and then it hits the entry of that chunk and phase % phaseCount |
| ChunkTable.PopBits | libPostTagSystem/PostTagHistory.cpp:133-135 | shifting right reads the next bits of the word and shifting left with truncation drops exactly them |
| Chunks.PackTapeCorrect | libPostTagSystem/PostTagHistory.cpp:144-177 | packing any state gives a canonical chunked state that unpacks to the same state |
| Chunks.CanonicalUnique | libPostTagSystem/PostTagHistory.cpp:144-177 | packing the unpacked form of any canonical chunked state gives that chunked state back |
| Chunks.ChunkEqualIffStateEqual | libPostTagSystem/PostTagHistory.cpp:204-205 | two canonical chunked states are equal exactly when tapes and phases are, so a trie hit is a true state equality |
| Chunks.TapeLengthIsLength | libPostTagSystem/PostTagHistory.cpp:234-236 | the computed tape length is the length of the unpacked tape; more than one chunk means more than 8 cells |
| ChunkedStates.ChunkedState.constructor | libPostTagSystem/PostTagHistory.cpp:144-155 | the loading loop yields the canonical packing, which unpacks to the given state |
| ChunkedStates.ChunkedState.Unload | libPostTagSystem/PostTagHistory.cpp:157-177 | destructive unloading returns the state the chunks stood for and empties the queue |
| ChunkedStates.PushBitsFromChunk | libPostTagSystem/PostTagHistory.cpp:171-177 | the shift-and-test loop appends exactly the chunk's digits |
| ChunkedStates.ChunkedState.EvaluateOnce | libPostTagSystem/PostTagHistory.cpp:238-261 | one table lookup on any canonical state of more than one chunk is eventsAtOnce single events on the unpacked tape, and canonical form is kept, also when output spills over chunk boundaries |
| ChunkedStates.StoreBits | libPostTagSystem/PostTagHistory.cpp:244-260 | one round of the storing loop moves the next output bits behind the tape, whether the last chunk is full, fills up or has room |
| ChunkedStates.CutBits | libPostTagSystem/PostTagHistory.cpp:247-250 | the two shifts through the 16-bit register cut out exactly the slice of the output to be stored now |
| CheckpointsTries.CheckpointsTrie.Insert | libPostTagSystem/CheckpointsTrie.cpp:24-46 | the represented map changes as first-insert-wins, the forest stays intact, and the result is false exactly for an empty key that was present |
| CheckpointsTries.CheckpointsTrie.InsertChunks | libPostTagSystem/CheckpointsTrie.cpp:58-76 | continuing an insertion from the slot reached on the key's path completes it, splitting suffixes on the way |
| CheckpointsTries.CheckpointsTrie.PushChunk | libPostTagSystem/CheckpointsTrie.cpp:78-83 | moves the first chunk of one suffix into a new node referred to from the same slot |
| CheckpointsTries.CheckpointsTrie.FindValue | libPostTagSystem/CheckpointsTrie.cpp:48-54 | finds the value of exactly this key in the represented map, or nothing |
| CheckpointsTries.CheckpointsTrie.FindValueInChunks | libPostTagSystem/CheckpointsTrie.cpp:89-112 | reading the tables without any range test finds what the walk through them defines |
| CheckpointsTries.ForestNeverThrows | libPostTagSystem/CheckpointsTrie.cpp:89-112 | in an intact forest no lookup of a whole key, from any slot on its path, indexes a table out of range |
| CheckpointsTries.CheckpointsTrie.InsertEach | libPostTagSystem/CheckpointsTrie.hpp:13-15 | after any sequence of inserts into an empty trie a key is found exactly if it was inserted, with the value of its first insert, and one value is stored per distinct key |
| CheckpointsTries.SplitFrame | libPostTagSystem/CheckpointsTrie.cpp:71-83 | splitting a suffix changes the outcome of no lookup, from any slot of the forest |
| CheckpointsTries.SplitForest | libPostTagSystem/CheckpointsTrie.cpp:71-83 | splitting keeps the forest invariant: indices in range, suffix length plus depth is the chunk count, exactly one slot per node and per suffix |
| CheckpointsTries.OneSlotEach | libPostTagSystem/CheckpointsTrie.cpp:58-83 | every node and every suffix of an intact forest is referred to by exactly one slot |
| CheckpointsTries.AddFrame | libPostTagSystem/CheckpointsTrie.cpp:61-68 | adding a suffix in a missing slot changes the lookup of no other key |
| CheckpointsTries.AddForest | libPostTagSystem/CheckpointsTrie.cpp:27-43 | adding a suffix keeps the forest invariant |
| CheckpointsTries.AddNew | libPostTagSystem/CheckpointsTrie.cpp:89-112 | after adding at the missing end of a key's path, the key is found with the new value |
| CheckpointsTries.FindAt | libPostTagSystem/CheckpointsTrie.cpp:89-112 | lookup from the root is lookup from any slot on the key's path with the rest of the key |
| CheckpointsTries.PlaceAt | libPostTagSystem/CheckpointsTrie.cpp:58-76 | the slot reached after d chunks belongs to the key's metadata and first d chunks |
| History.PowerOfTwoSchedule | libPostTagSystem/PostTagHistory.cpp:217-232 | on 64-bit numbers the negated test holds exactly for 0 and the powers of two |
| History.ScheduleMeans | libPostTagSystem/PostTagHistory.cpp:217-218 | a state becomes an automatic checkpoint exactly at event count 0 and the powers of two, if these were asked for, and at the multiples of the given number, if it is not zero |
| History.TrieNext | libPostTagSystem/PostTagHistory.cpp:204-220 | inserting a scheduled state, or not inserting an unscheduled one, keeps the shared trie equal to the set of states known so far with the right owner as value |
| History.HitMeans | libPostTagSystem/PostTagHistory.cpp:204-216 | a trie hit with value -1, the own index or another index is an explicit checkpoint, a state of the own run, or a state of an earlier init's run |
| History.ProgressStep | libPostTagSystem/PostTagHistory.cpp:194-223 | one round of the loop advances the run to the next boundary, the maximum and the trie with it, and the event count never passes the limit |
| History.CheckStops | libPostTagSystem/PostTagHistory.cpp:196-216 | clock, tape limit and trie are tested in this order, the clock exactly at the multiples of 1000 events; a stop is justified, and without one the tape limit holds and the state is not in the trie |
| History.EvaluateState | libPostTagSystem/PostTagHistory.cpp:179-230 | whatever the clock does, the run of one init ends in a justified outcome, with the 64-bit event counter never wrapping, leaves the trie in step, and has asked the clock as often as its answers on record say |
| History.LooksAtTheClock | libPostTagSystem/PostTagHistory.cpp:184-199 | one look at the start and, unless that was late, one at every boundary reached that is a multiple of 1000 events with events left and more than 8 cells; only the last answer can be late, and it is exactly if the run ends for that reason |
| History.FirstLookDecides | libPostTagSystem/PostTagHistory.cpp:184-187 | an init is not evaluated if and only if the clock was late at the first look of its run |
| History.PostTagHistory.Evaluate | libPostTagSystem/PostTagHistory.cpp:59-102 | every result of a call is justified by the single-event orbits of its inits, or all are InvalidInput if the limit is not divisible; after the deadline nothing is evaluated; the clock's answers during the call are those of the runs, one after the other |
| History.PostTagHistory.EvaluateSingle | libPostTagSystem/PostTagHistory.cpp:52-57 | the overload for one init gives that init's justified outcome |
| History.PostTagHistory.InsertCheckpoints | libPostTagSystem/PostTagHistory.cpp:77-80 | the trie then holds exactly the explicit checkpoint states, all with value -1 |
| History.PostTagHistory.CachedTable | libPostTagSystem/PostTagHistory.cpp:105-111 | the cache always returns the table of the requested rule |
| HistoryTheorems.LiveUntilStop | libPostTagSystem/PostTagHistory.cpp:194-223 | every single event up to the reported one was possible, with cells to spare |
| HistoryTheorems.TerminationExact | libPostTagSystem/PostTagHistory.cpp:194-229 | a corollary of the outcome proved for the loop: Terminated is reported exactly when at most 8 cells are left below the event limit, at the first such boundary |
| HistoryTheorems.ExplicitStopIsEarliest | libPostTagSystem/PostTagHistory.cpp:204-208 | no run goes past a boundary whose state is an explicit checkpoint, and there it reports so unless a limit or the clock came first |
| HistoryTheorems.OutcomeUnique | libPostTagSystem/PostTagHistory.cpp:194-229 | apart from the clock the result of an init is fully determined by the call and the earlier event counts |
| HistoryTheorems.CycleSound | libPostTagSystem/PostTagHistory.cpp:204-221 | after ReachedAutomaticCheckpoint the orbit is periodic from an event strictly before the reported one and never reaches the empty tape |
| HistoryTheorems.CycleDetectedInTime | libPostTagSystem/PostTagHistory.cpp:194-232 | with power-of-two checkpoints and boundary preperiod mu and period lambda the run stops within 2 mu + lambda events |
| HistoryTheorems.EventCycleDetectedInTime | libPostTagSystem/PostTagHistory.cpp:194-232 | the same for preperiod and period counted in single events: twice mu rounded up to a boundary plus K * lambda |
| HistoryTheorems.CycleReported | libPostTagSystem/PostTagHistory.cpp:194-229 | if no limit, short tape or clock intervenes, a periodic orbit is reported as a checkpoint hit, and as a cycle of its own exactly if the final state is no explicit checkpoint and was left by no earlier init |
| HistoryTheorems.CycleDetectedByMultiple | libPostTagSystem/PostTagHistory.cpp:217-220 | with checkpoints at the event counts divisible by m and K events a chunk the run stops within mu + K * m + lambda events |
| HistoryTheorems.CycleNotMerge | libPostTagSystem/PostTagHistory.cpp:204-216 | a state reported as the init's own cycle was not left by any earlier init |
| HistoryTheorems.CyclesReportedOnce | libPostTagSystem/PostTagHistory.cpp:77-101 | each boundary cycle is reported at most once per call: the orbits of two inits that reported cycles of their own share no boundary state |
| HistoryTheorems.MergeTarget | libPostTagSystem/PostTagHistory.cpp:212-220 | a merged init ends in a state that an earlier, evaluated init was in strictly before its own final event |
| HistoryTheorems.MergeDetectedInTime | libPostTagSystem/PostTagHistory.cpp:204-220 | completeness of merging: if a later init is at boundary n in the state an earlier one had at boundary m and the earlier one ran for 2 m events, the later one stops within n + m events |
| HistoryTheorems.RestNotEvaluated | libPostTagSystem/PostTagHistory.cpp:184-187 | once a result of a call says that the time is up, all later inits are reported unevaluated, after 0 events and as they were given |
| HistoryTheorems.CheckpointWasDue | libPostTagSystem/PostTagHistory.cpp:204-220 | a run ends at an automatic checkpoint only if the owning run was in that state at an earlier boundary whose event count is 0, a power of two or a multiple, whichever was asked for |
| HistoryTheorems.NoCheckpointsAskedFor | libPostTagSystem/PostTagHistory.cpp:217-220 | with no automatic checkpoints asked for, neither a cycle nor a merge is ever reported |
| HistoryTheorems.MergingLosesNothing | libPostTagSystem/PostTagHistory.cpp:77-101 | behind every merged init there is an earlier init, evaluated and not itself merged, whose final state lies on the merged init's orbit, with every event up to there possible |
| HistoryTheorems.MergedConclusionHolds | libPostTagSystem/PostTagHistory.cpp:77-101 | the conclusion reported for that representative, be it at most 8 cells left, a checkpoint, a cycle or a tape beyond the limit, is also true of the merged init at the event where it reaches that state |
| HistoryTheorems.ConclusionHolds | libPostTagSystem/PostTagHistory.cpp:179-230 | every reported conclusion is true of the init's own orbit at the reported event, all events before it being possible: for the limits the limit is reached, for the clock a clock check is due, for a merge the state was on an earlier init's orbit |
| PostLength.PostEvent | libPostTagSystem/PostTagHistory.cpp:34-35 | the six rows of the Post table, as outputs and next phases |
| PostLength.LengthConserved | libPostTagSystem/PostTagHistory.cpp:35-35 | over any run, of any number of events, 3 * length - pad changes by the ones read minus the zeros read |
| PostLength.EmitLength | libPostTagSystem/PostTagHistory.cpp:128-142 | the same conservation for the output of any bits consumed |
| PostLength.ChunkOutputSize | libPostTagSystem/PostTagHistory.cpp:128-142 | every Post table entry emits between 5 and 11 bits and fits the 16-bit field |
| PostLength.WithinChunk | libPostTagSystem/PostTagHistory.cpp:221-222 | within a chunk the tape exceeds its longer end by at most 2 cells, and a chunk changes it by at most 3 |
| PostLength.PeakIsMaximum | libPostTagSystem/PostTagHistory.cpp:86-86 | the reported maximum is an attained upper bound of the tape lengths at all visited boundaries |
| PostLength.ReportedMaximum | libPostTagSystem/PostTagHistory.cpp:221-222 | the reported maximum is the length of the tape at some boundary of the run, and no boundary has a longer one |
| PostLength.SampledMaximum | libPostTagSystem/PostTagHistory.cpp:221-222 | no tape at any single event up to the reported one exceeds the reported maximum by more than 2 |
| PostLength.ReportedLengths | libPostTagSystem/PostTagHistory.cpp:221-222 | the reported maximum and the final length exceed the init's by at most 3 cells for each chunk of 8 events |
| PostLength.SlackIsAttained | libPostTagSystem/PostTagHistory.cpp:221-222 | the slack of 2 occurs: half way through the chunk 11110000 in phase 0 |
| PostLength.TerminatedMayCycle | libPostTagSystem/PostTagHistory.cpp:194-229 | whatever the call, tape 01 in phase 0 is reported Terminated at event 0, while the machine cycles on it with period 2 |
| PostLength.DiesNoSooner | libPostTagSystem/PostTagHistory.cpp:35-35 | a tape that dies out under the Post rule takes at least one event per cell of its unpacked form |
| PostLength.ZerosDieOut | libPostTagSystem/PostTagHistory.cpp:35-35 | a tape of zeros in a known phase is empty after n events if and only if n is at least its unpacked length |
| PairRule.PairEvent | libPostTagSystem/PostTagHistory.cpp:37-37 | the four events of the third rule as bit strings, 00 to 0, 01 to 000, 10 to 101, 11 to 011, in its one phase |
| PairRule.LengthByPairs | libPostTagSystem/PostTagHistory.cpp:37-37 | over any run of the third rule the tape loses a cell for every 00 read and gains one for every other pair |
| StateGraph.CycleReturns | libPostTagSystem/PostTagMultihistory.cpp:122-132 | whatever a state on a cycle reaches is on the same cycle and leads back |
| StateGraph.WalkWithCycle | libPostTagSystem/PostTagMultihistory.cpp:122-132 | a walk that meets itself adds exactly one source, for the one cycle it found, and the visited set stays successor-closed |
| StateGraph.WalkWithoutCycle | libPostTagSystem/PostTagMultihistory.cpp:122-132 | a walk that ends at a visited state or at the end adds no cycle |
| StateGraph.OneSourcePerCycle | libPostTagSystem/PostTagMultihistory.cpp:76-86 | every state on a cycle lies on a cycle with exactly one source |
| Multihistory.NextStateIsStep | libPostTagSystem/PostTagMultihistory.cpp:91-120 | the graph's own encoding of a Post event agrees with the evaluator's rule table |
| Multihistory.PostTagMultihistory.ComputeNextState | libPostTagSystem/PostTagMultihistory.cpp:91-120 | the branches and push_backs compute the next state for any head state a byte can hold, which for a known phase is one event of the Post table |
| Multihistory.PostTagMultihistory.AddEvolutionStartingFromState | libPostTagSystem/PostTagMultihistory.cpp:54-68 | for every finite orbit: the index map stays the inverse of the state list, every successor entry is -1 exactly for the empty tape and else the index of the next state, old entries never change, only orbit states are added, and the whole orbit is in the list afterwards, so the call returns for no other orbit |
| Multihistory.GraphMeans | libPostTagSystem/PostTagMultihistory.cpp:54-68 | in a valid graph no state occurs twice, the index map is the inverse of the list, and an entry is -1 exactly for the empty tape and else the index of the next state |
| Multihistory.Grow | libPostTagSystem/PostTagMultihistory.cpp:56-65 | one round of the adding loop keeps index and edges consistent, the pending successor included |
| Multihistory.PostTagMultihistory.CycleSources | libPostTagSystem/PostTagMultihistory.cpp:76-86 | the sources lie on cycles, every cycle has one, and no source reaches another |
| Multihistory.PostTagMultihistory.TryToFindCycleSource | libPostTagSystem/PostTagMultihistory.cpp:122-132 | the recursive walk terminates because the unvisited set shrinks and keeps the sources of everything visited |
| Multihistory.LinksFollowRun | libPostTagSystem/PostTagMultihistory.cpp:54-68 | n successor links in a complete graph are n single Post events |
| Multihistory.EnginesAgree | libPostTagSystem/PostTagMultihistory.cpp:54-120 | if the chunked engine reports e events, e successor links from the init lead to the same final state |
| Multihistory.LinksAreRun | libPostTagSystem/PostTagMultihistory.cpp:54-68 | conversely, a path of n links that does not run out is a run of n single Post events |
| Multihistory.SourceRecurs | libPostTagSystem/PostTagMultihistory.cpp:76-86 | the single-event Post machine started on a cycle source comes back to it |
| Multihistory.CyclesAgree | libPostTagSystem/PostTagMultihistory.cpp:76-132 | if the chunked engine reports a cycle, the links from that init lead to one of the graph's cycle sources |
| Multihistory.GraphCycleStopsEngine | libPostTagSystem/PostTagMultihistory.cpp:54-132 | conversely, for any mu and lambda such that mu links from an init lead to a state that lambda more links come back to, the chunked engine stops within twice mu rounded up to 8, plus 8 * lambda events |
| TagStates.MutableTagState.FromContents | libPostTagSystem/TagState.cpp:7-14 | the shifting loop fills the tape with the low bits of the contents, most significant first |
| TagStates.MutableTagState.Increment | libPostTagSystem/TagState.cpp:22-41 | the carry loop with its early exit and overflow is the digit-wise successor, head state first |
| TagStates.SuccTapeValue | libPostTagSystem/TagState.cpp:27-39 | the successor's value is one more, and a longer tape starts with a one |
| TagStates.NthRank | libPostTagSystem/TagState.cpp:22-41 | every increment raises the rank 3 * value + head by exactly one, also while a head state above 2 is counted up to 256 |
| TagStates.RankInjective | libPostTagSystem/TagState.cpp:22-41 | among the states an enumeration can meet, those with a head state still to be counted up included, the rank determines the state |
| TagStates.EnumerationMeets | libPostTagSystem/PostTagSearcher.cpp:25-27 | from any begin, whatever its head state, the loop meets end if and only if end is at or after begin, after as many increments as the ranks differ |
| Searcher.StatesInRange | libPostTagSystem/PostTagSearcher.cpp:20-27 | for every end the enumeration can meet, the loop terminates and lists the states of the range in increasing rank, one per rank |
| Searcher.IntegerRange | libPostTagSystem/PostTagSearcher.cpp:10-18 | with the constructor's truncation the integer range terminates exactly if the truncated begin is not past the end, with three states per tape in between |
| Searcher.IntegerRangeExact | libPostTagSystem/PostTagSearcher.cpp:10-18 | for begin <= end <= 2^length there are 3 * (end - begin) states if and only if begin < 2^length; at 2^length the empty range enumerates everything |
| Searcher.IntegerRangeStates | libPostTagSystem/PostTagSearcher.cpp:10-29 | the k-th state of a range is the truncated begin + k / 3 as tape with head k % 3, as long as that fits the tape |
| Searcher.EvaluateIntegerRange | libPostTagSystem/PostTagSearcher.cpp:10-18 | below length 64, for all bounds with which the source terminates, evaluates precisely three states per tape between the truncated bounds, in order, and reports on all of them |
| Searcher.EvaluateRange | libPostTagSystem/PostTagSearcher.cpp:20-29 | evaluates every state from begin up to end in one group, for every end the loop can meet |
| Searcher.EvaluateGroup | libPostTagSystem/PostTagSearcher.cpp:40-99 | one call of the evaluator for all states, and in the order of the states exactly the results that are not NotEvaluated unless these were asked for and not merged unless these were asked for |
| Searcher.ReportedIffKept | libPostTagSystem/PostTagSearcher.cpp:93-96 | a result is reported if and only if it belongs to some state and its reason passes the filter |
| Searcher.ReportsFiltered | libPostTagSystem/PostTagSearcher.cpp:93-96 | the indices of the reported results: increasing, and exactly those whose evaluator reason passes the two flags |
| Searcher.ReportsCounted | libPostTagSystem/PostTagSearcher.cpp:93-96 | the number of reports is the number of states whose results pass the two flags |
| Searcher.StopsWhereAsked | libPostTagSystem/PostTagSearcher.cpp:45-53 | no evaluation goes past a boundary with a state among the given checkpoints or a tape longer than allowed, or past the given number of events |
| Searcher.CyclesStop | libPostTagSystem/PostTagSearcher.cpp:49-53 | a search always detects cycles at the powers of two, within 2 mu + lambda events, and at the given multiples |
| Searcher.ReportIsTrue | libPostTagSystem/PostTagSearcher.cpp:49-97 | every reported field is true of the single-event Post machine started on the reported initial state, final state, lengths, attained maximum and reason alike; behind a reported merge stands the report of an earlier, unmerged init whose final state lies on the same orbit |
| Searcher.ReasonsToldApart | libPostTagSystem/PostTagSearcher.cpp:61-92 | two evaluator reasons become the same report exactly when they are equal or are InvalidInput and MaxTapeLengthExceeded |
| Searcher.DroppedMergeIsRepresented | libPostTagSystem/PostTagSearcher.cpp:86-96 | whatever the filter flags, a merged init has an earlier reported result whose final state lies on its orbit and whose conclusion holds for it |
| Packing.Simulation | Kernel/packing.m:36-41 | for Post and 002211 packing after one raw event on a long enough tape is one table event on the packed state |
| Packing.SimulationRun | Kernel/packing.m:36-41 | the same for n events while the raw tape stays long enough |
| Packing.SimulationExact | Kernel/packing.m:36-41 | for both systems a raw step is a packed step if and only if the raw tape is long enough for an event or empty |
| Packing.PostAgrees | libPostTagSystem/PostTagHistory.cpp:35-35 | every row of the Post table is the sampled, encoded appendant of the original rule |
| Packing.Agrees002211 | libPostTagSystem/PostTagHistory.cpp:36-36 | every used row of the 002211 table is the sampled, encoded appendant of delete two, 0 -> 0, 1 -> 02, 2 -> 211 |
| Packing.Event002211 | libPostTagSystem/PostTagHistory.cpp:36-36 | all eight rows of the 002211 table as bit strings and next phases |
| Packing.RawLengthIsLength | Kernel/packing.m:36-41 | the unpacked length computed from a packed Post state is the length of the tape it packs |
| Packing.PackingErrors | Kernel/packing.m:33-49 | packing fails with one error exactly for a cell outside the alphabet, with the other exactly for a blank at a multiple of the deletion number, and else gives the length's remainder as phase |
| Packing.PackedAt | Kernel/packing.m:36-41 | the packed tape holds, atom by atom, the digits of the cells at the multiples of the deletion number, and nothing else |
| Packing.EngineRunsOriginal | README.md:9-9 | started on a packed tape the chunked engine reports the packing of the original system's tape after eventCount original events, all of which were possible |
| Packing.UnreadVanish | Kernel/packing.m:36-41 | two raw tapes with the same packing that agree behind their first w cells are equal cell by cell after w events, if those are possible |
| Packing.EngineFindsOriginalCycle | README.md:9-9 | a cycle reported for a packed tape is a cycle of the original system, unread cells included, and that system never halts |
| Packing.RoundTrip | Kernel/packing.m:79-92 | packing after unpacking is the identity exactly for a valid phase, whole atoms of the alphabet, and no phase on an empty tape |
| Packing.UnpackedAt | Kernel/packing.m:79-92 | exactly when unpacking fails, and with which error; else atom k, the number whose digits are at its place in the packed tape, stands at the k-th multiple of the deletion number, followed by blanks, and the length has the phase as its remainder |
| Packing.UnpackOfPack | Kernel/packing.m:79-85 | unpacking a packed tape always succeeds and blanks out only the cells that are never read |
| Codec.FileWriter.WriteU64 | CLI/files/PostTagFileWriter.cpp:11-24 | the nested halves write the eight bytes of the integer, lowest first |
| Codec.FileWriter.WriteBits | CLI/files/PostTagFileWriter.cpp:26-47 | full bytes and the partial byte pack the bits from the top, padded with zeros |
| Codec.FileWriter.WriteBitsU64 | CLI/files/PostTagFileWriter.cpp:54-67 | up to 64 bits become one integer; more are refused |
| Codec.FileReader.ReadU64 | CLI/files/PostTagFileReader.cpp:13-35 | reads eight bytes as a little-endian integer, or reports the end of the stream |
| Codec.FileReader.ReadBits | CLI/files/PostTagFileReader.cpp:37-60 | consumes the rounded-up number of bytes and returns the first bits of their digits, or reports the end of the stream |
| Codec.FileReader.ReadBitsU64 | CLI/files/PostTagFileReader.cpp:64-74 | unpacks the low bits of one integer; the signed counter makes every bit zero for more than 128 cells |
| Codec.IntegerRoundTrip | CLI/files/PostTagFileReader.cpp:13-35 | reading back a written integer that fits gives the integer and leaves the rest of the stream |
| Codec.BitsRoundTrip | CLI/files/PostTagFileReader.cpp:37-60 | reading back written bits gives the bits and leaves the rest of the stream |
| Codec.BitsU64RoundTrip | CLI/files/PostTagFileReader.cpp:64-74 | the integer form of up to 64 bits reads back with the same count |
| Codec.LittleEndianValue | CLI/files/PostTagFileWriter.cpp:11-24 | k little-endian bytes hold the integer truncated to 8 k bits |
| Bits.BitwiseDigits | CLI/files/PostTagResultFile.cpp:46-55 | the modelled bitwise and and bitwise or act on the numbers digit by digit |
| Codec.LittleEndianByte | CLI/files/PostTagFileWriter.cpp:11-24 | byte i of an integer is the integer divided by 2 to the 8 i, modulo 256 |
| Codec.PackedBit | CLI/files/PostTagFileWriter.cpp:26-47 | bit i is in byte i / 8, the first on top, and zeros follow the last bit |
| ResultFile.WriteResult | CLI/files/PostTagResultFile.cpp:43-66 | writes one record: both headers, the tapes and the three counts |
| ResultFile.WriteFile | CLI/files/PostTagResultFile.cpp:8-41 | writes magic, version, count and all records, leaving out final tapes that are too big, empty or irrelevant; another version is an error |
| ResultFile.ReadResult | FileFormats/ResultFile.wl:76-129 | reads from the stream exactly what the record grammar says, or reports the end of the stream |
| ResultFile.ReadFile | FileFormats/ResultFile.wl:35-71 | checks magic and version and reads the stated number of records, or, of a stream that ends early, the complete ones |
| ResultFile.ReadPackedBits | FileFormats/Utility.wl:8-18 | takes the first bits of the rounded-up number of bytes |
| ResultFile.InitialHeaderFields | CLI/files/PostTagResultFile.cpp:45-48 | the masks of the parser read back the head state and size fields of the initial header |
| ResultFile.ResultHeaderFields | CLI/files/PostTagResultFile.cpp:52-56 | the masks of the parser read back reason, head state and flag of the result header |
| ResultFile.RecordLayout | CLI/files/PostTagResultFile.cpp:43-66 | every byte of a record: both headers as numbers with the codes of the reasons, the tapes and the three counts at their places |
| ResultFile.FileLayout | CLI/files/PostTagResultFile.cpp:8-41 | a file is the letter R, version 1, the number of records in eight bytes, and the records |
| ResultFile.OutcomeRoundTrip | FileFormats/ResultFile.wl:76-129 | the part of a record after its initial tape is parsed back to the expected values, whatever follows it in the stream, if and only if its head state fits two bits and a written final tape has the stated length |
| ResultFile.RecordRoundTrip | FileFormats/ResultFile.wl:76-129 | a record survives writing and parsing, apart from an omitted final tape, if and only if it is well-formed |
| ResultFile.FileRoundTrip | FileFormats/ResultFile.wl:35-71 | parsing a written file recovers every record and consumes exactly its bytes if and only if all records are well-formed |
| ResultFile.ParsedFields | CLI/files/PostTagResultFile.cpp:26-39 | what is read back of each result field by field; a final tape, equal to the result's, if and only if it has at least one cell, is not longer than the limit, and the reason is neither InvalidInput nor NotEvaluated |
| ResultFile.OnlyResultFiles | FileFormats/ResultFile.wl:35-60 | only data that starts with the letter R and version 1 is read as a result file, and which error anything else gives |
| ResultFile.CutRecord | FileFormats/ResultFile.wl:76-129 | records are self-delimiting: no proper prefix of a written record can be parsed |
| ResultFile.CutFile | FileFormats/ResultFile.wl:61-71 | a written file cut short anywhere behind its count is never taken for a complete one, and exactly the records that still fit are recovered |
| ResultFile.ReportsRecordable | CLI/files/PostTagResultFile.cpp:23-41 | the reports of a group of short inits always fit the integers of the file, and parsing the written file gives all of them back if and only if the event limit was a multiple of 8 |

## Left out

- Real time: the deadline is a clock that answers arbitrarily but never goes back from late to early.
- History.PostTagHistory.Evaluate: requires of every init that is longer than 8 cells a phase the rule knows; with any other phase the source indexes its table unchecked, and what it then reads is said by ChunkTable.UnknownPhase only. Init indices are assumed to fit the `int` they are cast to.
- History.PostTagHistory.EvaluateSingle: requires the same of its one init.
- Searcher.EvaluateGroup: requires the same of its states.
- Multihistory.PostTagMultihistory.AddEvolutionStartingFromState: takes a finite set of states that contains the orbit; whether every Post orbit is finite is the open question the repository studies, and the loop ends exactly for finite orbits.
- Searcher.EvaluateRange: requires an end that the enumeration meets, because otherwise the source loops forever, and the same of begin, unless the range is empty.
- Searcher.EvaluateIntegerRange: requires a tape length below 64, where the shift that computes the end is defined, and bounds with which the enumeration ends.
- The group evaluation of small states: it turns each into a tag state with the integer constructor and calls the modelled one.
- ResultFile.ReadResult: a record on which the stream ends is one error value, where the parser would carry end-of-file symbols into its result.
- ResultFile.ReadFile: the parser returns such records, too, behind the complete ones.
- The simulation of the third rule, 000010111: its packing is the identity and the repository gives no unpacked form of it.
- Crib and init files: the same integers and packed bits in simpler records.
- The casts of state counts and indices to `int` in the state graph (`libPostTagSystem/PostTagMultihistory.cpp:58`, `libPostTagSystem/PostTagMultihistory.cpp:64`), which are assumed to fit.
- Foreign-call marshalling, option parsing, printing, opening files, and the hash function of the state index, which is a mathematical map here.
- Memory: vector and map reallocation, the slot pointer of the trie being an address (metadata entry or node and chunk) instead.

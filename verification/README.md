# Agent runtime and repository tools, verified

A Dafny model of the stateful parts of GarraRUST's agent runtime and of the
repository tools whose algorithms carry invariants. Each file models one
component; loops and objects the code updates in place are methods and classes
proved against pure specification functions, and the properties the code and its
documentation promise are lemmas about those functions.

| file | component |
|---|---|
| Prelude.dfy, Numerals.dfy, PythonText.dfy | shared vocabulary: options, sequences, decimal numbers, Python's `strip` |
| ExecutionBudget.dfy | tool-call budget, loop breaker, and the turn loop that drives them |
| MemoryNoise.dfy | text normaliser and noise policy |
| MemoryStore.dfy, MemoryReindex.dfy | the store and its vector index with the deleting worker, and the keyset-cursor reindexer |
| Embeddings.dfy | concurrent batching, retries, error classification, dimension check |
| ResilientReindex.dfy | the reindexer on top of the resilient provider |
| Delimited.dfy, Framing.dfy, EventStream.dfy, LineStream.dfy | one framing specification and the readers that refine it |
| LatencyHistogram.dfy, Reliability.dfy | saturating histograms, capped tool registry, transition counters |
| Coordinator.dfy, Pipeline.dfy | parallel and pipelined sub-agents with their run ledger |
| SpriteLine.dfy, PngFraming.dfy | Bresenham line and PNG writer of the sprite generator |
| LedgerRekey.dfy, RekeyPlan.dfy | renaming alert numbers, and deciding which to rename |
| LedgerAnchors.dfy, LedgerSettling.dfy | anchoring ledger entries by content, and when a second pass moves nothing |
| Changelog.dfy, WrittenLines.dfy, ChangelogPlacement.dfy | folding fragments into the changelog, what that keeps, and where each row stands in the written text |

`dafny verify dfyconfig.toml` checks the whole project.

## What to know when reading it

* What the code takes from outside is a parameter: provider answers, completion
  orders, schedules, clocks, Unicode tables, the zlib functions, the regular
  expressions for a Rust function header, for the anchor cell of a ledger row (in the
  examples `AlertOf`) and for a citation. The theorems hold for all of them, under hypotheses named in each
  contract (`Sound`, `HonestService`, `Fair`, `Checked`, `Readable`).
* Where the code falls short of what one might expect, the model keeps the code, and
  the project states the condition under which the expectation holds, with an input,
  or a family of inputs, on which it fails:
  * an ignored abort lets a call run three times (`IgnoredAbortAllowsThree`);
  * drawing a line backwards differs exactly at ties (`ReversedExceptTies`,
    `BackwardsDiffers`);
  * a stream is heard exactly when `YieldsIff` says so, which no CR LF stream meets;
  * a provider's error body can stop retries (`PhraseInBodyStopsRetries`);
  * a refusal that mentions "Cancelled" is recorded as a cancellation
    (`CancelledIff`, `RefusalRecordedAsCancelled`);
  * a heading the search does not see, in the old text or inside a fragment, takes the
    fragments behind it (`UnderItsHeaderIff` and its two failing cases);
  * two ledger entries sharing a number make the next plan drift (`ReplanIsQuietIff`,
    `SharedNumberDrifts`);
  * a second pass over the ledger is idle exactly when every rewritten row reads back
    (`AllSettleIff`); with one entry for each alert only a path that opens with a
    backtick prevents that (`SecondPassIff`); two entries that share an alert but not a
    line never settle (`SharersNeverSettle`);
  * a cap of zero still repairs one index row (`RepairIndex`).
* The docstring of `rewrite_md` speaks of three patterns; the code has four, and the
  model has four.

## Model

| member | source | states |
|---|---|---|
| `Budget.OneWarningPerTask` | crates/garraia-agents/src/execution_budget.rs:425-470 | over every run from every state: once a loop has been warned about, no event of the same task is answered by a warning again, and a later event that closes a loop is answered by an abort |
| `Budget.WarnedNeverExecutesAgain` | crates/garraia-agents/src/execution_budget.rs:425-470 | the warned signature is aborted at every later occurrence in the task, whatever calls and turn resets come between |
| `Budget.WarningPersists` | crates/garraia-agents/src/execution_budget.rs:478-490 | a warning survives every event but a task reset: turn resets do not re-arm it |
| `Budget.NothingJudgedBetween` | crates/garraia-agents/src/execution_budget.rs:385-470 | between two runs of one signature in a turn with nothing else run or aborted, the loop window does not move at all |
| `Budget.NeverThreeInARow` | crates/garraia-agents/src/execution_budget.rs:385-404 | of three executions of one signature in one turn, two are separated by another execution or by an abort the caller ignored |
| `Budget.IgnoredAbortAllowsThree` | crates/garraia-agents/src/execution_budget.rs:425-470 | the last clause is needed: in a fresh task, a caller that carries on after an abort can execute the same call three times in one turn with no other in between |
| `Budget.TaskCounterCounts` | crates/garraia-agents/src/execution_budget.rs:344-366 | the task counter grows by exactly the counted events of a stretch without a task reset |
| `Budget.NewTaskStartsAfresh` | crates/garraia-agents/src/execution_budget.rs:483-490 | after a task reset every verdict is that of a fresh budget with the same ceilings |
| `Budget.AfterPrefix` | crates/garraia-agents/src/execution_budget.rs:344-490 | the state after n events depends on the first n events alone |
| `Budget.EnvelopeIsInvisible` | crates/garraia-agents/src/execution_budget.rs:344-359 | inserting a program envelope anywhere in a run changes the verdict of no event before or after it |
| `Budget.SameLoopState` | crates/garraia-agents/src/execution_budget.rs:344-359 | the inserted envelope leaves the signature history and the warning untouched at every later point |
| `Budget.ExecutionBudget.Default` | crates/garraia-agents/src/execution_budget.rs:225-236 | a fresh budget has the default ceilings, no calls, no history and no warning |
| `Budget.ExecutionBudget.WithLimit` | crates/garraia-agents/src/execution_budget.rs:238-244 | only the task ceiling is replaced |
| `Budget.ExecutionBudget.ForMode` | crates/garraia-agents/src/execution_budget.rs:280-293 | a mode lowers the ceilings and the timeout, never raises them, and the turn ceiling stays within the task ceiling |
| `Budget.ExecutionBudget.CanCall` | crates/garraia-agents/src/execution_budget.rs:339-342 | a call is allowed exactly while both counters are below their ceilings |
| `Budget.ExecutionBudget.TurnLimitReached` | crates/garraia-agents/src/execution_budget.rs:295-299 | the turn can be reset exactly when only the turn ceiling is used up |
| `Budget.ExecutionBudget.RegisterCount` | crates/garraia-agents/src/execution_budget.rs:344-359 | counts a call on both counters and leaves the loop window alone |
| `Budget.ExecutionBudget.RegisterCall` | crates/garraia-agents/src/execution_budget.rs:361-366 | counts a call and appends its signature to the history |
| `Budget.ExecutionBudget.RegisterSignature` | crates/garraia-agents/src/execution_budget.rs:368-383 | appends a signature without counting; the window is always the last min(3, n) signatures since the last reset |
| `Budget.ExecutionBudget.DetectsLoop` | crates/garraia-agents/src/execution_budget.rs:385-404 | true exactly when the last three signatures of the whole history since the last reset are equal |
| `Budget.ExecutionBudget.LoopVerdict` | crates/garraia-agents/src/execution_budget.rs:425-470 | returns the verdict of the full-history specification, and records the first warning of the task |
| `Budget.ExecutionBudget.ResetTurn` | crates/garraia-agents/src/execution_budget.rs:477-481 | clears the turn counter and the history, keeps the task counter and the warning |
| `Budget.ExecutionBudget.ResetTask` | crates/garraia-agents/src/execution_budget.rs:483-490 | clears both counters, the history and the warning |
| `Budget.Record` | crates/garraia-agents/src/runtime.rs:3578-3600 | one registered event advances the three-slot implementation exactly as the full-history specification, and returns its verdict |
| `Budget.Dispatch` | crates/garraia-agents/src/runtime.rs:3722-3740 | a request is one counted call; a program that dispatched no step also enters the window with its own signature |
| `Budget.Drive` | crates/garraia-agents/src/runtime.rs:2170-2270 | for every stream of requests the turn loop ends with a log that the specification explains; without the turn resets the log is exactly what the first n requests stand for, each a request the model made, and the next one is the final answer when the loop ends answered; no call is counted past a ceiling and no turn reset early; it stops at the first abort, never logs one signature executed three times in a turn with nothing else executed in between, and is exhausted only at the task ceiling |
| `Budget.DrivenTaskNeverRepeatsThrice` | crates/garraia-agents/src/runtime.rs:3578-3600 | a task whose caller stops at the first abort never executes one signature three times in a turn without executing something else in between |
| `Budget.LoggedNeverInARow` | crates/garraia-agents/src/runtime.rs:3578-3600 | the same for any log the specification explains whose only abort is its last entry |
| `Bresenham.Line` | crates/garraia-desktop/gen_sprite.py:56-66 | for all integer endpoints the loop ends with exactly max(dx, dy) + 1 centres, each the closed-form pixel of its step |
| `Bresenham.RungIs` | crates/garraia-desktop/gen_sprite.py:56-66 | the closed form is the integer nearest to k·minor/major, halves rounded down |
| `Bresenham.Step` | crates/garraia-desktop/gen_sprite.py:64-65 | the minor coordinate advances exactly when the error test passes |
| `Bresenham.ErrorTests` | crates/garraia-desktop/gen_sprite.py:63-65 | the running error equals its closed form, and its two comparisons decide the two coordinate moves |
| `Bresenham.EndsAt` | crates/garraia-desktop/gen_sprite.py:56-66 | the first centre is the start and the last is the end point |
| `Bresenham.OnlyTheLastIsTheEnd` | crates/garraia-desktop/gen_sprite.py:62 | the exit test is met at the last centre and at no earlier one |
| `Bresenham.Connected` | crates/garraia-desktop/gen_sprite.py:61-65 | consecutive centres are 8-neighbours and never the same pixel |
| `Bresenham.HalfPixel` | crates/garraia-desktop/gen_sprite.py:56-66 | every centre lies within half a pixel of the true line along the minor axis: twice the absolute value of j·dx − i·dy is at most max(dx, dy) |
| `Bresenham.Transposed` | crates/garraia-desktop/gen_sprite.py:56-66 | swapping the axes swaps the coordinates of every centre |
| `Bresenham.ReversedExceptTies` | crates/garraia-desktop/gen_sprite.py:56-66 | for any two distinct end points, drawing backwards plots the same pixel at a step if and only if the true line does not pass midway between two pixels there |
| `Bresenham.BackwardsDiffers` | crates/garraia-desktop/gen_sprite.py:56-66 | from (0, 0) to (2, 1) and back the middle centre is not the same pixel |
| `Png.RoundTrip` | crates/garraia-desktop/gen_sprite.py:275-281 | reading what the encoder wrote gives back width, height and the first 4·w·h bytes of the data, and nothing when there are fewer (chunk layout of RFC 2083, sections 3.2 and 4.1.1) |
| `Png.UnchangedIffSized` | crates/garraia-desktop/gen_sprite.py:275-281 | the image comes back unchanged exactly when the buffer has the size the header declares |
| `Png.OpensAndEnds` | crates/garraia-desktop/gen_sprite.py:275-281 | the file opens with the signature and the header chunk of an eight-bit RGBA image with its width, height and checksum, and ends with an empty end chunk and its checksum (RFC 2083, sections 3.1, 4.1.1 and 4.1.4) |
| `Png.BytesAreBigEndian` | crates/garraia-desktop/gen_sprite.py:276-279 | a four-byte field is written most significant byte first |
| `Png.FirstScanline` | crates/garraia-desktop/gen_sprite.py:280 | each row of pixels is written behind a zero byte |
| `Png.ReadsItsChunk` | crates/garraia-desktop/gen_sprite.py:276-278 | a written chunk is read back with its tag and body whatever follows it, its length and checksum agreeing |
| `Png.ReadsItsImageData` | crates/garraia-desktop/gen_sprite.py:281 | the image data between header and end chunk is read back whole |
| `Png.PixelsOfScanlines` | crates/garraia-desktop/gen_sprite.py:280 | with all rows present the filtered scanlines give back the pixels from any row on |
| `Png.PixelsKept` | crates/garraia-desktop/gen_sprite.py:280 | with fewer bytes than the header declares no pixels are read at all |
| `Png.NumberOfBytes` | crates/garraia-desktop/gen_sprite.py:276-279 | a four-byte big-endian field reads back as the number written |
| `Delimited.FirstIsLeftmost` | crates/garraia-agents/src/anthropic.rs:227 | the search finds an occurrence of the delimiter, and none comes before it |
| `Delimited.SplitInTwo` | crates/garraia-agents/src/anthropic.rs:225-250 | splitting what has arrived and carrying on with the rest gives the blocks and the rest of the whole text, even when the cut falls inside the delimiter |
| `Delimited.Reassembles` | crates/garraia-agents/src/anthropic.rs:227-229 | blocks, delimiters and rest put together are the text |
| `Delimited.SplittingIsUnique` | crates/garraia-agents/src/anthropic.rs:227-229 | any decomposition into leftmost blocks and a delimiter-free rest is the splitting |
| `Delimited.BlocksAreLeftmost` | crates/garraia-agents/src/anthropic.rs:227-229 | every block of a splitting ends at the first delimiter |
| `Framing.ChunkingIsInvisible` | crates/garraia-agents/src/anthropic.rs:222-264 | wherever the transport cut the stream and whatever read errors came between, the events are those of the whole text and every error is delivered once |
| `Framing.SameTextSameEvents` | crates/garraia-agents/src/ollama.rs:291-320 | two ways to cut the same stream give the same output, event for event |
| `Framing.CutOne` | crates/garraia-agents/src/anthropic.rs:227-245 | cutting one block off the buffer yields that block's event and nothing else |
| `Framing.NothingToCut` | crates/garraia-agents/src/anthropic.rs:247-261 | with no delimiter in the buffer the next output depends on the next item of the stream |
| `EventStream.EventReader.Next` | crates/garraia-agents/src/anthropic.rs:222-264 | each call yields exactly the next element of the transcript, and the end only when nothing is left (a subset of section 9.2 of the WHATWG HTML Standard) |
| `EventStream.EventReader.constructor` | crates/garraia-agents/src/anthropic.rs:222-224 | a new reader has the whole transcript of its stream ahead of it |
| `EventStream.ReadAll` | crates/garraia-agents/src/anthropic.rs:222-264 | draining the reader gives the transcript of the stream, and ends |
| `EventStream.DataLine` | crates/garraia-agents/src/anthropic.rs:231-237 | the scan of a block gives the payload of its last data line |
| `EventStream.LastDataWins` | crates/garraia-agents/src/anthropic.rs:231-237 | a payload is that of the last data line, and is absent exactly when no line is a data line |
| `EventStream.YieldsIff` | crates/garraia-agents/src/anthropic.rs:225-250 | a stream can yield an event, for some payload decoder, if and only if a line of it opens with the data mark and a blank-line delimiter stands behind that mark |
| `EventStream.EventsComeFromPayloads` | crates/garraia-agents/src/anthropic.rs:225-250 | with any decoder, an event comes only from a block that has a payload |
| `EventStream.CrlfStreamsAreSilent` | crates/garraia-agents/src/anthropic.rs:226-229 | so a stream whose lines all end in CR LF, which that standard allows, never yields an event |
| `EventStream.OnlyOneSpellingIsHeard` | crates/garraia-agents/src/anthropic.rs:225-237 | of three spellings of one event the standard allows, with LF and a blank, with CR LF, and with LF and no blank, only the first has a payload |
| `LineStream.LineReader.Next` | crates/garraia-agents/src/llama_cpp.rs:339-371 | each call yields the next non-empty line or read error of the specification, the unterminated tail last |
| `LineStream.LineReader.constructor` | crates/garraia-agents/src/ollama.rs:291-293 | a new reader has the whole transcript of its stream ahead of it |
| `LineStream.ChatLinesAre` | crates/garraia-agents/src/ollama.rs:291-320 | a chat stream of any lines and any tail yields its lines that are not empty, in order, and then the tail unless it is empty |
| `LineStream.StatusLinesAre` | crates/garraia-agents/src/ollama.rs:450-470 | a download of any lines and any tail keeps the lines that are not blank, in order, and the tail unless it is empty or blank |
| `LineStream.FirstHarmDecides` | crates/garraia-agents/src/ollama.rs:450-484 | the first read error or failure line decides the download, and without one whether some line reported success |
| `LineStream.Pull` | crates/garraia-agents/src/ollama.rs:450-484 | the download loop gives the verdict of the transcript of its status lines: the first error wins, else a success status is needed |
| `LineStream.PullSucceedsIff` | crates/garraia-agents/src/ollama.rs:454-484 | without read errors a download succeeds exactly when no kept line of its bytes reports a failure and some line reports success, wherever the stream was cut |
| `Latency.PlusLaws` | crates/garraia-agents/src/observabilidade.rs:230-237 | merging saturating histograms is commutative and associative, with the empty one as unit |
| `Latency.MergeIsExact` | crates/garraia-agents/src/observabilidade.rs:216-237 | the histogram of a concatenation of samples is the merge of the parts, saturation included |
| `Latency.OrderIsInvisible` | crates/garraia-agents/src/observabilidade.rs:216-237 | histograms of two logs with the same samples in any order are equal |
| `Latency.CountersAreTrueUpToTheCap` | crates/garraia-agents/src/observabilidade.rs:216-228 | every bucket, the count and the sum hold the true number or the cap, and the maximum is the largest sample or the cap |
| `Latency.SearchFindsTheBucket` | crates/garraia-agents/src/observabilidade.rs:241-257 | the cumulative search lands in the bucket that holds the true order statistic |
| `Latency.QuantileBrackets` | crates/garraia-agents/src/observabilidade.rs:239-258 | as long as the count is below the cap the quantile is at least the true ceil(q·n)-th smallest sample (or the cap, if that sample is above it), at most the maximum and at most the limit of that sample's bucket |
| `Latency.QuantileMonotone` | crates/garraia-agents/src/observabilidade.rs:239-258 | a larger quantile never gets a smaller answer, saturated or not |
| `Latency.SomeSampleHasRank` | crates/garraia-agents/src/observabilidade.rs:239-258 | every rank belongs to a sample, so the bracket is about a real one |
| `Latency.RankMonotone` | crates/garraia-agents/src/observabilidade.rs:243-247 | the rank asked for grows with the quantile |
| `Latency.RankIs` | crates/garraia-agents/src/observabilidade.rs:243-247 | the rank is the smallest number between one and the count that reaches q times the count, and the count itself for a quantile that is not a number |
| `Latency.Histogram.Record` | crates/garraia-agents/src/observabilidade.rs:217-228 | recording adds one sample to the abstract histogram |
| `Latency.Histogram.Add` | crates/garraia-agents/src/observabilidade.rs:230-237 | adding merges the abstract histograms in place |
| `Latency.Histogram.QuantileMs` | crates/garraia-agents/src/observabilidade.rs:239-258 | the search loop answers what the specification answers, and nothing exactly without a sample |
| `Reliability.RowLaws` | crates/garraia-agents/src/observabilidade.rs:308-317 | merging tool rows is commutative and associative, with the empty row as unit |
| `Reliability.RowsAreTotals` | crates/garraia-agents/src/observabilidade.rs:485-499 | a row exists exactly when some call was counted under it, and holds the total of those calls |
| `Reliability.TotalsSplit` | crates/garraia-agents/src/observabilidade.rs:308-317 | splitting the keys in two splits the total in two, for any interleaving of the calls |
| `Reliability.EveryCallIsCounted` | crates/garraia-agents/src/observabilidade.rs:546-558 | every call of the log is counted under some row |
| `Reliability.TotalIsConserved` | crates/garraia-agents/src/observabilidade.rs:608-622 | the rows add up to the total of the whole log, whatever the cap and the iteration order of the hash map |
| `Reliability.CapIsInvisible` | crates/garraia-agents/src/observabilidade.rs:608-622 | two registries with different caps report the same total for the same log |
| `Reliability.OwnRowsWithinCap` | crates/garraia-agents/src/observabilidade.rs:485-499 | rows under a tool's own name never exceed the cap |
| `Reliability.UnknownNamesNeverBecomeKeys` | crates/garraia-agents/src/observabilidade.rs:485-499 | a key that is not a bucket is the truncated name of a registered tool that was called |
| `Reliability.NamesGoTo` | crates/garraia-agents/src/observabilidade.rs:485-499 | unregistered names share one row and registered ones past the cap another |
| `Reliability.TruncatedIs` | crates/garraia-agents/src/observabilidade.rs:485-499 | a name keeps its first 128 characters |
| `Reliability.AdmittedOrFull` | crates/garraia-agents/src/observabilidade.rs:485-499 | a registered tool that was called has a row, or the cap is full |
| `Reliability.OwnRowIsComplete` | crates/garraia-agents/src/observabilidade.rs:485-499 | an admitted name never loses its row, and the row counts every call ever made to that tool |
| `Reliability.EveryCallIsReported` | crates/garraia-agents/src/observabilidade.rs:293-306 | the outcomes of a total add up to the number of calls, up to saturation |
| `Reliability.TotalMeans` | crates/garraia-agents/src/observabilidade.rs:285-317 | the total of some calls has, for each outcome, how many had it; how many opened the breaker; the latencies of those that reached their tool; and the time of the last failure or timeout |
| `Reliability.Registry.Record` | crates/garraia-agents/src/observabilidade.rs:546-558 | one recorded call advances the table as the specification, and no row is ever dropped |
| `Reliability.Registry.SnapshotTotal` | crates/garraia-agents/src/observabilidade.rs:608-622 | adding the rows in whatever order gives the total of the log |
| `Reliability.EdgesPartition` | crates/garraia-agents/src/observabilidade.rs:405-429 | every connection report is one of four transitions, and connections exceed drops by one exactly while connected |
| `Reliability.Channel.Record` | crates/garraia-agents/src/observabilidade.rs:405-429 | the counters are the numbers of connections, reconnections, drops and failed attempts of the whole log, up to saturation |
| `Reliability.Series.Record` | crates/garraia-agents/src/observabilidade.rs:598-606 | a series holds the most recent samples up to its ceiling, in order |
| `LedgerRekey.RewriteMd` | scripts/security/codeql-rekey-ledger.py:213-241 | for a text free of the placeholder character, replacing number by placeholder and placeholder by new number, pattern by pattern and number by number, equals one simultaneous renaming of the anchored numbers, chains and cycles included, that copies everything else |
| `LedgerRekey.RewriteFamily` | scripts/security/codeql-rekey-ledger.py:234-240 | the two phases over one pattern equal the simultaneous renaming of that pattern |
| `LedgerRekey.ReplaceIsEdit` | scripts/security/codeql-rekey-ledger.py:235-240 | replacing every occurrence of a pattern, left to right, renames exactly the tokens it anchors |
| `LedgerRekey.Compose` | scripts/security/codeql-rekey-ledger.py:234-240 | one simultaneous edit after another is one simultaneous edit |
| `LedgerRekey.KeepsPrefix` | scripts/security/codeql-rekey-ledger.py:216-233 | an edit elsewhere neither creates nor destroys the fixed text that anchors a later pattern |
| `LedgerRekey.AnchoredOnce` | scripts/security/codeql-rekey-ledger.py:227-233 | no place in a text is anchored by two of the four patterns |
| `LedgerRekey.OrderIsInvisible` | scripts/security/codeql-rekey-ledger.py:213-241 | the renaming does not depend on the order of the dictionary |
| `LedgerRekey.Untouched` | scripts/security/codeql-rekey-ledger.py:213-241 | an empty mapping changes nothing |
| `LedgerRekey.PermutationsUndo` | scripts/security/codeql-rekey-ledger.py:213-241 | renaming back undoes a renaming whose new numbers are exactly its old ones |
| `LedgerRekey.MapsMean` | scripts/security/codeql-rekey-ledger.py:226-240 | each old number has its own placeholder, and each placeholder its new number |
| `RekeyPlan.PlanRekey` | scripts/security/codeql-rekey-ledger.py:157-210 | the loop sorts every entry by its verdict into mapping, unmatched, ambiguous and drifted, in ledger order |
| `RekeyPlan.PlanLists` | scripts/security/codeql-rekey-ledger.py:157-210 | each list of the plan is exactly the entries with its verdict, in ledger order, with the candidates or the span the verdict names |
| `RekeyPlan.ApplyMapping` | scripts/security/codeql-rekey-ledger.py:324-330 | exactly the entries whose number is mapped change, to the mapped number and the anchor made of it |
| `RekeyPlan.VerdictMeans` | scripts/security/codeql-rekey-ledger.py:174-208 | an entry is left alone exactly when its own open alert covers it, drifts exactly when its open alert does not, is unmatched exactly when its alert is closed and none covers it, moves only to the one alert that covers it, and is otherwise reported with all the alerts that cover it, in ascending order |
| `RekeyPlan.CandidatesCover` | scripts/security/codeql-rekey-ledger.py:178 | the candidates of an entry are exactly the open alerts whose span covers it |
| `RekeyPlan.CoversIff` | scripts/security/codeql-rekey-ledger.py:121-155 | an alert covers the entries of its rule and file between its start and its end, a missing, zero or earlier end being the start |
| `RekeyPlan.LiveIs` | scripts/security/codeql-rekey-ledger.py:174-177 | the span looked up for a number is that of the open alert with it |
| `RekeyPlan.InOrderIs` | scripts/security/codeql-rekey-ledger.py:203 | sorting the candidates puts them in ascending order and drops or doubles none |
| `RekeyPlan.ReplanIsQuietIff` | scripts/security/codeql-rekey-ledger.py:157-210 | after applying a plan without ambiguity or drift, planning again has nothing to do if and only if every entry sharing a moved number is covered by the alert it moves to |
| `RekeyPlan.DistinctEntriesSettle` | scripts/security/codeql-rekey-ledger.py:324-330 | with one entry per number, planning again is quiet: every entry points to a covering alert or is still unmatched |
| `RekeyPlan.SharedNumberDrifts` | scripts/security/codeql-rekey-ledger.py:206-208 | two entries sharing a number, one of them uncovered: the next plan sees drift |
| `LedgerAnchors.OccurrencesAre` | scripts/security/check-ledger-anchors.py:187-194 | the search lists exactly the lines that hold the snippet, from top to bottom |
| `LedgerAnchors.ResolvedLineHolds` | scripts/security/check-ledger-anchors.py:408-482 | an entry resolves only to a line that holds its statement |
| `LedgerAnchors.ResolvesIff` | scripts/security/check-ledger-anchors.py:408-482 | an entry resolves to a line if and only if its statement stands there alone, or alone in the function it names; it is gone if and only if no line holds the statement, or several do and none lies in that function; in all other cases it is not resolvable; it resolves with a warning exactly when the one line has left that function |
| `LedgerAnchors.EnclosingIs` | scripts/security/check-ledger-anchors.py:197-208 | the function around a line is that of the nearest header at or above it |
| `LedgerAnchors.UnrelatedLinesOnlyPush` | scripts/security/check-ledger-anchors.py:408-482 | inserting lines with neither the snippet nor a function header keeps every verdict, and moves the derived line by exactly their count when they stand above it and not at all otherwise |
| `LedgerAnchors.UniqueSnippetsIgnoreHeaders` | scripts/security/check-ledger-anchors.py:461-482 | a statement that occurs once stays resolved wherever function headers are inserted |
| `LedgerAnchors.ParseMd` | scripts/security/check-ledger-anchors.py:289-311 | reading fails exactly when some alert has two rows, and otherwise finds exactly the rows there are |
| `LedgerAnchors.AlertReads` | scripts/security/check-ledger-anchors.py:109-111 | a cell that opens with the anchor of an alert is read as that alert, whatever follows in the cell |
| `LedgerAnchors.RowsFailIff` | scripts/security/check-ledger-anchors.py:289-311 | the recursion behind it yields no rows if and only if two lines are rows of one alert |
| `LedgerAnchors.RowsFollow` | scripts/security/check-ledger-anchors.py:289-311 | a ledger with the same alert on every line has the same rows in the same places |
| `LedgerAnchors.RowsSurvive` | scripts/security/check-ledger-anchors.py:289-311 | a ledger in which lines keep their alert or stop being rows can still be read |
| `LedgerAnchors.RowReadsBack` | scripts/security/check-ledger-anchors.py:314-323 | a rewritten row reads back as the same row, with what its new cell reads back as |
| `LedgerAnchors.HeadDecides` | scripts/security/check-ledger-anchors.py:289-311 | what follows the opening of a row's place never changes its alert or its rule; at most the line stops being a row |
| `LedgerAnchors.CellReadsBack` | scripts/security/check-ledger-anchors.py:314-323 | a rewritten cell reads back as what was written, with or without backticks |
| `LedgerAnchors.CellKeepsItsTicks` | scripts/security/check-ledger-anchors.py:314-323 | a rewritten cell is padded with one blank on each side, and in backticks exactly when the old one was |
| `LedgerAnchors.TickedContentIsLost` | scripts/security/check-ledger-anchors.py:182-184 | content that opens with a backtick never reads back from its cell |
| `LedgerAnchors.PlaceReadsBackIff` | scripts/security/check-ledger-anchors.py:314-323 | for every path and line, a place survives its cell if and only if the path is empty or opens with neither a backtick nor a blank |
| `LedgerAnchors.FileOfIs` | scripts/security/check-ledger-anchors.py:509-511 | the file of a place is what stands in front of its last colon, or all of it |
| `LedgerAnchors.RootDirectories` | scripts/security/check-ledger-anchors.py:133-144 | a citation is anchored at the root exactly when it opens with one of ten directories |
| `LedgerAnchors.BrokenIff` | scripts/security/check-ledger-anchors.py:234-286 | a citation counts as drift exactly when it is anchored at the root of the repository and names no file, or names a line outside the first file it can mean |
| `LedgerAnchors.CheckCitations` | scripts/security/check-ledger-anchors.py:259-286 | the loop gives exactly the broken citations and the loose ones, in order |
| `LedgerAnchors.CheckAnchors` | scripts/security/check-ledger-anchors.py:365-600 | one pass succeeds exactly when no alert has two rows and no source is missing; an alert is reported as not resolvable, to audit, to warn about or moved exactly when one of its entries is; every entry gets its derived line and nothing else, unless nothing is to be rewritten; the exit code is 5, 6, 7 or 0 by what was found |
| `LedgerSettling.LineIsDerived` | scripts/security/check-ledger-anchors.py:484-491 | the recorded line plays no part in the verdict on an entry |
| `LedgerSettling.LineStays` | scripts/security/check-ledger-anchors.py:525-534 | for any ledger, however many entries rewrite a line, it keeps its alert and its rule or stops being a row |
| `LedgerSettling.StaysReadable` | scripts/security/check-ledger-anchors.py:365-600 | for any ledger, the next pass can read what a pass wrote |
| `LedgerSettling.AllSettleIff` | scripts/security/check-ledger-anchors.py:380-534 | for any ledger, every entry has the same to say and nothing to move on a second pass if and only if every mirrored entry's row, rewritten once for each entry of its alert, reads as the place that entry derives |
| `LedgerSettling.SecondPassMovesNothing` | scripts/security/check-ledger-anchors.py:380-534 | then the second pass writes the same ledgers back and repeats the findings of the first without its moves |
| `LedgerSettling.OwnRowAfter` | scripts/security/check-ledger-anchors.py:525-534 | with one entry for each alert, a row is rewritten at most once, so no entry disturbs another |
| `LedgerSettling.AlertsStay` | scripts/security/check-ledger-anchors.py:525-534 | with one entry for each alert, a pass leaves the same alerts on the same lines |
| `LedgerSettling.LandsIffUnticked` | scripts/security/check-ledger-anchors.py:314-323 | with one entry for each alert, an entry reads back unless it is moved and its path opens with a backtick |
| `LedgerSettling.SecondPassIff` | scripts/security/check-ledger-anchors.py:380-534 | with one entry for each alert, the second pass repeats the first without its moves if and only if no entry moved in the markdown ledger has a path that opens with a backtick |
| `LedgerSettling.SharersCannotBothSettle` | scripts/security/check-ledger-anchors.py:380-534 | of two resolved entries mirrored by one row on different lines, one does not settle |
| `LedgerSettling.AgreeingSharersLand` | scripts/security/check-ledger-anchors.py:525-534 | entries that share an alert and agree on the line all read back when the new cell is as wide as the old one |
| `LedgerSettling.SharersNeverSettle` | scripts/security/check-ledger-anchors.py:380-534 | when two entries share an alert and the row stands at the line of one of them, every pass, however many came before, writes the markdown ledger anew |
| `LedgerSettling.QuarrelOfExample` | scripts/security/check-ledger-anchors.py:380-534 | a ledger of two entries and one row, anchored as the row pattern asks, that meets these conditions |
| `LedgerSettling.StaleSpanSwallowsTheRow` | scripts/security/check-ledger-anchors.py:525-534 | two entries that agree in everything and a row of the ledger's own form: the second write uses the span read before the first and leaves a line that is no row any more |
| `Changelog.UnreleasedBounds` | scripts/changelog/assemble.py:97-111 | the two scans find the first unreleased header and the first release header behind it, and fail exactly without the former |
| `Changelog.EndOfSection` | scripts/changelog/assemble.py:114-131 | the three scans find the line behind the last content of a section |
| `Changelog.Insert` | scripts/changelog/assemble.py:134-156 | splicing one section after the other, each time searching the lines as they then are, equals reading every place off the original changelog and inserting all sections at once |
| `Changelog.JoiningMovesOthers` | scripts/changelog/assemble.py:144-148 | fragments joining one section leave the end of every other section behind the same line |
| `Changelog.OpeningMovesNone` | scripts/changelog/assemble.py:149-154 | a new section at the end of the block moves no other section, although its header now bounds the last one |
| `Changelog.SectionWithinBlock` | scripts/changelog/assemble.py:114-131 | a section that runs to the end of the block ends where the block does, the others before |
| `Changelog.FragmentsAreInert` | scripts/changelog/assemble.py:75-83 | no scan ever stops at a fragment that passed the check |
| `Changelog.TitlesAreDistinct` | scripts/changelog/assemble.py:24-33 | no two sections share a title, so none joins the section another opened |
| `Changelog.TitlesAreCapitalised` | scripts/changelog/assemble.py:24-33 | the title of a section is its name with a capital |
| `ChangelogPlacement.LinesAreKept` | scripts/changelog/assemble.py:134-156 | every original line is still there, in the original order |
| `ChangelogPlacement.Conserved` | scripts/changelog/assemble.py:134-156 | nothing is lost, and nothing is added but each fragment once and a header and blank line for each new section |
| `ChangelogPlacement.OutsideUntouched` | scripts/changelog/assemble.py:97-111 | the lines up to the unreleased header and from the next release on are unchanged |
| `ChangelogPlacement.TextOutsideUntouched` | scripts/changelog/assemble.py:134-156 | so is the text, character for character |
| `WrittenLines.LinesOfJoined` | scripts/changelog/assemble.py:136-156 | the lines of the written text are the lines of each element of the list, in order, though a fragment is one element and may have many lines |
| `WrittenLines.LinesAreOneLiners` | scripts/changelog/assemble.py:136 | reading a text leaves no line break inside a line |
| `ChangelogPlacement.NoSpotInside` | scripts/changelog/assemble.py:114-131 | no section ends between the header of another and that section's end, so nothing is inserted there |
| `ChangelogPlacement.JoinersStandTogether` | scripts/changelog/assemble.py:146-148 | in the written text a row of a fragment that joins a section stands behind the section's header, its old content, what joined before it, and the rows before it |
| `ChangelogPlacement.OpenersStandTogether` | scripts/changelog/assemble.py:149-154 | in the written text a row of a fragment that opens a section stands behind the new header and the rows before it |
| `ChangelogPlacement.UnderItsHeaderIff` | scripts/changelog/assemble.py:114-156 | every row of every fragment is written, and stands under its own header in the written text if and only if those lines in between end under no other heading, whether an indented header of a section or a release in the old content or a heading inside an earlier fragment |
| `ChangelogPlacement.FlushHeadingsSuffice` | scripts/changelog/assemble.py:124-128 | headings that all start their line as section headers and fragments without heading rows are enough |
| `ChangelogPlacement.UnseenHeadingTakesFragments` | scripts/changelog/assemble.py:124-128 | every line that reads as a heading without being found as one takes the fragments of the section above it |
| `ChangelogPlacement.IndentedHeaderTakesFragments` | scripts/changelog/assemble.py:124-128 | two changelogs for this: an indented section header and an indented release header |
| `ChangelogPlacement.InnerHeadingTakesFragments` | scripts/changelog/assemble.py:75-83 | two fragments that pass the check, the first with a heading inside: the second stands under that heading |
| `ChangelogPlacement.CheckedPlansAreValid` | scripts/changelog/assemble.py:58-83 | what the check lets through meets the hypotheses of these laws |
| `ChangelogPlacement.LinesJoinBack` | scripts/changelog/assemble.py:136 | splitting a text into lines and joining them gives the text |
| `ChangelogPlacement.PreviewIsWhatIsWritten` | scripts/changelog/assemble.py:86-94 | on a block without content the inserted text is a line break and what the dry run shows, right behind the header |
| `MemoryNoise.Normalize` | crates/garraia-agents/src/memory_noise.rs:223-243 | the one-pass scan gives the words of the folded text separated by single blanks |
| `MemoryNoise.NormalIsIdempotent` | crates/garraia-agents/src/memory_noise.rs:223-243 | normalising twice is normalising once, when the character fold is idempotent and the tables agree on blanks |
| `MemoryNoise.NormalIsTidy` | crates/garraia-agents/src/memory_noise.rs:223-243 | the normal form has no separator in front, behind or doubled |
| `MemoryNoise.WordsOfSpaced` | crates/garraia-agents/src/memory_noise.rs:223-243 | the words of a normal form are the words it was made of |
| `MemoryNoise.NormalOfLetters` | crates/garraia-agents/src/memory_noise.rs:223-243 | a text of letters and digits is normalised to its folded self |
| `MemoryNoise.NormalAcrossGap` | crates/garraia-agents/src/memory_noise.rs:223-243 | any other character parts a text into two that are normalised for themselves, with one blank between them if neither vanishes |
| `MemoryNoise.BytesDecideRepetition` | crates/garraia-agents/src/memory_noise.rs:274-295 | over UTF-8 (section 3 of RFC 3629) the bytes of a text repeat the bytes of an ASCII syllable exactly when the characters do |
| `MemoryNoise.AllChunksAre` | crates/garraia-agents/src/memory_noise.rs:274-295 | the chunk comparison holds exactly when the bytes are the syllable repeated at least twice |
| `MemoryNoise.WithoutSpacesIs` | crates/garraia-agents/src/memory_noise.rs:265 | the text tested for laughter is the normal form without its blanks, every other character kept in order |
| `MemoryNoise.OnlyLaughter` | crates/garraia-agents/src/memory_noise.rs:257-299 | the byte-level test is true exactly for three or more characters that are all k or one of the syllables repeated |
| `MemoryNoise.NoisePolicy.constructor` | crates/garraia-agents/src/memory_noise.rs:156-175 | under `Sound` every stored phrase is its own normal form and not empty; a content is a stored phrase exactly when its normal form is not empty and equals that of a default or extra phrase; and such a content is noise when the policy is enabled |
| `MemoryNoise.NoisePolicy.IsNoise` | crates/garraia-agents/src/memory_noise.rs:195-214 | a content is noise exactly when the policy is enabled and its normal form is empty, short, a known phrase or laughter |
| `MemoryNoise.NoisePolicy.NoiseIs` | crates/garraia-agents/src/memory_noise.rs:195-299 | nothing is noise when disabled; when enabled exactly what is empty, short or a known phrase in normal form, or three or more k, or one of five syllables twice or more |
| `MemoryNoise.NoisePolicy.NoisyIsStable` | crates/garraia-agents/src/memory_noise.rs:195-214 | the verdict on a content is the verdict on its normal form |
| `MemoryStore.Store.PendingAfter` | crates/garraia-db/src/memory_store.rs:665-705 | a page is the first rows without a vector past the cursor, in key order |
| `MemoryStore.Store.SetVector` | crates/garraia-db/src/memory_store.rs:713-779 | column and index are written together on exactly the named row, or not at all when it is gone; when the index refuses, the column is empty again and the row back in the queue, unless clearing it fails too; a write never hides a row from search otherwise |
| `MemoryStore.Store.RepairIndex` | crates/garraia-db/src/memory_store.rs:827-903 | a repair without limit leaves no unexpired row with a vector unknown to the index, whatever the worker deletes meanwhile; alone on the store it puts exactly the vectors of the first missing rows in key order into the index, as many as the limit, and one when the limit is zero |
| `MemoryStore.Store.Interleave` | crates/garraia-agents/src/memory_reindex.rs:189-193 | between two steps a worker may delete any rows, with or without their index entries, and let any expire, and nothing else |
| `MemoryStore.AscendingUnique` | crates/garraia-db/src/memory_store.rs:665-705 | only one ascending sequence lists a given set of keys |
| `MemoryStore.AscendingCut` | crates/garraia-db/src/memory_store.rs:665-705 | a cursor cuts the key order into the rows seen and the rows ahead |
| `MemoryReindex.Reindex` | crates/garraia-agents/src/memory_reindex.rs:144-289 | whatever the worker deletes, the provider answers and the store refuses: the run ends; looks at no row twice nor past the cap; writes only on rows that were pending and are not noise, each the vector of its own content; accounts for every row it looked at, counting as reindexed the rows it found when it wrote, which hold their vectors as long as they are there, and as vanished those it did not find, which are gone; hides no row from search unless a refused write cannot be undone; and uncapped and unstopped leaves no surviving pending row without its vector save noise. Alone on the store it does exactly the first rows of the queue, the index gains exactly the repaired vectors and those given, and the report is determined |
| `MemoryReindex.RunPages` | crates/garraia-agents/src/memory_reindex.rs:197-289 | the loop over the pages keeps all that |
| `MemoryReindex.ProcessPage` | crates/garraia-agents/src/memory_reindex.rs:216-271 | one page keeps all that, and a failed page leaves the exact store of the pages before |
| `MemoryReindex.EmbedAndStore` | crates/garraia-agents/src/memory_reindex.rs:234-271 | a failed call or a wrong number of vectors writes nothing |
| `MemoryReindex.StoreBatch` | crates/garraia-agents/src/memory_reindex.rs:265-271 | every row of the batch is attempted once, in order, with its own vector; the rows found at that moment are counted as reindexed and those that had disappeared as vanished, and the latter are not in the store |
| `MemoryReindex.PageKeepsSound` | crates/garraia-agents/src/memory_reindex.rs:209-220 | fetching a page moves the cursor strictly forward and leaves only the page's own rows open |
| `MemoryReindex.PageCovers` | crates/garraia-agents/src/memory_reindex.rs:216-220 | up to the end of a page every surviving pending row is in the page or has its vector |
| `MemoryReindex.QueueAdvances` | crates/garraia-agents/src/memory_reindex.rs:189-220 | after the first n rows are done the queue past them is what is left of it |
| `MemoryReindex.BatchKeepsExact` | crates/garraia-agents/src/memory_reindex.rs:222-271 | storing a page takes the exact store of n rows to that of the page's end |
| `MemoryReindex.ResumingCompletes` | crates/garraia-agents/src/memory_reindex.rs:137-143 | stopping after any number of rows and running again ends in the store of one uninterrupted run |
| `MemoryReindex.SecondRunCounts` | crates/garraia-agents/src/memory_reindex.rs:137-143 | the second run stores what the first did not reach, and skips all the noise there was |
| `MemoryReindex.StoppingLosesNothing` | crates/garraia-agents/src/memory_reindex.rs:137-143 | a run that stopped and a run to the end leave the store of one uninterrupted run, and together store as many rows |
| `MemoryReindex.BatchSizeIsInvisible` | crates/garraia-agents/src/memory_reindex.rs:183-205 | two runs to the end, alone on equal stores, agree on the rows, on the index and on the whole report, whatever their batch sizes |
| `MemoryReindex.PreviewPredictsTheRun` | crates/garraia-agents/src/memory_reindex.rs:77-135 | the dry run counts what a run over the same store stores and skips |
| `MemoryReindex.Preview` | crates/garraia-agents/src/memory_reindex.rs:84-135 | the dry run counts exactly the rows a run over the same store would index and would skip, and changes nothing |
| `Embeddings.JoinAll` | crates/garraia-agents/src/embeddings.rs:124-134 | for every completion order the joined requests give the vectors in text order, or the error of one of them |
| `Embeddings.EmbedDocuments` | crates/garraia-agents/src/embeddings.rs:124-134 | a batch succeeds exactly when every request does, and then holds each text's vector at its index |
| `Embeddings.AttemptPairs` | crates/garraia-agents/src/embeddings.rs:124-134 | for every fair schedule a successful attempt holds the answer to each text at its index |
| `Embeddings.EmbedResilient` | crates/garraia-agents/src/embeddings.rs:484-542 | a batch takes at most retries + 1 attempts, one when the first error is permanent; all attempts but the last failed transiently; a success holds each text's own vector in order with the declared dimension, and a wrong dimension is not retried |
| `Embeddings.SettledPairs` | crates/garraia-agents/src/embeddings.rs:484-542 | whatever was retried, a settled batch holds each text's own vector at its index, all of the declared dimension |
| `Embeddings.Validate` | crates/garraia-agents/src/embeddings.rs:461-482 | accepts exactly the batches whose vectors all have the declared dimension |
| `Embeddings.BodyMattersOnlyByPhrase` | crates/garraia-agents/src/embeddings.rs:560-597 | text behind the first body mark cannot forge a status; only the two permanent-failure phrases in it can change the verdict |
| `Embeddings.StatusReadsBack` | crates/garraia-agents/src/embeddings.rs:560-575 | the first status of a message reads back when it fits sixteen bits, and is none when it does not |
| `Embeddings.RepeatedStatuses` | crates/garraia-agents/src/embeddings.rs:577-597 | without a permanent phrase a failure is repeated on 429, on every 5xx and when there is no status, and otherwise not |
| `Embeddings.PhraseInBodyStopsRetries` | crates/garraia-agents/src/embeddings.rs:151-160 | such a body exists: two messages as the code writes them for one unavailable server, of which one is retried and the other is not |
| `ResilientReindex.ProviderPairs` | crates/garraia-agents/src/embeddings.rs:124-134 | for every fair schedule and retry count, the resilient provider over an honest server gives the reindexer each text's own vector |
| `ResilientReindex.Answer` | crates/garraia-agents/src/embeddings.rs:530-542 | the call computes exactly what the reindexer is told |
| `ResilientReindex.Reindex` | crates/garraia-agents/src/memory_reindex.rs:144-289 | reindexer, resilient provider and worker together: only the server is taken at its word; every vector written is that of the row's own content, and an uncapped run to the end leaves each surviving pending row with its own, save noise |
| `Coordinator.RunKeeps` | crates/garraia-agents/src/multi_agent.rs:326-493 | the invariant of every run of the coordinator and its agents, whatever the interleaving |
| `Coordinator.NeverTooMany` | crates/garraia-agents/src/multi_agent.rs:452-477 | never more than the configured number of agents are in flight, in any state of any run |
| `Coordinator.ChunksAreBarriers` | crates/garraia-agents/src/multi_agent.rs:464-477 | an agent begins only after every agent of the chunks before has terminated and been joined |
| `Coordinator.RunsAreBounded` | crates/garraia-agents/src/multi_agent.rs:451-493 | no run is longer than seven actions for each agent |
| `Coordinator.NeverStuck` | crates/garraia-agents/src/multi_agent.rs:451-493 | no run gets stuck before all results are in, whatever the providers answer |
| `Coordinator.CompleteRuns` | crates/garraia-agents/src/multi_agent.rs:326-441 | when all agents are joined the results are in task order, each explained by its provider's answer, or by a cancellation exactly when the agent was cancelled before its check; each run has one start in the ledger followed by exactly one finish, or none if it panicked |
| `Coordinator.LateCancelsAreInvisible` | crates/garraia-agents/src/multi_agent.rs:326-441 | a result depends on the provider's answer and on whether the agent was cancelled before its check, alone, and says so: a later cancellation changes nothing |
| `Coordinator.InterleavingIsInvisible` | crates/garraia-agents/src/multi_agent.rs:452-493 | without cancellations the results depend on the answers alone: every interleaving gives the same ones |
| `Coordinator.CancelledIff` | crates/garraia-agents/src/multi_agent.rs:415-427 | the ledger calls a run cancelled exactly when it was cancelled before it asked, or when the provider's refusal itself contains the word |
| `Coordinator.RefusalRecordedAsCancelled` | crates/garraia-agents/src/multi_agent.rs:415-427 | a provider that refuses with "Cancelled by peer" leaves a run recorded as cancelled |
| `Coordinator.JoinNext` | crates/garraia-agents/src/multi_agent.rs:85-100 | waiting for one agent ends under every scheduler and appends its result |
| `Coordinator.ParallelExecute` | crates/garraia-agents/src/multi_agent.rs:451-493 | the chunked loop returns a result for every task in order, case by case: the reply's text and success, or no text, no success and the error with its reason; the ledger has the start of each run and one finish with the same status, text and error, or none after a panic; a chunk size of zero fails |
| `Pipeline.PipelineExecute` | crates/garraia-agents/src/multi_agent.rs:495-601 | every step that ran is reported and audited case by case as its provider answered its task with the previous output as context; a success is the result of the last task, a failure names the step and keeps its error, and nothing runs behind a failure |
| `Pipeline.ChainIsUnique` | crates/garraia-agents/src/multi_agent.rs:495-601 | there is one complete chain, so result and ledger are determined |
| `Pipeline.SucceedsIff` | crates/garraia-agents/src/multi_agent.rs:536-560 | a pipeline succeeds exactly when every task ran and every provider replied |
| `Pipeline.ContextIsPreviousOutput` | crates/garraia-agents/src/multi_agent.rs:519-527 | two steps are asked the same exactly when their predecessors put out the same, and asked without context exactly when the predecessor put nothing out, whatever steps further back did |

## Left out

- HTTP clients, JSON and provider payload decoding, redirects, timeouts as durations and backoff delays: outcomes of a request are inputs.
- EventStream.EventReader.Next: chunks are texts, so a multi-byte character cut by a chunk boundary (which the code decodes lossily before joining) is outside the model.
- LineStream.LineReader.Next: lines are bytes; their lossy decoding to text comes after the framing and is not modelled.
- LineStream.Pull: what a status line says and when a line is blank are parameters; progress callbacks are not modelled.
- Budget.ExecutionBudget.RegisterSignature: the hash of a payload is a number given with the signature, so two payloads with one hash are one signature, as in the code.
- Budget.Drive: parallel calls refused for lack of budget and the final answer without tools are not modelled beyond the end of the loop.
- Texts of verdicts, errors, reports, log lines and redaction of secrets.
- MemoryReindex.Reindex: concurrent inserts are not modelled; the code gives no bound on the run if rows are inserted forever ahead of the cursor.
- MemoryStore.Store.SetVector: the model name and the creation of index tables are not modelled; a failed write of the column leaves it as it was.
- MemoryStore.Store.RepairIndex: rows created in the same second are taken in identifier order, where the code leaves their order open.
- MemoryNoise.NormalIsIdempotent: the Unicode tables (case folding, accents, letters, blanks) are functions with the hypotheses of `Sound`.
- Embeddings.EmbedResilient: lower-casing of the error message before it is classified is left to the caller; vectors are sequences of reals.
- Latency.QuantileBrackets: the quantile and its product with the count are exact reals, so floating-point rounding of q·n is not modelled.
- Reliability.Registry.SnapshotTotal: rates, ages, rounding and the rows of tool servers are not modelled; the counters, histograms and the choice of row are.
- Png.RoundTrip: checksum and compression are functions, with inflation a left inverse of compression; the reader accepts only what this writer can write (eight-bit RGBA, filter zero).
- Bresenham.Line: the disc stamped at each centre and all other drawing are not modelled.
- LedgerRekey.RewriteMd: a text that already holds the placeholder character is outside the theorem.
- RekeyPlan.PlanRekey: the report of orphan alerts is not modelled.
- LedgerAnchors.CheckAnchors: files are lists of lines; which citations a text contains and which paths a loose one may mean are inputs, the date comparison is an input, and shape errors of the JSON document are not modelled; findings name the alert, not the wording of the message.
- A closed form of what several writes leave of a ledger row when the cell changes its width; the condition of `AllSettleIff` reads that row instead.
- LedgerAnchors.AlertOf: the digits of an alert number are the ASCII ones.
- Changelog.Insert: reading and deleting fragment files and the report of misplaced ones are not modelled.
- ChangelogPlacement.UnderItsHeaderIff: a heading is a line that opens, indentation aside, with one to three hash marks and a blank; headings in code blocks and underlined headings are not told apart.
- Coordinator.ParallelExecute: run identifiers are the positions of the tasks, durations and progress messages are not modelled, and a panic happens only while the provider is asked.
- Pipeline.PipelineExecute: the provider is a function of the step and the task it is asked.
- Capability tables, personas, context policies, provider wire conversions, quality ratchets and release scripts: one-branch decisions and tables that would add only easy members.

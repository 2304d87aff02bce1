# Verified models of the streaming analytics stack

Dafny models of the parts of the repository whose correctness is hard to see by reading, with proofs of what
they promise. The project is written for Dafny 4.11; `dafny verify dfyconfig.toml` takes all of its files together.

## What is modelled

- **Sweep claims** (`SweepClaim`, `SweepWitnesses`): the lock-free claim protocol over an append-only table, as timed
  steps of any number of claimants, a publisher and a clock. Time is in nanoseconds; stamps are stored in milliseconds
  and compared with a database clock of whole seconds, so the 30 s window is in fact 30 to 31 s long.
  `SweepWitnesses` holds the runs that show the limits of the protocol.
- **Write-behind ring and its readers** (`RingStates`, `WritePath`, `ReadPath`, `EmittedSet`, `FanOut`, `Ring`,
  `BatchInserter`, `StreamReader`, `Forwarding`, `BucketFanOut`, `Streaming`): rows move pending, inserting, confirmed
  while an evictor runs and a reader subscribes, queries, overlays the ring and tails. `WritePath`, `ReadPath` and
  `FanOut` are the interleavings of atomic steps; `Ring`, `BatchInserter` and `StreamReader` are the objects.
  `Forwarding`, `BucketFanOut` and `Streaming` prove that every operation of the ring, the inserters, a bucket and a
  reader's loops is one step of `WritePath`, `FanOut` and `ReadPath`, so what holds of every run of steps holds of the
  objects.
- **Quality labels** (`Labels`, `TimeWindows`, `EdgeTrigger`, `QoeConditions`, `QoeStep`, `QoeLabels`, `QoeLaws`,
  `QoeHistory`, `QoeGrading`, `QoeGrades`, `QoeFamilies`, `QoeWindows`, `QoeLifecycle`, `QoeFirstFrame`): the per-play
  label state updated row by row, and what each label means as a predicate of the rows seen so far.
- **Parsers** (`ByteStrings`, `SseFraming`, `SseFields`, `Fmp4`, `Fmp4Keyframes`, `HlsPlaylist`, `PlaylistReader`): the
  event-stream reader against its writer, the fMP4 box scan on a file cursor, and the low-latency playlist built from
  it, against a reader of playlists.
- **Chat** (`ChatHistory`, `ChatTrim`, `ChatContent`, `ChatTurns`, `ToolCalls`, `ToolStream`): sanitise, trim, translate; what
  the turns sent carry, when they alternate and when every call is answered; and the assembly of streamed tool calls.
- **Counters and ranks** (`Residency`, `PayloadDeltas`, `Spearman`): conservation of saturating 32-bit deltas, and
  tie-averaged ranks with the bound on the correlation.

## How the quality-label proof is laid out

`QoeStep` is the effect of one row as a function; `QoeLabels` is the object that does it in place and is proved
against it. `QoeLaws` draws from that function the few laws the history needs, and `QoeHistory` and `QoeGrading` are
proved from the laws alone for any step function that obeys them, then applied to the labeller. Their theorems take
that function as a parameter `step` with the hypothesis `IsLabeller(cfg, step)`, which says that it is `QoeStep.Step`
at the thresholds `cfg`; `LabellerExists` shows that the hypothesis can be met, and `ComputeEventLabels` that the
object computes exactly it.

## Assumptions

- Claims: one clock; a claim is visible to queries within the 250 ms settle of its stamp; select to promote takes at
  most `DEADLINE`, which is 30 s less the settle, less one millisecond, plus one nanosecond, and exact. A promotion is
  versioned with its claim's stamp, so a publish in between can hide it (`PromotionTakesEffect`). `Contend` and
  `HandleSweepClaim` follow the code whether or not a pass is timely; the theorems about runs assume that they are.
- Ring: every operation is one atomic step; in particular fetching a bucket and locking it are not separated by an
  eviction that deletes the bucket. The clock does not go back, and a row's ring time is the time of its Add. An
  acknowledged INSERT is visible to the next query; a rejected one may or may not have landed.
- Reader: one reader, with one query and one overlay for each enabled stream that passes through the ring. Play ids are
  compared without regard to case, so both sides are held in lower case. Coverage is up to fingerprint: two sample rows
  with the same `ts` count as one, as in the source.
- Labels: one lifetime of a play's state. Go's zero time is 0 and other times are nanoseconds after it; bitrates, ratios
  and offsets are reals; the rung ladder arrives parsed and ascending. Sums of 32- and 64-bit counters wrap.
- Chat: lengths count characters; the stub text is any function of the tool's name and the length.

## Where code and comments differ

- The claim handler's comment promises to move an experiment to running for one owner. `handleSweepPublish` stamps a
  republished backlog row with its own time (`sweep_experiments.go:100-166`), and a promotion carries the stamp of its
  claim (`sweep_experiments.go:375-382`): a backlog row published between the two hides the promotion, the experiment
  stays in the backlog, and a second owner can promote it (`SweepWitnesses.RepublishAdmitsTwoOwners`). For two owners
  nothing else can do it (`SweepClaim.TwoWinnersNeedARepublish`).
- The translator's comment promises alternating roles (`llm_client_anthropic.go:279-282`). A question asked right after
  tool results makes two user turns in a row (`ChatTurns.UserAfterResults`); `ChatTurns.AlternatesWhenOrderly` says
  exactly when roles alternate.
- The residency cache's comment says a play is evicted when it drops out of the payloads (`residency_cache.go`). A play
  whose sessions carry no raw `play_id` is pruned by the very payloads it is in, and counted again
  (`Residency.UnlistedPlayIsCountedTwice`; the exact condition is `Residency.DeltasSumExactly`).
- The ring's comment says a rejected batch is retried by its caller; the inserters drop it. The model follows the code
  (`WritePath.RejectedStaysInRing`).
- The stream reader's comment says that the overlay scans the full ring; it scans the window only, and rows that were
  never acknowledged outlive the window (`ReadPath.StickyRowIsMissed`).
- `next` in the event-stream reader returns an error before it looks at bytes read together with it
  (`SseFraming.LossAtTheEnd`).

## Model

| member | source | states |
|---|---|---|
| SweepClaim.OneWinnerPerStay | analytics/go-forwarder/sweep_experiments.go:263-301 | Mutual exclusion: under any interleaving of claimants, publisher and clock, with claims visible within the settle and select-to-promote at most DEADLINE, two passes that promote one experiment have the same owner if the experiment was in the backlog in every state between their selections and no row of it with a version later than the first pass's stamp was inserted before the first promotion |
| SweepClaim.TwoWinnersNeedARepublish | analytics/go-forwarder/sweep_experiments.go:291-296 | Two owners promote an experiment in one stay in the backlog only if a row of it versioned later than the first one's stamp was inserted before the first promotion |
| SweepClaim.OneWinnerPerRow | analytics/go-forwarder/sweep_experiments.go:263-301 | Whatever was published meanwhile, two promoted passes that selected the same inserted backlog row have the same owner |
| SweepClaim.StayIsByRows | analytics/go-forwarder/sweep_experiments.go:307-325 | A stay, defined by the FINAL status in every state between two selections, is a stay of every prefix of the table between them |
| SweepClaim.WinnersDoNotOverlap | analytics/go-forwarder/sweep_experiments.go:268-301 | Two promoted passes on one experiment by different owners do not overlap: one promoted before the other selected |
| SweepClaim.EarlierWinnerIsDone | analytics/go-forwarder/sweep_experiments.go:276-296 | The pass whose winning claim orders first was promoted before the other pass selected |
| SweepClaim.PromotionEndsStay | analytics/go-forwarder/sweep_experiments.go:375-382 | A promotion takes its experiment out of the backlog exactly when it was out already or the FINAL backlog row is not newer than the claim's stamp; in particular always when no row newer than the stamp was inserted |
| SweepClaim.RunKeepsInv | analytics/go-forwarder/sweep_experiments.go:242-303 | Every timely run keeps the invariant that ties each pass to what it saw at selection, arbitration and promotion |
| SweepWitnesses.DeadlineIsTight | analytics/go-forwarder/sweep_experiments.go:263-301 | DEADLINE is exact: one nanosecond more and a run exists in which two owners promote during one stay |
| SweepWitnesses.SameOwnerCanWinTwice | analytics/go-forwarder/sweep_experiments.go:288-301 | Arbitration returns an owner, not a claim: two requests of one owner can both promote in one stay, so distinct owners are needed |
| SweepWitnesses.RepublishAdmitsTwoOwners | analytics/go-forwarder/sweep_experiments.go:100-166 | A timely run in which a backlog row is published between the first claim and its promotion, and two owners promote although the experiment never left the backlog |
| SweepClaim.StaleClaimNeverDecides | analytics/go-forwarder/sweep_experiments.go:351-355 | A claim that was outside the window at selection never decides that selection's arbitration |
| SweepClaim.LoneClaimantWins | analytics/go-forwarder/sweep_experiments.go:276-302 | A pass with no preferred visible rival that reads while its own claim is in the window wins |
| SweepClaim.WindowBounds | analytics/go-forwarder/sweep_experiments.go:318-325 | With now() in whole seconds the window is open for at least 30 s after the stored stamp and closed 31 s after it |
| SweepClaim.ReapedIsClaimableAgain | analytics/go-forwarder/sweep_experiments.go:318-325 | A reaped experiment is selectable exactly when no claim of it is in the window, and in any case 31 s later |
| SweepClaim.PromotionTakesEffect | analytics/go-forwarder/sweep_experiments.go:375-382 | A promotion becomes the FINAL row exactly when no row of the experiment carries a version later than the claim's stamp |
| SweepClaim.Winner | analytics/go-forwarder/sweep_experiments.go:351-355 | argMin of owner by (stamp, token) over the visible claims of the window: a candidate that no candidate precedes, or none when there is none |
| SweepClaim.ClaimTables.SelectCandidate | analytics/go-forwarder/sweep_experiments.go:307-349 | Returns the first experiment in rank order whose newest row is a backlog row and which no visible claim of the last 30 s names, or none when there is no such experiment |
| SweepClaim.EligibleIsAvailable | analytics/go-forwarder/sweep_experiments.go:318-331 | The selection query's condition, said of the rows, the claims and the clock themselves |
| SweepClaim.ClaimTables.Pass | analytics/go-forwarder/sweep_experiments.go:263-301 | One pass: it starts on the experiment that is first in rank order among those available in the state it selects in, and keeps it to the end |
| SweepClaim.ClaimTables.Contend | analytics/go-forwarder/sweep_experiments.go:276-301 | One pass from its stamp through the settle to promotion or loss, as steps of a run among others' steps: it promotes exactly when the arbitration it read was won by a claim of its owner |
| SweepClaim.ClaimTables.HandleSweepClaim | analytics/go-forwarder/sweep_experiments.go:242-303 | The bounded retry loop: every pass, won or lost, is on the experiment that was first in rank order among those available in the state in which it selected; what is returned was won by a promoted pass of this owner, all its other passes lost, and nothing is returned only after six lost passes or when no listed experiment is available |
| WritePath.NoReadSideLoss | analytics/go-forwarder/ring.go:207-235 | In every reachable state a row given to Add is in its bucket or its INSERT was acknowledged; it waits in its batch exactly when it was neither acknowledged nor rejected |
| WritePath.ConfirmedNeverReverts | analytics/go-forwarder/ring.go:219-235 | Over any run a confirmed row stays confirmed |
| WritePath.RejectedStaysInRing | analytics/go-forwarder/main.go:1144-1162 | A rejected batch is not sent again, and its rows stay pending in the ring for good |
| WritePath.BatchesStayInStep | analytics/go-forwarder/main.go:1138-1195 | After any mix of acknowledged and rejected flushes entries[i] is the ring entry of buf[i] |
| WritePath.StepKeepsInv | analytics/go-forwarder/net_log.go:485-531 | Every arrival, flush step and eviction keeps: each row is waiting, acknowledged or rejected, confirmed exactly when acknowledged, and out of its bucket only when acknowledged and older than the window |
| WritePath.StepIsMonotone | analytics/go-forwarder/ring.go:219-235 | No step forgets a row, an acknowledgement or a rejection |
| WritePath.EvictionSweeps | analytics/go-forwarder/ring.go:312-330 | In any run, an eviction at `now` leaves in each bucket exactly the rows that are not confirmed or are at most the window old |
| WritePath.SurvivorsAre | analytics/go-forwarder/ring.go:318-330 | Which positions of a bucket an eviction leaves, by status and time |
| ReadPath.ReaderWritesTheCovered | analytics/go-forwarder/timeseries.go:125-190 | Under every interleaving of arrivals, flushes, evictions and one reader: once the channel is drained a fingerprint has been written if and only if a covered row carries it (in the window at its stream's ring scan, returned by its stream's query, or added after Subscribe for the requested play with room), and none twice between resets |
| ReadPath.NothingFallsBetween | analytics/go-forwarder/timeseries.go:429-464 | A row young enough at its stream's ring scan is written whether it was added before or after that scan, whatever its insert state, given room and the requested play if it came after |
| ReadPath.InWindowIsHeld | analytics/go-forwarder/ring.go:312-347 | A row inside the window at the time of a scan has not been evicted |
| ReadPath.StickyRowIsMissed | analytics/go-forwarder/timeseries.go:433-438 | A run in which an unacknowledged row older than the window is held by the ring but never written to a reader that connects then |
| ReadPath.MoveKeepsInv | analytics/go-forwarder/timeseries.go:125-190 | Every move keeps: covered rows are written or queued, and whatever was written has a covered row |
| ReadPath.ReceiveRespectsRequest | analytics/go-forwarder/timeseries.go:501-529 | A row of another play or of a stream that is not enabled is taken and dropped; the key of any other row is offered |
| ReadPath.TailFollowsBackfill | analytics/go-forwarder/timeseries.go:125-190 | The tail starts only when every enabled stream that passes through the ring was queried and overlaid |
| EmittedSet.OffersKeepOnce | analytics/go-forwarder/timeseries.go:319-336 | Any sequence of offers writes every offered key and none twice between resets |
| EmittedSet.NoResetBelowLimit | analytics/go-forwarder/timeseries.go:315-336 | No reset happens before more than 100000 different keys were offered |
| EmittedSet.SeenIsBounded | analytics/go-forwarder/timeseries.go:315-336 | The set never holds more than 100000 keys |
| EmittedSet.Emitted.Add | analytics/go-forwarder/timeseries.go:319-336 | Accepts a key that is empty or not in the set, and grows or resets the set accordingly |
| StreamReader.Tail.EmitBackfillFromRing | analytics/go-forwarder/timeseries.go:429-464 | Writes the entries of one kind in [now - window, now + 1 s], sorted by time, each through the emitted set |
| StreamReader.Tail.EmitAll | analytics/go-forwarder/timeseries.go:384-424 | Writes the rows of a query in order, each through the emitted set |
| StreamReader.Tail.StreamLiveDelta | analytics/go-forwarder/timeseries.go:495-534 | Takes one row from the channel; a row of another play, a sample row without the event stream or a network row without the network stream changes nothing; any other is written unless its key was written before |
| Streaming.Session.Receive | analytics/go-forwarder/timeseries.go:495-534 | A turn of the live loop is the Receive move of the read path |
| Streaming.Session.EmitQuery | analytics/go-forwarder/timeseries.go:384-424 | Writing the rows of a query is the ScanClickHouse move |
| Streaming.Session.EmitOverlay | analytics/go-forwarder/timeseries.go:429-464 | Writing the overlay of one kind is a ScanRing move, of exactly the rows in the window that the bucket holds |
| FanOut.FanOutIsExact | analytics/go-forwarder/ring.go:186-203 | Over any run of adds, registrations, cancellations and receives no send names a closed channel, and what a subscriber took plus what it has queued is, in order, exactly the adds after its registration that found room |
| FanOut.SwapOutRemoves | analytics/go-forwarder/ring.go:288-298 | Swap-and-truncate removes exactly the cancelled channel |
| Ring.RingBucket.Add | analytics/go-forwarder/ring.go:186-203 | Appends the entry and offers it once to every subscriber; a full channel misses it |
| Ring.RingBucket.Cancel | analytics/go-forwarder/ring.go:288-303 | Detaches the channel and closes it, so that no later Add names a closed channel |
| Ring.RingBucket.Range | analytics/go-forwarder/ring.go:248-264 | A permutation, sorted by time, of the entries in the closed range and of the wanted kinds |
| Ring.RingBucket.Evict | analytics/go-forwarder/ring.go:318-330 | Afterwards the bucket holds exactly the entries it held that are not both confirmed and older than the cutoff |
| Ring.LeftKeeps | analytics/go-forwarder/ring.go:320-330 | An eviction takes every confirmed entry older than the cutoff and leaves every other entry as often as it was there |
| Ring.LeftInOrder | analytics/go-forwarder/ring.go:318-330 | What an eviction leaves stands in the order it stood in |
| Ring.InRangeSelects | analytics/go-forwarder/ring.go:252-262 | The range scan selects exactly the entries of the wanted kinds in the closed range, as often as they are there |
| Ring.Cache.Add | analytics/go-forwarder/ring.go:175-205 | The new pending entry goes to its player's bucket and that bucket's subscribers, and to no other |
| Ring.Cache.EvictOlderThan | analytics/go-forwarder/ring.go:312-347 | Evicts in every bucket and drops exactly the buckets left empty, unwatched and idle |
| Ring.MarkInserting | analytics/go-forwarder/ring.go:210-216 | Pending entries become inserting; others are untouched |
| Ring.RevertInserting | analytics/go-forwarder/ring.go:229-235 | Inserting entries become pending; confirmed ones stay confirmed |
| BatchInserter.Inserter.Receive | analytics/go-forwarder/main.go:1177-1187 | Pins the row in the ring and appends row and entry in step |
| BatchInserter.Inserter.Flush | analytics/go-forwarder/main.go:1143-1163 | Sends the whole batch, leaves its entries confirmed or pending as the INSERT went, and starts both buffers afresh |
| Forwarding.Forwarder.Receive | analytics/go-forwarder/main.go:1169-1190 | The ring and the two inserters carry out the Arrive step: objects that stand for a store stand afterwards for the next one, and its invariant holds |
| Forwarding.Forwarder.Begin | analytics/go-forwarder/main.go:1153 | Marking a batch is the Begin step of the store |
| Forwarding.Forwarder.Settle | analytics/go-forwarder/main.go:1154-1161 | The end of an INSERT is the Ack or the Reject step of the store |
| Forwarding.Forwarder.Evict | analytics/go-forwarder/ring.go:312-347 | An eviction over all buckets, idle ones dropped, is the Evict step of the store |
| Forwarding.LeftIsSurvivors | analytics/go-forwarder/ring.go:318-330 | What an eviction leaves of a bucket's entries are the entries of the positions it leaves in the store |
| Forwarding.Forwarder.NothingIsLost | analytics/go-forwarder/ring.go:305-311 | Of the objects themselves: any entry ever added is in its player's bucket, or was confirmed and is older than the window |
| Forwarding.Forwarder.NothingOldIsLeft | analytics/go-forwarder/ring.go:305-330 | Of the objects themselves: right after an eviction the ring holds no confirmed entry older than the window |
| BucketFanOut.Feed.Add | analytics/go-forwarder/ring.go:186-203 | A bucket's Add is the Added event of the fan-out |
| BucketFanOut.Feed.Subscribe | analytics/go-forwarder/ring.go:271-283 | A subscription is an allowed Joined event for a new channel |
| BucketFanOut.Feed.Cancel | analytics/go-forwarder/ring.go:285-303 | A cancellation is the Cancelled event |
| BucketFanOut.Feed.Take | analytics/go-forwarder/timeseries.go:495-500 | A receive is the Took event, and hands out the entry that stands first in the queue |
| BucketFanOut.SwapOutTracks | analytics/go-forwarder/ring.go:288-298 | Swap-and-truncate on the channels is swap-and-truncate on their names |
| QoeHistory.EdgeTriggerRefinesHistory | analytics/go-forwarder/qoe_labels.go:196-229 | Over the rows of a play a level label is on a row if and only if it is true there, was not true on the row before, and was last true, if ever, at least the cooldown earlier; and it is there once |
| QoeHistory.LabellerExists | analytics/go-forwarder/labels.go:252-420 | The step function of the labeller itself meets the hypothesis that the history theorems share |
| EdgeTrigger.EmittedMeans | analytics/go-forwarder/qoe_labels.go:206-222 | The same for the edge state alone: active set and last-true times hold just enough of the history |
| EdgeTrigger.EdgeRemembersHistory | analytics/go-forwarder/qoe_labels.go:206-223 | The active set is what was true on the last row, and lastOn the time each label was last true |
| QoeHistory.ChipBound | analytics/go-forwarder/qoe_labels.go:196-222 | For rows in time order and a positive cooldown C a level label is on at most 1 + (t_last - t_first) / C rows |
| QoeHistory.NoFirstFrameOnce | analytics/go-forwarder/qoe_labels.go:110-124 | qoe_no_first_frame is on at most one row of a play, whatever the times and the cooldown |
| QoeHistory.StrayTerminalIsSilent | analytics/go-forwarder/qoe_labels.go:71-88 | A terminal row before any other row gets no label at all |
| QoeHistory.EvaluatedWhenOpen | analytics/go-forwarder/qoe_labels.go:71-92 | A row is evaluated if and only if it or an earlier row was not terminal; until then no quality state is kept |
| QoeHistory.WindowsAgreeWithHistory | analytics/go-forwarder/qoe_labels.go:145-169 | For rows in time order: burst and storm are true exactly when the whole history has more events inside the window than the threshold, and divergence compares with the peak of the history's settled samples inside the window |
| QoeHistory.StuckMeansDwelt | analytics/go-forwarder/qoe_labels.go:374-393 | The floor label is true on a row exactly when the first timed row of its current run at the floor is at least the configured dwell earlier |
| QoeFirstFrame.NoFirstFrameMeans | analytics/go-forwarder/qoe_labels.go:110-124 | qoe_no_first_frame is on exactly the first row of a play on which it has been open for thirty seconds without anything shown |
| QoeWindows.FrequencyMeans | analytics/go-forwarder/qoe_labels.go:145-169 | For rows in time order: a burst or a storm is true exactly when more rows than the threshold carry a stall start, or a downshift, within the configured seconds |
| QoeWindows.DivergenceMeans | analytics/go-forwarder/qoe_labels.go:433-456 | For rows in time order: divergence is true exactly when the row's own rate is below the greatest transfer rate of the settled rows in the window by more than the configured share |
| QoeWindows.FloorMeans | analytics/go-forwarder/qoe_labels.go:374-386 | The floor is the lowest of at least two rungs, give or take five hundredths |
| QoeLifecycle.StallsMean | analytics/go-forwarder/labels.go:373-389 | A row that ends a stall carries exactly the label of its length (as reported, or since the row that started it) and of whether the first frame came within the last ten seconds |
| QoeLifecycle.BufferingMeans | analytics/go-forwarder/labels.go:391-407 | The same for rebuffering, which a jump within the last three seconds excuses and which in the middle of play counts as a stall |
| QoeLifecycle.SignalsMean | analytics/go-forwarder/labels.go:292-371 | The label and severity of each signal that stands for itself |
| QoeLifecycle.RestartsMean | analytics/go-forwarder/labels.go:342-365 | A restart is a warning when the user asked for it, information when it is a reload, critical otherwise; rows without a signal have no lifecycle label |
| TimeWindows.KeptIsTheWindow | analytics/go-forwarder/labels.go:174-182 | For rows in time order the trail trimmed on every row is exactly the history inside the window |
| TimeWindows.SampledIsTheWindow | analytics/go-forwarder/labels.go:188-204 | The same for the samples, which are trimmed and recorded only on settled rows |
| TimeWindows.PeakIsTheMaximum | analytics/go-forwarder/labels.go:197-203 | The peak is the greatest sample, or 0 when none is positive |
| TimeWindows.TimeTrail.TrimBefore | analytics/go-forwarder/labels.go:174-182 | In place, despite overwriting its own array, leaves in order exactly the times at or after the cutoff |
| TimeWindows.SampleTrail.RecentPeak | analytics/go-forwarder/labels.go:188-204 | Drops the samples older than the window, records the new one and returns the greatest of those left, or 0 |
| QoeGrading.GradedOnce | analytics/go-forwarder/qoe_labels.go:231-286 | Outcome, exit and tier labels are on the first terminal row after a non-terminal row and on no other: its outcome, one exit grade and one tier grade |
| QoeGrading.ClosingFollowsHistory | analytics/go-forwarder/qoe_labels.go:239-267 | The exit grade is that of the worst condition true at the close or outcome; the tier grade that of the worst of all lifecycle labels and conditions of the play and the outcome |
| QoeGrading.ExitIsNoWorseThanTier | analytics/go-forwarder/qoe_labels.go:250-264 | The exit grade never ranks worse than the tier grade |
| QoeGrading.TierGradesTheWorst | analytics/go-forwarder/labels.go:408-417 | No lifecycle label or true condition of any row, nor the outcome, ranks above the severity the tier grades |
| QoeGrading.ClosesOnce | analytics/go-forwarder/qoe_labels.go:93-97 | A play has at most one closing row |
| QoeGrades.GradesMean | analytics/go-forwarder/qoe_labels.go:256-286 | On the closing row the play is graded unacceptable exactly when a lifecycle label or condition of some row, or how it ended, is critical or an error, acceptable exactly when none is and one is a warning, premium otherwise; and the same at exit over the closing row's conditions and how it ended |
| QoeGrades.OutcomesMean | analytics/go-forwarder/qoe_labels.go:242-254 | The closing row says how the play ended: abandoned before the start, failed before the first frame, or failed after it |
| QoeGrades.NoOtherGrades | analytics/go-forwarder/qoe_labels.go:93-97 | No other row carries an outcome or a grade |
| QoeLabels.PlayLabelState.ComputeEventLabels | analytics/go-forwarder/labels.go:252-420 | One row: the state updated in place and the labels returned are those of the step function the history theorems are about |
| QoeLabels.PlayLabelState.ComputeQoEEventLabels | analytics/go-forwarder/qoe_labels.go:67-271 | The quality part of a row, with its early return for a stray terminal row |
| QoeLabels.PlayLabelState.EdgeTrigger | analytics/go-forwarder/qoe_labels.go:206-224 | The loop over the current labels computes the rising edges and the next edge state, skipping repeats |
| QoeLabels.PlayLabelState.MinVariantStuckLabel | analytics/go-forwarder/qoe_labels.go:374-393 | Resets, starts or keeps the dwell mark and reports whether the dwell is long enough |
| QoeFamilies.ConditionsList | analytics/go-forwarder/qoe_labels.go:98-194 | No label is on a row's list of conditions twice, and a label is on it exactly when the conditions of its own kind have it |
| QoeFamilies.StartupIsGraded | analytics/go-forwarder/qoe_labels.go:101-108 | Start-up: from the breach threshold on the breach label and not the concern, between the thresholds the concern and not the breach, otherwise neither |
| QoeFamilies.RebufferingIsGraded | analytics/go-forwarder/qoe_labels.go:126-136 | The same for the rebuffer ratio, silent while the 32-bit sum of stalled and played time is 0 |
| QoeFamilies.InterruptionIsGraded | analytics/go-forwarder/qoe_labels.go:137-145 | The same for the mean interruption, silent without stalls |
| QoeFamilies.LiveOffsetIsGraded | analytics/go-forwarder/qoe_labels.go:545-562 | The same for the excess over the recommended live offset, once playback has started |
| QoeFamilies.FpsDipMeans | analytics/go-forwarder/qoe_labels.go:395-421 | The dropped share of all frames, once playback has started, over a sum that wraps at 64 bits |
| QoeFamilies.LiveOffsetTightMeans | analytics/go-forwarder/qoe_labels.go:562-567 | Closer to the live edge than asked by the configured margin, and not behind |
| QoeFamilies.HoldbackMeans | analytics/go-forwarder/qoe_labels.go:569-571 | Configured off the recommended offset, either way, by more than the margin |
| QoeFamilies.RateCapMeans | analytics/go-forwarder/qoe_labels.go:458-474 | More served than the cap allows, by the kernel's counter or else the transfer rate |
| QoeFamilies.CmcdDriftMeans | analytics/go-forwarder/qoe_labels.go:528-540 | The client's measurement is off the transfer rate, either way, by more than the configured share |
| QoeFamilies.UnderuseMeans | analytics/go-forwarder/qoe_labels.go:303-332 | On an ascending ladder: an underused link is the player's doing exactly when some clearly higher rung fits with headroom, and the ladder's otherwise |
| QoeFamilies.OvershootMeans | analytics/go-forwarder/qoe_labels.go:488-526 | On an ascending ladder: the rung nearest to the selected bitrate is at least the configured number of rungs below the highest the cap supports |
| QoeLaws.ConditionsAreLevels | analytics/go-forwarder/qoe_labels.go:98-194 | The history-dependent labels are among a row's conditions exactly when their flags hold, and every condition is a level label |
| QoeConditions.FittingRungExists | analytics/go-forwarder/qoe_labels.go:303-332 | On an ascending ladder the player is blamed exactly when some rung clearly above the chosen one fits the link |
| QoeConditions.CeilingIsHighest | analytics/go-forwarder/qoe_labels.go:502-514 | On an ascending ladder the ceiling is the highest rung the cap supports, or rung 0 |
| QoeConditions.NearestIndex | analytics/go-forwarder/qoe_labels.go:515-521 | The lowest of the rungs nearest to the selected bitrate |
| QoeConditions.DownshiftOvershootLabel | analytics/go-forwarder/qoe_labels.go:488-526 | Fires exactly when the nearest rung is at least the configured number of rungs below the ceiling |
| Labels.WorstSeverity | analytics/go-forwarder/labels.go:984-1009 | The severity that some label has and none exceeds, or none |
| Labels.WorstIsTheMaximum | analytics/go-forwarder/labels.go:984-1036 | Folding worseSeverity over the labels gives that maximum, and nothing else satisfies its description |
| SseFraming.SseReader.Next | analytics/go-forwarder/net_log.go:442-459 | Succeeds exactly when the unread error-free bytes hold a blank line, whatever their split into reads; then returns the payload of the leftmost frame and leaves exactly the rest unread |
| SseFraming.SseReader.ReadAll | analytics/go-forwarder/net_log.go:442-459 | Whatever the split into error-free reads, the payloads returned are those of the leftmost blank-line split of the stream |
| SseFraming.FramesAppend | analytics/go-forwarder/net_log.go:442-459 | Splitting at any point and carrying the remainder over gives the same frames as splitting the whole |
| SseFraming.IndexDoubleNewline | analytics/go-forwarder/net_log.go:461-468 | The index of the first blank line, or -1 when there is none |
| SseFraming.ParseSseData | analytics/go-forwarder/net_log.go:470-483 | What follows `data:` on the first data line, less one leading space, or none |
| SseFields.PayloadMeans | analytics/go-forwarder/net_log.go:470-483 | A frame without a line that starts with `data:` has no payload; otherwise the payload is what follows on the first such line, less one leading space |
| SseFields.LinesAreJoined | analytics/go-forwarder/net_log.go:470-483 | Splitting into lines loses nothing and leaves no newline in a line |
| SseFraming.LossAtTheEnd | analytics/go-forwarder/net_log.go:451-457 | Frames completed only by bytes that came together with an error are not returned: nothing is lost exactly when those bytes complete no frame |
| SseFraming.SseWriter.WriteEvent | analytics/go-forwarder/timeseries.go:866-878 | Appends one frame: event and id lines when not empty, then the data line and a blank line |
| SseFields.FrameLines | analytics/go-forwarder/timeseries.go:866-878 | The lines of a written frame: the event's name and its id, when not empty, then its data, each behind its own tag; two newlines end it |
| SseFraming.ReaderInvertsWriter | analytics/go-forwarder/timeseries.go:866-878 | Reading what was written for newline-free fields returns the payloads in order with nothing left over (section 9.2.6 of the WHATWG HTML Living Standard) |
| Fmp4.ReadBoxHeader | generate_abr/parse_fmp4_fragments.py:37-66 | Reads a 32- or 64-bit box header at the cursor, or none on a short read, and leaves the cursor behind it |
| Fmp4.ParseFragments | generate_abr/parse_fmp4_fragments.py:433-528 | On arbitrary bytes the scan ends and returns the fragments of the scan function, each marked as its boxes and sample flags say |
| Fmp4.HasKeyframe | generate_abr/parse_fmp4_fragments.py:196-430 | The answer is that of the first method that has one: the flags of the trun, those of the tfhd, the position; the cursor ends where it was |
| Fmp4Keyframes.WithTrun | generate_abr/parse_fmp4_fragments.py:226-415 | For a moof whose first track fragment has a track run: the run's answer, else the track fragment's, else the position |
| Fmp4Keyframes.WithoutTrun | generate_abr/parse_fmp4_fragments.py:372-415 | For one without a track run: the track fragment's answer, else the position |
| Fmp4Keyframes.WithoutTraf | generate_abr/parse_fmp4_fragments.py:248-255 | For a moof without a track fragment: only the first fragment starts with a keyframe |
| Fmp4.FragmentsAreOrderedPairs | generate_abr/parse_fmp4_fragments.py:458-528 | On arbitrary bytes the fragments are ordered and disjoint, each a moof with the mdat right behind it |
| Fmp4.ScanIsExact | generate_abr/parse_fmp4_fragments.py:458-528 | For any well-formed box list with 32- or 64-bit sizes (section 4.2 of ISO/IEC 14496-12) the fragments are exactly the moofs immediately followed by an mdat, with true offsets and lengths |
| Fmp4.PairsTileTheFile | generate_abr/parse_fmp4_fragments.py:482-516 | When only moof/mdat pairs follow the leading boxes the fragments tile the file from the first moof to its end |
| HlsPlaylist.GenerateMediaPlaylist | generate_abr/create_hls_manifests.py:132-213 | The playlist of the segments, init map included, with a target duration that no rounded segment duration exceeds (section 4.3.3.1 of RFC 8216) |
| PlaylistReader.ReadingInvertsWriting | generate_abr/create_hls_manifests.py:163-209 | Reading the body back gives every segment that has an address, in order: each part's offset, length and independence, the duration (4 s when unknown) and the address |
| PlaylistReader.PartsLastTheSame | generate_abr/create_hls_manifests.py:183-186 | Every part of a segment lasts the segment's duration divided by the number of parts |
| HlsPlaylist.PartsTileTheSegment | generate_abr/create_hls_manifests.py:176-196 | The emitted byte ranges are contiguous from the first moof to the end of the file the part durations sum to the segment's, and they fit the part target exactly when there are at least as many fragments as seconds (section 4.4.4.9 of draft-pantos-hls-rfc8216bis) |
| HlsPlaylist.SumOfParts | generate_abr/create_hls_manifests.py:183-186 | The part durations of a segment sum to its duration |
| HlsPlaylist.RangesOfParts | generate_abr/create_hls_manifests.py:177-192 | The byte ranges of the part lines are the fragments, in order |
| HlsPlaylist.MaxDuration | generate_abr/create_hls_manifests.py:139-141 | The longest segment duration, which some segment has and none exceeds |
| HlsPlaylist.TargetCovers | generate_abr/create_hls_manifests.py:139-141 | int(max) + 1 is at least every duration rounded to the nearest second |
| HlsPlaylist.TruncateMeans | generate_abr/create_hls_manifests.py:141 | int() cuts off the fraction, toward zero |
| Spearman.ComputeRanks | analytics/tools/compare_markov_hmm.py:53-66 | Each value gets the average of the positions its equals occupy in sorted order |
| Spearman.RankSum | analytics/tools/compare_markov_hmm.py:53-66 | The ranks of n values sum to n(n+1)/2, ties or not |
| Spearman.RanksFollowValues | analytics/tools/compare_markov_hmm.py:53-66 | Equal values share a rank and larger values rank strictly higher |
| Spearman.CauchySchwarz | analytics/tools/compare_markov_hmm.py:69-78 | The squared numerator never exceeds the product of the two sums of squares |
| Spearman.RhoIsBounded | analytics/tools/compare_markov_hmm.py:69-78 | Whatever roots the denominator takes, rho is within [-1, 1] |
| Spearman.MonotoneExtremes | analytics/tools/compare_markov_hmm.py:69-78 | Same order gives covariance equal to the variances, opposite order its negative |
| Spearman.UndefinedExactlyWhenConstant | analytics/tools/compare_markov_hmm.py:69-78 | rho is undefined exactly for fewer than two values or a constant side |
| Spearman.ComputeSpearman | analytics/tools/compare_markov_hmm.py:69-78 | The numerator over the roots of the two sums of squares, always within [-1, 1]; undefined exactly for fewer than two values or a constant side |
| Residency.DeltasBalance | analytics/go-forwarder/residency_cache.go:61-137 | Over any interleaving of plays and prunes a counter's deltas sum to what is held at the end, less what was held at the start, plus every decrease and every value a prune forgot |
| Residency.DeltasAreConserved | analytics/go-forwarder/residency_cache.go:103-137 | For a play not pruned in between, a counter's deltas sum to its last value plus the total of all its decreases |
| Residency.DeltasSumToLastValue | analytics/go-forwarder/residency_cache.go:93-137 | So they equal the last value if and only if the counter never fell |
| Residency.DeltasSumExactly | analytics/go-forwarder/main.go:670-760 | Over any sequence of payloads up to a play's last row the deltas of a new play sum to at least its last value, and to exactly that if and only if the counter never fell and every payload in between listed the play by its raw id or left the counter at 0 |
| Residency.UnlistedPlayIsCountedTwice | analytics/go-forwarder/main.go:686-688 | Two payloads of a session without a raw play id, both with a counter of 5: the deltas sum to 10 |
| Residency.UnlistedPlayIsRecounted | analytics/go-forwarder/main.go:686-688 | A play whose sessions carry no raw play_id is pruned each payload, so its next delta is its whole count again |
| Residency.ResidencyCache.Observe | analytics/go-forwarder/residency_cache.go:61-72 | Returns the prior counters, zero for a new play, and stores the current ones |
| Residency.ResidencyCache.Prune | analytics/go-forwarder/residency_cache.go:74-87 | Keeps exactly the active plays |
| Residency.ResidencyCache.HandlePayload | analytics/go-forwarder/main.go:670-760 | The rows of one payload and the cache after it are those of its observe and prune events |
| PayloadDeltas.PayloadMeans | analytics/go-forwarder/main.go:668-718 | One payload, said of its sessions alone: a row for each changed session with an id, its counters less those last seen of its play and never below zero; the cache keeps exactly the known plays that some session lists by its own raw id, with what was last seen |
| ChatHistory.SanitiseHistory | analytics/go-forwarder/llm_session_chat.go:848-872 | Returns the sanitised history, which is the filter of `ChatHistory.SanitisedIsFilter` |
| ChatHistory.SanitisedIsFilter | analytics/go-forwarder/llm_session_chat.go:848-872 | A message survives exactly when it is not an empty assistant message and, if a tool message, an earlier assistant message of the input lists its id; survivors keep their order |
| ChatHistory.SanitisedIsClean | analytics/go-forwarder/llm_session_chat.go:848-872 | After sanitising every tool message answers an earlier call and no assistant message is empty |
| ChatHistory.CleanIsUnchanged | analytics/go-forwarder/llm_session_chat.go:848-872 | A clean history passes unchanged |
| ChatHistory.SanitiseIsIdempotent | analytics/go-forwarder/llm_session_chat.go:848-872 | Sanitising twice is sanitising once |
| ChatHistory.FindTools | analytics/go-forwarder/llm_session_chat.go:806-813 | Lists the tool messages from the last to the first, by how many tool messages are behind each |
| ChatHistory.TrimOldToolResults | analytics/go-forwarder/llm_session_chat.go:805-836 | Replaces exactly the tool results that are both behind the last three and longer than the threshold by a stub with the same id and name |
| ChatTrim.TrimmedMeans | analytics/go-forwarder/llm_session_chat.go:805-836 | Exactly the tool results of more than 2000 characters that three more tool messages follow are replaced by a stub with the same role, name and id; everything else stays |
| ChatHistory.ShapeKeepsAnswered | analytics/go-forwarder/llm_session_chat.go:824-834 | Trimming keeps every tool result answered |
| ChatHistory.TranslateMessages | analytics/go-forwarder/llm_client_anthropic.go:283-359 | The turns sent, with tool results batched into the user turn before the next user or assistant message |
| ChatHistory.BlocksArePreserved | analytics/go-forwarder/llm_client_anthropic.go:283-359 | Every text, call and result block arrives once and in order |
| ChatContent.ContentArrives | analytics/go-forwarder/llm_client_anthropic.go:283-359 | The turns carry exactly the non-blank texts of users and assistants, the assistants' calls with id, name and arguments, and the tools' results with id and content, each kind in the order of the messages |
| ChatContent.SidesAreKept | analytics/go-forwarder/llm_client_anthropic.go:290-345 | Users speak in user turns and assistants in assistant turns |
| ChatContent.TextsComeFirst | analytics/go-forwarder/llm_client_anthropic.go:305-340 | In an assistant turn nothing but calls stands behind the first block |
| ChatHistory.TranslationIsWellSent | analytics/go-forwarder/llm_client_anthropic.go:283-359 | No turn is empty, and every result answers a call of an earlier assistant turn |
| ChatHistory.ResultFollowsCall | analytics/go-forwarder/llm_client_anthropic.go:283-359 | A result in turn j names a call in an assistant turn before j |
| ChatHistory.ResultsOfShape | analytics/go-forwarder/llm_session_chat.go:805-836 | Trimming and translating leave one result block for each tool message, in order |
| ChatHistory.PipelineIsValid | analytics/go-forwarder/llm_session_chat.go:805-870 | For any history the client sends, sanitise, trim, prefix and translate give a conversation in which every result answers an earlier call, that holds the trimmed history's blocks in order and one result for each tool message of the client that answers an earlier call |
| ChatTurns.AlternatesWhenOrderly | analytics/go-forwarder/llm_client_anthropic.go:279-359 | The turns alternate if and only if no results follow a user turn, no user text follows results or a user turn, and no assistant text or call follows an assistant turn |
| ChatTurns.UserAfterResults | analytics/go-forwarder/llm_client_anthropic.go:279-359 | A question right after tool results makes two user turns in a row |
| ChatTurns.AnsweredInBlocks | analytics/go-forwarder/llm_client_anthropic.go:283-359 | Every call block is answered by a later result block if and only if every call is answered by a later tool message |
| ChatTurns.PipelineTurns | analytics/go-forwarder/llm_session_chat.go:633-688 | For any history the client sends: every call that reaches the model is answered if and only if every call of the client's history has a later tool message, and the turns alternate if and only if the trimmed history is orderly |
| ChatHistory.LoopTurnKeepsAnswered | analytics/go-forwarder/llm_session_chat.go:633-688 | A turn of the tool loop keeps every result answering a call, also when the tool budget cuts it short |
| ToolCalls.CallsAreExact | analytics/go-forwarder/llm_client_anthropic.go:475-542 | For any interleaving of well-formed blocks the assembled calls are those of the tool blocks, each with its start's id and name and its own fragments in order |
| ToolCalls.CollectCalls | analytics/go-forwarder/llm_session_chat.go:606-649 | From the stream to the assistant message: the calls by increasing index, each exact, and the text in order |
| ToolCalls.StreamLoop | analytics/go-forwarder/llm_client_anthropic.go:440-542 | Emits a delta for each tool start and each non-empty fragment of a started block, and nothing else |
| ToolStream.EmittedMeans | analytics/go-forwarder/llm_client_anthropic.go:475-542 | Of any events the loop passes on, in order, exactly the starts of tool blocks and the non-empty pieces of blocks that have started, each with its index, id and name or its text |
| ToolCalls.AssembleCalls | analytics/go-forwarder/llm_session_chat.go:597-625 | Folds the deltas into one call an index; empty ids and names never overwrite |
| ToolCalls.OrderedToolCalls | analytics/go-forwarder/llm_session_chat.go:880-898 | Lists the calls by strictly increasing index, each index once, whatever order the map ranges in |
| ToolCalls.OrderIsDetermined | analytics/go-forwarder/llm_session_chat.go:880-898 | Any two such listings are equal |
| ToolCalls.SortKeys | analytics/go-forwarder/llm_session_chat.go:886-892 | The exchange sort permutes its array into ascending order, in place |

## Left out

- HTTP handlers, SQL text, JSON decoding and encoding, the network and retries with backoff: plumbing over services that are not part of this model.
- Candidate scores, scopes, serviceable platforms and the recipe filter of the sweep: candidates arrive in rank order.
- The gap between fetching a ring bucket and locking it, and the sharding of buckets by a hash.
- The in-place reuse of the entry slice by an eviction, and dropping idle buckets one by one inside the same loop: the entries are a sequence that the methods reassign, and idle buckets are dropped after the loop.
- Ring.Cache.EvictOlderThan: the two counts it returns are left out; its one caller ignores them.
- Errors of the database in the claim handler, which it answers with status 502.
- Query LIMITs, heartbeats, the liveness heuristic and the control and AV-metric pollers of the stream reader.
- Garbage collection of play state after five minutes, which starts a new lifetime of the labels.
- Network-row labels, which look at one row, and the retry labeller's URL cache.
- The length of a trail truncated to 32 bits before it is compared with a threshold.
- Parsing of the rung ladder, keyword tables and threshold merging.
- Fmp4.HasKeyframe: the bits of sample flags are not decoded; what those of a trun and of a tfhd say is a parameter.
- Seek positions of 2^63 and beyond.
- Fmp4.ReadBoxHeader: box types are compared as numbers, so undecodable type bytes are just other types.
- HlsPlaylist.SumOfParts: durations are exact; the six decimals printed are not modelled.
- Carriage returns in event streams: the source splits at line feeds only.
- Unicode white space beyond Latin-1 when the translator asks whether a text is blank.
- ToolCalls.CallsAreExact: an index that starts a second block would keep adding to the first call; blocks start once.
- Stop reasons, usage counters, errors and cancellation of the chat stream.
- The square root in rho: ComputeSpearman takes a function that is a root of the two sums of squares, and rounding is left out.
- Hashes and fingerprints, which are opaque keys.

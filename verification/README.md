# The bot's kernels and tools, verified

A Dafny model of the parts of the repository that carry state, arithmetic or a format of their own,
with proofs over every input, every run and every reachable state.

* **The GIF encoder** (`Bits`, `GifDecoder`, `GifEncoder`, `GifEndCode`). `tooling/scan-media.ts` compresses the scanner's
  frames with the LZW of appendix F of the GIF89a specification. The decoder is written down as the
  specification; decoding undoes encoding for every image, with the code widths, the packing and the
  sub-blocks of section 15 of GIF89a.
* **The pace of the edits** (`EditPacer`, `EditPacerProofs`, `EditPacerTheorems`, `EditPacerBudget`,
  `EditPacerCode`). A token bucket with a gap per chat, two priorities, pauses and a close.
* **The long polling** (`Polling`, `PollingProofs`, `PollingConfirms`, `PollingCode`). Per-user chains under
  two bounds, the loop that sleeps and is woken, the offset sent to the server and what the server answers to
  it.
* **The status trackers** (`SessionTracker`, `SessionTrackerProofs`, `SessionTrackerRuns`,
  `SessionTrackerEffects`, `SessionTrackerCode`, `IntentTracker`, `IntentTrackerProofs`,
  `IntentTrackerEffects`, `IntentTrackerCode`). Entries that poll, edit, are retargeted, evicted, end at a
  deadline and drain at a stop.
* **The waits for a signal** (`SignalWait`, `SignalWaitProofs`, `SignalWaitEffects`, `SignalWaitCode`). The
  tick, its launches, the read slots and the gate before every edit.
* **Hand-offs and memories** (`Detached`, `DetachedProofs`, `DetachedCode`, `ShownSignals`,
  `ShownSignalsProofs`).
* **The choice of the signals screen** (`SignalsShown`, `SignalsShownProofs`).
* **The rule files** (`Text`, `RuleFiles`, `RuleFilesProofs`, `RuleSplitProofs`, `RuleErrors`,
  `RuleExamples`). The parse, merge, dump,
  rendering and split of the architecture rules, on texts.

JavaScript runs one callback at a time, so each asynchronous kernel is a state machine whose step is what
runs between two awaits; timers, reads, edits, handlers and the server are events with any outcome. Where
the source changes variables in place, a class (the modules ending in `Code`) has those variables as fields,
and its methods are proved to be the steps. Its `Valid()` says that the object is where the run of its own
callbacks is; the constructor establishes it and every entry point requires and ensures it, adding its event.
So each theorem about runs is one about every object, and the last lemma of each class draws it. The modules
ending in `Effects` say of every event of a run, from the state before it and what the event brings, exactly
what it does and what it leaves alone: the safety theorems say what never happens, these what must. `StableSort` and `MapOrder` hold what the language's
sort and `Map` do, once.

## What the proofs found

* **The stop of the polling.** The stop confirms exactly what was dispatched before it; the one answer that
  was in flight then is still handled and will be handed over again (`PollingConfirms.StopConfirms`).
* **The pace in a pause.** A callback inside a pause throws away what was earned since the callback before;
  but for that the bucket owes every slot it can afford (`EditPacerBudget.WaitsForAReason`).
* **Memory of the sessions.** A retarget of a session remembers its old entry for a moment; with the memory
  full that costs the oldest session its place (`SessionTrackerEffects.TrackComesTo`).
* **End code of the GIF encoder.** The last code before the end code adds no entry on the encoder's side,
  but completes the decoder's lagging one. The two widths differ exactly when the table is then one power
  of two full below 12 bits; the reader then still ends the image if a zero pad bit follows and runs out of
  data if none does. `GifEncoder.LzwEncode` states both for every image; the encoder meets the first at
  [0, 1, 2] (`GifEndCode.EndCodeOneBitShort`) and the second at [0, 0, 1, 0, 2, 0, 3, 1, 1, 2, 1]
  (`GifEndCode.EndCodeCutOff`). An empty image is read as one pixel 0.
* **Heads of the rule files.** `headOf` cuts at `/^### /m`, which also matches after a carriage return or a
  Unicode line separator, and keeps a file without headings whole. A head that so ends inside a line
  swallows the first heading written under it: `RuleFilesProofs.ParseUndoesRender` has the exact condition,
  `RuleExamples.CarriageHead` a file with such a head.
* **`--split`.** Its exit code is 0 exactly when no rule of the section holds a `### ` line, none is
  numbered with a leading zero and every head it writes rules under ends its line
  (`RuleSplitProofs.SplitExact`); `RuleExamples.SplitLosesRule` has a text, an index and a file at which
  it is not. The error "a line before rule 1" cannot happen
  (`RuleSplitProofs.NoLineBefore`).
* **Numbering of the rules.** A rule 0 passes `checkNumbering` (`RuleSplitProofs.RuleZeroUnseen`); without
  one the check is empty exactly on 1 to the highest number.

## Model

| member | source | states |
|---|---|---|
| Bits.BitOrDisjoint | tooling/scan-media.ts:131-133 | or-ing a shifted code into the buffer adds it, since their bits are disjoint |
| GifEncoder.EmitFits | tooling/scan-media.ts:131-139 | with fewer than 8 bits buffered the 32-bit shift and or lose nothing and the buffer stays below 2^20 |
| GifEncoder.BitPacker.Emit | tooling/scan-media.ts:131-139 | the stream grows by the code's bits, least significant first, in exactly its width, and fewer than 8 bits stay buffered |
| GifEncoder.BitPacker.Flush | tooling/scan-media.ts:165-166 | the bytes are the stream plus fewer than 8 zero bits |
| GifEncoder.PrefixRead | tooling/scan-media.ts:150-155 | the prefix the encoder emits is a code the lagging decoder knows or is about to complete, it reads as the encoder's string, and fits the width |
| GifEncoder.NotFoundIsNew | tooling/scan-media.ts:144-151 | a key not in the table is a string the table does not have |
| GifEncoder.TableGrows | tooling/scan-media.ts:151-154 | the table stays the exact lookup of its strings, under the codes from the first free one on |
| GifEncoder.EncodingFound | tooling/scan-media.ts:145-149 | extending the prefix keeps encoder and decoder in step over the pixels taken |
| GifEncoder.EncodingAdds | tooling/scan-media.ts:150-154 | emitting and adding an entry keeps the two in step, widths included |
| GifEncoder.EncodingClears | tooling/scan-media.ts:155-161 | a full table is cleared on both sides at once |
| GifDecoder.DecodePacked | tooling/scan-media.ts:120-167 | packed codes put a decoder of appendix F where the codes themselves do, whatever follows |
| GifDecoder.DecodeEnd | tooling/scan-media.ts:163-166 | what a decoder makes of an end code of its width, and of one a bit short with and without padding |
| GifEncoder.NotFoundIsLongest | tooling/scan-media.ts:145-151 | a key not in the table makes the prefix the longest known string that the image goes on with |
| GifEncoder.EncodingLongest | tooling/scan-media.ts:145-163 | so every code emitted, the one before a clear and the last one included, is the longest match where it stands |
| GifEncoder.LzwEncode | tooling/scan-media.ts:122-167 | the bytes are the codes in the widths the decoder expects, then the end code and under 8 zero bits; decoding gives exactly the pixels, or the pixels cut off if the end code is a bit short and no pad bit follows; every data code is the longest known string that matches the image there, and the table is cleared if and only if full |
| GifEndCode.PixelsOneByOne | tooling/scan-media.ts:142-156 | an image in which every pair of neighbours is new, within one table, is emitted pixel by pixel, in known widths |
| GifEndCode.EndCodeOneBitShort | tooling/scan-media.ts:152-164 | for [0, 1, 2] the encoder writes its end code in 3 bits where a decoder expects 4; one pad bit makes up for it |
| GifEndCode.EndCodeCutOff | tooling/scan-media.ts:152-167 | for [0, 0, 1, 0, 2, 0, 3, 1, 1, 2, 1] it writes 4 bits where 5 are expected with no pad bit, and the image is read as cut off |
| GifEncoder.UnblockBlocks | tooling/scan-media.ts:169-177 | reading sub-blocks from any chunk on gives back the rest of the data |
| GifEncoder.SubBlocks | tooling/scan-media.ts:169-177 | un-blocking gives back the data and what follows the terminator, for every data |
| GifEncoder.EncodeFrame | tooling/scan-media.ts:201-209 | a frame's sub-blocks un-block and decode to the frame |
| EditPacerCode.Pacer.FilterQueues | apps/bot/src/edit-pacer.ts:82-88 | waiters no longer wanted are dropped and told so, the others keep their order |
| EditPacerProofs.BudgetSpends | apps/bot/src/edit-pacer.ts:100-104 | a slot paid with a token keeps every window of slots within its bound |
| EditPacerProofs.GapSpends | apps/bot/src/edit-pacer.ts:100-104 | a slot to a chat whose remembered time is over keeps the slots of every chat a gap apart, forgotten times included |
| EditPacerCode.Pacer.Pump | apps/bot/src/edit-pacer.ts:65-106 | the loop ends in the state the specification gives, slots, replies and timer included |
| EditPacerCode.Pacer.TakeSlot | apps/bot/src/edit-pacer.ts:109-115 | a take is its step |
| EditPacerCode.Pacer.PauseUntil | apps/bot/src/edit-pacer.ts:116-120 | a pause is its step; an earlier end does nothing |
| EditPacerCode.Pacer.TimerFires | apps/bot/src/edit-pacer.ts:53-61 | the timer's callback is its step |
| EditPacerCode.Pacer.CloseAll | apps/bot/src/edit-pacer.ts:122-130 | a close answers every waiter once and stops the timer |
| EditPacerProofs.RunKeeps | apps/bot/src/edit-pacer.ts:40-106 | the pacer's invariant holds after every run |
| EditPacerTheorems.WindowBound | apps/bot/src/edit-pacer.ts:1-3 | any window of T holds at most burst + rate x T slots in every run, and the tokens stay in 0..burst |
| EditPacerBudget.BucketIs | apps/bot/src/edit-pacer.ts:43-51 | in every run the bucket was full at some callback, and has exactly what was earned since and not spent, the time before callbacks inside pauses not counted |
| EditPacerBudget.WaitsForAReason | apps/bot/src/edit-pacer.ts:65-106 | a waiter whose chat has rested is left waiting, with no pause on and the timer not due, only while some window ending now holds all the slots its length and the burst allow |
| EditPacerBudget.BurstAtOnce | apps/bot/src/edit-pacer.ts:43-115 | a new pacer gives a burst of different chats their slots at once |
| EditPacerTheorems.ChatGap | apps/bot/src/edit-pacer.ts:63-104 | two slots of one chat are a gap apart although old times are pruned |
| EditPacerTheorems.SignalsBeforeHousekeeping | apps/bot/src/edit-pacer.ts:81-104 | a housekeeping slot is given only when no waiting signal edit has a free chat; one chat's waiters of a priority are served in order |
| EditPacerTheorems.PauseHolds | apps/bot/src/edit-pacer.ts:72-76 | after a pause no slot is given before its end, whatever comes |
| EditPacerTheorems.AnsweredAtMostOnce | apps/bot/src/edit-pacer.ts:81-130 | each take is answered or waits, never both and never twice |
| EditPacerTheorems.AnsweredOnceAfterClose | apps/bot/src/edit-pacer.ts:109-130 | once closed every take ever made has exactly one answer |
| EditPacerTheorems.AnswersJustified | apps/bot/src/edit-pacer.ts:82-104 | a slot goes to a wanted waiter, a drop to an unwanted one, "closed" only at or after the close |
| EditPacerTheorems.TokenWaitExact | apps/bot/src/edit-pacer.ts:91-93 | the timer for a token is the first whole millisecond at which there is one |
| EditPacerTheorems.NeverStalls | apps/bot/src/edit-pacer.ts:53-106 | open with a waiter queued, a timer is armed no later than the first millisecond a slot could be given |
| EditPacerTheorems.FireProgress | apps/bot/src/edit-pacer.ts:53-106 | a timer that fires gives a slot or arms for the one thing still missing |
| EditPacerTheorems.ThreeFirings | apps/bot/src/edit-pacer.ts:53-106 | in every run, a waiter queued, the third due firing at the latest gives a slot |
| EditPacerCode.Pacer.Paced | apps/bot/src/edit-pacer.ts:1-106 | in the object too every window and every chat's gap is kept and a timer watches over waiters |
| PollingProofs.DispatchCounts | apps/bot/src/polling.ts:151-165 | a dispatched update is one more head or one more update behind a head, never both |
| PollingProofs.DispatchOrdered | apps/bot/src/polling.ts:151-165 | a dispatch keeps one handler a key and each update linked to the one before it of its key |
| PollingProofs.PendingIsNext | apps/bot/src/polling.ts:165-220 | what the server has from the offset on is exactly what was not dispatched yet |
| PollingProofs.AnswerIsNext | apps/bot/src/polling.ts:205-220 | an answer to the offset sent, of any length, is of the next updates in the order they arrived |
| PollingCode.PollingLoop.Receive | apps/bot/src/polling.ts:215-220 | whatever updates come are dispatched one by one; if they answer the offset sent this is the next event of the run |
| PollingCode.PollingLoop.TakeTurn | apps/bot/src/polling.ts:188-214 | a turn fetches what is free with the offset, waits, or ends the loop, and is the next event of the run |
| PollingCode.PollingLoop.TaskEnds | apps/bot/src/polling.ts:154-161 | a handler's end is the next event of the run |
| PollingCode.PollingLoop.FetchEnds | apps/bot/src/polling.ts:206-214 | a fetch that fails for good or is cut short ends the loop |
| PollingCode.PollingLoop.StopPolling | apps/bot/src/polling.ts:230-236 | a stop is the next event of the run; what it confirms is StopConfirms |
| PollingCode.PollingLoop.WithinBounds | apps/bot/src/polling.ts:188-221 | in the object too both bounds hold and ids of dispatched updates increase |
| PollingProofs.StepKeeps | apps/bot/src/polling.ts:151-236 | every step keeps the invariant |
| PollingProofs.HeadsCounted | apps/bot/src/polling.ts:73-76 | chains plus keyless updates are the tasks that run or are next to, the rest are those behind them |
| PollingProofs.BoundsHold | apps/bot/src/polling.ts:188-221 | in every run heads stay within concurrency and waiting updates within waitingMax, and only heads are handled |
| PollingProofs.OrderHolds | apps/bot/src/polling.ts:151-220 | one key's updates are handled one at a time in order; by the offsets the code sends the updates dispatched are those arrived, each once and none skipped, and none is confirmed before it was dispatched |
| PollingConfirms.FetchesWhatFits | apps/bot/src/polling.ts:188-214 | a turn asks exactly while another head and another update behind one fit, for as many as fit, and so confirms all that was dispatched; else it waits, or drains once stopped |
| PollingConfirms.StopConfirms | apps/bot/src/polling.ts:230-236 | however the run goes on after the stop, exactly the updates dispatched before it are confirmed, and at most the one answer in flight adds to them |
| PollingProofs.NoLostWakeUp | apps/bot/src/polling.ts:79-89 | while the loop waits some handler can go on, and any handler's end or the stop resumes the loop |
| PollingProofs.WaitingIsWoken | apps/bot/src/polling.ts:79-89 | while the loop waits some handler can go on, and the end of any handler, or the stop, resumes the loop |
| PollingProofs.SettlesHandled | apps/bot/src/polling.ts:222-228 | the drain never hangs by itself, and once start settles no fetched update is unhandled |
| SessionTrackerProofs.FinishKeeps | apps/bot/src/session-tracker.ts:189-200 | a finished entry is nobody's; timers, attempts, the map and the bounded memory stay in order |
| SessionTrackerRuns.NextHandled | apps/bot/src/session-tracker.ts:361-378 | an attempt that goes on has no timer beside it; one that is over leaves a poll, pollMs away and before the deadline, exactly if its entry is live |
| SessionTrackerRuns.AttemptHandled | apps/bot/src/session-tracker.ts:255-378 | so does every event of an attempt, and nothing of another entry is touched |
| SessionTrackerCode.Tracker.ReadEnds | apps/bot/src/session-tracker.ts:295-353 | the end of a read is the next event of the run; what it comes to is AttemptComesTo |
| SessionTrackerCode.Tracker.EditEnds | apps/bot/src/session-tracker.ts:255-293 | the end of an edit is its step |
| SessionTrackerCode.Tracker.TimerFires | apps/bot/src/session-tracker.ts:236-248 | a timer begins one attempt |
| SessionTrackerRuns.FirstDueIs | apps/bot/src/session-tracker.ts:207-212 | tracking with no view arms one timer of the new entry, due in the next free slot, and nothing else of it is outstanding |
| SessionTrackerCode.Tracker.TrackSession | apps/bot/src/session-tracker.ts:381-407 | retargeting, eviction, memory and first poll of a tracked session |
| SessionTrackerCode.Tracker.StopTracking | apps/bot/src/session-tracker.ts:408-411 | the loop clears exactly the tracked entries' timers |
| SessionTrackerProofs.ExecKeeps | apps/bot/src/session-tracker.ts:172-413 | the invariant holds after every run |
| SessionTrackerProofs.OneOutstanding | apps/bot/src/session-tracker.ts:236-248 | an entry has at most one timer or attempt, only current entries have timers, none after the stop |
| SessionTrackerProofs.EditsOfTheCurrentEntry | apps/bot/src/session-tracker.ts:317-342 | an edit starts only for its session's own entry, only for a change, and on an unknown message only of a stopped session |
| SessionTrackerProofs.SummaryOnce | apps/bot/src/session-tracker.ts:152-153 | an entry's summary is sent at most once, on a finished view that is on screen with its notices closed |
| SessionTrackerProofs.Bookkeeping | apps/bot/src/session-tracker.ts:189-200 | entries and memories are of different sessions, each within maxEntries |
| SessionTrackerEffects.AttemptComesTo | apps/bot/src/session-tracker.ts:255-378 | for every event of an attempt in a run: which edit, summary or report it begins, if and only if; what is on the message, exactly as edits land; whether the entry ends; and what is remembered of it |
| SessionTrackerEffects.FinishMemorises | apps/bot/src/session-tracker.ts:189-200 | an entry that ends with something on its message is the newest remembered, the oldest going when there is no room |
| SessionTrackerEffects.TrackComesTo | apps/bot/src/session-tracker.ts:381-407 | a message handed over gets one entry with the right start, drawing and first poll; exactly its predecessor, or the oldest if there is no room, goes |
| SessionTrackerEffects.FireComesTo | apps/bot/src/session-tracker.ts:236-248 | a timer is spent on one read of its session's own entry, and nothing else changes |
| SessionTrackerEffects.StopComesTo | apps/bot/src/session-tracker.ts:408-412 | a stop clears every timer and changes nothing else; drained, the map is emptied |
| SessionTrackerEffects.MessageFollows | apps/bot/src/session-tracker.ts:313-342 | while every edit lands, an entry with no edit under way shows the view read last, unless nothing on its message is known and the session runs |
| SessionTrackerRuns.ExactlyOneOutstanding | apps/bot/src/session-tracker.ts:236-378 | in every run an entry tracked by an open tracker has its next poll armed if and only if no attempt of it is under way |
| SessionTrackerRuns.PollsEndAtDeadline | apps/bot/src/session-tracker.ts:361-378 | after any event of an attempt a poll is armed if and only if the attempt is over and its entry live, and then the deadline has not come; past it there is no further poll |
| SessionTrackerRuns.ResumesPaced | apps/bot/src/session-tracker.ts:207-212 | in every run the first timers of entries tracked with no view are due resumeGapMs apart, each not before firstPollMs from its track |
| SessionTrackerRuns.FirstPollInItsSlot | apps/bot/src/session-tracker.ts:207-248 | the first poll of such an entry that fires is that timer, at its due time or later |
| SessionTrackerRuns.StepKeepsStart | apps/bot/src/session-tracker.ts:381-394 | a step that leaves a session tracked, a retarget included, keeps the start of its deadline |
| SessionTrackerRuns.DeadlineKept | apps/bot/src/session-tracker.ts:381-394 | over every stretch of a run in which a session is followed its deadline does not move |
| SessionTrackerCode.Tracker.Served | apps/bot/src/session-tracker.ts:236-378 | in the object too a tracked entry has a timer or an attempt and never both |
| IntentTrackerProofs.FinishContinues | apps/bot/src/intent-tracker.ts:129-132 | an entry that ends has nothing outstanding, is tracked no more by an open tracker, and leaves every other entry as it was |
| IntentTrackerProofs.NextContinues | apps/bot/src/intent-tracker.ts:271-282 | going on leaves the entry with one timer or one last edit, paced for its deadline, or ended |
| IntentTrackerCode.Tracker.TimerFires | apps/bot/src/intent-tracker.ts:134-155 | a timer begins its step |
| IntentTrackerCode.Tracker.ReadGives | apps/bot/src/intent-tracker.ts:236-264 | a read's answer is the next event of the run; what it comes to is EventComesTo |
| IntentTrackerCode.Tracker.ReadFails | apps/bot/src/intent-tracker.ts:206-235 | a failed read ends, edits or retries |
| IntentTrackerCode.Tracker.EditEnds | apps/bot/src/intent-tracker.ts:162-200 | every way an edit ends |
| IntentTrackerCode.Tracker.TrackIntent | apps/bot/src/intent-tracker.ts:301-317 | a new entry, the oldest evicted when full |
| IntentTrackerCode.Tracker.Stop | apps/bot/src/intent-tracker.ts:318-323 | the loop clears every tracked timer |
| IntentTrackerProofs.StepKeeps | apps/bot/src/intent-tracker.ts:162-323 | every step keeps the invariant: one timer or attempt of a tracked entry and never none, one entry an intent, the bound |
| IntentTrackerProofs.ExecKeeps | apps/bot/src/intent-tracker.ts:118-325 | the invariant holds after every run |
| IntentTrackerProofs.EndsExactly | apps/bot/src/intent-tracker.ts:162-298 | in every run a tracked entry ends if and only if: evicted, drained, a stop status is on its message, its message is gone, something was thrown, or the one edit of a missing intent or of the deadline ended |
| IntentTrackerProofs.LastEditIsLate | apps/bot/src/intent-tracker.ts:271-298 | the last edit comes only after the deadline |
| IntentTrackerProofs.FailedEditIsLast | apps/bot/src/intent-tracker.ts:266-282 | an attempt whose edit did not land makes no second one |
| IntentTrackerProofs.EditsBegin | apps/bot/src/intent-tracker.ts:236-256 | an edit begins only of a tracked entry or in an attempt a stop waits for, a status only when it is news |
| IntentTrackerEffects.EventComesTo | apps/bot/src/intent-tracker.ts:134-298 | for every event of an entry in a run: a status is drawn if and only if it was read of a followed entry and is not on the message, a missing intent's text and the last edit exactly when due, what is on the message changes exactly as edits land, and the next poll is armed exactly when nothing ended the entry |
| IntentTrackerEffects.TrackComesTo | apps/bot/src/intent-tracker.ts:301-317 | a new intent gets one entry, read first after firstPollMs, the oldest going if there is no room; a known one changes nothing |
| IntentTrackerEffects.StopComesTo | apps/bot/src/intent-tracker.ts:318-323 | a stop clears every timer and leaves the rest; drained, the map is empty |
| IntentTrackerEffects.MessageFollows | apps/bot/src/intent-tracker.ts:236-256 | while every edit lands, an entry with no edit under way shows the status read last |
| IntentTrackerEffects.StatusGraph | apps/bot/src/intent-tracker.ts:34-42 | the stop statuses are exactly settled, rejected and accepted; no way in the graph leads back |
| IntentTrackerEffects.Concludes | packages/shared/src/trading.ts:27-48 | every status has a way to a final one: rejected, unless the order was accepted |
| IntentTrackerEffects.KeysTell | apps/bot/src/intent-tracker.ts:105-111 | two views are drawn alike if and only if they have one status, and one reason if rejected |
| IntentTrackerProofs.StepProgresses | apps/bot/src/intent-tracker.ts:202-298 | every event of an entry takes it further; at its end it gets no further timer |
| IntentTrackerProofs.EveryEntryIsFinite | apps/bot/src/intent-tracker.ts:266-298 | in every run an entry has at most four events a timer and the deadline bounds its timers |
| IntentTrackerProofs.StopIsFinite | apps/bot/src/intent-tracker.ts:318-323 | from a stop on no entry has a timer, and each attempt under way has at most three more events |
| IntentTrackerCode.Tracker.Served | apps/bot/src/intent-tracker.ts:266-298 | in the object too a tracked entry has one thing outstanding and the deadline bounds its timers |
| SignalWaitCode.Waiter.AddEntry | apps/bot/src/signal-wait.ts:329-339 | the user's new entry replaces the old one, the oldest going beyond the bound |
| SignalWaitCode.Waiter.Evict | apps/bot/src/signal-wait.ts:333-337 | the newest that fit are left |
| SignalWaitProofs.EndedKeeps | apps/bot/src/signal-wait.ts:341-347 | the end of an entry keeps the poll timed exactly while somebody waits, and the edits under way |
| SignalWaitCode.Waiter.LeaveWait | apps/bot/src/signal-wait.ts:1033-1036 | a user's wait ends |
| SignalWaitCode.Waiter.OnTimer | apps/bot/src/signal-wait.ts:313-327 | a tick begins unless one is under way |
| SignalWaitCode.Waiter.Decide | apps/bot/src/signal-wait.ts:414-438 | the tick's decisions are the next event of the run; what they come to is SnapshotComesTo |
| SignalWaitCode.Waiter.AfterReads | apps/bot/src/signal-wait.ts:439-444 | the housekeeping edits of entries still live, then the captions |
| SignalWaitProofs.SlotsLaunched | apps/bot/src/signal-wait.ts:454-513 | a launch holds a slot within the bound, or queues only while all are taken |
| SignalWaitProofs.FinalizedKeeps | apps/bot/src/signal-wait.ts:486-493 | however a launch ends its slot is back or passed on, and exactly entries with a launch left are busy |
| SignalWaitCode.Waiter.ResumeReader | apps/bot/src/signal-wait.ts:476-480 | a launch with its slot works on only if its entry is live |
| SignalWaitCode.Waiter.ReachGate | apps/bot/src/signal-wait.ts:785-789 | the reads of a launch end at its gate |
| SignalWaitCode.Waiter.PassGate | apps/bot/src/signal-wait.ts:789-793 | the gate lets through only with a slot and a live entry |
| SignalWaitCode.Waiter.StopWaits | apps/bot/src/signal-wait.ts:1047-1055 | a stop ends every wait and the timer |
| SignalWaitProofs.StepKeeps | apps/bot/src/signal-wait.ts:306-513 | every step keeps the invariant |
| SignalWaitProofs.ReadsBounded | apps/bot/src/signal-wait.ts:454-513 | in every run the reads in flight are the launches that hold a slot, within resolveConcurrency, and one queues only while all are taken |
| SignalWaitProofs.SlotsReleased | apps/bot/src/signal-wait.ts:464-473 | giving a slot back, the second time too, leaves exactly the slots held in use |
| SignalWaitProofs.OneEditAnEntry | apps/bot/src/signal-wait.ts:414-444 | no entry has two edits under way: the tick never launches a busy one again |
| SignalWaitProofs.SentWhileLive | apps/bot/src/signal-wait.ts:785-793 | every edit sent was of its user's live entry when its slot came |
| SignalWaitProofs.SendsExactly | apps/bot/src/signal-wait.ts:785-793 | only an open gate sends, one edit, and none beside another of the same entry |
| SignalWaitEffects.SnapshotComesTo | apps/bot/src/signal-wait.ts:414-438 | a tick launches exactly the signal edits decided on, one for each live entry not being edited, in the map's order, those that read taking the free slots first come first served; it waits for exactly these, ends exactly the failing entries and puts the housekeeping ones off |
| SignalWaitEffects.ReadsDoneComesTo | apps/bot/src/signal-wait.ts:437-444 | then it launches the housekeeping edits of exactly those still waiting, in order, and the captions |
| SignalWaitEffects.LaunchComesTo | apps/bot/src/signal-wait.ts:454-513 | every event of a launch: it works on only if live, sends if and only if a slot comes while it is live, gives its read slot back once to the first in the queue, and ends its wait exactly as the edit says |
| SignalWaitEffects.WaitComesTo | apps/bot/src/signal-wait.ts:313-347 | a new entry goes last and only the oldest go for it; a leave takes off exactly the user's entry; the timer begins a tick exactly if none is under way |
| SignalWaitProofs.AllGivenBack | apps/bot/src/signal-wait.ts:464-493 | with every launch over, all slots are free and no entry is busy |
| SignalWaitProofs.TickNeverStuck | apps/bot/src/signal-wait.ts:431-439 | while a tick waits for reads some launch not done with them can go on |
| SignalWaitProofs.TimedWhileWaiting | apps/bot/src/signal-wait.ts:306-347 | in every run the poll is timed exactly while somebody waits, within maxEntries |
| SignalWaitProofs.NextPollIs | apps/bot/src/signal-wait.ts:306-311 | the poll is at the first boundary plus offset after now |
| SignalWaitCode.Waiter.Sound | apps/bot/src/signal-wait.ts:306-513 | in the object too the slots in use are those held, no entry has two edits, and every edit sent was of a live entry |
| DetachedCode.DetachedWork.Run | apps/bot/src/detached.ts:59-76 | a work waits for its chat, replacing the one that waited |
| DetachedProofs.StartsNewest | apps/bot/src/detached.ts:34-53 | a start is of the newest work handed off to the chat, and no work starts a second time |
| DetachedProofs.BeginKeeps | apps/bot/src/detached.ts:34-53 | between two works of a chat the start of the waiting one restores the invariant: one work a chat |
| DetachedCode.DetachedWork.Settle | apps/bot/src/detached.ts:45-50 | the next work of the chat starts, or its entry goes |
| DetachedCode.DetachedWork.StopAll | apps/bot/src/detached.ts:84-91 | what has not started is dropped |
| DetachedProofs.OneAtATime | apps/bot/src/detached.ts:34-76 | in every run a chat has one work running, each start is of the newest handed off, and none starts twice |
| DetachedProofs.NoneAfterStop | apps/bot/src/detached.ts:84-91 | nothing starts after the stop |
| DetachedProofs.LastIsLast | apps/bot/src/detached.ts:34-76 | at rest every chat's last work handed off was its last started, and no chat keeps an entry |
| DetachedCode.DetachedWork.Sound | apps/bot/src/detached.ts:34-76 | in the object too a chat runs one work, and at rest the last handed off was the last started |
| ShownSignals.Store.Remember | apps/bot/src/shown-signals.ts:44-61 | the loops give the two-level recency list with the screen's records on top, cut to its bounds |
| ShownSignals.Store.Take | apps/bot/src/shown-signals.ts:62-69 | the pair's record, gone from the store, with its user if it was the last |
| ShownSignalsProofs.WrittenKeys | apps/bot/src/shown-signals.ts:49-52 | after a screen its assets are the newest, by their last records |
| ShownSignalsProofs.WrittenValue | apps/bot/src/shown-signals.ts:49-52 | each asset of a screen has its last record, every other one its old one |
| ShownSignalsProofs.NewestIs | apps/bot/src/shown-signals.ts:53-60 | trimming keeps exactly the newest |
| ShownSignalsProofs.RememberKeeps | apps/bot/src/shown-signals.ts:44-61 | a screen keeps the bounds, and every record in the store the newest shown for its pair and not taken |
| ShownSignalsProofs.ScreenSurvivors | apps/bot/src/shown-signals.ts:44-61 | after a screen the record of each pair is found if and only if there was one, its user is among the maxUsers newest and, for the screen's user, its asset among the maxPerUser newest; it is then the last one shown |
| ShownSignalsProofs.TakeIsOnce | apps/bot/src/shown-signals.ts:62-69 | a take gives the newest record not yet taken, once, and leaves every other record |
| ShownSignalsProofs.StoreWithinMemory | apps/bot/src/shown-signals.ts:44-69 | after every run of screens and starts both bounds hold and each record kept is the newest of its pair shown and not taken since |
| SignalsShown.TakeQuota | apps/bot/src/demo.ts:541-548 | the loops take exactly the first two of every group |
| SignalsShown.Choose | apps/bot/src/demo.ts:529-561 | the loops give the list the specification gives |
| SignalsShownProofs.SortedIsSorted | apps/bot/src/demo.ts:539-540 | the sort gives a permutation, the better payout first and of equal ones the lower id |
| SignalsShownProofs.OrderIndependent | apps/bot/src/demo.ts:520-522 | with one signal an asset the list does not depend on the order the signals came in |
| SignalsShownProofs.TakenIs | apps/bot/src/demo.ts:541-552 | the quota is taken, min(n, 12) in all, the fill is a beginning of the rest, and of a group always the first ones |
| SignalsShownProofs.ListLength | apps/bot/src/demo.ts:529-561 | min(n, 12) pairs from five accepted ones on, else min(5, m) |
| SignalsShownProofs.NothingInvented | apps/bot/src/demo.ts:529-561 | no pair stands more often than it was checked |
| SignalsShownProofs.ListArranged | apps/bot/src/demo.ts:553-560 | group after group a beginning of its accepted pairs, best first, at least two if it has them, then a beginning of those below the floor |
| SignalsShownProofs.FillIsBest | apps/bot/src/demo.ts:549-552 | no accepted pair left out beats one that fills a free place |
| SignalsShownProofs.FloorRespected | apps/bot/src/demo.ts:556-559 | no pair below a payout of 80 is shown while an accepted one, of 80 or more, is left out |
| RuleFiles.Close | tooling/rules-for.ts:53-63 | trailing blank lines go; a body not starting with its number is an error |
| RuleFiles.ParseRuleFile | tooling/rules-for.ts:50-77 | the loop reads the sections in order, or gives the error of the first that is no rule |
| RuleFiles.MergeRules | tooling/rules-for.ts:79-92 | the loop finds the first number that is there already, else all rules sorted |
| RuleFiles.CheckNumbering | tooling/rules-for.ts:146-153 | exactly the numbers missing below the highest, in order; none if and only if all are there |
| RuleFiles.ExtractSectionRules | tooling/rules-for.ts:816-841 | the loop gathers the section's rules or gives its first error |
| RuleFiles.WriteFiles | tooling/rules-for.ts:881-891 | every area's file is rewritten under its head |
| RuleFiles.LoadRules | tooling/rules-for.ts:94-102 | the files are parsed in the areas' order and merged |
| RuleFiles.Split | tooling/rules-for.ts:875-903 | no file is touched unless every rule has its place; then the files and the exit code |
| RuleFilesProofs.ParseUndoesRender | tooling/rules-for.ts:50-77 | for every head without a heading and all rules: parsing the rendered file gives the rules back if and only if the head ends its line or has nothing below, and every body starts with its number, holds no heading and ends in a line that is not blank |
| RuleFilesProofs.LostIsNotFound | tooling/rules-for.ts:843-846 | a heading swallowed by its head is never made up for by what the bodies hold |
| RuleErrors.HeadingIs | tooling/rules-for.ts:67-70 | a heading of a rule is exactly its words and a number |
| RuleErrors.SectionError | tooling/rules-for.ts:53-71 | a section that is no rule is refused for its heading, or for a body that does not start with its number |
| RuleErrors.ParseIs | tooling/rules-for.ts:50-77 | the rules are those of the sections in order, or the error is that of the first section that is no rule |
| RuleErrors.ClashIs | tooling/rules-for.ts:79-92 | a clash is of the first rule that repeats a number, with the area of the one before |
| RuleSplitProofs.MergedIs | tooling/rules-for.ts:79-92 | the merge succeeds if and only if numbers are distinct, and gives all rules strictly increasing |
| RuleSplitProofs.NumberingExact | tooling/rules-for.ts:146-153 | the numbers are 1 to the highest if and only if the check passes and there is no rule 0 |
| RuleSplitProofs.RuleZeroUnseen | tooling/rules-for.ts:146-153 | a lone rule 0 passes the check |
| RuleSplitProofs.HeadIs | tooling/rules-for.ts:848-852 | a head ends at the first place where a heading matches, holds none, and when it ends its line |
| RuleExamples.CarriageHead | tooling/rules-for.ts:848-852 | the head of "intro", a carriage return and a heading is cut behind the carriage return and does not end its line |
| RuleSplitProofs.GatheredIs | tooling/rules-for.ts:825-840 | every line of the section but blank ones and rulers is in one rule, in order, and no number stands twice |
| RuleSplitProofs.NoLineBefore | tooling/rules-for.ts:824-838 | no line comes before the first rule |
| RuleErrors.NoSectionIff | tooling/rules-for.ts:816-820 | there is no section if and only if its heading and then its end are not both there |
| RuleErrors.SectionIs | tooling/rules-for.ts:817-826 | the section goes from its first rule to the first end; an index in it, or no rule 1, is an error |
| RuleErrors.OpeningIs | tooling/rules-for.ts:829-829 | a line opens a rule if and only if it begins with a number, a full stop and a space |
| RuleErrors.GatherFails | tooling/rules-for.ts:825-840 | gathering fails exactly at the first line that opens a rule a second time, or belongs to none |
| RuleSplitProofs.SplitRulesIff | tooling/rules-for.ts:854-872 | the rules are placed if and only if each has an index line to a known area |
| RuleErrors.AreaError | tooling/rules-for.ts:864-868 | an unknown area is reported with the first rule it was given to |
| RuleSplitProofs.SplitRulesIs | tooling/rules-for.ts:854-872 | they are the section's rules in order, and their dump is the source text |
| RuleSplitProofs.SplitComesBack | tooling/rules-for.ts:875-903 | splitting, rendering, parsing and merging gives the rules back, and already the same dump, if and only if every file is fine |
| RuleSplitProofs.SplitExact | tooling/rules-for.ts:875-903 | the exit code is 0 if and only if every rule is tidy and every head written under ends its line, and then the files hold the rules |
| RuleExamples.SplitLosesRule | tooling/rules-for.ts:875-903 | a section of one rule whose old file has such a head does not end with exit code 0 |

## Left out

- Telegram and grammY calls, keyboards, texts, cards, pictures and logging: an edit, a send or a report is an event with any outcome.
- The backend's HTTP, database, queue and socket code: a read is an event with any answer or failure.
- `renderFrame`, `encodePng` and the fixed bytes around the frames of `encodeGif`.
- Clocks that step back and rounding: times are whole milliseconds of a monotone clock, tokens and payouts exact reals; a number in a rule file is exact at any length.
- EditPacerCode.Pacer.Pump: what `wanted()` answers is fixed for the length of one callback.
- EditPacerTheorems.WindowBound: needs a positive rate and a burst of at least one token, as every configuration has.
- PollingProofs.BoundsHold: needs both bounds at least 1, one `start` a process, and begins after `init`, `deleteWebhook` and `onStart`; the keys of `updateKey` are numbers.
- PollingProofs.OrderHolds: the server is assumed to answer a beginning of what it has from the offset sent on, and its ids increase with arrival; `Receive` takes any updates.
- SessionTrackerProofs.OneOutstanding: a view's drawing does not change between polls (an override of the texts at run time is not modelled), and maxEntries is at least 1.
- IntentTrackerProofs.EveryEntryIsFinite: needs a positive pollMs; a waiting read or edit is not bounded in time.
- SignalWaitCode.Waiter.StopWaits: the close of the pace and the last edits `stop` waits for are not part of it: the pace has its own model, and those edits are as any other.
- SignalWait: the freeze of a wait the user left and the last edits of `stop` are not modelled; nor are the screens, the failures counted per entry and the refusals' meaning, so a launched work is any sequence of gates, sends and endings.
- SignalWaitProofs.TickNeverStuck: needs resolveConcurrency of at least 1.
- `settled` of the hand-offs.
- SignalsShown.Choose: which pairs can be traded (`checkDemoTrade`) is an input; of a pair the id, the payout and its group are kept.
- RuleFiles.Split: the index parsed from the skill file and the old text out of git are inputs; a file is there or not, and writing it does not fail.
- The index lines, globs, citations and new-rule gate of `tooling/rules-for.ts`: regular expressions over prose.
- Small caches, dialogs and helpers of the bot: they would add easy members only.

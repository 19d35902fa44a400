# A verified model of the Vivid producer

Vivid is a protocol by which a producer sends video, audio and still images to a presenter that
shows them in a terminal or on a desktop. This project models the producer's concurrent state
machines and its exact arithmetic in Dafny and proves what they keep.

The concurrent cores are modelled twice. A class holds the fields that the source updates under a
lock, and each of its methods is proved equal to a pure function of the old state. A state machine
then interleaves those functions step by step, with every thread, every buffer and every spurious
wake-up explicit. A run is an inductive value, the empty run or a run followed by a step, and the
main results about these machines are about all runs. The one call that is also modelled as a whole,
`recover_channel`, is undisturbed there, and what may happen between its sections is proved over runs
beside it. Where the source promises something that its code does not always keep, the code is
modelled as it is and the exact condition is proved, with a run that breaks the promise when the
condition fails.

| module | models |
|---|---|
| `ChannelFlow` | flow control of a track channel as a two-party protocol with bounded directions |
| `ChannelRecovery` | keyframe, full-frame and flush demands on a channel generation, and its end of stream |
| `ChannelSend` | one media send from its first check to its last merge |
| `TrackMedia` | the media sequence of a track over all its channel generations |
| `MergeHistory` | what merges bring to a track's sequence over a stretch of a run |
| `TrackRecovery` | `recover_channel` and the counters of the sender it hands out |
| `RecoveredSender` | the life of that sender among everything else that happens on its track |
| `DeltaChain` | raster deltas and what the presenter shows |
| `RequestTable` | request correlation on the control plane and on the input lane |
| `SessionLifecycle` | closing a session against registrations and waiting senders |
| `QueueMonitor` | the bounded queue with its two condition variables |
| `RateControl` | the quantized video rate control law |
| `ContainFit` | fitting a source into a terminal grid |
| `TargetTruth` | target snapshots and their generations |
| `InputGuard` | the producer-side input grant and its watchdog |
| `LinearRegister`, `Crc32` | the CRC-32 of PNG chunks, first over any linear shift register |
| `Png`, `Scanlines`, `ImageHeader` | writing an RGBA image as PNG, and reading the size of an encoded image |
| `Bytes`, `Integers`, `Wrappers` | bytes and big-endian integers; integer bounds; results and options |

Some results rest on the reading of code outside the repository. `ChannelFlow` of the protocol
crate is taken to admit a record exactly when both cumulative totals stay within the maxima, and to
raise maxima component by component. The presenter of the flow protocol frees every record it takes
and grants the initial maxima plus everything freed. The transport delivers in order or fails.
Deflate and inflate are any pair of functions of which the second undoes the first. The desktop
descriptor decoder and the registered bounds of watchdogs and input classes are parameters.

Where the code and what is said about it differ, the model follows the code:

- A flush sets the recovery flag without counting a recovery revision (src/track.rs:743-747), so it
  can be forgotten when a recovery unit is in flight, and it overwrites the minimum epoch, which it
  can lower. `ChannelRecovery` proves exactly when either happens.
- A flush checks its epoch before it is requested and assigns it after (src/track.rs:732,
  src/track.rs:742). `TrackMedia` keeps the two as separate steps and proves when that matters.
- The key unit of a recovery can be refused. The new channel's reader runs before the key unit is
  sent (src/channel.rs:236-245) and may ask for a keyframe above its epoch, which is chosen without
  regard to that (src/pipeline.rs:294-302), and a send of an earlier generation may be merged after
  its ID was chosen. `TrackRecovery` proves exactly when it is sent.
- The records of a recovered sender are said to pass the track's checks (src/pipeline.rs:282-285).
  They are refused after a flush above the sender's epoch, which the sender is not told of
  (src/track.rs:742), after a status ahead of it, and once its packet counter has wrapped around to
  zero (src/pipeline.rs:226, src/track.rs:52). `RecoveredSender` proves that these are the only ways,
  earlier generations aside, and how many draws and bumps end a refusal.
- The order of sends is kept per channel, so media of two generations can overlap when a channel is
  opened before the sends of the old one have finished. `TrackMedia` proves that this is the only way.
- The climb of the rate control stalls when an eighth of the configured rate is below one step and
  does not reach the configured rate from the floor at once. `RateControl` proves the exact bound.
- `recover_channel` is documented for audio access units too, but it sends a video packet, which an
  audio track refuses (src/pipeline.rs:303, src/channel.rs:350).
- An input grant that was never renewed has no deadline and stays armed; `InputGuard` proves that a
  deadline exists exactly when a renewal was accepted since the last grant ended.
- Enabling again while a grant is active advances the epoch and keeps the guard armed, and the tag of
  its events names an epoch that was never granted (src/guard.rs:88, src/guard.rs:156); renewals are
  not compared with the tag (src/guard.rs:220-250). `InputGuard` proves exactly when this is so.
- A placement that would fill 2^31 columns or rows is refused as an overflow, although its inputs
  are valid; `ContainFit` gives such an input and proves the exact failure conditions.

## Model

| member | source | states |
|---|---|---|
| `ChannelFlow.FlowIsSafe` | src/channel.rs:723-747 | in every interleaving, bytes and records written never exceed those charged, those charged never exceed the maxima, and what the presenter has not freed never exceeds the initial window |
| `ChannelFlow.RunsKeepInvariant` | src/channel.rs:713-769 | every run conserves records (sent = freed + lost + in transit + in hand), grants reach the sender in ascending order, and no thread sleeps on a condition that holds |
| `ChannelFlow.BarrierMeansFreed` | src/channel.rs:311-347 | the capacity barrier returns success only after everything charged before the call has been freed by the presenter |
| `ChannelFlow.OnlyQuiescenceIsStuck` | src/channel.rs:737-747 | no deadlock for any positive capacity of the two directions: while anything is in flight or any thread is awake, some party can take a step |
| `ChannelFlow.QuiescenceIsSettled` | src/channel.rs:977-984 | when nothing is left to do every grant has arrived, a sender sleeps only on a body that cannot fit beside what was lost, and a barrier sleeps only if something was lost |
| `ChannelFlow.InternalStepsShrink` | src/channel.rs:723-769 | every step the parties take by themselves strictly lowers a measure over records, grants and awake threads, wake-ups of all waiters included |
| `ChannelFlow.FittingSendIsAdmitted` | src/channel.rs:179-187 | a waiting sender whose body fits the initial window beside what was lost is charged within a bounded number of steps, unless the channel is closed |
| `ChannelFlow.BarrierIsReached` | src/channel.rs:311-347 | its counterpart for the barrier: within a bounded number of steps it has ended, failed only on a closed channel or a requirement beyond 64 bits, and otherwise passed if and only if what was charged before the call and what was lost are within what has been charged, so always if nothing was lost |
| `ChannelFlow.UnfitIsNeverAdmitted` | src/channel.rs:735-761 | the converse: a body that does not fit is refused admission in every reachable state |
| `ChannelFlow.SendTurnIsExact` | src/channel.rs:723-761 | in every run a sender that takes its turn gives up if and only if the channel has been closed, is charged if and only if both totals stay within the maxima, and sleeps otherwise |
| `ChannelFlow.BarrierTurnIsExact` | src/channel.rs:311-347 | in every run a barrier that takes its turn fails if and only if the channel has been closed, or at its call the requirement is beyond 64 bits, passes if both maxima reach the requirement, and sleeps otherwise |
| `ChannelFlow.AcceptedBodiesFit` | src/channel.rs:179-187 | the maxima that opening a channel accepts make every body up to the accepted maximum fit while nothing was lost |
| `ChannelFlow.UsableIsExact` | src/channel.rs:179-187 | the maxima are accepted if and only if the largest body is positive, within the track's limit, and every body up to it fits an empty window |
| `ChannelFlow.HoldingTheLockDeadlocks` | src/channel.rs:741-747 | the variant that keeps the flow lock across the write has a run, with usable maxima and no loss, in which no party can move |
| `ChannelFlow.SharedFlow.Admit` | src/channel.rs:723-765 | one turn of the admission loop: broken when the session or the channel is closed, charged exactly when both totals stay within the maxima, otherwise unchanged with the thread asleep on the condition variable |
| `ChannelFlow.SharedFlow.RaiseMaxima` | src/channel.rs:977-984 | a credit record raises each maximum to at least its own, lowers neither, and leaves nobody asleep |
| `ChannelFlow.SharedFlow.RequiredForReuse` | src/channel.rs:317-324 | the barrier waits for the initial window on top of everything sent, and fails instead of wrapping around |
| `ChannelFlow.SharedFlow.TestReuse` | src/channel.rs:325-346 | one turn of the barrier: failed when the session or the channel is closed, passed exactly when both maxima suffice, otherwise asleep |
| `ChannelFlow.SharedFlow.Close` | src/channel.rs:647-652 | closing marks the flow, leaves nobody asleep and touches nothing else |
| `ChannelRecovery.NeedIsExact` | src/channel.rs:985-1009 | recovery is needed exactly while some demand (opening, keyframe, full frame, flush) has not been answered by a recovery unit validated after it |
| `ChannelRecovery.EarlierSendsCannotClear` | src/channel.rs:675-710 | a send validated before a demand can never clear it, whatever happens in between |
| `ChannelRecovery.UnansweredDemandsHold` | src/channel.rs:985-1009 | an unanswered demand keeps recovery needed and the minimum epoch at or above its own |
| `ChannelRecovery.EveryRecordMeetsTheDemands` | src/channel.rs:666-680 | every record validated while a demand is unanswered is a recovery unit of at least the demanded epoch |
| `ChannelRecovery.RecoveryUnitPassesExactly` | src/channel.rs:668-680 | in every run a recovery unit passes if and only if the stream has not ended and no demand above its epoch stands |
| `ChannelRecovery.OrdinaryRecordPassesExactly` | src/channel.rs:668-680 | in every run any other record passes if and only if the stream has not ended and a recovery unit, with nothing requested since it was validated, has been merged since the last opening, request or flush |
| `ChannelRecovery.RefusalsComeInOrder` | src/channel.rs:668-680 | which refusal comes, from the steps of the run: the end of the stream first, then the need, then the epoch |
| `ChannelRecovery.WillClearIsExact` | src/channel.rs:705-710 | the send in flight clears the need when it is merged if and only if it is a recovery unit and nothing has been requested since it was validated |
| `ChannelRecovery.RevisionsCountRequests` | src/channel.rs:985-1009 | revisions count the requests up to 2^64 - 1, and the stream can be ended once between any two sends |
| `ChannelRecovery.FirstUnitPassesExactly` | src/channel.rs:236-245 | while only the reader has acted on a new generation, a recovery unit of at least the opening epoch passes if and only if no keyframe above its epoch has been asked for |
| `ChannelRecovery.KeyUnitCanBeAskedAway` | src/channel.rs:985-998 | a run in which the reader asks for a keyframe above the epoch of the first record, which is refused |
| `ChannelRecovery.FirstRecordRecovers` | src/channel.rs:213-221 | the first record written on a generation is a recovery unit |
| `ChannelRecovery.EndOfStreamIsLast` | src/channel.rs:612-645 | the end of a stream names the record written last, and no record follows it |
| `ChannelRecovery.FlushIsForgottenExactly` | src/track.rs:743-747 | a flush can go unanswered and yet be cleared, in some continuation, if and only if a recovery unit validated at the current revision is in flight when it comes |
| `ChannelRecovery.FlushCanBeForgotten` | src/track.rs:743-747 | a run in which that happens, after which a record that is no recovery unit is accepted |
| `ChannelRecovery.FlushUndercutsExactly` | src/track.rs:743-747 | a flush lets some continuation validate a record below an unanswered demand's epoch if and only if the flushed epoch is below it, the stream has not ended and no written recovery unit is about to answer; whatever send is in flight |
| `ChannelRecovery.FlushCanUndercut` | src/track.rs:743-747 | a run in which that happens while a send is in flight |
| `ChannelRecovery.ChannelMedia.Validate` | src/channel.rs:668-680 | the refusals of a send in their order, and the revision snapshot otherwise |
| `ChannelRecovery.ChannelMedia.MergeSent` | src/channel.rs:705-710 | only a recovery unit of the current revision clears the need and sets the minimum epoch |
| `ChannelRecovery.ChannelMedia.HandleNeedKeyframe` | src/channel.rs:985-998 | a keyframe request counts a revision and raises the minimum epoch, or reports exhaustion and changes nothing |
| `ChannelRecovery.ChannelMedia.HandleNeedFullFrame` | src/channel.rs:1000-1009 | a full-frame request counts a revision and leaves the minimum epoch |
| `ChannelRecovery.ChannelMedia.ApplyFlush` | src/track.rs:743-747 | a flush demands recovery at its epoch without counting a revision |
| `ChannelRecovery.ChannelMedia.MarkEos` | src/channel.rs:612-645 | the end of a stream is accepted once, names the last merged record, and is marked only if its record is written |
| `ChannelSend.TrackChannel.SendMedia` | src/channel.rs:654-711 | the checks come in the source's order, a refused send changes nothing, a failed write keeps its charge only, and a success merges into both track and channel |
| `ChannelSend.OutcomeIsExact` | src/channel.rs:654-768 | for every history of the generation and every state of track and flow: exactly when a send succeeds, and exactly when it fails in each way |
| `ChannelSend.SendRunsRecovery` | src/channel.rs:654-711 | what a successful send does to the media state is a run of the recovery machine, so everything proved of its runs holds of sends |
| `ChannelSend.SendRunsTrack` | src/channel.rs:692-703 | what it does to the track is a run of the track machine, with flushes and opens untouched |
| `ChannelSend.SendRunsFlow` | src/channel.rs:735-747 | what it does to the flow is a run of the flow machine when the forward direction has room |
| `TrackMedia.ProgressIsNeverLost` | src/track.rs:65-78 | the track's last ID never decreases in any interleaving of sends, status merges, advances, opens and flushes |
| `TrackMedia.LastRecordIsExact` | src/track.rs:65-78 | in every run the record number is the highest merged since the generation last changed, where an advance starts from zero and a status of another generation from its own number |
| `TrackMedia.TraceIsExact` | src/channel.rs:692-703 | what is written on a channel is the record that was checked there last, so the trace can be read off the steps |
| `TrackMedia.EachChannelIsOrdered` | src/channel.rs:692-703 | on every generation written IDs strictly increase and epochs never decrease, under any interleaving with rising flushes |
| `TrackMedia.WholeTraceIsOrdered` | src/channel.rs:223-245 | the concatenated trace of all generations is ordered if each channel was opened after the earlier sends had finished |
| `TrackMedia.OpenIsSafeExactly` | src/channel.rs:223-245 | opening a channel keeps the whole trace ordered in every continuation, IDs unbounded, if and only if no earlier send is charged or written beyond what the track has merged |
| `TrackMedia.OpenIsSafeInRange` | src/channel.rs:223-245 | in every continuation of 64-bit IDs it does if and only if that holds or the last ID has been reached |
| `TrackMedia.UnsettledOpenBreaksOrder` | src/channel.rs:882-944 | otherwise a continuation out of order exists, within 64-bit IDs whenever the track has one left |
| `TrackMedia.GenerationsCanOverlap` | src/channel.rs:882-944 | a run in which two generations write the same ID, the old send charged before the channel advanced |
| `TrackMedia.FlushKeepsOrderExactly` | src/track.rs:729-742 | the delayed assignment of a flush lets some continuation, its own flushes rising and IDs unbounded, write a channel out of order if and only if the channel is open, has written beyond the flushed epoch, and has no written send left to merge |
| `TrackMedia.FlushKeepsOrderInRange` | src/track.rs:729-742 | a continuation of 64-bit IDs does if and only if that holds and the track has an ID left |
| `TrackMedia.FlushCanBeOvertaken` | src/track.rs:729-742 | a run in which that happens while the next send is under way |
| `TrackMedia.AtomicFlushesRise` | src/track.rs:729-742 | if every flush of a run takes effect at once, all its flushes rise, so the order results need no further condition |
| `TrackMedia.RecoverySucceeds` | src/pipeline.rs:286-317 | from any state in which the earlier sends have finished, advancing, reopening and sending the next ID is possible, within 64 bits if an ID is left, keeps the whole trace ordered, and leads to such a state again |
| `TrackMedia.ExhaustionIsFinal` | src/track.rs:51-63 | once the last 64-bit ID has been reached, by a send or by a status, no send is ever accepted again |
| `TrackMedia.MediaSequence.AcceptNext` | src/track.rs:51-63 | zero, repeated and lower IDs and lower epochs are refused and change nothing |
| `TrackMedia.MediaSequence.MergeSent` | src/channel.rs:697-704 | a finished send merges as a component-wise maximum |
| `TrackMedia.MediaSequence.ReconcileStatus` | src/track.rs:65-78 | a status merges as a maximum, except that a changed generation replaces the record number |
| `MergeHistory.SendStillPassesExactly` | src/track.rs:51-78 | a record that the sequence would let through at one point of a run is let through later if and only if no send or status merged in between has reached its ID, and none merged since the last flush, nor that flush, has passed its epoch |
| `MergeHistory.KeyUnitIsSafeExactly` | src/channel.rs:692-704 | while only senders of earlier channels act, a record passes the sequence check in every continuation, or every one of 64 bits, if and only if none of them is charged or written at its ID or beyond or above its epoch |
| `MergeHistory.EarlierSendsStayBehind` | src/channel.rs:692-704 | in that case earlier senders bring nothing to the sequence that could refuse the record, whatever statuses and flushes come, until another channel is opened |
| `MergeHistory.OnlyTheLatestIsOpen` | src/channel.rs:223-245 | in every run only the channel opened last can be open, and only as the active one |
| `MergeHistory.OpenIsExact` | src/channel.rs:223-245 | in every run a channel is open if and only if it has been opened and, since, neither closed nor left behind by an advance or by a status of another generation |
| `MergeHistory.OpenIsAllowedExactly` | src/channel.rs:230-239 | in every run a channel can be opened if and only if no flush is under way and none of the channels opened stays open |
| `MergeHistory.FlushIsAllowedExactly` | src/track.rs:729-736 | in every run a flush can begin if and only if none is under way and its epoch is above the last flush's and every epoch merged since |
| `MergeHistory.SendIsAllowedExactly` | src/channel.rs:692-693 | in every run the sequence lets a send of an idle channel through if and only if its ID is above every ID merged and its epoch not below the last flush's nor any merged since |
| `TrackRecovery.RecoveryIsExact` | src/pipeline.rs:286-317 | over all runs in which the reader and earlier generations act between opening, choosing and sending: the sender is handed out if and only if no keyframe above the key unit's epoch was asked for, no merge since the choice has reached its ID or passed its epoch, the track is a video track with two IDs left, and session, flow and transport allow the send |
| `TrackRecovery.KeyUnitCanBeOvertaken` | src/pipeline.rs:294-312 | a run in which the last record of the old generation is merged after the ID was chosen, and the track refuses the key unit |
| `TrackRecovery.ChooseKeyUnit` | src/pipeline.rs:294-302 | the next ID at the current epoch, at least 1, or exhaustion |
| `TrackRecovery.SendKeyUnit` | src/pipeline.rs:303-312 | from any state of channel and track: a track that is no video track refuses first, a refusal leaves the sequence alone, and a success merges the key unit |
| `TrackRecovery.RecoverChannel` | src/pipeline.rs:286-317 | the whole recovery, undisturbed between its sections: what every outcome leaves in the track's sequence, and the sender a success returns |
| `TrackRecovery.UndisturbedRecoveryIsExact` | src/pipeline.rs:286-317 | an undisturbed recovery succeeds if and only if the generation advances and opens, the track is a video track with two IDs left, and the key unit fits the new window and is written in an active session; the key unit is written in just these cases, or when its own ID is the last one, and the track's sequence moves to it then and only then |
| `TrackRecovery.TrackSender.NextPacketId` | src/pipeline.rs:225-227 | the counter moves to, and hands out, the next value of 64 bits, zero after the last |
| `TrackRecovery.TrackSender.BumpEpoch` | src/pipeline.rs:228-230 | the epoch moves to the next value of 32 bits |
| `TrackRecovery.HandedIdsAreDistinct` | src/pipeline.rs:225-227 | no ID is handed out twice within 2^64 consecutive calls |
| `RecoveredSender.SenderContinues` | src/pipeline.rs:282-285 | over every later run in which only this sender sends on the new channel, with IDs drawn and epochs held at any time: the next ID handed out passes if and only if the counter has not wrapped around, nothing that others have merged since the key unit's ID was chosen has reached it, and nothing that they have merged since the last flush, nor that flush, has passed the sender's epoch |
| `RecoveredSender.SenderPassesExactly` | src/pipeline.rs:205-232 | the same for counters that have wrapped around any number of times, the sender's own merges counted |
| `RecoveredSender.SettledSenderContinues` | src/pipeline.rs:282-285 | if no earlier send was ahead of the key unit and no channel has been opened since, only statuses and flushes can refuse the next ID |
| `RecoveredSender.RefusalEndsExactly` | src/pipeline.rs:225-230 | a refusal ends with exactly as many further draws and epoch bumps as the sender is behind in ID and in epoch |
| `RecoveredSender.RecoveryBringsSender` | src/pipeline.rs:205-212 | the sender that a recovery hands out starts such a life: its counters give the ID after the key unit and the key unit's epoch |
| `RecoveredSender.FlushedSenderIsRefused` | src/track.rs:742 | a run in which an atomic flush to epoch 3 makes the next record move the epoch backward; one bump does not help and two do |
| `RecoveredSender.OvertakenSenderIsRefused` | src/track.rs:65-78 | a run in which a status ahead of the sender makes the next ID too low |
| `RecoveredSender.WrappedIdIsRefused` | src/pipeline.rs:225-227 | a run in which a track near the end of the ID space is recovered, gets the last ID through, and then its sender hands out zero, which is refused |
| `DeltaChain.DeltasNameTheirPredecessor` | src/channel.rs:547-556 | with one sender and honest status every delta written names the record immediately before it on the generation |
| `DeltaChain.BaseIsTheLastRecord` | src/channel.rs:547-556 | whenever a delta may be built, the base it must name is the last record of this very generation |
| `DeltaChain.DeltaIsBuiltExactly` | src/channel.rs:547-556 | between sends a delta may be built if and only if no recovery is needed and its base is the last record of this generation |
| `DeltaChain.ReplayIsFaithful` | src/channel.rs:454-473 | after every record, replaying the trace shows the picture the producer meant |
| `RequestTable.NoRequestIsStranded` | src/session.rs:229-271 | once a closer has drained, the table stays empty and every inserted request has its answer waiting or about to be sent |
| `RequestTable.ControlRequestsAreAnswered` | src/session.rs:787-850 | on the control plane every request that waits when the reader has drained can return at once |
| `RequestTable.RepliesAreOwnAndUnique` | src/session.rs:810-822 | a reply carries the requester's own ID, a channel carries at most one message, and no live ID is allocated twice |
| `RequestTable.OpenConnectionAdmits` | src/session.rs:229-252 | in every run both checks let a request through, and insert it beside any others, if and only if nobody has raised the flag |
| `RequestTable.ClosedMeansFlagged` | src/session.rs:229-252 | no request is told that the connection is closed unless somebody has closed it |
| `RequestTable.AnswersAreExact` | src/session.rs:262-271 | a waiting requester can receive if and only if the reader has sent on its entry, and then it gets its own reply, or a drain has found the entry in the table, and then it gets the diagnostic; until then its entry is in the table or in the reader's hands |
| `RequestTable.UnmatchedReplyStopsReader` | src/session.rs:810-822 | a reply is taken if and only if its request is in the table; any other ends the reader's loop |
| `RequestTable.ClosersAreExact` | src/input.rs:443-452 | a thread closes once: it raises the flag at any time and drains the table after that |
| `RequestTable.AllocationIsExact` | src/session.rs:756-762 | IDs are handed out one by one from 2 up until the counter cannot advance |
| `RequestTable.RequestersFinishAlone` | src/input.rs:158-186 | after a drain and with the reader stopped every requester returns within four steps of its own |
| `RequestTable.RunsKeepInvariant` | src/input.rs:443-460 | the table, the reader and every requester agree on where each answer is, in every run of any number of closers and requesters |
| `RequestTable.PendingRequests.Insert` | src/session.rs:238-252 | under the table lock: inserted if and only if the flag is down and the ID is not live, with the flag reported first |
| `RequestTable.PendingRequests.FailAll` | src/input.rs:454-460 | draining sends the diagnostic to every entry exactly once and leaves the table empty |
| `RequestTable.PendingRequests.Close` | src/input.rs:443-452 | closing raises the flag before it drains |
| `SessionLifecycle.NoFlowEscapesClose` | src/session.rs:161-206 | from the moment a close has returned, every flow ever registered is marked closed or has no holder left |
| `SessionLifecycle.LateRegistrationIsRefused` | src/session.rs:161-169 | a registration whose outcome is open when a close has returned can only be refused |
| `SessionLifecycle.EverySenderIsWokenAndFails` | src/channel.rs:724-765 | when a close has returned no sender sleeps on any flow, and whatever the window would allow, a sender that takes its turn fails |
| `SessionLifecycle.OpenSessionRegisters` | src/session.rs:161-169 | in every run both checks of a registration pass if and only if no close has begun, and a registration past them gets into the registry |
| `SessionLifecycle.FlowsAreCreatedOnce` | src/session.rs:161-169 | any flow can be opened, once, whatever the session does |
| `SessionLifecycle.SendersAreDecidedExactly` | src/channel.rs:723-761 | in every run a sender fails if and only if a close had begun when it took the flow lock or its flow has been closed; otherwise it is admitted if the window allows it and sleeps if not |
| `SessionLifecycle.CloseReturns` | src/session.rs:179-206 | while no other thread takes a lock, closers and lock holders take at most a computed number of steps, whatever else happens, and when none of them can move every close has returned |
| `SessionLifecycle.CloseIsNeverStuck` | src/session.rs:179-206 | the locks never deadlock: a thread inside close can move, or the thread holding the lock it needs can |
| `SessionLifecycle.RunsKeepInvariant` | src/session.rs:161-206 | locks, registry and senders agree in every interleaving of registrations, closes, drops and sends |
| `SessionLifecycle.Lifecycle.RegisterTrackFlow` | src/session.rs:161-169 | run sequentially: refused with nothing changed if and only if the session is closed; otherwise exactly the live flows stay, in their order and as often as they occurred, and the new one comes last |
| `SessionLifecycle.Lifecycle.LosingFlowsKeepsValid` | src/session.rs:161-169 | flows that die between the calls do not disturb the registry: no live registered flow is missing from it |
| `SessionLifecycle.Lifecycle.Close` | src/session.rs:179-206 | every flow ever registered that is still alive is closed, keeps its first diagnostic and loses all its sleepers; the dead ones are dropped untouched |
| `QueueMonitor.WakeupsAreNeverLost` | src/pipeline.rs:89-133 | in every reachable state awakened consumers cover the queued items while a consumer sleeps, awakened producers cover the free slots while a producer sleeps, and after close nobody sleeps |
| `QueueMonitor.AwakenedThreadsSettleTheQueue` | src/pipeline.rs:89-133 | the awakened threads need at most two turns per blocked thread, and then nobody sleeps beside an item or a free slot |
| `QueueMonitor.ContentsAreFifo` | src/pipeline.rs:89-127 | accepted pushes are exactly the popped items followed by the queue, and drops count exactly the refusals of a full open queue |
| `QueueMonitor.TurnsAreExact` | src/pipeline.rs:89-127 | what every turn of every run answers, from the calls before it: a push is refused if and only if the queue was closed, waits or is dropped if and only if it is open and full, and is accepted otherwise; a pop delivers the oldest item if there is one, ends if the queue was closed, and waits otherwise |
| `QueueMonitor.BlockedThreadsAreExact` | src/pipeline.rs:89-127 | the threads on the condition variables are exactly those whose latest turn went to wait there, and a producer that resumes pushes the item it was called with |
| `QueueMonitor.EveryCallCanBeMade` | src/pipeline.rs:89-133 | a thread that does not wait can push or pop at any time, and anybody can close |
| `QueueMonitor.ClosedIsFinal` | src/pipeline.rs:128-133 | a closed queue stays closed and accepts nothing more |
| `QueueMonitor.EndComesAfterEverything` | src/pipeline.rs:115-127 | a consumer is told of the end only after every accepted item, those queued at close included, has been delivered in order |
| `QueueMonitor.BoundedQueue.PushBlocking` | src/pipeline.rs:89-100 | one turn of a blocking push is the specified turn, with some sleeper notified if there is one |
| `QueueMonitor.BoundedQueue.PushNonblocking` | src/pipeline.rs:101-114 | a nonblocking push refuses on a closed or full queue and counts only the latter |
| `QueueMonitor.BoundedQueue.Pop` | src/pipeline.rs:115-127 | one turn of a pop is the specified turn |
| `QueueMonitor.BoundedQueue.Close` | src/pipeline.rs:128-133 | closing wakes every sleeper of both condition variables |
| `RateControl.ReachableTargetsAreValid` | src/pipeline.rs:778-786 | every reachable target lies between the floor and the configured rate and is one of them or a whole number of steps |
| `RateControl.DeliveringNeverDecays` | src/pipeline.rs:748-775 | no run of windows that deliver 90% of the target lowers it, whatever the transport share |
| `RateControl.ClimbIsExact` | src/pipeline.rs:741-786 | sixteen uncongested windows reach the configured rate from everywhere if and only if an eighth of it is a step or the first step from the floor reaches it |
| `RateControl.SixteenWindowsSuffice` | src/pipeline.rs:741-786 | under that condition the target is the configured rate after sixteen uncongested windows and stays there |
| `RateControl.CongestionLowers` | src/pipeline.rs:754-775 | a congested window strictly lowers any target above the floor, to at most seven eighths of what the link carried |
| `RateControl.QuantizedIsLargest` | src/pipeline.rs:778-786 | a candidate becomes the largest target that does not exceed it, or the floor |
| `RateControl.BackOffIsGeometric` | src/pipeline.rs:754-775 | n congested windows leave at most (7/8)^n of the start, or the floor |
| `RateControl.BackOffIsLogarithmic` | src/pipeline.rs:754-775 | six congested windows for each doubling of the floor that the start is above it reach the floor |
| `RateControl.AnyRateReachesFloor` | src/pipeline.rs:754-775 | 276 congested windows reach the floor from any 64-bit rate |
| `RateControl.VideoRateControl.Poll` | src/pipeline.rs:679-703 | a window before its time changes nothing; a due one moves the target exactly as its sends and its time demand, starts an empty window and reports exactly a change |
| `RateControl.DeliveryIsDecidedByTheTotal` | src/pipeline.rs:724-753 | whether a window delivers is decided by the total of its sends against 90% of the target over the time elapsed |
| `RateControl.ShareIsDecidedByTheTotal` | src/pipeline.rs:729-734 | a window is over the congestion share if and only if its sends spent a tenth of it in the transport, and under the uncongested share if and only if less than three hundredths |
| `RateControl.DecisionIsExact` | src/pipeline.rs:741-786 | the next target from bytes, durations and backlog alone: the largest within seven eighths of what the link carried when congested, the largest within an eighth of the configured rate above when uncongested, the same otherwise |
| `RateControl.HalfBlockedLowers` | src/pipeline.rs:729-775 | a window half blocked that delivered a fifth of 4 Mbit/s lowers the target to 500 kbit/s |
| `RateControl.DeliveringSendsKeepTheTarget` | src/pipeline.rs:679-703 | sends that carry 90% of the target between two decisions never see it lowered while audio flows, however long they were blocked |
| `RateControl.VideoRateControl.ObserveSend` | src/pipeline.rs:654-672 | a send joins the open window, whose byte and pressure totals are the exact sums over its sends up to saturation |
| `ContainFit.PlacementIsContained` | src/scene.rs:480-540 | every validated input on fewer than 2^31 columns and rows is placed inside the grid, centred, with one dimension filled |
| `ContainFit.FitFills` | src/scene.rs:499-521 | the fit fills one pixel dimension and misses the source aspect by less than one pixel in the other |
| `ContainFit.FitIsMaximal` | src/scene.rs:499-521 | no rectangle of exactly the source aspect that fits is larger in either dimension |
| `ContainFit.FailuresAreExact` | src/scene.rs:480-540 | a call is degenerate exactly on invalid input, and overflows exactly when, by a comparison of products of columns, rows, cell and source sizes, the picture would fill 2^31 columns or rows |
| `ContainFit.ValidInputCanOverflow` | src/scene.rs:480-540 | a valid input that is refused as an overflow |
| `ContainFit.FullIsNeverSmaller` | src/scene.rs:462-478 | giving up the status row never makes the picture smaller |
| `TargetTruth.TruthIsAFunctionOfItsGeneration` | src/resume.rs:45-85 | over every run the pair of generation and settled flag strictly grows with each accepted payload, and snapshots of one generation have identical geometry |
| `TargetTruth.AcceptanceIsExact` | src/resume.rs:45-85 | a payload is accepted exactly when it is well formed and its pair is above the snapshot's, with identical geometry when the generation is reused; the new snapshot has the generation under key 9 and the payload's descriptor |
| `TargetTruth.RefusalIsExact` | src/resume.rs:45-85 | why a payload is refused: keys, fields, zero generation, descriptor, backward generation, reused generation, in this order |
| `TargetTruth.PayloadIsExact` | src/wire.rs:162-182 | a payload is well formed if and only if it is a descriptor of the profile followed by a generation that is not zero and a reason |
| `TargetTruth.DescriptorsAreExact` | src/target.rs:71-110 | terminal descriptors are nine entries written out one by one, desktop descriptors are those the decoder takes, and no other profile has any |
| `TargetTruth.SettleFlagIsExact` | src/target.rs:111-138 | the settle flag is entry 5 of a desktop and 6 of a terminal descriptor, and the geometry is everything else |
| `TargetTruth.DescriptorIsCanonical` | src/wire.rs:162-182 | the cached descriptor is exactly the leading entries of the payload and carries exactly the canonical keys |
| `TargetTruth.AcceptedIsCanonical` | src/target.rs:111-138 | every accepted snapshot carries exactly the keys of its profile |
| `TargetTruth.SnapshotsStayValid` | src/target.rs:71-110 | no descriptor that the validator would refuse is ever cached |
| `TargetTruth.Session.ApplyTargetChanged` | src/resume.rs:45-85 | a refused payload changes nothing and an accepted one installs exactly its generation and descriptor |
| `InputGuard.IssuedEpochsIncrease` | src/guard.rs:120-182 | every binding issued carries a greater producer epoch than all before it |
| `InputGuard.RenewalsIncrease` | src/guard.rs:220-250 | accepted renewals carry strictly increasing sequences over the guard's whole life |
| `InputGuard.DeadlineComesFromRenewal` | src/guard.rs:220-262 | a deadline is set exactly when a renewal was accepted since the grant was last ended, and is that renewal's time plus its registered watchdog |
| `InputGuard.ArmedIsExact` | src/guard.rs:82-87 | the guard is armed exactly while a grant is active and its last renewal has not run out |
| `InputGuard.ExpiredStaysDisarmed` | src/guard.rs:82-87 | once the deadline has passed, nothing re-arms the guard until a call ends the grant |
| `InputGuard.GrantIsCurrentExactly` | src/guard.rs:88-101 | while a grant is active its events carry the tag granted by the last enabling INPUT_BOUND if and only if no binding has been issued since, and otherwise a later epoch |
| `InputGuard.GrantCanBeStale` | src/guard.rs:120-168 | a run in which a second enable leaves the guard armed, and renewable, under an epoch that no INPUT_BOUND granted |
| `InputGuard.ClearingAllowsANewGrant` | src/guard.rs:120-218 | ending the grant and enabling anew does re-arm an expired guard, so the condition is needed |
| `InputGuard.EnableIsExact` | src/guard.rs:120-168 | over every run an enable is accepted if and only if its values are valid, the preconditions set last allow it and an epoch is left; the binding issued carries the request's own values and the next epoch |
| `InputGuard.DisableIsExact` | src/guard.rs:170-183 | a disable is accepted until the epochs run out, and its binding names the next epoch, the reason and nothing else |
| `InputGuard.BoundIsExact` | src/guard.rs:184-218 | a reply is accepted if and only if it carries the number of bindings issued, a registered state and, when it enables, valid fields |
| `InputGuard.RenewalIsExact` | src/guard.rs:220-250 | a renewal is accepted if and only if a grant is active whose watchdog it repeats, its sequence is above the last accepted, the last deadline has not passed and its own does not overflow |
| `InputGuard.TagIsExact` | src/guard.rs:88-101 | the tag of events is the last epoch issued, the generation of the last grant, and context, surface and generation of the last accepted enable |
| `InputGuard.InputBindingGuard.EnableForContext` | src/guard.rs:120-168 | a refused enable changes nothing; an accepted one issues the next epoch |
| `InputGuard.InputBindingGuard.AcceptBound` | src/guard.rs:184-218 | a stale or mismatched reply changes nothing |
| `InputGuard.InputBindingGuard.AcceptRenewal` | src/guard.rs:220-250 | a late, reordered or overflowing renewal changes nothing |
| `Crc32.BurstsAreDetected` | node/index.mjs:143-152 | byte strings that differ only within four consecutive bytes have different checksums |
| `Crc32.TableDrivenAgrees` | node/index.mjs:143-152 | the bit-by-bit checksum is the one that the table-driven code of section 15 of RFC 2083 computes |
| `Crc32.CheckValue` | node/index.mjs:143-152 | the checksum of the digits from 1 to 9 is 0xcbf43926 |
| `Crc32.ComputeCrc32` | node/index.mjs:143-152 | the nested loops compute the specified checksum |
| `Png.FileHoldsImage` | node/index.mjs:114-141 | a reader of the format that verifies every checksum gets back exactly the image that was written |
| `Png.HeaderParserAgrees` | src/pane.rs:362-367 | the producer's own header parser reads the size of the image off the file |
| `Png.FileIsWrittenExactly` | node/index.mjs:114-141 | a file is written if and only if width, height and the deflated rows can be expressed in four bytes |
| `Png.FileIsLaidOut` | node/index.mjs:114-141 | the file byte by byte: the signature, a thirteen-byte header that says eight bits a sample and colour type RGBA, the data, and an empty end, each framed by length and checksum |
| `Png.DamageIsRejected` | node/index.mjs:134-141 | a chunk with up to four consecutive bytes of type and data altered fails its checksum |
| `Png.ChunksAreReadBack` | node/index.mjs:134-141 | any list of chunks is read back from its bytes |
| `Png.EncodePng` | node/index.mjs:114-132 | the row loop and the chunk writer produce the specified file or refuse a value beyond 32 bits |
| `Scanlines.FilterRows` | node/index.mjs:115-121 | the row loop fills the buffer with exactly the rows, each preceded by filter type 0 |
| `Scanlines.RowsAreUnfiltered` | node/index.mjs:115-121 | reading the rows back gives exactly the data |
| `Scanlines.RowIsInPlace` | node/index.mjs:115-121 | each row starts at a multiple of the stride plus one with the filter type, and its bytes follow |
| `Png.PngChunk` | node/index.mjs:134-141 | a chunk is laid out as section 3.2 of RFC 2083 requires |
| `Png.RenderRgba` | node/index.mjs:104-112 | invalid dimensions and lengths are refused in this order, and everything else is encoded |
| `Png.ValidationIsExact` | node/index.mjs:104-112 | dimensions are refused unless they are positive safe integers, and then a length unless it is four bytes a pixel and itself safe |
| `ImageHeader.EncodedImageInfo` | src/pane.rs:362-401 | the offset loop computes the specified result |
| `ImageHeader.JpegIsExact` | src/pane.rs:368-396 | a JPEG of a size is reported exactly for a start marker, skippable markers and segments, and a frame header of that size |
| `ImageHeader.PngIsExact` | src/pane.rs:363-367 | a PNG of a size is reported exactly for the signature and that size in its place |
| `ImageHeader.RefusalIsExact` | src/pane.rs:370-401 | each refusal is reported exactly for its kind of first unskippable element |
| `ImageHeader.MarkersAreExact` | src/pane.rs:370-384 | frame headers are the markers 192 to 195 and the markers that stand alone are 216 and 217 |
| `ImageHeader.SmallJpegIsRead` | src/pane.rs:368-396 | a JPEG byte by byte: height, then width, after a segment and a marker that stands alone |
| `ImageHeader.SmallPngIsRead` | src/pane.rs:363-367 | a PNG byte by byte: width, then height, after the signature and eight bytes |
| `Bytes.BytesAreBigEndian` | src/pane.rs:363-367 | the first of four bytes is the highest, and four bytes are one integer only |

## Left out

- Sockets, threads as operating-system objects, timers, zstd, deflate and trace files: only their abstract steps are modelled.
- The handshake, key derivation, tags and nonces: their cryptography is not part of this model.
- CBOR and envelope encoding, `FileTransferFlow`, `TokenBucket` and `InputGate` live in another crate and are not part of this model.
- `wait_for_rate`: a poll of an unseen token bucket, which can only delay a send.
- `send_image` and encoded-image tracks: one record per generation, a special case of the media send.
- Lock poisoning, and the event queues with their bounds: the cores do not depend on them.
- The order of lane events after an explicit close of the input lane: the reader may still push one.
- Controller, lease, surface, orchestration and configuration requests: each sends one request and compares the fields of its reply.
- The Python, asyncio and Node session facades and `PaneSession` orchestration: thin wrappers.
- `LatestFrame` and the send-pressure counters outside the rate control: single-branch code.
- RecoveredSender.SenderContinues: assumes fewer than 2^64 draws and an epoch counter that has not wrapped around; RecoveredSender.SenderPassesExactly does without.
- RecoveredSender.WrappedIdIsRefused: models the wrap-around of an optimised build; a debug build stops instead.
- TrackRecovery.RecoverChannel: undisturbed, so nothing acts between its sections; what the presenter and the transport answer is a parameter, and a key unit that would have to wait for flow ends the call instead of sleeping in it.
- ChannelFlow.FittingSendIsAdmitted: lost credit after a failed write is counted, but the closing that usually follows a failed write is left to the separate close step.
- Png.EncodePng: buffer allocation is taken to succeed.
- Png.RenderRgba: dimensions are integers; a number that is not one is refused by the source's first check.
- QueueMonitor.ContentsAreFifo: the count of dropped items is unbounded, where the source has 64 bits.

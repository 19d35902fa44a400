/** Recovering a detached channel: advance, reopen, send a key unit, and hand out a sender that
    continues the track's sequence.

    The control thread is inside the call all the while, and the new channel is not handed out
    before its end. Between the sections of the call the new channel's reader and the sends of
    earlier channels may act. */
module TrackRecovery {
  import opened Integers
  import opened MergeHistory
  import opened TrackMedia
  import opened Wrappers
  import ChannelFlow
  import ChannelRecovery
  import ChannelSend

  /** The number of values of a 64-bit counter. */
  const U64_VALUES := U64_MAX + 1

  datatype Failed = NotAdvanced | NotOpened | IdsExhausted | NotVideo | NotSent(error: ChannelSend.Error)

  /** What the presenter and the transport answer: whether the generation advances, the flow
      window of the new channel, whether the session is still active for the send, and the record
      number of the key unit. */
  datatype Answers = Answers(advances: bool, window: Option<ChannelFlow.Amount>, active: bool, written: Option<nat>)

  // ------------------------------------------------------------------------------------------
  // The sender's counter
  // ------------------------------------------------------------------------------------------

  function Successor(id: nat): nat { (id + 1) % U64_VALUES }

  /** What the counter holds, and the last call returned, after n more calls. */
  function Handed(last: nat, n: nat): nat { if n == 0 then last else Successor(Handed(last, n - 1)) }

  /** The shared counters of a sender. Atomic additions wrap around. */
  class TrackSender {
    var lastPacketId: nat
    var epoch: nat

    ghost predicate Valid()
      reads this
    {
      lastPacketId <= U64_MAX && epoch <= U32_MAX
    }

    constructor Seeded(nextPacketId: nat, epoch: nat)
      requires nextPacketId <= U64_MAX && epoch <= U32_MAX
      ensures Valid() && this.epoch == epoch
      ensures lastPacketId == if nextPacketId == 0 then 0 else nextPacketId - 1
    {
      lastPacketId := if nextPacketId == 0 then 0 else nextPacketId - 1;
      this.epoch := epoch;
    }

    method NextPacketId() returns (id: nat)
      requires Valid()
      modifies this`lastPacketId
      ensures Valid() && id == lastPacketId == Handed(old(lastPacketId), 1)
      ensures id == if old(lastPacketId) == 0xFFFF_FFFF_FFFF_FFFF then 0 else old(lastPacketId) + 1
    {
      lastPacketId := (lastPacketId + 1) % U64_VALUES;
      id := lastPacketId;
    }

    method BumpEpoch() returns (bumped: nat)
      requires Valid()
      modifies this`epoch
      ensures Valid() && bumped == epoch == if old(epoch) == 0xFFFF_FFFF then 0 else old(epoch) + 1
    {
      epoch := (epoch + 1) % (U32_MAX + 1);
      bumped := epoch;
    }
  }

  lemma {:induction false} HandedInClosedForm(last: nat, n: nat)
    requires last <= U64_MAX
    ensures Handed(last, n) == (last + n) % U64_VALUES
  {
    if n > 0 {
      HandedInClosedForm(last, n - 1);
      ModularSuccessor(last + n - 1);
    }
  }

  lemma ModularSuccessor(a: nat)
    ensures (a % U64_VALUES + 1) % U64_VALUES == (a + 1) % U64_VALUES
  {}

  /** No ID is handed out twice within 2^64 consecutive calls. */
  lemma HandedIdsAreDistinct(last: nat, m: nat, n: nat)
    requires last <= U64_MAX && m < n < m + U64_VALUES
    ensures Handed(last, m) != Handed(last, n)
  {
    HandedInClosedForm(last, m);
    HandedInClosedForm(last, n);
    ResiduesDiffer(last + m, n - m);
  }

  lemma ResiduesDiffer(a: nat, d: nat)
    requires 0 < d < U64_VALUES
    ensures a % U64_VALUES != (a + d) % U64_VALUES
  {
    var r := a % U64_VALUES;
    assert (a + d) % U64_VALUES == (r + d) % U64_VALUES;
    assert (r + d) % U64_VALUES == if r + d < U64_VALUES then r + d else r + d - U64_VALUES;
  }

  // ------------------------------------------------------------------------------------------
  // The sections of a recovery
  // ------------------------------------------------------------------------------------------

  /** The ID and the epoch of the key unit, from the track's sequence once the channel is open. */
  function Choose(q: Sequence): Result<(nat, nat), Failed> {
    if q.lastId >= U64_MAX then Failure(IdsExhausted) else Success((q.lastId + 1, Max(q.lastEpoch, 1)))
  }

  /** What comes of sending the key unit, in whatever state the channel and the track are by then. It
      goes out as a video packet, which a track of another kind refuses. */
  function KeyUnitSent(video: bool, active: bool, media: ChannelRecovery.Media, q: Sequence, flow: ChannelFlow.Flow,
                       id: nat, epoch: nat, length: nat, written: Option<nat>): Result<nat, Failed>
  {
    if !video then Failure(NotVideo)
    else
      match ChannelSend.Outcome(active, media, q, flow, id, epoch, true, length, written)
      case Failure(error) => Failure(NotSent(error))
      case Success(record) => Success(record)
  }

  /** What the sender starts from after the key unit: the next ID and the epoch. */
  function HandOut(id: nat, epoch: nat): Result<(nat, nat), Failed> {
    if id >= U64_MAX then Failure(IdsExhausted) else Success((id + 1, epoch))
  }

  /** The sender that comes of the sections from the choice on. */
  function Complete(chosen: Result<(nat, nat), Failed>, video: bool, active: bool, media: ChannelRecovery.Media,
                    q: Sequence, flow: ChannelFlow.Flow, length: nat, written: Option<nat>)
    : Result<(nat, nat), Failed>
  {
    if chosen.Failure? then chosen
    else
      var (id, epoch) := chosen.value;
      var sent := KeyUnitSent(video, active, media, q, flow, id, epoch, length, written);
      if sent.Failure? then Failure(sent.error) else HandOut(id, epoch)
  }

  method ChooseKeyUnit(sequence: MediaSequence) returns (chosen: Result<(nat, nat), Failed>)
    ensures chosen == Choose(sequence.View())
  {
    if sequence.lastId >= U64_MAX {
      return Failure(IdsExhausted);
    }
    return Success((sequence.lastId + 1, Max(sequence.lastEpoch, 1)));
  }

  method SendKeyUnit(channel: ChannelSend.TrackChannel, t: ChannelFlow.ThreadId, video: bool, active: bool,
                     id: nat, epoch: nat, length: nat, written: Option<nat>)
    returns (sent: Result<nat, Failed>)
    modifies channel.flow, channel.media, channel.sequence
    ensures sent == KeyUnitSent(video, active, old(channel.media.View()), old(channel.sequence.View()),
                                old(channel.flow.View()), id, epoch, length, written)
    ensures channel.sequence.View() ==
            if sent.Success? then Merge(old(channel.sequence.View()), id, epoch, sent.value)
            else old(channel.sequence.View())
  {
    if !video {
      return Failure(NotVideo);
    }
    var outcome := channel.SendMedia(t, active, id, epoch, true, length, written);
    if outcome.Failure? {
      return Failure(NotSent(outcome.error));
    }
    return Success(outcome.value);
  }

  // ------------------------------------------------------------------------------------------
  // When the key unit is sent
  // ------------------------------------------------------------------------------------------

  /** The channel was opened at the end of one run, the ID was chosen at the end of a longer one, and
      the key unit is sent at the end of a longer one still, on a channel on which only its reader
      has acted. The sender is handed out exactly when the reader has asked for no keyframe above the
      key unit's epoch, no merge since the choice has reached its ID or passed its epoch, and the
      track's kind and IDs, the session, the flow and the transport allow it. */
  lemma {:induction false} RecoveryIsExact(
    opening: Run, choosing: Run, sending: Run, media: ChannelRecovery.Run, flow: ChannelFlow.Flow,
    video: bool, active: bool, length: nat, written: Option<nat>)
    requires opening.Legal() && choosing.Legal() && sending.Legal()
    requires choosing.Extends(opening) && RisingSince(choosing, opening) && sending.Extends(choosing)
    requires media.Legal() && ChannelRecovery.OnlyReaderActed(media)
    requires ChannelRecovery.Opening(media).epoch == opening.State().sequence.lastEpoch
    ensures var q := choosing.State().sequence;
            var id, epoch := q.lastId + 1, Max(q.lastEpoch, 1);
            Complete(Choose(q), video, active, media.State().media, sending.State().sequence, flow, length,
                     written).Success?
            <==>
              && !ChannelRecovery.AskedAbove(media, epoch)
              && SeenId(sending, choosing, EverySend) < id && SeenEpoch(sending, choosing, EverySend) <= epoch
              && video && id < U64_MAX && active && !flow.closed && flow.Admits(length) && written.Some?
  {
    var id, epoch := choosing.State().sequence.lastId + 1, Max(choosing.State().sequence.lastEpoch, 1);
    EpochHasRisen(choosing, opening);
    ChannelRecovery.FirstUnitPassesExactly(media, epoch);
    SendStillPassesExactly(sending, choosing, id, epoch);
    CompletesExactly(choosing.State().sequence, video, active, media.State().media, sending.State().sequence, flow,
                     length, written);
  }

  lemma CompletesExactly(q: Sequence, video: bool, active: bool, media: ChannelRecovery.Media, later: Sequence,
                         flow: ChannelFlow.Flow, length: nat, written: Option<nat>)
    ensures var id, epoch := q.lastId + 1, Max(q.lastEpoch, 1);
            Complete(Choose(q), video, active, media, later, flow, length, written).Success?
            <==>
              && ChannelRecovery.Refusal(media, epoch, true) == None && Accept(later, id, epoch).Success?
              && video && id < U64_MAX && active && !flow.closed && flow.Admits(length) && written.Some?
    ensures var completed := Complete(Choose(q), video, active, media, later, flow, length, written);
            completed.Success? ==> completed.value == (q.lastId + 2, Max(q.lastEpoch, 1))
  {}

  lemma {:induction false} EpochHasRisen(run: Run, earlier: Run)
    requires run.Legal() && earlier.Legal() && run.Extends(earlier) && RisingSince(run, earlier)
    ensures earlier.State().sequence.lastEpoch <= run.State().sequence.lastEpoch
  {
    if run != earlier {
      EpochHasRisen(run.before, earlier);
      EpochRises(run.before.State(), run.step);
    }
  }

  lemma EpochRises(s: State, step: Step)
    requires Enabled(s, step) && (step.AssignFlush? ==> s.sequence.lastEpoch <= s.flushing.value)
    ensures s.sequence.lastEpoch <= Next(s, step).sequence.lastEpoch
  {}

  /** The last record of the old generation is on its way when the new one opens. The ID chosen for the
      key unit is that record's, and once it is merged the track refuses the key unit. */
  lemma {:induction false} KeyUnitCanBeOvertaken() returns (choosing: Run, sending: Run)
    ensures choosing.Legal() && InRange(choosing) && choosing.Then? && choosing.step.OpenChannel?
    ensures sending.Legal() && InRange(sending) && sending == Then(choosing, Finish(0))
    ensures Choose(choosing.State().sequence) == Success((1, 1))
    ensures Accept(sending.State().sequence, 1, 1) == Failure(IdNotIncreasing)
  {
    var run := Follow(Start, OpenChannel);
    run := SendOne(run, run, 0, 1, 1);
    run := Follow(run, Advance);
    choosing := Follow(run, OpenChannel);
    sending := Follow(choosing, Finish(0));
  }

  // ------------------------------------------------------------------------------------------
  // The whole recovery, undisturbed
  // ------------------------------------------------------------------------------------------

  /** What a recovery that nothing disturbs does to the track's sequence, and what the new sender
      starts from. */
  function Recover(q: Sequence, video: bool, length: nat, a: Answers): (Sequence, Result<(nat, nat), Failed>) {
    var advanced := q.(lastRecord := 0);
    if !a.advances then (q, Failure(NotAdvanced))
    else if a.window.None? then (advanced, Failure(NotOpened))
    else
      match Choose(advanced)
      case Failure(error) => (advanced, Failure(error))
      case Success((id, epoch)) =>
        var flow := ChannelFlow.Flow(a.window.value, a.window.value, ChannelFlow.NOTHING, false);
        var media := ChannelRecovery.Opened(q.lastEpoch);
        match KeyUnitSent(video, a.active, media, advanced, flow, id, epoch, length, a.written)
        case Failure(error) => (advanced, Failure(error))
        case Success(record) => (Merge(advanced, id, epoch, record), HandOut(id, epoch))
  }

  /** The sections in their order, with nothing in between. */
  method RecoverChannel(sequence: MediaSequence, t: ChannelFlow.ThreadId, video: bool, length: nat, a: Answers)
    returns (sender: Result<TrackSender, Failed>)
    requires sequence.lastEpoch <= U32_MAX
    modifies sequence
    ensures sequence.View() == Recover(old(sequence.View()), video, length, a).0
    ensures match Recover(old(sequence.View()), video, length, a).1
            case Failure(error) => sender == Failure(error)
            case Success((next, epoch)) =>
              && sender.Success? && sender.value.Valid()
              && sender.value.lastPacketId + 1 == next && sender.value.epoch == epoch
  {
    if !a.advances {
      return Failure(NotAdvanced);
    }
    sequence.lastRecord := 0;
    if a.window.None? {
      return Failure(NotOpened);
    }
    var flow := new ChannelFlow.SharedFlow(a.window.value.bytes, a.window.value.records);
    var media := new ChannelRecovery.ChannelMedia(sequence.lastEpoch);
    var channel := new ChannelSend.TrackChannel(flow, media, sequence);
    var chosen := ChooseKeyUnit(sequence);
    if chosen.Failure? {
      return Failure(chosen.error);
    }
    var (id, epoch) := chosen.value;
    var sent := SendKeyUnit(channel, t, video, a.active, id, epoch, length, a.written);
    if sent.Failure? {
      return Failure(sent.error);
    }
    if id == U64_MAX {
      return Failure(IdsExhausted);
    }
    var seeded := new TrackSender.Seeded(id + 1, epoch);
    return Success(seeded);
  }

  /** An undisturbed recovery succeeds exactly when the generation advances and opens, the track is a
      video track with two IDs left, and the key unit fits the new window and is written in an active
      session. Neither the channel nor the track refuses the key unit then. The key unit itself may
      have the last ID: it is written, and no sender is handed out. */
  lemma UndisturbedRecoveryIsExact(q: Sequence, video: bool, length: nat, a: Answers)
    ensures Recover(q, video, length, a).1.Success? <==>
              && a.advances && a.window.Some? && video && q.lastId + 1 < U64_MAX
              && a.active && ChannelFlow.Record(length).AtMost(a.window.value) && a.written.Some?
    ensures match Recover(q, video, length, a).1
            case Success((next, epoch)) =>
              var r := Recover(q, video, length, a).0;
              && r.lastId == q.lastId + 1 && r.lastEpoch == Max(q.lastEpoch, 1)
              && (next, epoch) == (r.lastId + 1, r.lastEpoch)
            case Failure(NotSent(error)) =>
              error == ChannelSend.SessionClosed || error == ChannelSend.MustWait || error == ChannelSend.WriteFailed
            case _ => true
    ensures var (r, outcome) := Recover(q, video, length, a);
            && (outcome == Failure(NotAdvanced) <==> !a.advances)
            && (outcome == Failure(NotOpened) <==> a.advances && a.window.None?)
            && (r.lastId == q.lastId ==> r == if a.advances then q.(lastRecord := 0) else q)
            && (r.lastId != q.lastId <==>
                  && a.advances && a.window.Some? && video && q.lastId < U64_MAX
                  && a.active && ChannelFlow.Record(length).AtMost(a.window.value) && a.written.Some?)
            && (r.lastId != q.lastId ==> r == Sequence(q.lastId + 1, Max(q.lastEpoch, 1), a.written.value))
  {
    var media := ChannelRecovery.Opened(q.lastEpoch);
    assert ChannelRecovery.Refusal(media, Max(q.lastEpoch, 1), true) == None;
    assert Accept(q.(lastRecord := 0), q.lastId + 1, Max(q.lastEpoch, 1)).Success?;
  }
}

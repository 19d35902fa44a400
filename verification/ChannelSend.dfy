/** One media send from start to end, as it runs when nothing interferes: the sections that the
    other modules interleave, in the order in which the send performs them. What the session and
    the transport answer are parameters. */
module ChannelSend {
  import opened Wrappers
  import ChannelFlow
  import ChannelRecovery
  import TrackMedia

  datatype Error =
    | SessionClosed
    | Invalid(media: ChannelRecovery.Error)
    | OutOfOrder(sequence: TrackMedia.Error)
    | Closed
    | MustWait     // the call goes to sleep on the flow's condition variable
    | WriteFailed

  class TrackChannel {
    const flow: ChannelFlow.SharedFlow
    const media: ChannelRecovery.ChannelMedia
    const sequence: TrackMedia.MediaSequence

    constructor (flow: ChannelFlow.SharedFlow, media: ChannelRecovery.ChannelMedia, sequence: TrackMedia.MediaSequence)
      ensures this.flow == flow && this.media == media && this.sequence == sequence
    {
      this.flow, this.media, this.sequence := flow, media, sequence;
    }

    /** The checks come in this order, a refusal changes nothing, a failed write keeps its charge
        and nothing else, and a success merges into both the track and the channel. */
    method SendMedia(t: ChannelFlow.ThreadId, active: bool, id: nat, epoch: nat, recovery: bool, length: nat,
                     written: Option<nat>)
      returns (sent: Result<nat, Error>)
      modifies flow, media, sequence
      ensures sent == Outcome(active, old(media.View()), old(sequence.View()), old(flow.View()),
                              id, epoch, recovery, length, written)
      ensures var before := old(flow.View());
              flow.View() == if sent.Success? || sent.error == WriteFailed then before.Charge(length) else before
      ensures sent.Failure? ==> media.View() == old(media.View()) && sequence.View() == old(sequence.View())
      ensures sent.Success? ==>
                && sequence.View() == TrackMedia.Merge(old(sequence.View()), id, epoch, sent.value)
                && media.View()
                   == ChannelRecovery.Merge(old(media.View()), sent.value, epoch, recovery, old(media.revision))
    {
      if !active {
        return Failure(SessionClosed);
      }
      var snapshot := media.Validate(epoch, recovery);
      if snapshot.Failure? {
        return Failure(Invalid(snapshot.error));
      }
      var copy := new TrackMedia.MediaSequence();
      copy.lastId, copy.lastEpoch, copy.lastRecord := sequence.lastId, sequence.lastEpoch, sequence.lastRecord;
      var refusal := copy.AcceptNext(id, epoch);
      if refusal.Some? {
        return Failure(OutOfOrder(refusal.value));
      }
      var decision := flow.Admit(t, active, length);
      if decision == ChannelFlow.Broken {
        return Failure(Closed);
      }
      if decision == ChannelFlow.Waits {
        return Failure(MustWait);
      }
      if written.None? {
        return Failure(WriteFailed);
      }
      sequence.MergeSent(copy.lastId, copy.lastEpoch, written.value);
      media.MergeSent(written.value, epoch, recovery, snapshot.value);
      return Success(written.value);
    }
  }

  function Outcome(active: bool, media: ChannelRecovery.Media, sequence: TrackMedia.Sequence, flow: ChannelFlow.Flow,
                   id: nat, epoch: nat, recovery: bool, length: nat, written: Option<nat>): Result<nat, Error>
  {
    if !active then Failure(SessionClosed)
    else match ChannelRecovery.Refusal(media, epoch, recovery)
      case Some(error) => Failure(Invalid(error))
      case None =>
        match TrackMedia.Accept(sequence, id, epoch)
        case Failure(error) => Failure(OutOfOrder(error))
        case Success(_) =>
          if flow.closed then Failure(Closed)
          else if !flow.Admits(length) then Failure(MustWait)
          else match written case None => Failure(WriteFailed) case Some(record) => Success(record)
  }

  /** The record may go out as far as the generation's history is concerned: the stream has not ended,
      no recovery is needed that the record does not bring, and it is not a recovery unit below a
      standing demand. */
  ghost predicate Wanted(run: ChannelRecovery.Run, epoch: nat, recovery: bool) {
    && !ChannelRecovery.HasEnded(run)
    && if recovery then !ChannelRecovery.DemandStandsAbove(run, epoch) else !ChannelRecovery.NeedStands(run)
  }

  /** In every state of the generation, the track and the flow, exactly when a send succeeds and exactly
      when it fails in each way. */
  lemma {:induction false} OutcomeIsExact(
    run: ChannelRecovery.Run, active: bool, q: TrackMedia.Sequence, flow: ChannelFlow.Flow,
    id: nat, epoch: nat, recovery: bool, length: nat, written: Option<nat>)
    requires run.Legal()
    ensures var outcome := Outcome(active, run.State().media, q, flow, id, epoch, recovery, length, written);
            var wanted, next := Wanted(run, epoch, recovery), q.lastId < id && q.lastEpoch <= epoch;
            var fits := flow.sent.bytes + length <= flow.maxima.bytes && flow.sent.records < flow.maxima.records;
            && (outcome == Failure(SessionClosed) <==> !active)
            && ((outcome.Failure? && outcome.error.Invalid?) <==> active && !wanted)
            && (outcome == Failure(Invalid(ChannelRecovery.AfterEos)) <==> active && ChannelRecovery.HasEnded(run))
            && (outcome == Failure(Invalid(ChannelRecovery.EpochBelowMinimum)) <==>
                  active && !ChannelRecovery.HasEnded(run) && recovery && ChannelRecovery.DemandStandsAbove(run, epoch))
            && ((outcome.Failure? && outcome.error.OutOfOrder?) <==> active && wanted && !next)
            && (outcome == Failure(OutOfOrder(TrackMedia.IdNotIncreasing)) <==> active && wanted && id <= q.lastId)
            && (outcome == Failure(Closed) <==> active && wanted && next && flow.closed)
            && (outcome == Failure(MustWait) <==> active && wanted && next && !flow.closed && !fits)
            && (outcome == Failure(WriteFailed) <==>
                  active && wanted && next && !flow.closed && fits && written.None?)
            && (outcome.Success? <==> active && wanted && next && !flow.closed && fits && written.Some?)
            && (outcome.Success? ==> written == Some(outcome.value))
  {
    ChannelRecovery.RefusalsComeInOrder(run, epoch, recovery);
  }

  // ------------------------------------------------------------------------------------------
  // A send is a run of each machine
  // ------------------------------------------------------------------------------------------

  /** What a successful send does to the channel's media state is a run of the recovery machine,
      so everything proved about its runs holds of sends. */
  lemma {:induction false} SendRunsRecovery(
    run: ChannelRecovery.Run, active: bool, sequence: TrackMedia.Sequence, flow: ChannelFlow.Flow,
    id: nat, epoch: nat, recovery: bool, length: nat, written: Option<nat>)
    returns (sent: ChannelRecovery.Run)
    requires run.Legal() && run.State().flight.Nothing?
    requires Outcome(active, run.State().media, sequence, flow, id, epoch, recovery, length, written).Success?
    ensures sent.Legal() && sent.Extends(run) && sent.State().flight.Nothing?
    ensures var m := run.State().media;
            sent.State().media == ChannelRecovery.Merge(m, written.value, epoch, recovery, m.revision)
    ensures sent.State().trace == run.State().trace + [ChannelRecovery.Sent(epoch, recovery, written.value)]
  {
    var checked := ChannelRecovery.Follow(run, ChannelRecovery.Check(epoch, recovery));
    var wrote := ChannelRecovery.Follow(checked, ChannelRecovery.Write(written.value));
    assert wrote.Extends(run);
    sent := ChannelRecovery.Follow(wrote, ChannelRecovery.Finish);
  }

  /** What it does to the track is a run of the track machine. */
  lemma {:induction false} SendRunsTrack(
    run: TrackMedia.Run, c: TrackMedia.ChannelId, active: bool, media: ChannelRecovery.Media, flow: ChannelFlow.Flow,
    id: nat, epoch: nat, recovery: bool, length: nat, written: Option<nat>)
    returns (sent: TrackMedia.Run)
    requires run.Legal() && c < |run.State().channels|
    requires run.State().channels[c] == TrackMedia.Channel(true, TrackMedia.Idle)
    requires Outcome(active, media, run.State().sequence, flow, id, epoch, recovery, length, written).Success?
    ensures sent.Legal() && sent.Extends(run) && TrackMedia.RisingSince(sent, run) && TrackMedia.SettledSince(sent, run)
    ensures sent.State().sequence == TrackMedia.Merge(run.State().sequence, id, epoch, written.value)
    ensures sent.State().trace == run.State().trace + [TrackMedia.Entry(c, id, epoch)]
  {
    var checked := TrackMedia.Follow(run, TrackMedia.Check(c, id, epoch));
    var charged := TrackMedia.Follow(checked, TrackMedia.Charge(c));
    assert charged.Extends(run) && TrackMedia.RisingSince(charged, run) && TrackMedia.SettledSince(charged, run);
    var wrote := TrackMedia.Follow(charged, TrackMedia.Write(c, written.value));
    assert wrote.Extends(run) && TrackMedia.RisingSince(wrote, run) && TrackMedia.SettledSince(wrote, run);
    sent := TrackMedia.Follow(wrote, TrackMedia.Finish(c));
  }

  /** What it does to the flow is a run of the flow machine, given room in the forward direction. */
  lemma {:induction false} SendRunsFlow(
    c: ChannelFlow.Config, run: ChannelFlow.Run, active: bool, media: ChannelRecovery.Media,
    sequence: TrackMedia.Sequence, id: nat, epoch: nat, recovery: bool, length: nat, written: Option<nat>)
    returns (sent: ChannelFlow.Run)
    requires run.Legal(c) && run.State(c).sender.Idle? && |run.State(c).forward| < c.forward
    requires Outcome(active, media, sequence, run.State(c).flow, id, epoch, recovery, length, written).Success?
    ensures sent.Legal(c) && sent.Extends(run) && sent.State(c).sender.Idle?
    ensures sent.State(c).flow == run.State(c).flow.Charge(length)
    ensures sent.State(c).forward == run.State(c).forward + [length]
  {
    var begun := ChannelFlow.Follow(c, run, ChannelFlow.Begin(length));
    var charged := ChannelFlow.Follow(c, begun, ChannelFlow.Test);
    assert charged.Extends(run);
    sent := ChannelFlow.Follow(c, charged, ChannelFlow.WriteSucceeds);
  }
}

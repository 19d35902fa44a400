/** The media sequence of a track over all its channel generations.

    A send on a channel checks its ID and epoch against a copy of the track's sequence, waits to
    be charged, writes without any lock, and merges its progress. One control thread opens and
    advances channels, merges presenter status and flushes; it may do so between any two steps of
    a send. `send_order` serialises the sends of one channel, not those of two. */
module TrackMedia {
  import opened Integers
  import opened Wrappers

  datatype Sequence = Sequence(lastId: nat, lastEpoch: nat, lastRecord: nat)

  datatype Status = Status(mediaId: nat, mediaEpoch: nat, record: nat)

  datatype Error = IdNotIncreasing | EpochBackward

  function Accept(q: Sequence, id: nat, epoch: nat): Result<Sequence, Error> {
    if id == 0 || id <= q.lastId then Failure(IdNotIncreasing)
    else if epoch < q.lastEpoch then Failure(EpochBackward)
    else Success(q.(lastId := id, lastEpoch := epoch))
  }

  function Merge(q: Sequence, id: nat, epoch: nat, record: nat): Sequence {
    Sequence(Max(q.lastId, id), Max(q.lastEpoch, epoch), Max(q.lastRecord, record))
  }

  function Reconcile(q: Sequence, status: Status, generationChanged: bool): Sequence {
    Sequence(Max(q.lastId, status.mediaId), Max(q.lastEpoch, status.mediaEpoch),
             if generationChanged then status.record else Max(q.lastRecord, status.record))
  }

  class MediaSequence {
    var lastId: nat
    var lastEpoch: nat
    var lastRecord: nat

    ghost function View(): Sequence
      reads this
    {
      Sequence(lastId, lastEpoch, lastRecord)
    }

    constructor ()
      ensures View() == Sequence(0, 0, 0)
    {
      lastId, lastEpoch, lastRecord := 0, 0, 0;
    }

    method AcceptNext(id: nat, epoch: nat) returns (refusal: Option<Error>)
      modifies this
      ensures match Accept(old(View()), id, epoch)
              case Success(q) => refusal == None && View() == q
              case Failure(error) => refusal == Some(error) && View() == old(View())
    {
      if id == 0 || id <= lastId {
        return Some(IdNotIncreasing);
      }
      if epoch < lastEpoch {
        return Some(EpochBackward);
      }
      lastId, lastEpoch := id, epoch;
      return None;
    }

    method MergeSent(id: nat, epoch: nat, record: nat)
      modifies this
      ensures View() == Merge(old(View()), id, epoch, record)
    {
      lastId, lastEpoch, lastRecord := Max(lastId, id), Max(lastEpoch, epoch), Max(lastRecord, record);
    }

    method ReconcileStatus(status: Status, generationChanged: bool)
      modifies this
      ensures View() == Reconcile(old(View()), status, generationChanged)
    {
      lastId := Max(lastId, status.mediaId);
      lastEpoch := Max(lastEpoch, status.mediaEpoch);
      lastRecord := if generationChanged then status.record else Max(lastRecord, status.record);
    }
  }

  // ------------------------------------------------------------------------------------------
  // The machine
  // ------------------------------------------------------------------------------------------

  type ChannelId = nat

  /** A send on one channel: accepted by the copy of the sequence, charged to the flow, or written
      and not yet merged. */
  datatype Flight =
    | Idle
    | Accepted(id: nat, epoch: nat)
    | Charged(id: nat, epoch: nat)
    | Written(id: nat, epoch: nat, record: nat)

  datatype Channel = Channel(open: bool, flight: Flight)

  datatype Entry = Entry(channel: ChannelId, id: nat, epoch: nat)

  /** `flushing` is the epoch of a flush that has been checked and not yet assigned. */
  datatype State = State(
    sequence: Sequence, channels: seq<Channel>, active: Option<ChannelId>, flushing: Option<nat>, trace: seq<Entry>)

  datatype Step =
    | Check(c: ChannelId, id: nat, epoch: nat)
    | Charge(c: ChannelId)
    | Refuse(c: ChannelId)
    | Write(c: ChannelId, record: nat)
    | FailWrite(c: ChannelId)
    | Finish(c: ChannelId)
    | Close(c: ChannelId)
    | OpenChannel
    | Advance
    | MergeStatus(status: Status, generationChanged: bool)
    | CheckFlush(epoch: nat)
    | AssignFlush
    | FailFlush

  const INITIAL_STATE := State(Sequence(0, 0, 0), [], None, None, [])

  predicate Enabled(s: State, step: Step) {
    match step
    case Check(c, id, epoch) => c < |s.channels| && s.channels[c].flight.Idle? && Accept(s.sequence, id, epoch).Success?
    case Charge(c) => c < |s.channels| && s.channels[c].flight.Accepted? && s.channels[c].open
    case Refuse(c) => c < |s.channels| && s.channels[c].flight.Accepted?
    case Write(c, _) => c < |s.channels| && s.channels[c].flight.Charged?
    case FailWrite(c) => c < |s.channels| && s.channels[c].flight.Charged?
    case Finish(c) => c < |s.channels| && s.channels[c].flight.Written?
    case Close(c) => c < |s.channels|
    case OpenChannel => s.flushing.None? && !HasLiveChannel(s)
    case Advance => s.flushing.None?
    case MergeStatus(_, _) => s.flushing.None?
    case CheckFlush(epoch) => s.flushing.None? && s.sequence.lastEpoch < epoch
    case AssignFlush => s.flushing.Some?
    case FailFlush => s.flushing.Some?
  }

  predicate HasLiveChannel(s: State) {
    s.active.Some? && s.active.value < |s.channels| && s.channels[s.active.value].open
  }

  function SetFlight(s: State, c: ChannelId, flight: Flight): State
    requires c < |s.channels|
  {
    s.(channels := s.channels[c := s.channels[c].(flight := flight)])
  }

  function CloseChannel(s: State, c: ChannelId): State
    requires c < |s.channels|
  {
    s.(channels := s.channels[c := s.channels[c].(open := false)])
  }

  /** The track forgets its active channel after closing its flow. */
  function Detach(s: State): State {
    (if s.active.Some? && s.active.value < |s.channels| then CloseChannel(s, s.active.value) else s).(active := None)
  }

  function Next(s: State, step: Step): State
    requires Enabled(s, step)
  {
    match step
    case Check(c, id, epoch) => SetFlight(s, c, Accepted(id, epoch))
    case Charge(c) => SetFlight(s, c, Charged(s.channels[c].flight.id, s.channels[c].flight.epoch))
    case Refuse(c) => SetFlight(s, c, Idle)
    case Write(c, record) =>
      var f := s.channels[c].flight;
      SetFlight(s, c, Written(f.id, f.epoch, record)).(trace := s.trace + [Entry(c, f.id, f.epoch)])
    case FailWrite(c) => SetFlight(s, c, Idle)
    case Finish(c) =>
      var f := s.channels[c].flight;
      SetFlight(s, c, Idle).(sequence := Merge(s.sequence, f.id, f.epoch, f.record))
    case Close(c) => CloseChannel(s, c)
    case OpenChannel => s.(channels := s.channels + [Channel(true, Idle)], active := Some(|s.channels|))
    case Advance => Detach(s).(sequence := s.sequence.(lastRecord := 0))
    case MergeStatus(status, generationChanged) =>
      (if generationChanged then Detach(s) else s).(sequence := Reconcile(s.sequence, status, generationChanged))
    case CheckFlush(epoch) => s.(flushing := Some(epoch))
    case AssignFlush => s.(flushing := None, sequence := s.sequence.(lastEpoch := s.flushing.value))
    case FailFlush => s.(flushing := None)
  }

  datatype Run = Start | Then(before: Run, step: Step) {
    ghost predicate Legal()
      decreases this, 0
    {
      Then? ==> before.Legal() && Enabled(before.State(), step)
    }

    ghost function State(): State
      requires Legal()
      decreases this, 1
    {
      if Start? then INITIAL_STATE else Next(before.State(), step)
    }

    ghost predicate Extends(earlier: Run) { this == earlier || (Then? && before.Extends(earlier)) }
  }

  /** No flush since `base` was assigned below the epoch that had been reached by then. */
  ghost predicate RisingSince(run: Run, base: Run)
    requires run.Legal()
  {
    run == base
    || (run.Then? && RisingSince(run.before, base)
        && var s := run.before.State(); (run.step.AssignFlush? ==> s.sequence.lastEpoch <= s.flushing.value))
  }

  ghost predicate RisingFlushes(run: Run)
    requires run.Legal()
  {
    RisingSince(run, Start)
  }

  /** No send of an earlier channel is charged, and what it has written is merged or overtaken. */
  ghost predicate Settled(s: State) {
    forall c :: 0 <= c < |s.channels| ==> IsSettled(s.channels[c].flight, s.sequence)
  }

  ghost predicate IsSettled(f: Flight, q: Sequence) {
    match f
    case Charged(_, _) => false
    case Written(id, epoch, _) => id <= q.lastId && epoch <= q.lastEpoch
    case _ => true
  }

  /** Whenever a channel was opened since `base`, the earlier sends had finished. */
  ghost predicate SettledSince(run: Run, base: Run)
    requires run.Legal()
  {
    run == base
    || (run.Then? && SettledSince(run.before, base) && (run.step.OpenChannel? ==> Settled(run.before.State())))
  }

  ghost predicate SettledOpens(run: Run)
    requires run.Legal()
  {
    SettledSince(run, Start)
  }

  lemma {:induction false} SinceJoins(run: Run, base: Run)
    requires run.Legal() && base.Legal()
    ensures RisingSince(run, base) && RisingFlushes(base) ==> RisingFlushes(run)
    ensures SettledSince(run, base) && SettledOpens(base) ==> SettledOpens(run)
  {
    if run != base && run.Then? {
      SinceJoins(run.before, base);
    }
  }

  lemma {:induction false} EveryRunStarts(run: Run)
    ensures run.Extends(Start)
  {
    if run.Then? {
      EveryRunStarts(run.before);
    }
  }

  // ------------------------------------------------------------------------------------------
  // Progress is never lost
  // ------------------------------------------------------------------------------------------

  /** In any interleaving at all the track's last ID never decreases, and its epoch falls only
      where a flush assigns a lower one. */
  lemma {:induction false} ProgressIsNeverLost(run: Run, earlier: Run)
    requires run.Legal() && earlier.Legal() && run.Extends(earlier)
    ensures earlier.State().sequence.lastId <= run.State().sequence.lastId
    ensures RisingFlushes(run) ==> earlier.State().sequence.lastEpoch <= run.State().sequence.lastEpoch
  {
    if run != earlier {
      ProgressIsNeverLost(run.before, earlier);
    }
  }

  /** The record number that the last write on the channel was given. */
  ghost function WrittenRecord(run: Run, c: ChannelId): nat {
    match run
    case Start => 0
    case Then(before, Write(written, record)) => if written == c then record else WrittenRecord(before, c)
    case Then(before, _) => WrittenRecord(before, c)
  }

  /** The highest record number merged since the generation last changed: an advance starts over from
      zero, and a status of another generation from its own. */
  ghost function SeenRecord(run: Run): nat {
    match run
    case Start => 0
    case Then(before, Finish(c)) => Max(SeenRecord(before), WrittenRecord(before, c))
    case Then(before, MergeStatus(status, changed)) =>
      if changed then status.record else Max(SeenRecord(before), status.record)
    case Then(_, Advance) => 0
    case Then(before, _) => SeenRecord(before)
  }

  /** The ID and the epoch of the record checked last on the channel. */
  ghost function Checked(run: Run, c: ChannelId): (nat, nat) {
    match run
    case Start => (0, 0)
    case Then(before, Check(checked, id, epoch)) => if checked == c then (id, epoch) else Checked(before, c)
    case Then(before, _) => Checked(before, c)
  }

  /** Everything written, from the checks and the writes. */
  ghost function WrittenTrace(run: Run): seq<Entry> {
    match run
    case Start => []
    case Then(before, Write(c, _)) => WrittenTrace(before) + [Entry(c, Checked(before, c).0, Checked(before, c).1)]
    case Then(before, _) => WrittenTrace(before)
  }

  ghost predicate FlightIs(s: State, c: ChannelId, checked: (nat, nat), record: nat) {
    c < |s.channels| ==>
      var f := s.channels[c].flight;
      (!f.Idle? ==> (f.id, f.epoch) == checked) && (f.Written? ==> f.record == record)
  }

  lemma StepKeepsFlightRecord(s: State, step: Step, c: ChannelId, checked: (nat, nat), record: nat)
    requires Enabled(s, step) && FlightIs(s, c, checked, record)
    ensures FlightIs(Next(s, step), c, if step.Check? && step.c == c then (step.id, step.epoch) else checked,
                     if step.Write? && step.c == c then step.record else record)
  {}

  lemma {:induction false} FlightHasItsRecord(run: Run, c: ChannelId)
    requires run.Legal()
    ensures FlightIs(run.State(), c, Checked(run, c), WrittenRecord(run, c))
  {
    if run.Then? {
      FlightHasItsRecord(run.before, c);
      StepKeepsFlightRecord(run.before.State(), run.step, c, Checked(run.before, c), WrittenRecord(run.before, c));
    }
  }

  lemma StepMovesTrace(s: State, step: Step)
    requires Enabled(s, step)
    ensures Next(s, step).trace
            == if step.Write? then
                 s.trace + [Entry(step.c, s.channels[step.c].flight.id, s.channels[step.c].flight.epoch)]
               else s.trace
  {}

  /** What is written on a channel is what was checked there last. */
  lemma {:induction false} TraceIsExact(run: Run)
    requires run.Legal()
    ensures run.State().trace == WrittenTrace(run)
  {
    if run.Then? {
      TraceIsExact(run.before);
      StepMovesTrace(run.before.State(), run.step);
      if run.step.Write? {
        FlightHasItsRecord(run.before, run.step.c);
      }
    }
  }

  lemma StepMovesRecord(s: State, step: Step)
    requires Enabled(s, step)
    ensures Next(s, step).sequence.lastRecord
            == match step
               case Finish(c) => Max(s.sequence.lastRecord, s.channels[c].flight.record)
               case MergeStatus(status, changed) =>
                 if changed then status.record else Max(s.sequence.lastRecord, status.record)
               case Advance => 0
               case _ => s.sequence.lastRecord
  {}

  /** The track's record number is the highest merged since the generation last changed. */
  lemma {:induction false} LastRecordIsExact(run: Run)
    requires run.Legal()
    ensures run.State().sequence.lastRecord == SeenRecord(run)
  {
    if run.Then? {
      LastRecordIsExact(run.before);
      StepMovesRecord(run.before.State(), run.step);
      if run.step.Finish? {
        FlightHasItsRecord(run.before, run.step.c);
      }
    }
  }

  // ------------------------------------------------------------------------------------------
  // Order on one channel
  // ------------------------------------------------------------------------------------------

  ghost predicate Before(a: Entry, b: Entry) { a.id < b.id && a.epoch <= b.epoch }

  ghost predicate Within(e: Entry, id: nat, epoch: nat) { e.id <= id && e.epoch <= epoch }

  /** How an entry relates to a send in flight that must come after it. */
  ghost predicate Bounded(e: Entry, f: Flight, q: Sequence) {
    match f
    case Idle => Within(e, q.lastId, q.lastEpoch)
    case Accepted(id, epoch) => Within(e, q.lastId, q.lastEpoch) && e.id < id && e.epoch <= epoch
    case Charged(id, epoch) => Within(e, q.lastId, q.lastEpoch) && e.id < id && e.epoch <= epoch
    case Written(id, epoch, _) => Within(e, id, epoch)
  }

  ghost predicate BoundedOn(s: State, c: ChannelId) {
    forall i :: 0 <= i < |s.trace| && s.trace[i].channel == c ==>
      c < |s.channels| && Bounded(s.trace[i], s.channels[c].flight, s.sequence)
  }

  ghost predicate OrderedOn(trace: seq<Entry>, c: ChannelId) {
    forall i, j :: 0 <= i < j < |trace| && trace[i].channel == trace[j].channel == c ==> Before(trace[i], trace[j])
  }

  lemma SendKeepsChannel(s: State, step: Step, c: ChannelId)
    requires BoundedOn(s, c) && Enabled(s, step)
    requires step.Check? || step.Charge? || step.Refuse? || step.FailWrite? || step.Finish? || step.Close?
    ensures BoundedOn(Next(s, step), c)
  {}

  lemma WriteKeepsChannel(s: State, step: Step, c: ChannelId)
    requires BoundedOn(s, c) && OrderedOn(s.trace, c) && Enabled(s, step) && step.Write?
    ensures BoundedOn(Next(s, step), c) && OrderedOn(Next(s, step).trace, c)
  {
    var r := Next(s, step);
    forall i | 0 <= i < |s.trace| && s.trace[i].channel == step.c == c
      ensures Before(s.trace[i], r.trace[|s.trace|])
    {
      assert Bounded(s.trace[i], s.channels[c].flight, s.sequence);
    }
  }

  lemma ControlKeepsChannel(s: State, step: Step, c: ChannelId)
    requires BoundedOn(s, c) && Enabled(s, step)
    requires step.OpenChannel? || step.Advance? || step.MergeStatus? || step.CheckFlush? || step.AssignFlush?
             || step.FailFlush?
    requires step.AssignFlush? ==> s.sequence.lastEpoch <= s.flushing.value
    ensures BoundedOn(Next(s, step), c)
  {}

  /** A channel in order stays in order, from any state on, while flushes rise. */
  lemma {:induction false} RunsKeepChannel(run: Run, base: Run, c: ChannelId)
    requires run.Legal() && base.Legal() && run.Extends(base) && RisingSince(run, base)
    requires BoundedOn(base.State(), c) && OrderedOn(base.State().trace, c)
    ensures BoundedOn(run.State(), c) && OrderedOn(run.State().trace, c)
  {
    if run != base {
      RunsKeepChannel(run.before, base, c);
      var s, step := run.before.State(), run.step;
      if step.Write? {
        WriteKeepsChannel(s, step, c);
      } else if step.Check? || step.Charge? || step.Refuse? || step.FailWrite? || step.Finish? || step.Close? {
        SendKeepsChannel(s, step, c);
      } else {
        ControlKeepsChannel(s, step, c);
      }
    }
  }

  /** On every generation the written IDs strictly increase and the epochs never decrease, however
      sends, status merges, advances and rising flushes interleave. */
  lemma {:induction false} EachChannelIsOrdered(run: Run, c: ChannelId)
    requires run.Legal() && RisingFlushes(run)
    ensures BoundedOn(run.State(), c) && OrderedOn(run.State().trace, c)
  {
    EveryRunStarts(run);
    RunsKeepChannel(run, Start, c);
  }

  // ------------------------------------------------------------------------------------------
  // Order over all generations
  // ------------------------------------------------------------------------------------------

  ghost predicate OnlyLatestIsOpen(s: State) {
    && (s.active.Some? ==> s.active.value == |s.channels| - 1)
    && forall c :: 0 <= c < |s.channels| && s.channels[c].open ==> s.active == Some(c)
  }

  ghost predicate OlderAreSettled(s: State) {
    forall c :: 0 <= c < |s.channels| - 1 ==> IsSettled(s.channels[c].flight, s.sequence)
  }

  ghost predicate TraceBounded(s: State) {
    if s.channels == [] then s.trace == []
    else forall i :: 0 <= i < |s.trace| ==> Bounded(s.trace[i], s.channels[|s.channels| - 1].flight, s.sequence)
  }

  ghost predicate Ordered(trace: seq<Entry>) { forall i, j :: 0 <= i < j < |trace| ==> Before(trace[i], trace[j]) }

  ghost predicate WholeOrder(s: State) {
    OnlyLatestIsOpen(s) && OlderAreSettled(s) && TraceBounded(s) && Ordered(s.trace)
  }

  lemma SendKeepsWholeOrder(s: State, step: Step)
    requires WholeOrder(s) && Enabled(s, step)
    requires step.Check? || step.Charge? || step.Refuse? || step.FailWrite? || step.Close?
    ensures WholeOrder(Next(s, step))
  {}

  lemma FinishKeepsWholeOrder(s: State, step: Step)
    requires WholeOrder(s) && Enabled(s, step) && step.Finish?
    ensures WholeOrder(Next(s, step))
  {
    if step.c < |s.channels| - 1 {
      assert IsSettled(s.channels[step.c].flight, s.sequence);
    }
  }

  lemma ChargedIsUnsettled(f: Flight, q: Sequence)
    requires f.Charged?
    ensures !IsSettled(f, q)
  {}

  /** Only the latest channel can have a charged send, so only it can write. */
  lemma WriteKeepsWholeOrder(s: State, step: Step)
    requires WholeOrder(s) && Enabled(s, step) && step.Write?
    ensures WholeOrder(Next(s, step))
  {
    var r := Next(s, step);
    ChargedIsUnsettled(s.channels[step.c].flight, s.sequence);
    forall i | 0 <= i < |s.trace|
      ensures Before(s.trace[i], r.trace[|s.trace|])
    {
      assert Bounded(s.trace[i], s.channels[step.c].flight, s.sequence);
    }
  }

  lemma OpenKeepsWholeOrder(s: State)
    requires WholeOrder(s) && Enabled(s, OpenChannel) && Settled(s)
    ensures WholeOrder(Next(s, OpenChannel))
  {
    var r := Next(s, OpenChannel);
    forall i | 0 <= i < |s.trace|
      ensures Within(s.trace[i], s.sequence.lastId, s.sequence.lastEpoch)
    {
      var latest := s.channels[|s.channels| - 1].flight;
      assert Bounded(s.trace[i], latest, s.sequence) && IsSettled(latest, s.sequence);
    }
    forall c | 0 <= c < |r.channels| - 1
      ensures IsSettled(r.channels[c].flight, r.sequence)
    {
      assert IsSettled(s.channels[c].flight, s.sequence);
    }
  }

  lemma ControlKeepsWholeOrder(s: State, step: Step)
    requires WholeOrder(s) && Enabled(s, step)
    requires step.Advance? || step.MergeStatus? || step.CheckFlush? || step.AssignFlush? || step.FailFlush?
    requires step.AssignFlush? ==> s.sequence.lastEpoch <= s.flushing.value
    ensures WholeOrder(Next(s, step))
  {
    var r := Next(s, step);
    forall c | 0 <= c < |r.channels| - 1
      ensures IsSettled(r.channels[c].flight, r.sequence)
    {
      assert IsSettled(s.channels[c].flight, s.sequence);
    }
  }

  lemma {:induction false} RunsKeepWholeOrder(run: Run)
    requires run.Legal() && RisingFlushes(run) && SettledOpens(run)
    ensures WholeOrder(run.State())
  {
    if run.Then? {
      RunsKeepWholeOrder(run.before);
      var s, step := run.before.State(), run.step;
      match step {
        case Write(_, _) => WriteKeepsWholeOrder(s, step);
        case Finish(_) => FinishKeepsWholeOrder(s, step);
        case OpenChannel => OpenKeepsWholeOrder(s);
        case Check(_, _, _) => SendKeepsWholeOrder(s, step);
        case Charge(_) => SendKeepsWholeOrder(s, step);
        case Refuse(_) => SendKeepsWholeOrder(s, step);
        case FailWrite(_) => SendKeepsWholeOrder(s, step);
        case Close(_) => SendKeepsWholeOrder(s, step);
        case _ => ControlKeepsWholeOrder(s, step);
      }
    }
  }

  /** Over any number of generations the whole trace is ordered, if each channel was opened after
      the sends of the earlier ones had finished. */
  lemma WholeTraceIsOrdered(run: Run)
    requires run.Legal() && RisingFlushes(run) && SettledOpens(run)
    ensures Ordered(run.State().trace)
  {
    RunsKeepWholeOrder(run);
  }

  // ------------------------------------------------------------------------------------------
  // When the order can be lost
  // ------------------------------------------------------------------------------------------

  ghost predicate WrittenIsInTrace(s: State, c: ChannelId)
    requires c < |s.channels|
  {
    s.channels[c].flight.Written? ==> Entry(c, s.channels[c].flight.id, s.channels[c].flight.epoch) in s.trace
  }

  lemma StepKeepsTraced(s: State, step: Step, c: ChannelId)
    requires Enabled(s, step) && c < |s.channels| && WrittenIsInTrace(s, c)
    ensures WrittenIsInTrace(Next(s, step), c)
  {
    var r := Next(s, step);
    if step.Write? {
      assert r.trace[|s.trace|] == Entry(step.c, s.channels[step.c].flight.id, s.channels[step.c].flight.epoch);
      assert forall e :: e in s.trace ==> e in r.trace;
    } else {
      assert r.trace == s.trace;
    }
  }

  lemma {:induction false} WrittenIsTraced(run: Run, c: ChannelId)
    requires run.Legal() && c < |run.State().channels|
    ensures WrittenIsInTrace(run.State(), c)
  {
    if c < |run.before.State().channels| {
      WrittenIsTraced(run.before, c);
      StepKeepsTraced(run.before.State(), run.step, c);
    }
  }

  /** Send one record on a channel, up to its write. */
  lemma {:induction false} SendOne(base: Run, run: Run, c: ChannelId, id: nat, epoch: nat) returns (next: Run)
    requires run.Legal() && c < |run.State().channels| && run.State().channels[c] == Channel(true, Idle)
    requires Accept(run.State().sequence, id, epoch).Success?
    requires run.Extends(base) && SettledSince(run, base) && RisingSince(run, base)
    ensures next.Legal() && next.Extends(base) && SettledSince(next, base) && RisingSince(next, base)
    ensures var s := run.State();
            next.State() == SetFlight(s, c, Written(id, epoch, 1)).(trace := s.trace + [Entry(c, id, epoch)])
    ensures InRange(run) && id <= U64_MAX && epoch <= U32_MAX ==> InRange(next)
  {
    var checked := Then(run, Check(c, id, epoch));
    assert checked.Legal() && checked.State() == SetFlight(run.State(), c, Accepted(id, epoch));
    var charged := Then(checked, Charge(c));
    assert charged.Legal() && charged.State() == SetFlight(run.State(), c, Charged(id, epoch));
    next := Then(charged, Write(c, 1));
  }

  /** A channel opened while an earlier one still has a send charged, or written beyond what the
      track has merged, can end up with a trace out of order, with IDs of 64 bits if the track has
      one left. */
  lemma {:induction false} UnsettledOpenBreaksOrder(run: Run, stale: ChannelId) returns (later: Run)
    requires run.Legal() && Enabled(run.State(), OpenChannel)
    requires stale < |run.State().channels| && !IsSettled(run.State().channels[stale].flight, run.State().sequence)
    ensures later.Legal() && later.Extends(Then(run, OpenChannel)) && !Ordered(later.State().trace)
    ensures SettledSince(later, Then(run, OpenChannel)) && RisingSince(later, Then(run, OpenChannel))
    ensures InRange(run) && run.State().sequence.lastId < U64_MAX ==> InRange(later)
  {
    var s := run.State();
    var f, n := s.channels[stale].flight, |s.channels|;
    var opening := Then(run, OpenChannel);
    assert opening.Legal() && opening.State().channels[n] == Channel(true, Idle);
    if InRange(run) {
      RangeIsKept(run);
    }
    if f.Charged? {
      var sent := SendOne(opening, opening, n, Max(s.sequence.lastId + 1, f.id), s.sequence.lastEpoch);
      later := Then(sent, Write(stale, 1));
      assert sent.State().channels[stale].flight == f;
      var trace := later.State().trace;
      assert !Before(trace[|trace| - 2], trace[|trace| - 1]);
    } else {
      WrittenIsTraced(run, stale);
      later := SendOne(opening, opening, n, s.sequence.lastId + 1, s.sequence.lastEpoch);
      var i :| 0 <= i < |s.trace| && s.trace[i] == Entry(stale, f.id, f.epoch);
      var trace := later.State().trace;
      assert trace[i] == s.trace[i] && !Before(trace[i], trace[|trace| - 1]);
    }
  }

  /** Opening a channel keeps the whole trace ordered in every continuation, later opens settled
      and flushes rising, exactly when the earlier sends have finished. */
  lemma OpenIsSafeExactly(run: Run)
    requires run.Legal() && RisingFlushes(run) && SettledOpens(run) && Enabled(run.State(), OpenChannel)
    ensures Settled(run.State()) <==>
            forall later: Run ::
              (later.Legal() && later.Extends(Then(run, OpenChannel)) && RisingSince(later, Then(run, OpenChannel))
               && SettledSince(later, Then(run, OpenChannel))) ==> Ordered(later.State().trace)
  {
    var opening := Then(run, OpenChannel);
    if Settled(run.State()) {
      forall later: Run | later.Legal() && later.Extends(opening) && RisingSince(later, opening)
                          && SettledSince(later, opening)
        ensures Ordered(later.State().trace)
      {
        SinceJoins(later, opening);
        RunsKeepWholeOrder(later);
      }
    } else {
      var c :| 0 <= c < |run.State().channels| && !IsSettled(run.State().channels[c].flight, run.State().sequence);
      var later := UnsettledOpenBreaksOrder(run, c);
    }
  }

  // A flush checks its epoch before it is requested and assigns it after.

  /** A closed channel that is in order writes at most the send it has charged, and stays so. */
  ghost predicate Closing(s: State, c: ChannelId) {
    && c < |s.channels| && !s.channels[c].open && OrderedOn(s.trace, c)
    && var f := s.channels[c].flight;
       (f.Charged? ==> forall i :: 0 <= i < |s.trace| && s.trace[i].channel == c ==>
                         s.trace[i].id < f.id && s.trace[i].epoch <= f.epoch)
  }

  lemma StepKeepsClosing(s: State, step: Step, c: ChannelId)
    requires Closing(s, c) && Enabled(s, step)
    ensures Closing(Next(s, step), c)
  {}

  lemma {:induction false} RunsKeepClosing(run: Run, base: Run, c: ChannelId)
    requires run.Legal() && base.Legal() && run.Extends(base) && Closing(base.State(), c)
    ensures Closing(run.State(), c)
  {
    if run != base {
      RunsKeepClosing(run.before, base, c);
      StepKeepsClosing(run.before.State(), run.step, c);
    }
  }

  ghost predicate ReachedBeyond(s: State, c: ChannelId, epoch: nat) {
    exists i :: 0 <= i < |s.trace| && s.trace[i].channel == c && epoch < s.trace[i].epoch
  }

  /** The flush about to be assigned is overtaken on the channel: the channel can still send, and
      has written beyond the flushed epoch, and no write waits to be merged and raise it again. */
  ghost predicate Overtaken(s: State, c: ChannelId)
    requires s.flushing.Some? && c < |s.channels|
  {
    s.channels[c].open && !s.channels[c].flight.Written? && ReachedBeyond(s, c, s.flushing.value)
  }

  /** A send that is not written yet can end without a record. */
  lemma {:induction false} Abandon(run: Run, c: ChannelId) returns (idle: Run)
    requires run.Legal() && c < |run.State().channels|
    requires run.State().channels[c].open && !run.State().channels[c].flight.Written?
    ensures idle.Legal() && idle.Extends(run) && SettledSince(idle, run) && RisingSince(idle, run)
    ensures c < |idle.State().channels| && idle.State().channels[c] == Channel(true, Idle)
    ensures idle.State().trace == run.State().trace && idle.State().sequence == run.State().sequence
    ensures InRange(run) ==> InRange(idle)
  {
    match run.State().channels[c].flight {
      case Idle => idle := run;
      case Accepted(_, _) => idle := Then(run, Refuse(c));
      case _ => idle := Then(run, FailWrite(c));
    }
  }

  lemma {:induction false} OvertakenFlushBreaksOrder(run: Run, c: ChannelId) returns (later: Run)
    requires run.Legal() && run.State().flushing.Some? && c < |run.State().channels| && Overtaken(run.State(), c)
    ensures later.Legal() && later.Extends(Then(run, AssignFlush)) && RisingSince(later, Then(run, AssignFlush))
    ensures !OrderedOn(later.State().trace, c)
    ensures InRange(run) && run.State().sequence.lastId < U64_MAX ==> InRange(later)
  {
    var s := run.State();
    var flushed := Then(run, AssignFlush);
    assert flushed.Legal();
    if InRange(run) {
      RangeIsKept(run);
    }
    var idle := Abandon(flushed, c);
    later := SendOne(flushed, idle, c, s.sequence.lastId + 1, s.flushing.value);
    var i :| 0 <= i < |s.trace| && s.trace[i].channel == c && s.flushing.value < s.trace[i].epoch;
    var trace := later.State().trace;
    assert trace[i] == s.trace[i] && !Before(trace[i], trace[|trace| - 1]);
  }

  /** Assigning a flush lets some continuation, its own flushes rising, write a channel out of
      order exactly when the flush has been overtaken on it. */
  lemma FlushKeepsOrderExactly(run: Run, c: ChannelId)
    requires run.Legal() && RisingFlushes(run) && run.State().flushing.Some? && c < |run.State().channels|
    ensures (exists later: Run ::
               later.Legal() && later.Extends(Then(run, AssignFlush)) && RisingSince(later, Then(run, AssignFlush))
               && !OrderedOn(later.State().trace, c))
            <==> Overtaken(run.State(), c)
  {
    var s, flushed := run.State(), Then(run, AssignFlush);
    EachChannelIsOrdered(run, c);
    if Overtaken(s, c) {
      var later := OvertakenFlushBreaksOrder(run, c);
    } else {
      forall later: Run | later.Legal() && later.Extends(flushed) && RisingSince(later, flushed)
        ensures OrderedOn(later.State().trace, c)
      {
        if s.channels[c].open {
          RunsKeepChannel(later, flushed, c);
        } else {
          RunsKeepClosing(later, flushed, c);
        }
      }
    }
  }

  /** Every flush takes effect at once: its assignment directly follows its check. */
  ghost predicate AtomicFlushes(run: Run) {
    run.Then? ==>
      && AtomicFlushes(run.before)
      && (run.step.AssignFlush? ==> run.before.Then? && run.before.step.CheckFlush?)
  }

  lemma {:induction false} AtomicFlushesRise(run: Run)
    requires run.Legal() && AtomicFlushes(run)
    ensures RisingFlushes(run)
  {
    if run.Then? {
      AtomicFlushesRise(run.before);
    }
  }

  // Both conditions do occur.

  lemma {:induction false} Follow(run: Run, step: Step) returns (next: Run)
    requires run.Legal() && Enabled(run.State(), step)
    ensures next == Then(run, step) && next.Legal() && next.State() == Next(run.State(), step)
  {
    next := Then(run, step);
  }

  lemma {:induction false} FirstChannel() returns (run: Run)
    ensures run.Legal() && RisingFlushes(run) && SettledOpens(run)
    ensures var s := run.State();
            && s.sequence == Sequence(0, 0, 0) && |s.channels| == 1 && s.channels[0] == Channel(true, Idle)
            && s.active == Some(0) && s.flushing == None && s.trace == []
  {
    run := Follow(Start, OpenChannel);
  }

  /** A charged send of the first generation and a send of the second write the same ID. */
  lemma {:induction false} GenerationsCanOverlap() returns (opening: Run, later: Run)
    ensures opening.Legal() && opening.Then? && opening.step.OpenChannel?
    ensures RisingFlushes(opening.before) && SettledOpens(opening.before) && !Settled(opening.before.State())
    ensures later.Legal() && later.Extends(opening) && RisingSince(later, opening) && SettledSince(later, opening)
    ensures later.State().trace == [Entry(1, 1, 1), Entry(0, 1, 1)]
  {
    var run := FirstChannel();
    run := Follow(run, Check(0, 1, 1));
    run := Follow(run, Charge(0));
    run := Follow(run, Advance);
    assert !IsSettled(run.State().channels[0].flight, run.State().sequence);
    opening := Follow(run, OpenChannel);
    var sent := SendOne(opening, opening, 1, 1, 1);
    later := Follow(sent, Write(0, 1));
  }

  /** Between the check of a flush to epoch 5 and its assignment one record of epoch 7 is merged
      and the next send is under way. */
  lemma {:induction false} FlushIsOvertaken() returns (run: Run)
    ensures run.Legal() && RisingFlushes(run)
    ensures var s := run.State();
            && s.sequence.lastId == 1 && s.flushing == Some(5) && s.trace == [Entry(0, 1, 7)]
            && |s.channels| == 1 && s.channels[0] == Channel(true, Accepted(2, 8))
  {
    var checked := FirstChannel();
    checked := Follow(checked, CheckFlush(5));
    var sent := SendOne(checked, checked, 0, 1, 7);
    SinceJoins(sent, checked);
    run := Follow(sent, Finish(0));
    run := Follow(run, Check(0, 2, 8));
  }

  /** A flush to epoch 5 overtaken by a send of epoch 7 lets the channel write epoch 5 after it,
      although another send is under way when the flush is assigned. */
  lemma {:induction false} FlushCanBeOvertaken() returns (flushed: Run, later: Run)
    ensures flushed.Legal() && flushed.Then? && flushed.step.AssignFlush? && RisingFlushes(flushed.before)
    ensures flushed.State().channels != [] && flushed.State().channels[0].flight.Accepted?
    ensures later.Legal() && later.Extends(flushed) && RisingSince(later, flushed)
    ensures later.State().trace == [Entry(0, 1, 7), Entry(0, 3, 5)]
  {
    var run := FlushIsOvertaken();
    flushed := Follow(run, AssignFlush);
    var idle := Abandon(flushed, 0);
    later := SendOne(flushed, idle, 0, 3, 5);
  }

  // ------------------------------------------------------------------------------------------
  // Sixty-four bits
  // ------------------------------------------------------------------------------------------

  /** IDs and epochs that come from callers and from the presenter have the widths of the source. */
  ghost predicate StepInRange(step: Step) {
    match step
    case Check(_, id, epoch) => id <= U64_MAX && epoch <= U32_MAX
    case MergeStatus(status, _) => status.mediaId <= U64_MAX && status.mediaEpoch <= U32_MAX
    case CheckFlush(epoch) => epoch <= U32_MAX
    case _ => true
  }

  ghost predicate InRange(run: Run) { run.Then? ==> InRange(run.before) && StepInRange(run.step) }

  ghost predicate FlightInRange(f: Flight) { !f.Idle? ==> f.id <= U64_MAX && f.epoch <= U32_MAX }

  ghost predicate StateInRange(s: State) {
    && s.sequence.lastId <= U64_MAX && s.sequence.lastEpoch <= U32_MAX
    && (s.flushing.Some? ==> s.flushing.value <= U32_MAX)
    && forall c :: 0 <= c < |s.channels| ==> FlightInRange(s.channels[c].flight)
  }

  lemma StepKeepsRange(s: State, step: Step)
    requires StateInRange(s) && Enabled(s, step) && StepInRange(step)
    ensures StateInRange(Next(s, step))
  {}

  lemma {:induction false} RangeIsKept(run: Run)
    requires run.Legal() && InRange(run)
    ensures StateInRange(run.State())
  {
    if run.Then? {
      RangeIsKept(run.before);
      StepKeepsRange(run.before.State(), run.step);
    }
  }

  /** Once the last ID has been reached no send is accepted any more. */
  lemma {:induction false} ExhaustionIsFinal(run: Run, earlier: Run)
    requires run.Legal() && InRange(run) && earlier.Legal() && run.Then? && run.before.Extends(earlier)
    requires earlier.State().sequence.lastId == U64_MAX
    ensures !run.step.Check?
  {
    ProgressIsNeverLost(run.before, earlier);
  }

  // At the last ID nothing more is checked, and only the sends under way are left.

  /** The channel is in order, and so is the send on it that may still be written. */
  ghost predicate Draining(s: State, c: ChannelId) {
    && c < |s.channels| && U64_MAX <= s.sequence.lastId && OrderedOn(s.trace, c)
    && var f := s.channels[c].flight;
       (f.Accepted? || f.Charged? ==>
          forall i :: 0 <= i < |s.trace| && s.trace[i].channel == c ==> Before(s.trace[i], Entry(c, f.id, f.epoch)))
  }

  lemma StepKeepsDraining(s: State, step: Step, c: ChannelId)
    requires Draining(s, c) && Enabled(s, step) && StepInRange(step)
    ensures Draining(Next(s, step), c)
  {}

  lemma {:induction false} RunsKeepDraining(run: Run, base: Run, c: ChannelId)
    requires run.Legal() && InRange(run) && base.Legal() && run.Extends(base) && Draining(base.State(), c)
    ensures Draining(run.State(), c)
  {
    if run != base {
      RunsKeepDraining(run.before, base, c);
      StepKeepsDraining(run.before.State(), run.step, c);
    }
  }

  lemma OrderedDrains(run: Run, c: ChannelId)
    requires run.Legal() && RisingFlushes(run) && run.State().flushing.Some? && c < |run.State().channels|
    requires U64_MAX <= run.State().sequence.lastId
    ensures Draining(Then(run, AssignFlush).State(), c)
  {
    EachChannelIsOrdered(run, c);
    var s := run.State();
    assert forall i :: 0 <= i < |s.trace| && s.trace[i].channel == c ==>
                         Bounded(s.trace[i], s.channels[c].flight, s.sequence);
  }

  /** Within 64 bits an overtaken flush lets a channel be written out of order exactly when the track
      has an ID left. */
  lemma FlushKeepsOrderInRange(run: Run, c: ChannelId)
    requires run.Legal() && InRange(run) && RisingFlushes(run)
    requires run.State().flushing.Some? && c < |run.State().channels|
    ensures (exists later: Run ::
               later.Legal() && later.Extends(Then(run, AssignFlush)) && RisingSince(later, Then(run, AssignFlush))
               && InRange(later) && !OrderedOn(later.State().trace, c))
            <==> Overtaken(run.State(), c) && run.State().sequence.lastId < U64_MAX
  {
    var flushed := Then(run, AssignFlush);
    FlushKeepsOrderExactly(run, c);
    if Overtaken(run.State(), c) && run.State().sequence.lastId < U64_MAX {
      var later := OvertakenFlushBreaksOrder(run, c);
    } else if Overtaken(run.State(), c) {
      OrderedDrains(run, c);
      forall later: Run | later.Legal() && later.Extends(flushed) && RisingSince(later, flushed) && InRange(later)
        ensures OrderedOn(later.State().trace, c)
      {
        RunsKeepDraining(later, flushed, c);
      }
    }
  }

  /** No channel can start a send, and only one can still write, in order. */
  ghost predicate AllDraining(s: State, last: ChannelId) {
    && U64_MAX <= s.sequence.lastId && Ordered(s.trace)
    && forall c :: 0 <= c < |s.channels| ==>
         var f := s.channels[c].flight;
         && (s.channels[c].open ==> f.Idle?)
         && (f.Charged? ==> c == last && PrecedeAll(s.trace, Entry(c, f.id, f.epoch)))
  }

  ghost predicate PrecedeAll(trace: seq<Entry>, next: Entry) {
    forall i :: 0 <= i < |trace| ==> Before(trace[i], next)
  }

  lemma StepKeepsAllDraining(s: State, step: Step, last: ChannelId)
    requires AllDraining(s, last) && Enabled(s, step) && StepInRange(step)
    ensures AllDraining(Next(s, step), last)
  {}

  lemma {:induction false} RunsKeepAllDraining(run: Run, base: Run, last: ChannelId)
    requires run.Legal() && InRange(run) && base.Legal() && run.Extends(base) && AllDraining(base.State(), last)
    ensures AllDraining(run.State(), last)
  {
    if run != base {
      RunsKeepAllDraining(run.before, base, last);
      StepKeepsAllDraining(run.before.State(), run.step, last);
    }
  }

  lemma LastOfTrace(s: State)
    requires WholeOrder(s) && s.channels != []
    ensures var c := |s.channels| - 1;
            var f := s.channels[c].flight;
            f.Charged? ==> PrecedeAll(s.trace, Entry(c, f.id, f.epoch))
    ensures forall c :: 0 <= c < |s.channels| - 1 ==> !s.channels[c].flight.Charged?
  {
    var f := s.channels[|s.channels| - 1].flight;
    assert forall i :: 0 <= i < |s.trace| ==> Bounded(s.trace[i], f, s.sequence);
    assert forall c :: 0 <= c < |s.channels| - 1 ==> IsSettled(s.channels[c].flight, s.sequence);
  }

  lemma OpeningDrains(run: Run)
    requires run.Legal() && RisingFlushes(run) && SettledOpens(run) && Enabled(run.State(), OpenChannel)
    requires U64_MAX <= run.State().sequence.lastId && run.State().channels != []
    ensures AllDraining(Then(run, OpenChannel).State(), |run.State().channels| - 1)
  {
    RunsKeepWholeOrder(run);
    LastOfTrace(run.State());
  }

  /** Within 64 bits opening a channel keeps the whole trace ordered exactly when the earlier sends have
      finished or the track has no ID left. */
  lemma OpenIsSafeInRange(run: Run)
    requires run.Legal() && InRange(run) && RisingFlushes(run) && SettledOpens(run)
    requires Enabled(run.State(), OpenChannel)
    ensures Settled(run.State()) || run.State().sequence.lastId == U64_MAX <==>
            forall later: Run ::
              (later.Legal() && later.Extends(Then(run, OpenChannel)) && RisingSince(later, Then(run, OpenChannel))
               && SettledSince(later, Then(run, OpenChannel)) && InRange(later)) ==> Ordered(later.State().trace)
  {
    var opening := Then(run, OpenChannel);
    OpenIsSafeExactly(run);
    RangeIsKept(run);
    if !Settled(run.State()) {
      var c :| 0 <= c < |run.State().channels| && !IsSettled(run.State().channels[c].flight, run.State().sequence);
      if run.State().sequence.lastId < U64_MAX {
        var later := UnsettledOpenBreaksOrder(run, c);
      } else {
        OpeningDrains(run);
        forall later: Run | later.Legal() && later.Extends(opening) && RisingSince(later, opening)
                            && SettledSince(later, opening) && InRange(later)
          ensures Ordered(later.State().trace)
        {
          RunsKeepAllDraining(later, opening, |run.State().channels| - 1);
        }
      }
    }
  }

  // ------------------------------------------------------------------------------------------
  // Recovering a channel
  // ------------------------------------------------------------------------------------------

  lemma SettledAfterAdvance(s: State)
    requires Settled(s) && Enabled(s, Advance)
    ensures Settled(Next(s, Advance))
  {
    var r := Next(s, Advance);
    forall c | 0 <= c < |r.channels|
      ensures IsSettled(r.channels[c].flight, r.sequence)
    {
      assert IsSettled(s.channels[c].flight, s.sequence);
    }
  }

  ghost predicate GoodRun(run: Run) { run.Legal() && RisingFlushes(run) && SettledOpens(run) }

  lemma {:induction false} Reopen(run: Run) returns (reopened: Run)
    requires GoodRun(run) && Settled(run.State()) && run.State().flushing.None?
    ensures GoodRun(reopened) && reopened.Extends(run) && Settled(reopened.State())
    ensures InRange(run) ==> InRange(reopened)
    ensures var s, r := run.State(), reopened.State();
            && |r.channels| == |s.channels| + 1 && r.channels[|s.channels|] == Channel(true, Idle)
            && r.active == Some(|s.channels|) && r.trace == s.trace
            && r.sequence == s.sequence.(lastRecord := 0)
  {
    var advanced := Then(run, Advance);
    assert GoodRun(advanced) && !HasLiveChannel(advanced.State());
    SettledAfterAdvance(run.State());
    reopened := Then(advanced, OpenChannel);
    SettledWithOneMore(advanced.State());
  }

  lemma SettledWithOneMore(s: State)
    requires Settled(s) && Enabled(s, OpenChannel)
    ensures Settled(Next(s, OpenChannel))
  {
    var r := Next(s, OpenChannel);
    forall c | 0 <= c < |r.channels|
      ensures IsSettled(r.channels[c].flight, r.sequence)
    {
      if c < |s.channels| {
        assert IsSettled(s.channels[c].flight, s.sequence);
      }
    }
  }

  lemma SettledAfterFinish(s: State, c: ChannelId, id: nat, epoch: nat, record: nat)
    requires Settled(s) && c < |s.channels| && s.channels[c].flight.Idle?
    requires id >= s.sequence.lastId && epoch >= s.sequence.lastEpoch
    ensures Settled(Next(SetFlight(s, c, Written(id, epoch, record)), Finish(c)))
  {
    var r := Next(SetFlight(s, c, Written(id, epoch, record)), Finish(c));
    forall k | 0 <= k < |r.channels|
      ensures IsSettled(r.channels[k].flight, r.sequence)
    {
      assert IsSettled(s.channels[k].flight, s.sequence);
    }
  }

  /** From any state in which the earlier sends have finished, recovery gets a new generation, its
      key unit passes the sequence check as the next ID, the trace stays ordered, and the next
      recovery starts from the same footing. */
  lemma {:induction false} RecoverySucceeds(run: Run) returns (recovered: Run)
    requires GoodRun(run) && Settled(run.State()) && run.State().flushing.None?
    ensures GoodRun(recovered) && recovered.Extends(run)
    ensures Settled(recovered.State()) && Ordered(recovered.State().trace)
    ensures InRange(run) && run.State().sequence.lastId < U64_MAX ==> InRange(recovered)
    ensures var s, r := run.State(), recovered.State();
            && |r.channels| == |s.channels| + 1 && r.active == Some(|s.channels|)
            && r.trace == s.trace + [Entry(|s.channels|, s.sequence.lastId + 1, Max(s.sequence.lastEpoch, 1))]
            && r.sequence == Sequence(s.sequence.lastId + 1, Max(s.sequence.lastEpoch, 1), 1)
  {
    var s := run.State();
    var n, id, epoch := |s.channels|, s.sequence.lastId + 1, Max(s.sequence.lastEpoch, 1);
    var reopened := Reopen(run);
    var sent := SendOne(reopened, reopened, n, id, epoch);
    SinceJoins(sent, reopened);
    if InRange(run) {
      RangeIsKept(run);
    }
    recovered := Then(sent, Finish(n));
    assert GoodRun(recovered);
    SettledAfterFinish(reopened.State(), n, id, epoch, 1);
    RunsKeepWholeOrder(recovered);
    ExtendsChain(sent, reopened, run);
  }

  lemma {:induction false} ExtendsChain(a: Run, b: Run, c: Run)
    requires a.Extends(b) && b.Extends(c)
    ensures a.Extends(c)
  {
    if a != b {
      ExtendsChain(a.before, b, c);
    }
  }
}

/** Recovery on one channel generation.

    A send validates its record against the media state, writes it without holding any lock, and
    merges the result afterwards; `send_order` lets one send do this at a time. Meanwhile the
    reverse reader may ask for a keyframe or a full frame and the control thread may flush. A
    request counts revisions, so that a send validated before it cannot clear it. A flush does
    not count a revision. */
module ChannelRecovery {
  import opened Integers
  import opened Wrappers

  datatype Media = Media(lastSequence: nat, needsRecovery: bool, minimumEpoch: nat, revision: nat, eos: bool)

  datatype Error = AfterEos | NotRecovery | EpochBelowMinimum | EndNotWritten

  function Opened(epoch: nat): Media { Media(0, true, epoch, 0, false) }

  /** Why the record is refused, if it is. */
  function Refusal(m: Media, epoch: nat, recovery: bool): Option<Error> {
    if m.eos then Some(AfterEos)
    else if m.needsRecovery && !recovery then Some(NotRecovery)
    else if recovery && epoch < m.minimumEpoch then Some(EpochBelowMinimum)
    else None
  }

  /** The merge after a successful write of a record validated at `revision`. */
  function Merge(m: Media, sequence: nat, epoch: nat, recovery: bool, revision: nat): Media {
    var r := m.(lastSequence := sequence);
    if recovery && m.revision == revision then r.(needsRecovery := false, minimumEpoch := epoch) else r
  }

  /** A reader that runs out of revisions stops without changing the state. */
  function NeedKeyframe(m: Media, epoch: nat): Media {
    if m.revision == U64_MAX then m
    else
      m.(revision := m.revision + 1, needsRecovery := true,
         minimumEpoch := Max(m.minimumEpoch, epoch))
  }

  function NeedFullFrame(m: Media): Media {
    if m.revision == U64_MAX then m else m.(revision := m.revision + 1, needsRecovery := true)
  }

  function Flush(m: Media, epoch: nat): Media { m.(needsRecovery := true, minimumEpoch := epoch) }

  class ChannelMedia {
    var lastSequence: nat
    var needsRecovery: bool
    var minimumEpoch: nat
    var revision: nat
    var eos: bool

    ghost function View(): Media
      reads this
    {
      Media(lastSequence, needsRecovery, minimumEpoch, revision, eos)
    }

    constructor (epoch: nat)
      ensures View() == Opened(epoch)
    {
      lastSequence, needsRecovery, minimumEpoch, revision, eos := 0, true, epoch, 0, false;
    }

    method Validate(epoch: nat, recovery: bool) returns (snapshot: Result<nat, Error>)
      ensures match Refusal(View(), epoch, recovery)
              case Some(error) => snapshot == Failure(error)
              case None => snapshot == Success(revision)
    {
      if eos {
        return Failure(AfterEos);
      }
      if needsRecovery && !recovery {
        return Failure(NotRecovery);
      }
      if recovery && epoch < minimumEpoch {
        return Failure(EpochBelowMinimum);
      }
      return Success(revision);
    }

    method MergeSent(sequence: nat, epoch: nat, recovery: bool, validatedAt: nat)
      modifies this
      ensures View() == Merge(old(View()), sequence, epoch, recovery, validatedAt)
    {
      lastSequence := sequence;
      if recovery && revision == validatedAt {
        needsRecovery := false;
        minimumEpoch := epoch;
      }
    }

    method HandleNeedKeyframe(epoch: nat) returns (exhausted: bool)
      modifies this
      ensures View() == NeedKeyframe(old(View()), epoch)
      ensures exhausted <==> old(revision) == U64_MAX
      ensures exhausted ==> unchanged(this)
      ensures !exhausted ==>
                && needsRecovery && revision == old(revision) + 1 && minimumEpoch == Max(old(minimumEpoch), epoch)
                && lastSequence == old(lastSequence) && eos == old(eos)
    {
      if revision == U64_MAX {
        return true;
      }
      revision := revision + 1;
      needsRecovery := true;
      if minimumEpoch < epoch {
        minimumEpoch := epoch;
      }
      return false;
    }

    method HandleNeedFullFrame() returns (exhausted: bool)
      modifies this
      ensures View() == NeedFullFrame(old(View()))
      ensures exhausted <==> old(revision) == U64_MAX
      ensures exhausted ==> unchanged(this)
      ensures !exhausted ==>
                && needsRecovery && revision == old(revision) + 1 && minimumEpoch == old(minimumEpoch)
                && lastSequence == old(lastSequence) && eos == old(eos)
    {
      if revision == U64_MAX {
        return true;
      }
      revision := revision + 1;
      needsRecovery := true;
      return false;
    }

    method ApplyFlush(epoch: nat)
      modifies this
      ensures View() == Flush(old(View()), epoch)
    {
      needsRecovery := true;
      minimumEpoch := epoch;
    }

    /** What CHANNEL_EOS names. The flag is raised only after the record has been written. */
    method MarkEos(written: bool) returns (last: Result<nat, Error>)
      modifies this`eos
      ensures View() == if old(eos) || written then old(View()).(eos := true) else old(View())
      ensures last == if old(eos) then Failure(AfterEos) else
                      if written then Success(lastSequence) else Failure(EndNotWritten)
    {
      if eos {
        return Failure(AfterEos);
      }
      if !written {
        return Failure(EndNotWritten);
      }
      eos := true;
      return Success(lastSequence);
    }
  }

  // ------------------------------------------------------------------------------------------
  // The machine
  // ------------------------------------------------------------------------------------------

  datatype Sent = Sent(epoch: nat, recovery: bool, sequence: nat)

  /** The send in flight: validated at a revision and not yet written, or written and not merged. */
  datatype Flight =
    | Nothing
    | Validated(epoch: nat, recovery: bool, revision: nat)
    | Written(epoch: nat, recovery: bool, revision: nat, sequence: nat)

  datatype State = State(media: Media, flight: Flight, trace: seq<Sent>)

  datatype Step =
    | Check(epoch: nat, recovery: bool)
    | Fail
    | Write(sequence: nat)
    | Finish
    | AskKeyframe(epoch: nat)
    | AskFullFrame
    | DoFlush(epoch: nat)
    | Eos

  function Initially(epoch: nat): State { State(Opened(epoch), Nothing, []) }

  predicate Enabled(s: State, step: Step) {
    match step
    case Check(epoch, recovery) => s.flight.Nothing? && Refusal(s.media, epoch, recovery).None?
    case Fail => s.flight.Validated?
    case Write(_) => s.flight.Validated?
    case Finish => s.flight.Written?
    case AskKeyframe(_) => s.media.revision < U64_MAX
    case AskFullFrame => s.media.revision < U64_MAX
    case DoFlush(_) => true
    case Eos => s.flight.Nothing? && !s.media.eos
  }

  function Next(s: State, step: Step): State
    requires Enabled(s, step)
  {
    match step
    case Check(epoch, recovery) => s.(flight := Validated(epoch, recovery, s.media.revision))
    case Fail => s.(flight := Nothing)
    case Write(sequence) =>
      var f := s.flight;
      s.(flight := Written(f.epoch, f.recovery, f.revision, sequence),
         trace := s.trace + [Sent(f.epoch, f.recovery, sequence)])
    case Finish =>
      var f := s.flight;
      s.(flight := Nothing, media := Merge(s.media, f.sequence, f.epoch, f.recovery, f.revision))
    case AskKeyframe(epoch) => s.(media := NeedKeyframe(s.media, epoch))
    case AskFullFrame => s.(media := NeedFullFrame(s.media))
    case DoFlush(epoch) => s.(media := Flush(s.media, epoch))
    case Eos => s.(media := s.media.(eos := true))
  }

  /** A run of a generation opened at a media epoch. */
  datatype Run = Open(epoch: nat) | Then(before: Run, step: Step) {
    ghost predicate Legal()
      decreases this, 0
    {
      Then? ==> before.Legal() && Enabled(before.State(), step)
    }

    ghost function State(): State
      requires Legal()
      decreases this, 1
    {
      if Open? then Initially(epoch) else Next(before.State(), step)
    }

    ghost predicate Extends(earlier: Run) { this == earlier || (Then? && before.Extends(earlier)) }
  }

  // ------------------------------------------------------------------------------------------
  // What it means to answer a demand
  // ------------------------------------------------------------------------------------------

  /** The run has just demanded recovery: it was opened, asked or flushed. */
  ghost predicate Demands(run: Run) {
    run.Open? || run.step.AskKeyframe? || run.step.AskFullFrame? || run.step.DoFlush?
  }

  ghost function DemandedEpoch(run: Run): nat
    requires Demands(run)
  {
    match run
    case Open(epoch) => epoch
    case Then(_, AskKeyframe(epoch)) => epoch
    case Then(_, DoFlush(epoch)) => epoch
    case _ => 0
  }

  /** The send in flight at the end of the run was validated after the demand. */
  ghost predicate ValidatedSince(run: Run, demand: Run) {
    run != demand && run.Then? && (run.step.Check? || ValidatedSince(run.before, demand))
  }

  /** A recovery unit that was validated after the demand has been written and merged. */
  ghost predicate Answered(run: Run, demand: Run)
    requires run.Legal()
  {
    run != demand && run.Then? &&
    (Answered(run.before, demand)
     || (run.step.Finish? && run.before.State().flight.recovery && ValidatedSince(run.before, demand)))
  }

  /** The send in flight is a recovery unit validated at the current revision. */
  ghost predicate CouldClear(s: State) {
    !s.flight.Nothing? && s.flight.recovery && s.flight.revision == s.media.revision
  }

  /** If the demand is a flush, no such send was in flight when it came. */
  ghost predicate Quiet(demand: Run)
    requires demand.Legal()
  {
    demand.Then? && demand.step.DoFlush? ==> !CouldClear(demand.before.State())
  }

  ghost predicate QuietFlushes(run: Run)
    requires run.Legal()
  {
    Quiet(run) && (run.Then? ==> QuietFlushes(run.before))
  }

  /** No flush since `base` was below the epoch. */
  ghost predicate NoFlushBelow(run: Run, base: Run, epoch: nat) {
    run == base
    || (run.Then? && NoFlushBelow(run.before, base, epoch) && (run.step.DoFlush? ==> epoch <= run.step.epoch))
  }

  // ------------------------------------------------------------------------------------------
  // Recovery is never lost
  // ------------------------------------------------------------------------------------------

  lemma {:induction false} FlightIsNotFromTheFuture(run: Run)
    requires run.Legal()
    ensures var s := run.State(); !s.flight.Nothing? ==> s.flight.revision <= s.media.revision
  {
    if run.Then? {
      FlightIsNotFromTheFuture(run.before);
    }
  }

  /** A send that was already in flight when recovery was demanded cannot clear the demand. */
  lemma {:induction false} EarlierSendsCannotClear(run: Run, demand: Run)
    requires run.Legal() && demand.Legal() && run.Extends(demand) && Demands(demand) && Quiet(demand)
    ensures CouldClear(run.State()) ==> ValidatedSince(run, demand)
  {
    if run == demand {
      if run.Then? {
        FlightIsNotFromTheFuture(run.before);
      }
    } else {
      EarlierSendsCannotClear(run.before, demand);
      FlightIsNotFromTheFuture(run.before);
    }
  }

  lemma {:induction false} UnansweredDemandsHold(run: Run, demand: Run)
    requires run.Legal() && demand.Legal() && run.Extends(demand) && Demands(demand) && Quiet(demand)
    ensures !Answered(run, demand) ==> run.State().media.needsRecovery
    ensures !Answered(run, demand) && NoFlushBelow(run, demand, DemandedEpoch(demand)) ==>
              DemandedEpoch(demand) <= run.State().media.minimumEpoch
  {
    if run != demand {
      UnansweredDemandsHold(run.before, demand);
      EarlierSendsCannotClear(run.before, demand);
    }
  }

  ghost function LastDemand(run: Run): Run {
    if Demands(run) then run else LastDemand(run.before)
  }

  lemma {:induction false} LastDemandIsEarlier(run: Run)
    ensures run.Extends(LastDemand(run)) && Demands(LastDemand(run))
  {
    if !Demands(run) {
      LastDemandIsEarlier(run.before);
    }
  }

  lemma {:induction false} SendSinceLastDemandCouldClear(run: Run)
    requires run.Legal()
    ensures !run.State().flight.Nothing? && ValidatedSince(run, LastDemand(run)) ==>
              run.State().flight.revision == run.State().media.revision
  {
    if !Demands(run) {
      SendSinceLastDemandCouldClear(run.before);
    }
  }

  lemma {:induction false} AnsweringTheLastClears(run: Run)
    requires run.Legal()
    ensures Answered(run, LastDemand(run)) ==> !run.State().media.needsRecovery
  {
    if !Demands(run) {
      AnsweringTheLastClears(run.before);
      SendSinceLastDemandCouldClear(run.before);
    }
  }

  lemma {:induction false} PrefixesAreQuiet(run: Run, demand: Run)
    requires run.Legal() && run.Extends(demand) && QuietFlushes(run)
    ensures demand.Legal() && Quiet(demand)
  {
    if run != demand {
      PrefixesAreQuiet(run.before, demand);
    }
  }

  /** Recovery is needed exactly while some demand is unanswered. */
  lemma NeedIsExact(run: Run)
    requires run.Legal() && QuietFlushes(run)
    ensures run.State().media.needsRecovery <==>
            exists demand :: run.Extends(demand) && Demands(demand) && !Answered(run, demand)
  {
    LastDemandIsEarlier(run);
    AnsweringTheLastClears(run);
    if demand :| run.Extends(demand) && Demands(demand) && !Answered(run, demand) {
      PrefixesAreQuiet(run, demand);
      UnansweredDemandsHold(run, demand);
    }
  }

  /** A record that passes validation while a demand is unanswered is a recovery unit of at least
      the demanded epoch. */
  lemma {:induction false} EveryRecordMeetsTheDemands(run: Run, demand: Run)
    requires run.Legal() && demand.Legal() && run.Then? && run.step.Check?
    requires run.before.Extends(demand) && Demands(demand) && Quiet(demand) && !Answered(run.before, demand)
    ensures run.step.recovery
    ensures NoFlushBelow(run, demand, DemandedEpoch(demand)) ==> DemandedEpoch(demand) <= run.step.epoch
  {
    UnansweredDemandsHold(run.before, demand);
  }

  // ------------------------------------------------------------------------------------------
  // Which recovery unit passes
  // ------------------------------------------------------------------------------------------

  /** The send in flight is a recovery unit, and nothing has been requested since it was validated. */
  ghost predicate WillClear(run: Run) {
    match run
    case Open(_) => false
    case Then(_, Check(_, recovery)) => recovery
    case Then(before, Write(_)) => WillClear(before)
    case Then(before, DoFlush(_)) => WillClear(before)
    case Then(_, _) => false
  }

  lemma {:induction false} WillClearIsExact(run: Run)
    requires run.Legal()
    ensures CouldClear(run.State()) <==> WillClear(run)
    ensures WillClear(run) ==> run.State().flight.epoch == CheckedEpoch(run)
  {
    if run.Then? {
      WillClearIsExact(run.before);
      FlightIsNotFromTheFuture(run.before);
      MergedMatchesTrace(run.before);
    }
  }

  /** The epoch of the record validated last. */
  ghost function CheckedEpoch(run: Run): nat {
    if run.Open? then 0 else if run.step.Check? then run.step.epoch else CheckedEpoch(run.before)
  }

  /** A demand above the epoch stands: the generation was opened, asked or flushed above it, and
      neither a flush nor the merge of a recovery unit, with nothing requested since it was validated,
      has lowered it since. */
  ghost predicate DemandStandsAbove(run: Run, epoch: nat) {
    match run
    case Open(demanded) => epoch < demanded
    case Then(before, AskKeyframe(demanded)) => epoch < demanded || DemandStandsAbove(before, epoch)
    case Then(_, DoFlush(demanded)) => epoch < demanded
    case Then(before, Finish) =>
      if WillClear(before) then epoch < CheckedEpoch(before) else DemandStandsAbove(before, epoch)
    case Then(before, _) => DemandStandsAbove(before, epoch)
  }

  /** Recovery is needed: since the last opening, request or flush no recovery unit has been merged
      with nothing requested since it was validated. */
  ghost predicate NeedStands(run: Run) {
    match run
    case Open(_) => true
    case Then(_, AskKeyframe(_)) => true
    case Then(_, AskFullFrame) => true
    case Then(_, DoFlush(_)) => true
    case Then(before, Finish) => !WillClear(before) && NeedStands(before)
    case Then(before, _) => NeedStands(before)
  }

  ghost predicate HasEnded(run: Run) { run.Then? && (run.step.Eos? || HasEnded(run.before)) }

  lemma {:induction false} StateIsDemanded(run: Run, epoch: nat)
    requires run.Legal()
    ensures epoch < run.State().media.minimumEpoch <==> DemandStandsAbove(run, epoch)
    ensures run.State().media.eos <==> HasEnded(run)
  {
    if run.Then? {
      StateIsDemanded(run.before, epoch);
      WillClearIsExact(run.before);
    }
  }

  /** In every run a recovery unit is validated exactly until the stream has ended, and while no
      demand above its epoch stands. */
  lemma RecoveryUnitPassesExactly(run: Run, epoch: nat)
    requires run.Legal()
    ensures Refusal(run.State().media, epoch, true) == None <==> !HasEnded(run) && !DemandStandsAbove(run, epoch)
  {
    StateIsDemanded(run, epoch);
  }

  ghost function Opening(run: Run): (opening: Run)
    ensures opening.Open?
  {
    if run.Open? then run else Opening(run.before)
  }

  lemma {:induction false} NeedIsDemanded(run: Run)
    requires run.Legal()
    ensures run.State().media.needsRecovery <==> NeedStands(run)
  {
    if run.Then? {
      NeedIsDemanded(run.before);
      WillClearIsExact(run.before);
    }
  }

  /** In every run any other record is validated exactly until the stream has ended, and while no
      recovery is needed. Its epoch does not matter. */
  lemma OrdinaryRecordPassesExactly(run: Run, epoch: nat)
    requires run.Legal()
    ensures Refusal(run.State().media, epoch, false) == None <==> !HasEnded(run) && !NeedStands(run)
  {
    StateIsDemanded(run, epoch);
    NeedIsDemanded(run);
  }

  /** Which refusal comes, when there is one: the end of the stream before the need, the need before
      the epoch. */
  lemma RefusalsComeInOrder(run: Run, epoch: nat, recovery: bool)
    requires run.Legal()
    ensures var refusal := Refusal(run.State().media, epoch, recovery);
            && (refusal == Some(AfterEos) <==> HasEnded(run))
            && (refusal == Some(NotRecovery) <==> !HasEnded(run) && NeedStands(run) && !recovery)
            && (refusal == Some(EpochBelowMinimum) <==> !HasEnded(run) && recovery && DemandStandsAbove(run, epoch))
            && refusal != Some(EndNotWritten)
  {
    StateIsDemanded(run, epoch);
    NeedIsDemanded(run);
  }

  ghost function Requests(run: Run): nat {
    if run.Open? then 0
    else Requests(run.before) + if run.step.AskKeyframe? || run.step.AskFullFrame? then 1 else 0
  }

  /** Revisions count the requests, of which there can be 2^64 - 1, and the stream can be ended once, at
      any time between two sends. */
  lemma {:induction false} RevisionsCountRequests(run: Run, epoch: nat)
    requires run.Legal()
    ensures run.State().media.revision == Requests(run) <= 0xFFFF_FFFF_FFFF_FFFF
    ensures Enabled(run.State(), AskKeyframe(epoch)) <==> Requests(run) < 0xFFFF_FFFF_FFFF_FFFF
    ensures Enabled(run.State(), AskFullFrame) <==> Requests(run) < 0xFFFF_FFFF_FFFF_FFFF
    ensures Enabled(run.State(), Eos) <==> run.State().flight.Nothing? && !HasEnded(run)
  {
    StateIsDemanded(run, epoch);
    if run.Then? {
      RevisionsCountRequests(run.before, epoch);
    }
  }

  /** Only the reverse reader has acted since the generation was opened. */
  ghost predicate OnlyReaderActed(run: Run) {
    run.Then? ==> OnlyReaderActed(run.before) && (run.step.AskKeyframe? || run.step.AskFullFrame?)
  }

  ghost predicate AskedAbove(run: Run, epoch: nat) {
    run.Then? && (AskedAbove(run.before, epoch) || (run.step.AskKeyframe? && epoch < run.step.epoch))
  }

  lemma {:induction false} ReaderDemands(run: Run, epoch: nat)
    requires run.Legal() && OnlyReaderActed(run)
    ensures !HasEnded(run) && run.State().flight.Nothing?
    ensures DemandStandsAbove(run, epoch) <==> epoch < Opening(run).epoch || AskedAbove(run, epoch)
  {
    if run.Then? {
      ReaderDemands(run.before, epoch);
    }
  }

  /** Before anything is sent on a generation, a recovery unit of at least the opening epoch is
      validated exactly if no keyframe above its epoch has been asked for. */
  lemma {:induction false} FirstUnitPassesExactly(run: Run, epoch: nat)
    requires run.Legal() && OnlyReaderActed(run) && Opening(run).epoch <= epoch
    ensures Refusal(run.State().media, epoch, true) == None <==> !AskedAbove(run, epoch)
  {
    ReaderDemands(run, epoch);
    RecoveryUnitPassesExactly(run, epoch);
  }

  // ------------------------------------------------------------------------------------------
  // The trace
  // ------------------------------------------------------------------------------------------

  lemma {:induction false} NothingFinishesUnwritten(run: Run, opening: Run)
    requires run.Legal() && run.Extends(opening) && opening.Open?
    ensures run.State().trace == [] ==> !Answered(run, opening) && !run.State().flight.Written?
    ensures run.State().trace == [] && run.State().flight.Validated? ==> run.State().flight.recovery
    ensures run.State().trace != [] ==> run.State().trace[0].recovery
  {
    if run != opening {
      NothingFinishesUnwritten(run.before, opening);
      if run.step.Check? {
        UnansweredDemandsHold(run.before, opening);
      }
    }
  }

  /** The first record written on a generation is a recovery unit. */
  lemma FirstRecordRecovers(run: Run)
    requires run.Legal() && run.State().trace != []
    ensures run.State().trace[0].recovery
  {
    OpeningIsFirst(run);
    NothingFinishesUnwritten(run, Opening(run));
  }

  lemma {:induction false} OpeningIsFirst(run: Run)
    ensures run.Extends(Opening(run)) && Opening(run).Open?
  {
    if run.Then? {
      OpeningIsFirst(run.before);
    }
  }

  lemma {:induction false} MergedMatchesTrace(run: Run)
    requires run.Legal()
    ensures var s := run.State();
            match s.flight
            case Written(_, _, _, sequence) => s.trace != [] && s.trace[|s.trace| - 1].sequence == sequence
            case _ => s.media.lastSequence == if s.trace == [] then 0 else s.trace[|s.trace| - 1].sequence
    ensures run.State().media.eos ==> run.State().flight.Nothing?
  {
    if run.Then? {
      MergedMatchesTrace(run.before);
    }
  }

  /** The end of a stream names the last record written, and no record follows it. */
  lemma {:induction false} EndOfStreamIsLast(run: Run, end: Run)
    requires run.Legal() && end.Legal() && run.Extends(end) && end.Then? && end.step.Eos?
    ensures var trace := end.before.State().trace;
            && run.State().media.eos && run.State().trace == trace
            && run.State().media.lastSequence == if trace == [] then 0 else trace[|trace| - 1].sequence
  {
    if run == end {
      MergedMatchesTrace(run.before);
    } else {
      EndOfStreamIsLast(run.before, end);
      MergedMatchesTrace(run.before);
    }
  }

  // ------------------------------------------------------------------------------------------
  // What a flush can undo
  // ------------------------------------------------------------------------------------------

  /** A flush counts no revision. Coming now, it can be forgotten, in some continuation that never
      answers it, exactly when a recovery unit validated at the current revision is in flight. */
  lemma FlushIsForgottenExactly(run: Run, epoch: nat)
    requires run.Legal()
    ensures var flush := Then(run, DoFlush(epoch));
            (exists later: Run ::
               later.Legal() && later.Extends(flush) && !Answered(later, flush) && !later.State().media.needsRecovery)
            <==> CouldClear(run.State())
  {
    var flush := Then(run, DoFlush(epoch));
    if CouldClear(run.State()) {
      var later := FinishFlight(flush);
    } else {
      forall later: Run | later.Legal() && later.Extends(flush) && !Answered(later, flush)
        ensures later.State().media.needsRecovery
      {
        UnansweredDemandsHold(later, flush);
      }
    }
  }

  lemma {:induction false} WriteFlight(flush: Run) returns (written: Run)
    requires flush.Legal() && flush.Then? && flush.step.DoFlush? && CouldClear(flush.State())
    ensures written.Legal() && written.Extends(flush) && !Answered(written, flush) && !ValidatedSince(written, flush)
    ensures written.State().flight.Written? && CouldClear(written.State())
  {
    if flush.State().flight.Validated? {
      written := Then(flush, Write(1));
      assert !Answered(flush, flush) && !ValidatedSince(flush, flush);
      assert written.before == flush && written.step == Write(1);
    } else {
      written := flush;
    }
  }

  lemma {:induction false} FinishFlight(flush: Run) returns (later: Run)
    requires flush.Legal() && flush.Then? && flush.step.DoFlush? && CouldClear(flush.State())
    ensures later.Legal() && later.Extends(flush) && !Answered(later, flush) && !later.State().media.needsRecovery
  {
    var written := WriteFlight(flush);
    later := Then(written, Finish);
    assert later.before == written && later.step == Finish;
    assert later.State() == Next(written.State(), Finish);
  }

  // ------------------------------------------------------------------------------------------
  // Which records a flush lets through
  // ------------------------------------------------------------------------------------------

  /** The send in flight, once written, can only go on to answer the demand. */
  ghost predicate Answering(run: Run, demand: Run)
    requires run.Legal()
  {
    var f := run.State().flight;
    f.Written? && f.recovery && ValidatedSince(run, demand)
  }

  /** A record below the demanded epoch was validated last, and the demand was unanswered. */
  ghost predicate Undercuts(run: Run, demand: Run)
    requires run.Legal() && Demands(demand)
  {
    run.Then? && run.step.Check? && run.step.epoch < DemandedEpoch(demand) && !Answered(run.before, demand)
  }

  /** Let the send in flight end without answering the demand. */
  lemma {:induction false} EndFlight(run: Run, demand: Run) returns (idle: Run)
    requires run.Legal() && demand.Legal() && run.Extends(demand) && run != demand && Demands(demand) && Quiet(demand)
    requires !Answered(run, demand) && !Answering(run, demand)
    ensures idle.Legal() && idle.Extends(run) && NoFlushBelow(idle, run, DemandedEpoch(demand))
    ensures idle != demand && idle.Extends(demand) && !Answered(idle, demand) && idle.State().flight.Nothing?
    ensures idle.State().media.minimumEpoch == run.State().media.minimumEpoch
    ensures idle.State().media.eos == run.State().media.eos
  {
    EarlierSendsCannotClear(run, demand);
    var s := run.State();
    if s.flight.Nothing? {
      idle := run;
    } else {
      var step := if s.flight.Validated? then Fail else Finish;
      idle := Then(run, step);
      assert idle.before == run && idle.step == step && idle.State() == Next(s, step);
      LongerRunsDiffer(idle, demand);
    }
  }

  ghost function Length(run: Run): nat { if run.Open? then 0 else Length(run.before) + 1 }

  lemma {:induction false} ExtendingIsLonger(run: Run, earlier: Run)
    requires run.Extends(earlier)
    ensures Length(earlier) <= Length(run)
  {
    if run != earlier {
      ExtendingIsLonger(run.before, earlier);
    }
  }

  lemma {:induction false} LongerRunsDiffer(run: Run, earlier: Run)
    requires run.Then? && run.before.Extends(earlier)
    ensures run != earlier
  {
    ExtendingIsLonger(run.before, earlier);
  }

  lemma {:induction false} LowFlushUndercuts(run: Run, demand: Run, epoch: nat) returns (later: Run)
    requires run.Legal() && demand.Legal() && run.Extends(demand) && Demands(demand) && Quiet(demand)
    requires !Answered(run, demand) && epoch < DemandedEpoch(demand)
    requires !run.State().media.eos && !Answering(run, demand)
    ensures later.Legal() && later.Extends(Then(run, DoFlush(epoch))) && Undercuts(later, demand)
    ensures NoFlushBelow(later, Then(run, DoFlush(epoch)), DemandedEpoch(demand))
  {
    var flush := Then(run, DoFlush(epoch));
    LongerRunsDiffer(flush, demand);
    assert flush.before == run && flush.step == DoFlush(epoch) && flush.State() == Next(run.State(), DoFlush(epoch));
    var idle := EndFlight(flush, demand);
    later := Then(idle, Check(epoch, true));
    assert later.before == idle && later.step == Check(epoch, true);
  }

  /** While a written recovery unit is about to answer the demand, nothing is validated before it
      has; after the end of the stream nothing is validated at all. */
  ghost predicate NothingLeftToCheck(run: Run, demand: Run)
    requires run.Legal()
  {
    Answered(run, demand) || Answering(run, demand) || run.State().media.eos
  }

  lemma {:induction false} NothingIsChecked(run: Run, base: Run, demand: Run)
    requires run.Legal() && base.Legal() && run.Extends(base) && base.Extends(demand) && Demands(demand)
    requires NothingLeftToCheck(base, demand)
    ensures NothingLeftToCheck(run, demand) && (run != base ==> !Undercuts(run, demand))
  {
    if run != base {
      NothingIsChecked(run.before, base, demand);
      ExtendsChain(run.before, base, demand);
      LongerRunsDiffer(run, demand);
    }
  }

  lemma {:induction false} ExtendsChain(a: Run, b: Run, c: Run)
    requires a.Extends(b) && b.Extends(c)
    ensures a.Extends(c)
  {
    if a != b {
      ExtendsChain(a.before, b, c);
    }
  }

  lemma {:induction false} FlushesJoin(run: Run, base: Run, demand: Run, epoch: nat)
    requires NoFlushBelow(run, base, epoch) && NoFlushBelow(base, demand, epoch)
    ensures NoFlushBelow(run, demand, epoch)
  {
    if run != base {
      FlushesJoin(run.before, base, demand, epoch);
    }
  }

  /** A flush overwrites the minimum epoch. Coming now, it lets some continuation, with no further
      flush below an unanswered demand's epoch, validate a record below that epoch before the demand
      is answered, exactly when its own epoch is below it, the stream has not ended, and the send
      in flight is not a written recovery unit about to answer the demand. */
  lemma {:induction false} FlushUndercutsExactly(run: Run, demand: Run, epoch: nat)
    requires run.Legal() && demand.Legal() && run.Extends(demand) && Demands(demand) && Quiet(demand)
    requires !Answered(run, demand) && NoFlushBelow(run, demand, DemandedEpoch(demand))
    ensures var flush := Then(run, DoFlush(epoch));
            (exists later: Run ::
               later.Legal() && later.Extends(flush) && NoFlushBelow(later, flush, DemandedEpoch(demand))
               && Undercuts(later, demand))
            <==> epoch < DemandedEpoch(demand) && !run.State().media.eos && !Answering(run, demand)
  {
    var flush := Then(run, DoFlush(epoch));
    if epoch < DemandedEpoch(demand) && !run.State().media.eos && !Answering(run, demand) {
      var later := LowFlushUndercuts(run, demand, epoch);
    } else {
      forall later: Run | later.Legal() && later.Extends(flush) && NoFlushBelow(later, flush, DemandedEpoch(demand))
        ensures !Undercuts(later, demand)
      {
        HarmlessFlush(run, demand, epoch, later);
      }
    }
  }

  lemma {:induction false} HarmlessFlush(run: Run, demand: Run, epoch: nat, later: Run)
    requires run.Legal() && demand.Legal() && run.Extends(demand) && Demands(demand) && Quiet(demand)
    requires NoFlushBelow(run, demand, DemandedEpoch(demand))
    requires epoch >= DemandedEpoch(demand) || run.State().media.eos || Answering(run, demand)
    requires later.Legal() && later.Extends(Then(run, DoFlush(epoch)))
    requires NoFlushBelow(later, Then(run, DoFlush(epoch)), DemandedEpoch(demand))
    ensures !Undercuts(later, demand)
  {
    var flush := Then(run, DoFlush(epoch));
    LongerRunsDiffer(flush, demand);
    if later != flush {
      if epoch >= DemandedEpoch(demand) {
        FlushesJoin(later.before, flush, demand, DemandedEpoch(demand));
        ExtendsChain(later.before, flush, demand);
        UnansweredDemandsHold(later.before, demand);
      } else {
        NothingIsChecked(later, flush, demand);
      }
    }
  }

  // ------------------------------------------------------------------------------------------
  // Both do occur
  // ------------------------------------------------------------------------------------------

  lemma {:induction false} Follow(run: Run, step: Step) returns (next: Run)
    requires run.Legal() && Enabled(run.State(), step)
    ensures next == Then(run, step) && next.Legal() && next.State() == Next(run.State(), step)
  {
    next := Then(run, step);
  }

  /** A flush that comes while a recovery unit is in flight is forgotten, and the next record need
      not be a recovery unit. */
  lemma {:induction false} FlushCanBeForgotten() returns (flush: Run, later: Run)
    ensures flush.Legal() && flush.Then? && flush.step == DoFlush(2) && CouldClear(flush.before.State())
    ensures later.Legal() && later.Extends(flush) && !Answered(later, flush) && !later.State().media.needsRecovery
    ensures Enabled(later.State(), Check(2, false))
  {
    var run := Open(1);
    run := Follow(run, Check(1, true));
    flush := Follow(run, DoFlush(2));
    var written := Follow(flush, Write(1));
    assert !Answered(flush, flush) && !ValidatedSince(flush, flush);
    later := Follow(written, Finish);
  }

  /** The reader of a new generation can ask for a keyframe above the epoch that was chosen for its
      key unit, which the channel then refuses. */
  lemma {:induction false} KeyUnitCanBeAskedAway() returns (run: Run)
    ensures run.Legal() && OnlyReaderActed(run) && Opening(run) == Open(1) && AskedAbove(run, 1)
    ensures Refusal(run.State().media, 1, true) == Some(EpochBelowMinimum)
  {
    run := Follow(Open(1), AskKeyframe(2));
  }

  /** A flush to epoch 5 that comes while a send is under way lets a record of epoch 5 through
      although a keyframe of epoch 9 was demanded and none has answered. */
  lemma {:induction false} FlushCanUndercut() returns (demand: Run, flush: Run, later: Run)
    ensures demand.Legal() && demand.Then? && demand.step == AskKeyframe(9)
    ensures flush.Legal() && flush.Then? && flush.step == DoFlush(5) && flush.before.Extends(demand)
    ensures flush.State().flight.Validated? && later.Legal() && later.Extends(flush)
    ensures later.Then? && later.step == Check(5, true) && Undercuts(later, demand)
  {
    demand := Follow(Open(0), AskKeyframe(9));
    var sending := Follow(demand, Check(9, true));
    flush := Follow(sending, DoFlush(5));
    var idle := Follow(flush, Fail);
    later := Follow(idle, Check(5, true));
    assert !Answered(demand, demand) && !Answered(sending, demand);
    assert !Answered(flush, demand) && !Answered(idle, demand);
  }
}

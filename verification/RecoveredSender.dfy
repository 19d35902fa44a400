/** The life of a sender that a recovery hands out, among everything else that happens on its track.

    The sender is two shared counters. Its holders draw IDs and bump the epoch whenever they like,
    and send on the new channel with any ID drawn so far and any epoch the counter has held. Other
    channels, the control thread and the presenter's statuses act on the track all the while. */
module RecoveredSender {
  import opened Integers
  import opened MergeHistory
  import opened TrackMedia
  import opened TrackRecovery
  import opened Wrappers
  import ChannelFlow
  import ChannelRecovery

  const U32_VALUES := U32_MAX + 1

  /** A sender is born on the n-th channel with the ID and epoch of the key unit, which were chosen
      at the end of one run and merged at the end of a longer one. */
  datatype Life =
    | Born(n: ChannelId, id: nat, epoch: nat, chosen: Run, recovered: Run)
    | Draws(before: Life)
    | Bumps(before: Life)
    | Moves(before: Life, step: Step)
  {
    ghost function Birth(): (birth: Life)
      ensures birth.Born?
    {
      if Born? then this else before.Birth()
    }

    ghost function Drawn(): nat { if Born? then 0 else before.Drawn() + if Draws? then 1 else 0 }

    ghost function Bumped(): nat { if Born? then 0 else before.Bumped() + if Bumps? then 1 else 0 }

    /** What the packet counter holds. */
    ghost function LastId(): nat { Handed(Birth().id, Drawn()) }

    /** What the epoch counter holds. Its atomic additions wrap around. */
    ghost function Epoch(): nat { (Birth().epoch + Bumped()) % U32_VALUES }

    ghost predicate HasDrawn(id: nat) { !Born? && (before.HasDrawn(id) || (Draws? && id == LastId())) }

    ghost predicate HasHeld(epoch: nat) { epoch == Epoch() || (!Born? && before.HasHeld(epoch)) }

    /** Only the sender sends on its channel. Anything else may happen on the track. */
    ghost predicate Legal()
      decreases this, 0
    {
      match this
      case Born(n, id, epoch, chosen, recovered) => IsRecovery(n, id, epoch, chosen, recovered)
      case Moves(before, step) =>
        before.Legal() && Enabled(before.Track().State(), step)
        && (step.Check? && step.c == Birth().n ==> before.HasDrawn(step.id) && before.HasHeld(step.epoch))
      case _ => before.Legal()
    }

    ghost function Track(): (run: Run)
      requires Legal()
      ensures run.Legal()
      decreases this, 1
    {
      match this
      case Born(_, _, _, _, recovered) => recovered
      case Moves(before, step) => Then(before.Track(), step)
      case _ => before.Track()
    }

    /** The next ID handed out would pass the sequence check at the current epoch. */
    ghost predicate Passes()
      requires Legal()
    {
      Accept(Track().State().sequence, Successor(LastId()), Epoch()).Success?
    }
  }

  /** Since `base`, every send started on the channel was the key unit. */
  ghost predicate OnlyKeyUnitSince(run: Run, base: Run, n: ChannelId, id: nat, epoch: nat) {
    run == base
    || (run.Then? && OnlyKeyUnitSince(run.before, base, n, id, epoch)
        && (run.step.Check? && run.step.c == n ==> run.step == Check(n, id, epoch)))
  }

  /** The ID and the epoch were chosen when the sequence would let them through and the channel had
      not been used, and the key unit has just been merged. */
  ghost predicate IsRecovery(n: ChannelId, id: nat, epoch: nat, chosen: Run, recovered: Run) {
    && chosen.Legal() && n < |chosen.State().channels| && chosen.State().channels[n].flight.Idle?
    && Accept(chosen.State().sequence, id, epoch).Success? && id < U64_MAX && epoch <= U32_MAX
    && recovered.Legal() && recovered.Then? && recovered.step == Finish(n)
    && recovered.before.Extends(chosen) && OnlyKeyUnitSince(recovered.before, chosen, n, id, epoch)
  }

  // ------------------------------------------------------------------------------------------
  // The sender's own sends never get ahead of it
  // ------------------------------------------------------------------------------------------

  /** A send in flight on the channel is no later than an ID and an epoch. */
  predicate FlightWithin(s: State, n: ChannelId, id: nat, epoch: nat) {
    && n < |s.channels|
    && var f := s.channels[n].flight; !f.Idle? ==> f.id <= id && f.epoch <= epoch
  }

  /** Beyond an ID and an epoch the sequence holds only what others have brought to it. */
  predicate Explained(q: Sequence, id: nat, epoch: nat, seenId: nat, seenEpoch: nat) {
    seenId <= q.lastId <= Max(id, seenId) && seenEpoch <= q.lastEpoch <= Max(epoch, seenEpoch)
  }

  lemma StepKeepsFlight(s: State, step: Step, n: ChannelId, id: nat, epoch: nat)
    requires FlightWithin(s, n, id, epoch) && Enabled(s, step)
    requires step.Check? && step.c == n ==> step.id <= id && step.epoch <= epoch
    ensures FlightWithin(Next(s, step), n, id, epoch)
  {}

  lemma StepIsExplained(s: State, step: Step, n: ChannelId, id: nat, epoch: nat, seenId: nat, seenEpoch: nat)
    requires FlightWithin(s, n, id, epoch) && Enabled(s, step) && Explained(s.sequence, id, epoch, seenId, seenEpoch)
    ensures Explained(Next(s, step).sequence, id, epoch,
                      RaiseId(seenId, s, step, AllBut(n)), RaiseEpoch(seenEpoch, s, step, AllBut(n)))
  {}

  lemma {:induction false} RecoveryIsExplained(run: Run, base: Run, n: ChannelId, id: nat, epoch: nat)
    requires run.Legal() && base.Legal() && run.Extends(base) && OnlyKeyUnitSince(run, base, n, id, epoch)
    requires n < |base.State().channels| && base.State().channels[n].flight.Idle?
    requires Accept(base.State().sequence, id, epoch).Success?
    ensures FlightWithin(run.State(), n, id, epoch)
    ensures Explained(run.State().sequence, id, epoch, SeenId(run, base, AllBut(n)), SeenEpoch(run, base, AllBut(n)))
    ensures var f := run.State().channels[n].flight; !f.Idle? ==> f.id == id && f.epoch == epoch
  {
    if run != base {
      RecoveryIsExplained(run.before, base, n, id, epoch);
      var s := run.before.State();
      StepKeepsFlight(s, run.step, n, id, epoch);
      StepIsExplained(s, run.step, n, id, epoch,
                      SeenId(run.before, base, AllBut(n)), SeenEpoch(run.before, base, AllBut(n)));
    }
  }

  lemma {:induction false} DrawnIsBounded(life: Life, id: nat)
    requires life.HasDrawn(id) && life.Birth().id <= U64_MAX
    ensures id <= life.Birth().id + life.Drawn()
  {
    if life.before.HasDrawn(id) {
      DrawnIsBounded(life.before, id);
    } else {
      HandedInClosedForm(life.Birth().id, life.Drawn());
    }
  }

  lemma {:induction false} HeldIsBounded(life: Life, epoch: nat)
    requires life.HasHeld(epoch)
    ensures epoch <= life.Birth().epoch + life.Bumped()
  {
    if epoch != life.Epoch() {
      HeldIsBounded(life.before, epoch);
    }
  }

  /** The track has reached a first ID, and beyond an ID and an epoch the channel brings nothing to it. */
  ghost predicate TrackExplained(run: Run, base: Run, n: ChannelId, first: nat, id: nat, epoch: nat)
    requires run.Legal()
  {
    && run.Extends(base) && first <= run.State().sequence.lastId && FlightWithin(run.State(), n, id, epoch)
    && Explained(run.State().sequence, id, epoch, SeenId(run, base, AllBut(n)), SeenEpoch(run, base, AllBut(n)))
  }

  ghost predicate LifeExplained(life: Life)
    requires life.Legal()
  {
    var birth := life.Birth();
    TrackExplained(life.Track(), birth.chosen, birth.n, birth.id, birth.id + life.Drawn(), birth.epoch + life.Bumped())
  }

  lemma BirthIsExplained(life: Life)
    requires life.Legal() && life.Born?
    ensures LifeExplained(life)
  {
    var run := life.recovered;
    LongerRunsDiffer(run, life.chosen);
    RecoveryIsExplained(run.before, life.chosen, life.n, life.id, life.epoch);
    RecoveryIsExplained(run, life.chosen, life.n, life.id, life.epoch);
  }

  lemma OwnCheckIsWithin(life: Life)
    requires life.Legal() && life.Moves? && life.step.Check? && life.step.c == life.Birth().n
    requires life.Birth().id <= U64_MAX
    ensures life.step.id <= life.Birth().id + life.Drawn() && life.step.epoch <= life.Birth().epoch + life.Bumped()
  {
    DrawnIsBounded(life.before, life.step.id);
    HeldIsBounded(life.before, life.step.epoch);
  }

  lemma {:induction false} TrackStepIsExplained(
    run: Run, step: Step, base: Run, n: ChannelId, first: nat, id: nat, epoch: nat)
    requires Then(run, step).Legal() && TrackExplained(run, base, n, first, id, epoch)
    requires step.Check? && step.c == n ==> step.id <= id && step.epoch <= epoch
    ensures TrackExplained(Then(run, step), base, n, first, id, epoch)
  {
    var next := Then(run, step);
    StepKeepsFlight(run.State(), step, n, id, epoch);
    StepIsExplained(run.State(), step, n, id, epoch, SeenId(run, base, AllBut(n)), SeenEpoch(run, base, AllBut(n)));
    SeenAfterOneMore(run, step, base, AllBut(n));
    ProgressIsNeverLost(next, run);
  }

  lemma MoveIsExplained(life: Life)
    requires life.Legal() && life.Moves? && LifeExplained(life.before) && life.Birth().id <= U64_MAX
    ensures LifeExplained(life)
  {
    var birth, step := life.Birth(), life.step;
    if step.Check? && step.c == birth.n {
      OwnCheckIsWithin(life);
    }
    TrackStepIsExplained(life.before.Track(), step, birth.chosen, birth.n, birth.id,
                         birth.id + life.Drawn(), birth.epoch + life.Bumped());
  }

  lemma {:induction false} BirthIsLegal(life: Life)
    requires life.Legal()
    ensures life.Birth().Legal()
  {
    if !life.Born? {
      BirthIsLegal(life.before);
    }
  }

  lemma {:induction false} LivesAreExplained(life: Life)
    requires life.Legal()
    ensures LifeExplained(life)
  {
    BirthIsLegal(life);
    match life {
      case Born(_, _, _, _, _) => BirthIsExplained(life);
      case Moves(before, _) =>
        LivesAreExplained(before);
        MoveIsExplained(life);
      case _ => LivesAreExplained(life.before);
    }
  }

  // ------------------------------------------------------------------------------------------
  // When its next record passes
  // ------------------------------------------------------------------------------------------

  /** Neither counter has wrapped around for long: fewer than 2^64 IDs have been drawn, and the epoch
      has not wrapped at all. */
  ghost predicate Young(life: Life) {
    life.Drawn() < U64_VALUES && life.Birth().epoch + life.Bumped() <= U32_MAX
  }

  /** An ID that has wrapped around is no higher than the key unit's. */
  lemma NextPasses(q: Sequence, id: nat, drawn: nat, next: nat, epoch: nat, seenId: nat, seenEpoch: nat)
    requires Explained(q, id + drawn, epoch, seenId, seenEpoch) && id <= q.lastId
    requires if id + drawn < U64_MAX then next == id + drawn + 1 else next <= id
    ensures Accept(q, next, epoch).Success?
            <==> id + drawn < U64_MAX && seenId <= id + drawn && seenEpoch <= epoch
  {}

  lemma NextHanded(id: nat, drawn: nat)
    requires id < U64_MAX && drawn < U64_VALUES
    ensures var next := Successor(Handed(id, drawn));
            if id + drawn < U64_MAX then next == id + drawn + 1 else next <= id
  {
    HandedInClosedForm(id, drawn + 1);
    if id + drawn + 1 > U64_MAX {
      assert (id + drawn + 1) % U64_VALUES == id + drawn + 1 - U64_VALUES;
    }
  }

  lemma LifeIsBounded(life: Life)
    requires life.Legal()
    ensures var birth, track := life.Birth(), life.Track();
            && birth.id <= track.State().sequence.lastId && birth.id < U64_MAX
            && Explained(track.State().sequence, birth.id + life.Drawn(), birth.epoch + life.Bumped(),
                         SeenId(track, birth.chosen, AllBut(birth.n)), SeenEpoch(track, birth.chosen, AllBut(birth.n)))
  {
    BirthIsLegal(life);
    LivesAreExplained(life);
  }

  lemma EpochIsBumped(life: Life)
    requires life.Birth().epoch + life.Bumped() <= U32_MAX
    ensures life.Epoch() == life.Birth().epoch + life.Bumped()
  {}

  /** The next ID handed out passes exactly when it has not wrapped around, nothing that others have
      merged since the key unit's ID was chosen has reached it, and no epoch that they have merged,
      or that a flush has assigned, since the last flush exceeds the sender's. */
  lemma SenderContinues(life: Life)
    requires life.Legal() && Young(life)
    ensures var birth, track := life.Birth(), life.Track();
            life.Passes() <==>
              && birth.id + life.Drawn() < U64_MAX
              && SeenId(track, birth.chosen, AllBut(birth.n)) <= birth.id + life.Drawn()
              && SeenEpoch(track, birth.chosen, AllBut(birth.n)) <= birth.epoch + life.Bumped()
  {
    var birth, track := life.Birth(), life.Track();
    LifeIsBounded(life);
    EpochIsBumped(life);
    NextHanded(birth.id, life.Drawn());
    NextPasses(track.State().sequence, birth.id, life.Drawn(), Successor(life.LastId()), life.Epoch(),
               SeenId(track, birth.chosen, AllBut(birth.n)), SeenEpoch(track, birth.chosen, AllBut(birth.n)));
  }

  /** The sequence is what has been merged since the key unit's ID was chosen, and nothing else. */
  ghost predicate IsSeen(run: Run, base: Run)
    requires run.Legal()
  {
    && run.State().sequence.lastId == SeenId(run, base, EverySend)
    && run.State().sequence.lastEpoch == SeenEpoch(run, base, EverySend)
  }

  lemma RecoveryIsSeen(life: Life)
    requires life.Legal() && life.Born?
    ensures IsSeen(life.recovered, life.chosen)
  {
    var run := life.recovered.before;
    RecoveryIsExplained(run, life.chosen, life.n, life.id, life.epoch);
    ProgressIsSeen(run, life.chosen);
    SeenAfterOneMore(run, Finish(life.n), life.chosen, EverySend);
  }

  lemma {:induction false} MoveIsSeen(run: Run, step: Step, base: Run)
    requires Then(run, step).Legal() && run.Extends(base) && IsSeen(run, base)
    ensures IsSeen(Then(run, step), base)
  {
    SeenAfterOneMore(run, step, base, EverySend);
  }

  lemma {:induction false} LivesAreSeen(life: Life)
    requires life.Legal()
    ensures IsSeen(life.Track(), life.Birth().chosen)
  {
    match life {
      case Born(_, _, _, _, _) => RecoveryIsSeen(life);
      case Moves(before, step) =>
        LivesAreSeen(before);
        LivesAreExplained(before);
        MoveIsSeen(before.Track(), step, life.Birth().chosen);
      case _ => LivesAreSeen(life.before);
    }
  }

  /** Whatever the counters have been through, the next ID handed out passes exactly when nothing
      merged since the key unit's ID was chosen has reached it or passed its epoch. */
  lemma SenderPassesExactly(life: Life)
    requires life.Legal()
    ensures var base, track := life.Birth().chosen, life.Track();
            life.Passes() <==> SeenId(track, base, EverySend) < Successor(life.LastId())
                               && SeenEpoch(track, base, EverySend) <= life.Epoch()
  {
    LivesAreSeen(life);
  }

  /** If no earlier send was ahead of the key unit when its ID was chosen, and no channel has been
      opened since, only statuses and flushes matter. */
  lemma SettledSenderContinues(life: Life)
    requires life.Legal() && Young(life)
    requires var birth := life.Birth();
             && birth.chosen.Legal() && NoneAhead(birth.chosen.State(), birth.n, birth.id, birth.epoch)
             && NoOpenSince(life.Track(), birth.chosen)
    ensures var birth, track := life.Birth(), life.Track();
            life.Passes() <==>
              && birth.id + life.Drawn() < U64_MAX
              && SeenId(track, birth.chosen, NoSend) <= birth.id + life.Drawn()
              && SeenEpoch(track, birth.chosen, NoSend) <= birth.epoch + life.Bumped()
  {
    var birth := life.Birth();
    BirthIsLegal(life);
    LivesAreExplained(life);
    EarlierSendsStayBehind(life.Track(), birth.chosen, birth.n, birth.id, birth.epoch);
    FewerSeeLess(life.Track(), birth.chosen, AllBut(birth.n));
    SenderContinues(life);
  }

  /** The sender after so many more draws and bumps and nothing else. */
  ghost function Advanced(life: Life, draws: nat, bumps: nat): Life
    decreases draws + bumps
  {
    if draws > 0 then Draws(Advanced(life, draws - 1, bumps))
    else if bumps > 0 then Bumps(Advanced(life, 0, bumps - 1))
    else life
  }

  lemma {:induction false} AdvancedCounts(life: Life, draws: nat, bumps: nat)
    requires life.Legal()
    ensures var later := Advanced(life, draws, bumps);
            && later.Legal() && later.Track() == life.Track() && later.Birth() == life.Birth()
            && later.Drawn() == life.Drawn() + draws && later.Bumped() == life.Bumped() + bumps
    decreases draws + bumps
  {
    if draws > 0 {
      AdvancedCounts(life, draws - 1, bumps);
    } else if bumps > 0 {
      AdvancedCounts(life, 0, bumps - 1);
    }
  }

  /** A refusal ends with exactly as many draws and bumps as the sender is behind in ID and epoch. */
  lemma RefusalEndsExactly(life: Life, draws: nat, bumps: nat)
    requires life.Legal() && Young(Advanced(life, draws, bumps))
    ensures var birth, track, later := life.Birth(), life.Track(), Advanced(life, draws, bumps);
            && later.Legal() && later.Track() == track
            && (later.Passes() <==>
                  && birth.id + life.Drawn() + draws < U64_MAX
                  && SeenId(track, birth.chosen, AllBut(birth.n)) - (birth.id + life.Drawn()) <= draws
                  && SeenEpoch(track, birth.chosen, AllBut(birth.n)) - (birth.epoch + life.Bumped()) <= bumps)
  {
    AdvancedCounts(life, draws, bumps);
    SenderContinues(Advanced(life, draws, bumps));
  }

  // ------------------------------------------------------------------------------------------
  // Refusals do occur
  // ------------------------------------------------------------------------------------------

  /** A key unit that is sent without interruption brings a sender to life. */
  lemma {:induction false} KeyUnitBringsSender(chosen: Run, n: ChannelId, id: nat, epoch: nat, record: nat)
    returns (life: Life)
    requires chosen.Legal() && n < |chosen.State().channels| && chosen.State().channels[n] == Channel(true, Idle)
    requires Accept(chosen.State().sequence, id, epoch).Success? && id < U64_MAX && epoch <= U32_MAX
    ensures life.Legal() && life.Born? && (life.n, life.id, life.epoch, life.chosen) == (n, id, epoch, chosen)
    ensures InRange(chosen) ==> InRange(life.Track())
    ensures AtomicFlushes(chosen) ==> AtomicFlushes(life.Track())
    ensures var s, r := chosen.State(), life.Track().State();
            && r.sequence == Merge(s.sequence, id, epoch, record) && r.channels == s.channels
            && r.trace == s.trace + [Entry(n, id, epoch)] && r.flushing == s.flushing
  {
    var checked := Follow(chosen, Check(n, id, epoch));
    var charged := Follow(checked, Charge(n));
    assert charged.Extends(chosen) && OnlyKeyUnitSince(charged, chosen, n, id, epoch);
    assert (InRange(chosen) ==> InRange(charged)) && (AtomicFlushes(chosen) ==> AtomicFlushes(charged));
    var written := Follow(charged, Write(n, record));
    assert written.Extends(chosen) && OnlyKeyUnitSince(written, chosen, n, id, epoch);
    var recovered := Follow(written, Finish(n));
    life := Born(n, id, epoch, chosen, recovered);
  }

  lemma CountersAtBirth(life: Life)
    requires life.Born? && life.id < U64_MAX && life.epoch <= U32_MAX
    ensures Successor(life.LastId()) == life.id + 1 && life.Epoch() == life.epoch
  {}

  /** The sender that a recovery hands out is such a sender. */
  lemma {:induction false} RecoveryBringsSender(
    chosen: Run, n: ChannelId, video: bool, active: bool, media: ChannelRecovery.Media, flow: ChannelFlow.Flow,
    length: nat, written: Option<nat>)
    returns (life: Life)
    requires chosen.Legal() && n < |chosen.State().channels| && chosen.State().channels[n] == Channel(true, Idle)
    requires chosen.State().sequence.lastEpoch <= U32_MAX
    requires var q := chosen.State().sequence;
             Complete(Choose(q), video, active, media, q, flow, length, written).Success?
    ensures var q := chosen.State().sequence;
            && life.Legal() && life.Born? && life.chosen == chosen
            && Complete(Choose(q), video, active, media, q, flow, length, written).value
               == (Successor(life.LastId()), life.Epoch())
            && written.Some? && life.Track().State().sequence == Merge(q, life.id, life.epoch, written.value)
  {
    var q := chosen.State().sequence;
    CompletesExactly(q, video, active, media, q, flow, length, written);
    life := KeyUnitBringsSender(chosen, n, q.lastId + 1, Max(q.lastEpoch, 1), written.value);
    CountersAtBirth(life);
  }

  lemma {:induction false} FollowLife(life: Life, step: Step) returns (next: Life)
    requires life.Legal() && Enabled(life.Track().State(), step)
    requires step.Check? && step.c == life.Birth().n ==> life.HasDrawn(step.id) && life.HasHeld(step.epoch)
    ensures next == Moves(life, step) && next.Legal() && next.Track() == Then(life.Track(), step)
    ensures next.Track().State() == Next(life.Track().State(), step)
    ensures (next.Birth(), next.Drawn(), next.Bumped()) == (life.Birth(), life.Drawn(), life.Bumped())
  {
    next := Moves(life, step);
  }

  lemma BumpsOnly(life: Life)
    requires life.Legal()
    ensures var next := Bumps(life);
            && next.Legal() && next.Track() == life.Track() && next.LastId() == life.LastId()
            && (next.Birth(), next.Bumped()) == (life.Birth(), life.Bumped() + 1)
  {}

  lemma {:induction false} FirstSender() returns (life: Life)
    ensures life.Legal() && InRange(life.Track()) && AtomicFlushes(life.Track())
    ensures life.Born? && life.id == life.epoch == 1
    ensures var s := life.Track().State(); s.sequence == Sequence(1, 1, 1) && s.flushing == Option.None
  {
    var chosen := Follow(Start, OpenChannel);
    life := KeyUnitBringsSender(chosen, 0, 1, 1, 1);
  }

  lemma {:induction false} FlushSender(born: Life) returns (life: Life)
    requires born.Legal() && InRange(born.Track()) && AtomicFlushes(born.Track()) && born.Born?
    requires var s := born.Track().State(); s.sequence == Sequence(1, 1, 1) && s.flushing == Option.None
    ensures life.Legal() && InRange(life.Track()) && AtomicFlushes(life.Track())
    ensures life == Moves(Moves(born, CheckFlush(3)), AssignFlush)
    ensures (life.Birth(), life.Drawn(), life.Bumped()) == (born, 0, 0)
    ensures life.Track().State().sequence == Sequence(1, 3, 1)
  {
    var flushing := FollowLife(born, CheckFlush(3));
    life := FollowLife(flushing, AssignFlush);
  }

  /** An atomic flush to epoch 3 leaves the sender at epoch 1, and a single bump is not enough. */
  lemma {:induction false} FlushedSenderIsRefused() returns (life: Life)
    ensures life.Legal() && InRange(life.Track()) && AtomicFlushes(life.Track())
    ensures life.Moves? && life.step.AssignFlush? && life.before.Moves? && life.before.step == CheckFlush(3)
    ensures life.before.before.Born?
    ensures (Successor(life.LastId()), life.Epoch()) == (2, 1)
    ensures Accept(life.Track().State().sequence, 2, 1) == Failure(EpochBackward)
    ensures !Bumps(life).Passes() && Bumps(Bumps(life)).Passes()
  {
    var born := FirstSender();
    life := FlushSender(born);
    assert life.LastId() == Handed(1, 0) && life.Epoch() == 1;
    BumpsOnly(life);
    BumpsOnly(Bumps(life));
  }

  /** A status that the presenter sends ahead of the sender makes the next ID too low. */
  lemma {:induction false} OvertakenSenderIsRefused() returns (life: Life)
    ensures life.Legal() && InRange(life.Track())
    ensures life.Moves? && life.step == MergeStatus(Status(7, 1, 1), false) && life.before.Born?
    ensures Successor(life.LastId()) == 2
    ensures Accept(life.Track().State().sequence, 2, life.Epoch()) == Failure(IdNotIncreasing)
  {
    var born := FirstSender();
    life := FollowLife(born, MergeStatus(Status(7, 1, 1), false));
    assert life.LastId() == Handed(1, 0);
  }

  /** Send one record with the ID that has just been drawn, and merge it. */
  lemma {:induction false} SendDrawn(life: Life, id: nat, epoch: nat) returns (sent: Life)
    requires life.Legal() && life.HasDrawn(id) && life.HasHeld(epoch)
    requires var s, n := life.Track().State(), life.Birth().n;
             && n < |s.channels| && s.channels[n] == Channel(true, Idle) && Accept(s.sequence, id, epoch).Success?
    ensures sent.Legal() && (sent.Birth(), sent.Drawn(), sent.Bumped()) == (life.Birth(), life.Drawn(), life.Bumped())
    ensures InRange(life.Track()) && id <= U64_MAX && epoch <= U32_MAX ==> InRange(sent.Track())
    ensures sent.Track().State().sequence == Merge(life.Track().State().sequence, id, epoch, 2)
    ensures sent.Track().State().trace == life.Track().State().trace + [Entry(life.Birth().n, id, epoch)]
  {
    var n := life.Birth().n;
    var checked := FollowLife(life, Check(n, id, epoch));
    var charged := FollowLife(checked, Charge(n));
    assert InRange(life.Track()) && id <= U64_MAX && epoch <= U32_MAX ==> InRange(charged.Track());
    var written := FollowLife(charged, Write(n, 2));
    sent := FollowLife(written, Finish(n));
  }

  lemma {:induction false} LateSender() returns (born: Life)
    ensures born.Legal() && born.Born? && (born.id, born.epoch) == (U64_MAX - 1, 1) && InRange(born.Track())
    ensures var s := born.Track().State();
            && s.sequence.lastId == U64_MAX - 1 && s.sequence.lastEpoch == 1
            && born.n < |s.channels| && s.channels[born.n] == Channel(true, Idle)
  {
    var open := Follow(Start, OpenChannel);
    assert InRange(open);
    var chosen := Follow(open, MergeStatus(Status(U64_MAX - 2, 1, 0), false));
    born := KeyUnitBringsSender(chosen, 0, U64_MAX - 1, 1, 1);
  }

  /** A track that the presenter has brought to the third-last ID can be recovered, and its sender gets
      the last ID through. The counter's next ID is zero, which is refused. */
  lemma {:induction false} WrappedIdIsRefused() returns (born: Life, sent: Life)
    ensures born.Legal() && born.Born? && born.id == U64_MAX - 1 && InRange(born.Track())
    ensures Successor(born.LastId()) == U64_MAX && born.Passes()
    ensures sent.Legal() && sent.Birth() == born && sent.Drawn() == 1 && InRange(sent.Track())
    ensures sent.Track().State().trace == born.Track().State().trace + [Entry(born.n, U64_MAX, 1)]
    ensures Successor(sent.LastId()) == 0
    ensures Accept(sent.Track().State().sequence, 0, sent.Epoch()) == Failure(IdNotIncreasing)
  {
    born := LateSender();
    CountersAtBirth(born);
    var drawn := DrawLast(born);
    sent := SendDrawn(drawn, U64_MAX, 1);
    assert sent.LastId() == drawn.LastId();
  }

  lemma {:induction false} DrawLast(born: Life) returns (drawn: Life)
    requires born.Legal() && born.Born? && (born.id, born.epoch) == (U64_MAX - 1, 1)
    ensures drawn == Draws(born) && drawn.Legal() && drawn.Track() == born.Track()
    ensures drawn.LastId() == U64_MAX && drawn.HasDrawn(U64_MAX) && drawn.HasHeld(1)
  {
    drawn := Draws(born);
    CountersAtBirth(born);
    assert drawn.LastId() == Handed(U64_MAX - 1, 1) && drawn.Epoch() == 1;
  }
}

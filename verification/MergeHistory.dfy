/** What merges have brought to a track's sequence over a stretch of a run, read off the steps, and
    from that exactly which send the sequence lets through. */
module MergeHistory {
  import opened Integers
  import opened Wrappers
  import opened TrackMedia

  /** Whose merges are counted: those of all sends, of all sends but one channel's, or of none.
      Statuses and flushes always count. */
  datatype Sends = EverySend | AllBut(own: ChannelId) | NoSend

  predicate Counts(sends: Sends, c: ChannelId) { sends.EverySend? || (sends.AllBut? && c != sends.own) }

  /** The highest ID seen after one more step. */
  function RaiseId(seen: nat, s: State, step: Step, sends: Sends): nat
    requires Enabled(s, step)
  {
    match step
    case Finish(c) => if Counts(sends, c) then Max(seen, s.channels[c].flight.id) else seen
    case MergeStatus(status, _) => Max(seen, status.mediaId)
    case _ => seen
  }

  /** The highest epoch seen after one more step. A flush starts over from its own. */
  function RaiseEpoch(seen: nat, s: State, step: Step, sends: Sends): nat
    requires Enabled(s, step)
  {
    match step
    case Finish(c) => if Counts(sends, c) then Max(seen, s.channels[c].flight.epoch) else seen
    case MergeStatus(status, _) => Max(seen, status.mediaEpoch)
    case AssignFlush => s.flushing.value
    case _ => seen
  }

  /** The highest ID merged since `base`. */
  ghost function SeenId(run: Run, base: Run, sends: Sends): nat
    requires run.Legal()
  {
    if run == base || run.Start? then 0
    else RaiseId(SeenId(run.before, base, sends), run.before.State(), run.step, sends)
  }

  /** The highest epoch merged since `base`, or since the last flush assigned after it, that flush's
      own epoch included. */
  ghost function SeenEpoch(run: Run, base: Run, sends: Sends): nat
    requires run.Legal()
  {
    if run == base || run.Start? then 0
    else RaiseEpoch(SeenEpoch(run.before, base, sends), run.before.State(), run.step, sends)
  }

  ghost function Length(run: Run): nat { if run.Start? then 0 else Length(run.before) + 1 }

  lemma {:induction false} ExtendingIsLonger(run: Run, earlier: Run)
    requires run.Extends(earlier)
    ensures Length(earlier) <= Length(run)
  {
    if run != earlier {
      ExtendingIsLonger(run.before, earlier);
    }
  }

  lemma {:induction false} LongerRunsDiffer(run: Run, earlier: Run)
    requires run.Then? && run.before.Extends(earlier)
    ensures run != earlier
  {
    ExtendingIsLonger(run.before, earlier);
  }

  lemma {:induction false} SeenAfterOneMore(run: Run, step: Step, base: Run, sends: Sends)
    requires Then(run, step).Legal() && run.Extends(base)
    ensures SeenId(Then(run, step), base, sends) == RaiseId(SeenId(run, base, sends), run.State(), step, sends)
    ensures SeenEpoch(Then(run, step), base, sends)
            == RaiseEpoch(SeenEpoch(run, base, sends), run.State(), step, sends)
  {
    LongerRunsDiffer(Then(run, step), base);
  }

  // ------------------------------------------------------------------------------------------
  // What the sequence has come to
  // ------------------------------------------------------------------------------------------

  lemma StepIsSeen(s: State, step: Step, first: Sequence, id: nat, epoch: nat)
    requires Enabled(s, step)
    requires s.sequence.lastId == Max(first.lastId, id) && epoch <= s.sequence.lastEpoch <= Max(first.lastEpoch, epoch)
    ensures var q := Next(s, step).sequence;
            && q.lastId == Max(first.lastId, RaiseId(id, s, step, EverySend))
            && RaiseEpoch(epoch, s, step, EverySend) <= q.lastEpoch
            && q.lastEpoch <= Max(first.lastEpoch, RaiseEpoch(epoch, s, step, EverySend))
  {}

  lemma {:induction false} ProgressIsSeen(run: Run, base: Run)
    requires run.Legal() && base.Legal() && run.Extends(base)
    ensures var q, r := base.State().sequence, run.State().sequence;
            && r.lastId == Max(q.lastId, SeenId(run, base, EverySend))
            && SeenEpoch(run, base, EverySend) <= r.lastEpoch <= Max(q.lastEpoch, SeenEpoch(run, base, EverySend))
  {
    if run != base {
      ProgressIsSeen(run.before, base);
      StepIsSeen(run.before.State(), run.step, base.State().sequence,
                 SeenId(run.before, base, EverySend), SeenEpoch(run.before, base, EverySend));
    }
  }

  /** A record that the sequence would let through at one point of a run is let through later
      exactly when nothing merged in between has reached its ID or passed its epoch. */
  lemma {:induction false} SendStillPassesExactly(run: Run, base: Run, id: nat, epoch: nat)
    requires run.Legal() && base.Legal() && run.Extends(base) && Accept(base.State().sequence, id, epoch).Success?
    ensures Accept(run.State().sequence, id, epoch).Success?
            <==> SeenId(run, base, EverySend) < id && SeenEpoch(run, base, EverySend) <= epoch
  {
    ProgressIsSeen(run, base);
  }

  lemma StatusesSeeLess(s: State, step: Step, sends: Sends, low: nat, high: nat)
    requires Enabled(s, step) && low <= high
    ensures RaiseId(low, s, step, NoSend) <= RaiseId(high, s, step, sends)
    ensures RaiseEpoch(low, s, step, NoSend) <= RaiseEpoch(high, s, step, sends)
  {}

  lemma {:induction false} FewerSeeLess(run: Run, base: Run, sends: Sends)
    requires run.Legal()
    ensures SeenId(run, base, NoSend) <= SeenId(run, base, sends)
    ensures SeenEpoch(run, base, NoSend) <= SeenEpoch(run, base, sends)
  {
    if run != base && run.Then? {
      FewerSeeLess(run.before, base, sends);
      var s := run.before.State();
      StatusesSeeLess(s, run.step, sends, SeenId(run.before, base, NoSend), SeenId(run.before, base, sends));
      StatusesSeeLess(s, run.step, sends, SeenEpoch(run.before, base, NoSend), SeenEpoch(run.before, base, sends));
    }
  }

  // ------------------------------------------------------------------------------------------
  // Only the latest generation is open
  // ------------------------------------------------------------------------------------------

  lemma SendKeepsLatestOpen(s: State, step: Step)
    requires OnlyLatestIsOpen(s) && Enabled(s, step)
    requires step.Check? || step.Charge? || step.Refuse? || step.Write? || step.FailWrite? || step.Finish?
    ensures OnlyLatestIsOpen(Next(s, step))
  {}

  lemma ControlKeepsLatestOpen(s: State, step: Step)
    requires OnlyLatestIsOpen(s) && Enabled(s, step)
    requires !step.Check? && !step.Charge? && !step.Refuse? && !step.Write? && !step.FailWrite? && !step.Finish?
    ensures OnlyLatestIsOpen(Next(s, step))
  {}

  lemma {:induction false} OnlyTheLatestIsOpen(run: Run)
    requires run.Legal()
    ensures OnlyLatestIsOpen(run.State())
  {
    if run.Then? {
      OnlyTheLatestIsOpen(run.before);
      var s, step := run.before.State(), run.step;
      match step {
        case Check(_, _, _) => SendKeepsLatestOpen(s, step);
        case Charge(_) => SendKeepsLatestOpen(s, step);
        case Refuse(_) => SendKeepsLatestOpen(s, step);
        case Write(_, _) => SendKeepsLatestOpen(s, step);
        case FailWrite(_) => SendKeepsLatestOpen(s, step);
        case Finish(_) => SendKeepsLatestOpen(s, step);
        case _ => ControlKeepsLatestOpen(s, step);
      }
    }
  }

  ghost function Opens(run: Run): nat {
    if run.Start? then 0 else Opens(run.before) + if run.step.OpenChannel? then 1 else 0
  }

  /** The channel has been opened, and since then neither closed nor left behind by an advance or by a
      status of another generation. */
  ghost predicate StaysOpen(run: Run, c: ChannelId) {
    match run
    case Start => false
    case Then(before, OpenChannel) => c == Opens(before) || StaysOpen(before, c)
    case Then(before, Close(closed)) => closed != c && StaysOpen(before, c)
    case Then(_, Advance) => false
    case Then(before, MergeStatus(_, changed)) => !changed && StaysOpen(before, c)
    case Then(before, _) => StaysOpen(before, c)
  }

  lemma StepMovesOpen(s: State, step: Step, c: ChannelId, open: bool)
    requires OnlyLatestIsOpen(s) && Enabled(s, step)
    requires (c < |s.channels| && s.channels[c].open) <==> open
    ensures var r := Next(s, step);
            && |r.channels| == |s.channels| + (if step.OpenChannel? then 1 else 0)
            && ((c < |r.channels| && r.channels[c].open) <==>
                  match step
                  case OpenChannel => c == |s.channels| || open
                  case Close(closed) => closed != c && open
                  case Advance => false
                  case MergeStatus(_, changed) => !changed && open
                  case _ => open)
  {}

  /** Which channels are open, from the steps of the run. */
  lemma {:induction false} OpenIsExact(run: Run, c: ChannelId)
    requires run.Legal()
    ensures |run.State().channels| == Opens(run)
    ensures (c < |run.State().channels| && run.State().channels[c].open) <==> StaysOpen(run, c)
  {
    if run.Then? {
      OpenIsExact(run.before, c);
      OnlyTheLatestIsOpen(run.before);
      StepMovesOpen(run.before.State(), run.step, c, StaysOpen(run.before, c));
    }
  }

  /** The send is charged or written, with an ID or an epoch that would overtake the record. */
  predicate Ahead(f: Flight, id: nat, epoch: nat) { (f.Charged? || f.Written?) && (id <= f.id || epoch < f.epoch) }

  /** Of the channels before the n-th, which is the latest, none has a send ahead of the record. */
  ghost predicate NoneAhead(s: State, n: ChannelId, id: nat, epoch: nat) {
    && |s.channels| == n + 1
    && forall c :: 0 <= c < n ==> !s.channels[c].open && !Ahead(s.channels[c].flight, id, epoch)
  }

  lemma StepKeepsNoneAhead(s: State, step: Step, n: ChannelId, id: nat, epoch: nat)
    requires NoneAhead(s, n, id, epoch) && Enabled(s, step) && !step.OpenChannel?
    ensures NoneAhead(Next(s, step), n, id, epoch)
  {}

  lemma IdStaysBehind(s: State, step: Step, n: ChannelId, id: nat, epoch: nat, seen: nat, status: nat)
    requires NoneAhead(s, n, id, epoch) && Enabled(s, step) && 0 < id && seen < Max(id, status + 1)
    ensures RaiseId(seen, s, step, AllBut(n)) < Max(id, RaiseId(status, s, step, NoSend) + 1)
  {
    if step.Finish? && step.c < n {
      assert !Ahead(s.channels[step.c].flight, id, epoch);
    }
  }

  lemma EpochStaysBehind(s: State, step: Step, n: ChannelId, id: nat, epoch: nat, seen: nat, status: nat)
    requires NoneAhead(s, n, id, epoch) && Enabled(s, step) && seen <= Max(epoch, status)
    ensures RaiseEpoch(seen, s, step, AllBut(n)) <= Max(epoch, RaiseEpoch(status, s, step, NoSend))
  {
    if step.Finish? && step.c < n {
      assert !Ahead(s.channels[step.c].flight, id, epoch);
    }
  }

  ghost predicate NoOpenSince(run: Run, base: Run) {
    run == base || (run.Then? && NoOpenSince(run.before, base) && !run.step.OpenChannel?)
  }

  lemma {:induction false} NoneGetsAhead(run: Run, base: Run, n: ChannelId, id: nat, epoch: nat)
    requires run.Legal() && base.Legal() && run.Extends(base) && NoOpenSince(run, base)
    requires NoneAhead(base.State(), n, id, epoch)
    ensures NoneAhead(run.State(), n, id, epoch)
  {
    if run != base {
      NoneGetsAhead(run.before, base, n, id, epoch);
      StepKeepsNoneAhead(run.before.State(), run.step, n, id, epoch);
    }
  }

  /** Without a further open, the sends of earlier channels never bring the sequence to a record that
      none of them was ahead of. */
  lemma {:induction false} EarlierSendsStayBehind(run: Run, base: Run, n: ChannelId, id: nat, epoch: nat)
    requires run.Legal() && base.Legal() && run.Extends(base) && NoOpenSince(run, base)
    requires NoneAhead(base.State(), n, id, epoch) && 0 < id
    ensures SeenId(run, base, AllBut(n)) < Max(id, SeenId(run, base, NoSend) + 1)
    ensures SeenEpoch(run, base, AllBut(n)) <= Max(epoch, SeenEpoch(run, base, NoSend))
  {
    if run != base {
      EarlierSendsStayBehind(run.before, base, n, id, epoch);
      NoneGetsAhead(run.before, base, n, id, epoch);
      var s := run.before.State();
      IdStaysBehind(s, run.step, n, id, epoch,
                    SeenId(run.before, base, AllBut(n)), SeenId(run.before, base, NoSend));
      EpochStaysBehind(s, run.step, n, id, epoch,
                       SeenEpoch(run.before, base, AllBut(n)), SeenEpoch(run.before, base, NoSend));
    }
  }

  /** The epoch of the flush that has been checked and neither assigned nor given up. */
  ghost function FlushChecked(run: Run): Option<nat> {
    match run
    case Start => None
    case Then(_, CheckFlush(epoch)) => Some(epoch)
    case Then(_, AssignFlush) => None
    case Then(_, FailFlush) => None
    case Then(before, _) => FlushChecked(before)
  }

  lemma StepMovesFlush(s: State, step: Step)
    requires Enabled(s, step)
    ensures Next(s, step).flushing
            == match step
               case CheckFlush(epoch) => Some(epoch)
               case AssignFlush => None
               case FailFlush => None
               case _ => s.flushing
  {}

  lemma {:induction false} FlushIsChecked(run: Run)
    requires run.Legal()
    ensures run.State().flushing == FlushChecked(run)
  {
    if run.Then? {
      FlushIsChecked(run.before);
      StepMovesFlush(run.before.State(), run.step);
    }
  }

  /** A flush may begin exactly when none is under way and its epoch is above every epoch merged since
      the last one and above that one's own. */
  lemma {:induction false} FlushIsAllowedExactly(run: Run, epoch: nat)
    requires run.Legal()
    ensures Enabled(run.State(), CheckFlush(epoch))
            <==> FlushChecked(run).None? && SeenEpoch(run, Start, EverySend) < epoch
  {
    FlushIsChecked(run);
    EveryRunStarts(run);
    ProgressIsSeen(run, Start);
  }

  /** A send may begin on an idle channel exactly when its ID is above every ID merged and its epoch not
      below those merged since the last flush, nor below that flush's. */
  lemma {:induction false} SendIsAllowedExactly(run: Run, c: ChannelId, id: nat, epoch: nat)
    requires run.Legal() && c < |run.State().channels| && run.State().channels[c].flight.Idle?
    ensures Enabled(run.State(), Check(c, id, epoch))
            <==> SeenId(run, Start, EverySend) < id && SeenEpoch(run, Start, EverySend) <= epoch
  {
    EveryRunStarts(run);
    ProgressIsSeen(run, Start);
  }

  /** A channel may be opened exactly when no flush is under way and none of those opened stays open. */
  lemma {:induction false} OpenIsAllowedExactly(run: Run)
    requires run.Legal()
    ensures Enabled(run.State(), OpenChannel)
            <==> FlushChecked(run).None? && forall c :: 0 <= c < Opens(run) ==> !StaysOpen(run, c)
  {
    FlushIsChecked(run);
    OnlyTheLatestIsOpen(run);
    OpenIsExact(run, 0);
    var s := run.State();
    if HasLiveChannel(s) {
      OpenIsExact(run, s.active.value);
    }
    forall c | 0 <= c < Opens(run) && StaysOpen(run, c)
      ensures HasLiveChannel(s)
    {
      OpenIsExact(run, c);
    }
  }

  // ------------------------------------------------------------------------------------------
  // The sends of earlier channels
  // ------------------------------------------------------------------------------------------

  /** A step of a sender on another channel, or the closing of any. The control thread takes none. */
  predicate IsOthers(step: Step, n: ChannelId) {
    match step
    case Check(c, _, _) => c != n
    case Charge(c) => c != n
    case Refuse(c) => c != n
    case Write(c, _) => c != n
    case FailWrite(c) => c != n
    case Finish(c) => c != n
    case Close(_) => true
    case _ => false
  }

  ghost predicate OnlyOthersSince(run: Run, base: Run, n: ChannelId) {
    run == base || (run.Then? && OnlyOthersSince(run.before, base, n) && IsOthers(run.step, n))
  }

  lemma {:induction false} OthersStayBehind(run: Run, base: Run, n: ChannelId, id: nat, epoch: nat)
    requires run.Legal() && base.Legal() && run.Extends(base) && OnlyOthersSince(run, base, n)
    requires NoneAhead(base.State(), n, id, epoch) && Accept(base.State().sequence, id, epoch).Success?
    ensures NoneAhead(run.State(), n, id, epoch) && Accept(run.State().sequence, id, epoch).Success?
  {
    if run != base {
      OthersStayBehind(run.before, base, n, id, epoch);
      StepKeepsNoneAhead(run.before.State(), run.step, n, id, epoch);
    }
  }

  /** A send that is ahead overtakes the record by finishing, with IDs of 64 bits if the run has them. */
  lemma {:induction false} AheadOvertakes(base: Run, n: ChannelId, c: ChannelId, id: nat, epoch: nat)
    returns (later: Run)
    requires base.Legal() && c < |base.State().channels| && c != n && Ahead(base.State().channels[c].flight, id, epoch)
    ensures later.Legal() && later.Extends(base) && OnlyOthersSince(later, base, n)
    ensures InRange(base) ==> InRange(later)
    ensures Accept(later.State().sequence, id, epoch).Failure?
  {
    var written := base;
    if base.State().channels[c].flight.Charged? {
      written := Follow(base, Write(c, 1));
      assert OnlyOthersSince(base, base, n) && IsOthers(written.step, n);
    }
    assert OnlyOthersSince(written, base, n);
    later := Follow(written, Finish(c));
  }

  /** While only the senders of earlier channels act, a record for the latest channel passes the
      sequence check in every continuation, or in every one of 64 bits, exactly when none of them is
      charged or written ahead of it. */
  lemma KeyUnitIsSafeExactly(base: Run, n: ChannelId, id: nat, epoch: nat)
    requires base.Legal() && |base.State().channels| == n + 1 && Accept(base.State().sequence, id, epoch).Success?
    ensures (forall later: Run :: later.Legal() && later.Extends(base) && OnlyOthersSince(later, base, n) ==>
               Accept(later.State().sequence, id, epoch).Success?)
            <==> forall c :: 0 <= c < n ==> !Ahead(base.State().channels[c].flight, id, epoch)
    ensures InRange(base) ==>
              ((forall later: Run ::
                  (later.Legal() && later.Extends(base) && OnlyOthersSince(later, base, n) && InRange(later)) ==>
                    Accept(later.State().sequence, id, epoch).Success?)
               <==> forall c :: 0 <= c < n ==> !Ahead(base.State().channels[c].flight, id, epoch))
  {
    var s := base.State();
    OnlyTheLatestIsOpen(base);
    if c :| 0 <= c < n && Ahead(s.channels[c].flight, id, epoch) {
      var later := AheadOvertakes(base, n, c, id, epoch);
    } else {
      forall later: Run | later.Legal() && later.Extends(base) && OnlyOthersSince(later, base, n)
        ensures Accept(later.State().sequence, id, epoch).Success?
      {
        OthersStayBehind(later, base, n, id, epoch);
      }
    }
  }
}

/** Raster deltas on one channel generation.

    One sender builds a record, checks it and sends it, one record at a time. The body of a delta
    is built before the send: it is refused while recovery is needed, and its base must be the
    last ID of the track. The reverse reader, the control thread and the presenter's status act
    between any two steps. The presenter reports only IDs that it has received, and applies every
    delta to whatever it holds, without looking at the base. */
module DeltaChain {
  import opened Wrappers
  import ChannelRecovery
  import TrackMedia

  datatype Body<F, D> = Full(frame: F) | Delta(base: nat, operations: D)

  /** `picture` is the frame the producer means the record to show; it is not transmitted. */
  datatype Record<F, D> = Record(id: nat, epoch: nat, body: Body<F, D>, picture: F)

  datatype Stage<F, D> =
    | Idle
    | Built(record: Record<F, D>)
    | InFlight(record: Record<F, D>, revision: nat)
    | Written(record: Record<F, D>, revision: nat, sequence: nat)

  datatype State<F, D> = State(
    media: ChannelRecovery.Media, track: TrackMedia.Sequence, stage: Stage<F, D>, trace: seq<Record<F, D>>)

  datatype Step<F, D> =
    | BuildFull(id: nat, epoch: nat, frame: F)
    | BuildDelta(id: nat, epoch: nat, base: nat, operations: D)
    | Check
    | Abandon
    | Write(sequence: nat)
    | Finish
    | AskKeyframe(minimum: nat)
    | AskFullFrame
    | Flush(minimum: nat)
    | MergeStatus(status: TrackMedia.Status)

  /** What the presenter shows after a trace: a full frame replaces, a delta applies. */
  function Replay<F, D>(apply: (F, D) -> F, trace: seq<Record<F, D>>): Option<F> {
    if trace == [] then None
    else match trace[|trace| - 1].body
      case Full(frame) => Some(frame)
      case Delta(_, operations) =>
        match Replay(apply, trace[..|trace| - 1])
        case None => None
        case Some(frame) => Some(apply(frame, operations))
  }

  /** The picture the producer sent under an ID. */
  function PictureOf<F, D>(trace: seq<Record<F, D>>, id: nat): Option<F> {
    if trace == [] then None
    else if trace[|trace| - 1].id == id then Some(trace[|trace| - 1].picture)
    else PictureOf(trace[..|trace| - 1], id)
  }

  function LastId<F, D>(trace: seq<Record<F, D>>, before: nat): nat {
    if trace == [] then before else trace[|trace| - 1].id
  }

  /** The last ID of the track when the channel was opened, and the presenter's delta operation. */
  datatype Context<!F, !D> = Context(start: TrackMedia.Sequence, apply: (F, D) -> F)

  predicate Enabled<F, D>(x: Context<F, D>, s: State<F, D>, step: Step<F, D>) {
    match step
    case BuildFull(_, _, _) => s.stage.Idle?
    case BuildDelta(_, _, base, _) =>
      s.stage.Idle? && !s.media.needsRecovery && base == s.track.lastId && PictureOf(s.trace, base).Some?
    case Check =>
      && s.stage.Built?
      && ChannelRecovery.Refusal(s.media, s.stage.record.epoch, s.stage.record.body.Full?).None?
      && TrackMedia.Accept(s.track, s.stage.record.id, s.stage.record.epoch).Success?
    case Abandon => s.stage.Built? || s.stage.InFlight?
    case Write(_) => s.stage.InFlight?
    case Finish => s.stage.Written?
    case MergeStatus(status) => status.mediaId <= LastId(s.trace, x.start.lastId)
    case _ => true
  }

  function Next<F, D>(x: Context<F, D>, s: State<F, D>, step: Step<F, D>): State<F, D>
    requires Enabled(x, s, step)
  {
    match step
    case BuildFull(id, epoch, frame) => s.(stage := Built(Record(id, epoch, Full(frame), frame)))
    case BuildDelta(id, epoch, base, operations) =>
      var picture := x.apply(PictureOf(s.trace, base).value, operations);
      s.(stage := Built(Record(id, epoch, Delta(base, operations), picture)))
    case Check => s.(stage := InFlight(s.stage.record, s.media.revision))
    case Abandon => s.(stage := Idle)
    case Write(sequence) =>
      s.(stage := Written(s.stage.record, s.stage.revision, sequence), trace := s.trace + [s.stage.record])
    case Finish =>
      var w := s.stage;
      s.(stage := Idle, track := TrackMedia.Merge(s.track, w.record.id, w.record.epoch, w.sequence),
         media := ChannelRecovery.Merge(s.media, w.sequence, w.record.epoch, w.record.body.Full?, w.revision))
    case AskKeyframe(minimum) => s.(media := ChannelRecovery.NeedKeyframe(s.media, minimum))
    case AskFullFrame => s.(media := ChannelRecovery.NeedFullFrame(s.media))
    case Flush(minimum) =>
      s.(media := ChannelRecovery.Flush(s.media, minimum), track := s.track.(lastEpoch := minimum))
    case MergeStatus(status) => s.(track := TrackMedia.Reconcile(s.track, status, false))
  }

  datatype Run<F, D> = Open | Then(before: Run<F, D>, step: Step<F, D>) {
    ghost predicate Legal(x: Context<F, D>)
      decreases this, 0
    {
      Then? ==> before.Legal(x) && Enabled(x, before.State(x), step)
    }

    ghost function State(x: Context<F, D>): State<F, D>
      requires Legal(x)
      decreases this, 1
    {
      if Open? then Initially(x) else Next(x, before.State(x), step)
    }
  }

  ghost function Initially<F, D>(x: Context<F, D>): State<F, D> {
    State(ChannelRecovery.Opened(x.start.lastEpoch), x.start, Idle, [])
  }

  // ------------------------------------------------------------------------------------------
  // Invariant
  // ------------------------------------------------------------------------------------------

  /** A record fits behind a trace: a delta applies to the last record and shows what was meant. */
  ghost predicate Continues<F, D>(x: Context<F, D>, trace: seq<Record<F, D>>, r: Record<F, D>) {
    match r.body
    case Full(frame) => frame == r.picture
    case Delta(base, operations) =>
      trace != [] && base == trace[|trace| - 1].id && r.picture == x.apply(trace[|trace| - 1].picture, operations)
  }

  ghost predicate Chained<F, D>(x: Context<F, D>, trace: seq<Record<F, D>>) {
    forall k :: 0 <= k < |trace| ==> Continues(x, trace[..k], trace[k])
  }

  /** The track's last ID is the last record's, except that a record just written may not have
      been merged yet; and recovery is needed until the first record has been merged. */
  ghost predicate InStep<F, D>(x: Context<F, D>, s: State<F, D>) {
    var last := LastId(s.trace, x.start.lastId);
    match s.stage
    case Written(record, _, _) =>
      && s.trace != [] && s.trace[|s.trace| - 1] == record
      && s.track.lastId <= last
      && (|s.trace| == 1 ==> s.media.needsRecovery)
    case Idle => s.track.lastId == last && (s.trace == [] ==> s.media.needsRecovery)
    case Built(record) =>
      && s.track.lastId == last && (s.trace == [] ==> s.media.needsRecovery)
      && Continues(x, s.trace, record)
    case InFlight(record, _) =>
      && s.track.lastId == last && (s.trace == [] ==> s.media.needsRecovery)
      && Continues(x, s.trace, record) && last < record.id
  }

  lemma StepKeepsPace<F, D>(x: Context<F, D>, s: State<F, D>, step: Step<F, D>)
    requires InStep(x, s) && Enabled(x, s, step)
    ensures InStep(x, Next(x, s, step))
  {
    if step.Write? {
      assert (s.trace + [s.stage.record])[|s.trace|] == s.stage.record;
    }
  }

  lemma StepKeepsChain<F, D>(x: Context<F, D>, s: State<F, D>, step: Step<F, D>)
    requires InStep(x, s) && Chained(x, s.trace) && Enabled(x, s, step)
    ensures Chained(x, Next(x, s, step).trace)
  {
    if step.Write? {
      var trace := s.trace + [s.stage.record];
      forall k | 0 <= k < |trace|
        ensures Continues(x, trace[..k], trace[k])
      {
        if k < |s.trace| {
          assert trace[..k] == s.trace[..k];
        } else {
          assert trace[..k] == s.trace;
        }
      }
    }
  }

  lemma {:induction false} RunsKeepChain<F, D>(x: Context<F, D>, run: Run<F, D>)
    requires run.Legal(x)
    ensures InStep(x, run.State(x)) && Chained(x, run.State(x).trace)
  {
    if run.Then? {
      RunsKeepChain(x, run.before);
      StepKeepsPace(x, run.before.State(x), run.step);
      StepKeepsChain(x, run.before.State(x), run.step);
    }
  }

  // ------------------------------------------------------------------------------------------
  // Main results
  // ------------------------------------------------------------------------------------------

  /** While no recovery is needed and no send is under way, the base that a delta must name is the
      last record of this very generation, so the producer has its picture. */
  lemma BaseIsTheLastRecord<F, D>(x: Context<F, D>, run: Run<F, D>)
    requires run.Legal(x) && run.State(x).stage.Idle? && !run.State(x).media.needsRecovery
    ensures var s := run.State(x);
            && s.trace != [] && s.track.lastId == s.trace[|s.trace| - 1].id
            && PictureOf(s.trace, s.track.lastId) == Some(s.trace[|s.trace| - 1].picture)
  {
    RunsKeepChain(x, run);
  }

  /** Between sends a delta may be built exactly if no recovery is needed and its base is the last record
      of this generation. */
  lemma DeltaIsBuiltExactly<F, D>(x: Context<F, D>, run: Run<F, D>, id: nat, epoch: nat, base: nat, operations: D)
    requires run.Legal(x) && run.State(x).stage.Idle?
    ensures var s := run.State(x);
            Enabled(x, s, BuildDelta(id, epoch, base, operations)) <==>
              !s.media.needsRecovery && s.trace != [] && base == s.trace[|s.trace| - 1].id
  {
    RunsKeepChain(x, run);
  }

  /** Every delta written on the generation names the record immediately before it. */
  lemma DeltasNameTheirPredecessor<F, D>(x: Context<F, D>, run: Run<F, D>, k: nat)
    requires run.Legal(x) && k < |run.State(x).trace| && run.State(x).trace[k].body.Delta?
    ensures k > 0 && run.State(x).trace[k].body.base == run.State(x).trace[k - 1].id
  {
    RunsKeepChain(x, run);
    var trace := run.State(x).trace;
    assert Continues(x, trace[..k], trace[k]);
  }

  lemma {:induction false} ChainsReplay<F, D>(x: Context<F, D>, trace: seq<Record<F, D>>, n: nat)
    requires Chained(x, trace) && 0 < n <= |trace|
    ensures Replay(x.apply, trace[..n]) == Some(trace[n - 1].picture)
  {
    assert Continues(x, trace[..n - 1], trace[n - 1]);
    assert trace[..n][..n - 1] == trace[..n - 1];
    if trace[n - 1].body.Delta? {
      ChainsReplay(x, trace, n - 1);
    }
  }

  /** After every record of every run the presenter shows the picture the producer meant. */
  lemma ReplayIsFaithful<F, D>(x: Context<F, D>, run: Run<F, D>, n: nat)
    requires run.Legal(x) && 0 < n <= |run.State(x).trace|
    ensures Replay(x.apply, run.State(x).trace[..n]) == Some(run.State(x).trace[n - 1].picture)
  {
    RunsKeepChain(x, run);
    ChainsReplay(x, run.State(x).trace, n);
  }
}

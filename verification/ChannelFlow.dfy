/** Flow control of one track channel as a protocol between two parties.

    A sender waits under the flow lock until its record fits, charges it, releases the lock and
    only then writes. A presenter takes records off the forward direction, frees them and grants
    the initial maxima plus everything freed. A reader thread takes grants off the reverse
    direction and raises the maxima. Both directions are bounded, so any party can be blocked by a
    full buffer. Any number of threads may wait for the capacity barrier.

    `ChannelFlow` itself is not part of the repository: a record is admitted exactly when both
    cumulative totals stay within the maxima, and maxima only grow, component by component. */
module ChannelFlow {
  import opened Integers
  import opened Wrappers

  type ThreadId = nat

  datatype Amount = Amount(bytes: nat, records: nat) {
    function Plus(other: Amount): Amount { Amount(bytes + other.bytes, records + other.records) }

    predicate AtMost(other: Amount) { bytes <= other.bytes && records <= other.records }

    function Max(other: Amount): Amount {
      Amount(Integers.Max(bytes, other.bytes), Integers.Max(records, other.records))
    }
  }

  const NOTHING := Amount(0, 0)

  function Record(length: nat): Amount { Amount(length, 1) }

  function Total(lengths: seq<nat>): Amount {
    if lengths == [] then NOTHING else Record(lengths[0]).Plus(Total(lengths[1..]))
  }

  /** What the flow lock protects. */
  datatype Flow = Flow(initial: Amount, maxima: Amount, sent: Amount, closed: bool) {
    predicate Admits(length: nat) { sent.Plus(Record(length)).AtMost(maxima) }

    function Charge(length: nat): Flow { this.(sent := sent.Plus(Record(length))) }

    function Raise(grant: Amount): Flow { this.(maxima := maxima.Max(grant)) }

    /** What the barrier waits for: room for another initial window on top of what was sent. */
    function Requirement(): Option<Amount> {
      var required := initial.Plus(sent);
      if required.AtMost(Amount(U64_MAX, U64_MAX)) then Some(required) else None
    }
  }

  // ------------------------------------------------------------------------------------------
  // The machine
  // ------------------------------------------------------------------------------------------

  /** `send_order` admits one sender at a time. It is between sends, about to test the flow,
      asleep on the condition variable, or writing a record already charged. */
  datatype Sender = Idle | Checking(length: nat) | Asleep(length: nat) | Writing(length: nat)

  datatype Presenter = Ready | Storing(length: nat) | Crediting(grant: Amount)

  datatype Reader = Listening | Raising(grant: Amount)

  datatype Waiter = Testing(required: Amount) | Sleeping(required: Amount) | Passed(required: Amount) | Failed

  /** `holdsLock` is the variant that keeps the flow lock across the write. */
  datatype Config = Config(initial: Amount, forward: nat, reverse: nat, holdsLock: bool) {
    predicate Valid() { 0 < forward && 0 < reverse }
  }

  datatype State = State(
    flow: Flow, sender: Sender, forward: seq<nat>, presenter: Presenter, reverse: seq<Amount>,
    reader: Reader, freed: Amount, lost: Amount, waiters: map<ThreadId, Waiter>)

  datatype Step =
    | Begin(length: nat)
    | Test
    | WriteSucceeds
    | WriteFails
    | Take
    | Free
    | Credit
    | Read
    | Raise
    | CallBarrier(t: ThreadId)
    | TestBarrier(t: ThreadId)
    | Spurious
    | SpuriousBarrier(t: ThreadId)
    | Close

  function Start(c: Config): State {
    State(Flow(c.initial, c.initial, NOTHING, false), Idle, [], Ready, [], Listening, NOTHING, NOTHING, map[])
  }

  /** Whether the flow lock can be taken: the sections that hold it are atomic steps, except that
      the variant keeps it while it writes. */
  predicate LockIsFree(c: Config, s: State) { !(c.holdsLock && s.sender.Writing?) }

  predicate Enabled(c: Config, s: State, step: Step) {
    match step
    case Begin(_) => s.sender == Idle
    case Test => s.sender.Checking?
    case WriteSucceeds => s.sender.Writing? && |s.forward| < c.forward
    case WriteFails => s.sender.Writing?
    case Take => s.presenter == Ready && s.forward != []
    case Free => s.presenter.Storing?
    case Credit => s.presenter.Crediting? && |s.reverse| < c.reverse
    case Read => s.reader == Listening && s.reverse != []
    case Raise => s.reader.Raising? && LockIsFree(c, s)
    case CallBarrier(t) => t !in s.waiters && LockIsFree(c, s)
    case TestBarrier(t) => t in s.waiters && s.waiters[t].Testing? && LockIsFree(c, s)
    case Spurious => s.sender.Asleep?
    case SpuriousBarrier(t) => t in s.waiters && s.waiters[t].Sleeping?
    case Close => LockIsFree(c, s)
  }

  function Woken(w: Waiter): Waiter { if w.Sleeping? then Testing(w.required) else w }

  function NotifyAll(s: State): State {
    s.(sender := if s.sender.Asleep? then Checking(s.sender.length) else s.sender,
       waiters := map t | t in s.waiters :: Woken(s.waiters[t]))
  }

  function Tested(flow: Flow, required: Amount): Waiter {
    if flow.closed then Failed else if required.AtMost(flow.maxima) then Passed(required) else Sleeping(required)
  }

  function Next(c: Config, s: State, step: Step): State
    requires Enabled(c, s, step)
  {
    match step
    case Begin(length) => s.(sender := Checking(length))
    case Test =>
      var length := s.sender.length;
      if s.flow.closed then s.(sender := Idle)
      else if s.flow.Admits(length) then s.(flow := s.flow.Charge(length), sender := Writing(length))
      else s.(sender := Asleep(length))
    case WriteSucceeds => s.(sender := Idle, forward := s.forward + [s.sender.length])
    case WriteFails => s.(sender := Idle, lost := s.lost.Plus(Record(s.sender.length)))
    case Take => s.(presenter := Storing(s.forward[0]), forward := s.forward[1..])
    case Free =>
      var freed := s.freed.Plus(Record(s.presenter.length));
      s.(freed := freed, presenter := Crediting(s.flow.initial.Plus(freed)))
    case Credit => s.(presenter := Ready, reverse := s.reverse + [s.presenter.grant])
    case Read => s.(reader := Raising(s.reverse[0]), reverse := s.reverse[1..])
    case Raise => NotifyAll(s.(flow := s.flow.Raise(s.reader.grant), reader := Listening))
    case CallBarrier(t) =>
      var waiter := match s.flow.Requirement() case None => Failed case Some(required) => Tested(s.flow, required);
      s.(waiters := s.waiters[t := waiter])
    case TestBarrier(t) => s.(waiters := s.waiters[t := Tested(s.flow, s.waiters[t].required)])
    case Spurious => s.(sender := Checking(s.sender.length))
    case SpuriousBarrier(t) => s.(waiters := s.waiters[t := Testing(s.waiters[t].required)])
    case Close => NotifyAll(s.(flow := s.flow.(closed := true)))
  }

  datatype Run = Open | Then(before: Run, step: Step) {
    ghost predicate Legal(c: Config)
      decreases this, 0
    {
      Then? ==> before.Legal(c) && Enabled(c, before.State(c), step)
    }

    ghost function State(c: Config): State
      requires Legal(c)
      decreases this, 1
    {
      if Open? then Start(c) else Next(c, before.State(c), step)
    }

    ghost predicate Extends(earlier: Run) { this == earlier || (Then? && before.Extends(earlier)) }
  }

  lemma Follow(c: Config, run: Run, step: Step) returns (next: Run)
    requires run.Legal(c) && Enabled(c, run.State(c), step)
    ensures next == Then(run, step) && next.Legal(c) && next.State(c) == Next(c, run.State(c), step)
  {
    next := Then(run, step);
  }

  // ------------------------------------------------------------------------------------------
  // Conservation and the chain of grants
  // ------------------------------------------------------------------------------------------

  ghost function InHand(s: State): Amount { if s.sender.Writing? then Record(s.sender.length) else NOTHING }

  ghost function InStorage(s: State): Amount { if s.presenter.Storing? then Record(s.presenter.length) else NOTHING }

  /** Everything handed to the transport, whether or not it arrived. */
  ghost function Written(s: State): Amount {
    var queued, stored := Total(s.forward), InStorage(s);
    Amount(s.freed.bytes + s.lost.bytes + queued.bytes + stored.bytes,
           s.freed.records + s.lost.records + queued.records + stored.records)
  }

  /** The maxima in force followed by every grant on its way to them, oldest first. */
  ghost function Grants(s: State): seq<Amount> {
    [s.flow.maxima] + (if s.reader.Raising? then [s.reader.grant] else []) + s.reverse
    + (if s.presenter.Crediting? then [s.presenter.grant] else [])
  }

  ghost predicate Ascending(grants: seq<Amount>) {
    forall i, j :: 0 <= i <= j < |grants| ==> grants[i].AtMost(grants[j])
  }

  ghost predicate WaiterInvariant(s: State, t: ThreadId)
    requires t in s.waiters
  {
    match s.waiters[t]
    case Testing(required) => required.AtMost(s.flow.initial.Plus(s.flow.sent))
    case Sleeping(required) =>
      !s.flow.closed && !required.AtMost(s.flow.maxima) && required.AtMost(s.flow.initial.Plus(s.flow.sent))
    case Passed(required) => required.AtMost(s.flow.initial.Plus(s.freed))
    case Failed => true
  }

  ghost predicate Conserves(s: State) {
    && s.flow.sent.bytes == Written(s).bytes + InHand(s).bytes
    && s.flow.sent.records == Written(s).records + InHand(s).records
  }

  ghost predicate GrantsAreHonest(s: State) {
    Ascending(Grants(s)) && Grants(s)[|Grants(s)| - 1] == s.flow.initial.Plus(s.freed)
  }

  ghost predicate NoLostWakeup(s: State) {
    && (s.sender.Asleep? ==> !s.flow.closed && !s.flow.Admits(s.sender.length))
    && (forall t :: t in s.waiters ==> WaiterInvariant(s, t))
  }

  ghost predicate Invariant(c: Config, s: State) {
    && s.flow.initial == c.initial
    && |s.forward| <= c.forward && |s.reverse| <= c.reverse
    && Conserves(s) && GrantsAreHonest(s) && NoLostWakeup(s)
    && s.flow.sent.AtMost(s.flow.maxima)
  }

  lemma {:induction false} TotalAppend(lengths: seq<nat>, length: nat)
    ensures Total(lengths + [length]) == Total(lengths).Plus(Record(length))
  {
    if lengths == [] {
      assert Total([length]) == Record(length).Plus(Total([]));
    } else {
      TotalAppend(lengths[1..], length);
      assert (lengths + [length])[1..] == lengths[1..] + [length];
    }
  }

  lemma SenderConserves(c: Config, s: State, step: Step)
    requires Conserves(s) && Enabled(c, s, step) && (step.Test? || step.WriteSucceeds? || step.WriteFails?)
    ensures Conserves(Next(c, s, step))
  {
    if step.WriteSucceeds? {
      TotalAppend(s.forward, s.sender.length);
    }
  }

  lemma PresenterConserves(c: Config, s: State, step: Step)
    requires Conserves(s) && Enabled(c, s, step) && (step.Take? || step.Free? || step.Credit?)
    ensures Conserves(Next(c, s, step))
  {}

  lemma ConservationIsKept(c: Config, s: State, step: Step)
    requires Conserves(s) && Enabled(c, s, step)
    ensures Conserves(Next(c, s, step))
  {
    if step.Test? || step.WriteSucceeds? || step.WriteFails? {
      SenderConserves(c, s, step);
    } else if step.Take? || step.Free? || step.Credit? {
      PresenterConserves(c, s, step);
    } else {
      var r := Next(c, s, step);
      assert Written(r) == Written(s) && InHand(r) == InHand(s) && r.flow.sent == s.flow.sent;
    }
  }

  /** Only freeing adds a grant, and only raising uses one up. */
  ghost predicate GrantsMove(s: State, r: State, step: Step) {
    Grants(r) == if step.Free? then Grants(s) + [s.flow.initial.Plus(r.freed)]
                 else if step.Raise? then Grants(s)[1..] else Grants(s)
  }

  lemma PresenterGrants(c: Config, s: State, step: Step)
    requires Enabled(c, s, step) && (step.Take? || step.Free? || step.Credit?)
    ensures GrantsMove(s, Next(c, s, step), step)
  {}

  lemma ReaderTakesGrant(c: Config, s: State)
    requires Enabled(c, s, Read)
    ensures GrantsMove(s, Next(c, s, Read), Read)
  {
    assert s.reverse == [s.reverse[0]] + s.reverse[1..];
  }

  lemma RaiseUsesGrant(c: Config, s: State)
    requires Ascending(Grants(s)) && Enabled(c, s, Raise)
    ensures GrantsMove(s, Next(c, s, Raise), Raise)
  {
    var g := Grants(s);
    assert g[1] == s.reader.grant && g[0].AtMost(g[1]);
    assert Next(c, s, Raise).flow.maxima == g[1];
  }

  lemma EveryStepMovesGrants(c: Config, s: State, step: Step)
    requires Ascending(Grants(s)) && Enabled(c, s, step)
    ensures GrantsMove(s, Next(c, s, step), step)
  {
    match step {
      case Take => PresenterGrants(c, s, step);
      case Free => PresenterGrants(c, s, step);
      case Credit => PresenterGrants(c, s, step);
      case Read => ReaderTakesGrant(c, s);
      case Raise => RaiseUsesGrant(c, s);
      case _ =>
        var r := Next(c, s, step);
        assert r.flow.maxima == s.flow.maxima && r.reader == s.reader;
        assert r.reverse == s.reverse && r.presenter == s.presenter;
    }
  }

  lemma AscendingExtends(g: seq<Amount>, top: Amount)
    requires Ascending(g) && g != [] && g[|g| - 1].AtMost(top)
    ensures Ascending(g + [top])
  {
    forall i | 0 <= i < |g|
      ensures g[i].AtMost(top)
    {
      assert g[i].AtMost(g[|g| - 1]);
    }
  }

  lemma FreeIsHonest(c: Config, s: State)
    requires GrantsAreHonest(s) && Enabled(c, s, Free)
    ensures GrantsAreHonest(Next(c, s, Free))
  {
    var top := s.flow.initial.Plus(Next(c, s, Free).freed);
    PresenterGrants(c, s, Free);
    AscendingExtends(Grants(s), top);
  }

  lemma RaiseIsHonest(c: Config, s: State)
    requires GrantsAreHonest(s) && Enabled(c, s, Raise)
    ensures GrantsAreHonest(Next(c, s, Raise))
  {
    RaiseUsesGrant(c, s);
    assert Grants(s)[1] == s.reader.grant;
  }

  lemma HonestyIsKept(c: Config, s: State, step: Step)
    requires GrantsAreHonest(s) && Enabled(c, s, step)
    ensures GrantsAreHonest(Next(c, s, step))
  {
    match step {
      case Free => FreeIsHonest(c, s);
      case Raise => RaiseIsHonest(c, s);
      case _ =>
        EveryStepMovesGrants(c, s, step);
        assert Next(c, s, step).flow.initial == s.flow.initial && Next(c, s, step).freed == s.freed;
    }
  }

  lemma SenderSleepsRightly(c: Config, s: State, step: Step)
    requires NoLostWakeup(s) && Enabled(c, s, step)
    ensures var r := Next(c, s, step); r.sender.Asleep? ==> !r.flow.closed && !r.flow.Admits(r.sender.length)
  {}

  /** Of the amounts that a waiter depends on, only the sum sent and the sum freed ever change without
      waking it, and both only grow. */
  lemma AmountsGrow(c: Config, s: State, step: Step)
    requires Enabled(c, s, step)
    ensures var r := Next(c, s, step);
            && r.flow.initial == s.flow.initial && s.flow.sent.AtMost(r.flow.sent) && s.freed.AtMost(r.freed)
            && (step.Raise? || step.Close? || (r.flow.maxima == s.flow.maxima && r.flow.closed == s.flow.closed))
  {}

  lemma WaiterSleepsRightly(c: Config, s: State, step: Step, t: ThreadId)
    requires Enabled(c, s, step) && s.flow.maxima.AtMost(s.flow.initial.Plus(s.freed))
    requires t in s.waiters ==> WaiterInvariant(s, t)
    requires t in Next(c, s, step).waiters
    ensures WaiterInvariant(Next(c, s, step), t)
  {
    AmountsGrow(c, s, step);
  }

  lemma WakeupsAreKept(c: Config, s: State, step: Step)
    requires Invariant(c, s) && Enabled(c, s, step)
    ensures NoLostWakeup(Next(c, s, step))
  {
    SenderSleepsRightly(c, s, step);
    assert s.flow.maxima.AtMost(s.flow.initial.Plus(s.freed)) by {
      assert Grants(s)[0].AtMost(Grants(s)[|Grants(s)| - 1]);
    }
    forall t | t in Next(c, s, step).waiters
      ensures WaiterInvariant(Next(c, s, step), t)
    {
      WaiterSleepsRightly(c, s, step, t);
    }
  }

  lemma BoundsAreKept(c: Config, s: State, step: Step)
    requires |s.forward| <= c.forward && |s.reverse| <= c.reverse && s.flow.sent.AtMost(s.flow.maxima)
    requires Enabled(c, s, step)
    ensures var r := Next(c, s, step);
            && r.flow.initial == s.flow.initial && r.flow.sent.AtMost(r.flow.maxima)
            && |r.forward| <= c.forward && |r.reverse| <= c.reverse
  {}

  lemma StepKeepsInvariant(c: Config, s: State, step: Step)
    requires Invariant(c, s) && Enabled(c, s, step)
    ensures Invariant(c, Next(c, s, step))
  {
    BoundsAreKept(c, s, step);
    ConservationIsKept(c, s, step);
    HonestyIsKept(c, s, step);
    WakeupsAreKept(c, s, step);
  }

  lemma StartIsSound(c: Config)
    ensures Invariant(c, Start(c))
  {
    assert Grants(Start(c)) == [c.initial];
  }

  lemma {:induction false} RunsKeepInvariant(c: Config, run: Run)
    requires run.Legal(c)
    ensures Invariant(c, run.State(c))
  {
    if run.Open? {
      StartIsSound(c);
    } else {
      RunsKeepInvariant(c, run.before);
      StepKeepsInvariant(c, run.before.State(c), run.step);
    }
  }

  // ------------------------------------------------------------------------------------------
  // Safety and the barrier
  // ------------------------------------------------------------------------------------------

  /** What is written never exceeds what is charged, what is charged never exceeds the maxima,
      the maxima never exceed what the presenter has granted, and so what the presenter has not
      freed yet never exceeds the initial window. */
  lemma FlowIsSafe(c: Config, run: Run)
    requires run.Legal(c)
    ensures var s := run.State(c);
            && Written(s).AtMost(s.flow.sent) && s.flow.sent.AtMost(s.flow.maxima)
            && s.flow.maxima.AtMost(c.initial.Plus(s.freed))
            && InStorage(s).Plus(Total(s.forward)).AtMost(c.initial)
  {
    RunsKeepInvariant(c, run);
    var s := run.State(c);
    assert Grants(s)[0].AtMost(Grants(s)[|Grants(s)| - 1]);
  }

  ghost predicate SameBarrier(s: State, r: State, t: ThreadId)
    requires t in s.waiters
  {
    && t in r.waiters
    && (s.waiters[t].Failed? ==> r.waiters[t].Failed?)
    && (!s.waiters[t].Failed? && !r.waiters[t].Failed? ==> r.waiters[t].required == s.waiters[t].required)
  }

  lemma StepKeepsBarrier(c: Config, s: State, step: Step, t: ThreadId)
    requires Enabled(c, s, step) && t in s.waiters
    ensures SameBarrier(s, Next(c, s, step), t)
  {}

  lemma {:induction false} BarrierKeepsItsRequirement(c: Config, run: Run, earlier: Run, t: ThreadId)
    requires run.Legal(c) && earlier.Legal(c) && run.Extends(earlier) && t in earlier.State(c).waiters
    ensures SameBarrier(earlier.State(c), run.State(c), t)
  {
    if run != earlier {
      BarrierKeepsItsRequirement(c, run.before, earlier, t);
      StepKeepsBarrier(c, run.before.State(c), run.step, t);
    }
  }

  /** The barrier passes only after everything charged before the call has been freed. */
  lemma BarrierMeansFreed(c: Config, run: Run, call: Run, t: ThreadId)
    requires run.Legal(c) && call.Legal(c) && call.Then? && call.step == CallBarrier(t) && run.Extends(call)
    ensures t in run.State(c).waiters
    ensures run.State(c).waiters[t].Passed? ==> call.before.State(c).flow.sent.AtMost(run.State(c).freed)
  {
    BarrierKeepsItsRequirement(c, run, call, t);
    RunsKeepInvariant(c, run);
    RunsKeepInvariant(c, call.before);
    assert WaiterInvariant(run.State(c), t);
  }

  // ------------------------------------------------------------------------------------------
  // Progress
  // ------------------------------------------------------------------------------------------

  /** The steps that the parties take by themselves: no new call, no close, no spurious wake-up. */
  predicate Internal(step: Step) {
    || step.Test? || step.WriteSucceeds? || step.WriteFails? || step.Take? || step.Free? || step.Credit?
    || step.Read? || step.Raise? || step.TestBarrier?
  }

  ghost predicate OnlyInternal(run: Run, earlier: Run) {
    run == earlier || (run.Then? && Internal(run.step) && OnlyInternal(run.before, earlier))
  }

  ghost function StepsSince(run: Run, earlier: Run): nat {
    if run == earlier || run.Open? then 0 else 1 + StepsSince(run.before, earlier)
  }

  /** How far the records and grants in flight still have to go. */
  ghost function Distance(s: State): nat {
    (match s.sender case Idle => 0 case Checking(_) => 8 case Asleep(_) => 8 case Writing(_) => 7)
    + 6 * |s.forward|
    + (match s.presenter case Ready => 0 case Storing(_) => 5 case Crediting(_) => 4)
    + 3 * |s.reverse|
    + (if s.reader.Raising? then 2 else 0)
  }

  ghost function Testers(s: State): set<ThreadId> { set t | t in s.waiters && s.waiters[t].Testing? }

  ghost function Awake(s: State): nat { |Testers(s)| + if s.sender.Checking? then 1 else 0 }

  ghost function Threads(s: State): nat { |s.waiters| + 2 }

  ghost function Measure(s: State): nat { Distance(s) * Threads(s) + Awake(s) }

  lemma TestersAreWaiters(s: State)
    ensures Awake(s) < Threads(s)
  {
    SubsetCounts(Testers(s), s.waiters.Keys);
  }

  lemma Lexicographic(distance: nat, awake: nat, wasDistance: nat, wasAwake: nat, threads: nat)
    requires awake < threads
    requires distance < wasDistance || (distance == wasDistance && awake < wasAwake)
    ensures distance * threads + awake < wasDistance * threads + wasAwake
  {
    if distance < wasDistance {
      Distributes(distance, wasDistance - distance, threads);
      Distributes(wasDistance - distance - 1, 1, threads);
    }
  }

  lemma WaitersStay(c: Config, s: State, step: Step)
    requires Internal(step) && Enabled(c, s, step)
    ensures Next(c, s, step).waiters.Keys == s.waiters.Keys
  {}

  lemma BarrierTestSettles(c: Config, s: State, step: Step)
    requires step.TestBarrier? && Enabled(c, s, step)
    ensures Awake(Next(c, s, step)) < Awake(s)
  {
    assert Testers(Next(c, s, step)) == Testers(s) - {step.t};
  }

  lemma DistanceShrinks(c: Config, s: State, step: Step)
    requires Internal(step) && Enabled(c, s, step)
    ensures Distance(Next(c, s, step)) <= Distance(s)
    ensures Distance(Next(c, s, step)) < Distance(s) || step.TestBarrier?
            || (step.Test? && Next(c, s, step).sender.Asleep?)
  {}

  lemma InternalStepsShrink(c: Config, s: State, step: Step)
    requires Internal(step) && Enabled(c, s, step)
    ensures Measure(Next(c, s, step)) < Measure(s)
  {
    var r := Next(c, s, step);
    WaitersStay(c, s, step);
    assert |r.waiters| == |r.waiters.Keys| && |s.waiters| == |s.waiters.Keys|;
    DistanceShrinks(c, s, step);
    TestersAreWaiters(r);
    if step.TestBarrier? {
      BarrierTestSettles(c, s, step);
    } else if step.Test? {
      assert Testers(r) == Testers(s);
    }
    Lexicographic(Distance(r), Awake(r), Distance(s), Awake(s), Threads(s));
  }

  lemma {:induction false} InternalRunsEnd(c: Config, run: Run, earlier: Run)
    requires run.Legal(c) && earlier.Legal(c) && OnlyInternal(run, earlier)
    ensures StepsSince(run, earlier) + Measure(run.State(c)) <= Measure(earlier.State(c))
  {
    if run != earlier {
      InternalRunsEnd(c, run.before, earlier);
      InternalStepsShrink(c, run.before.State(c), run.step);
    }
  }

  /** No step is left to take, not counting that a write could still fail. */
  ghost predicate Stuck(c: Config, s: State) {
    forall step :: Internal(step) && !step.WriteFails? ==> !Enabled(c, s, step)
  }

  /** Both directions are empty, every party is idle, and whoever is left sleeps. */
  ghost predicate Quiescent(s: State) {
    && (s.sender.Idle? || s.sender.Asleep?)
    && s.forward == [] && s.presenter.Ready? && s.reverse == [] && s.reader.Listening?
    && forall t :: t in s.waiters ==> !s.waiters[t].Testing?
  }

  /** The protocol never deadlocks: while a record or a grant is in flight or a thread is awake,
      some party can take a step, whatever the capacities of the two directions. */
  lemma OnlyQuiescenceIsStuck(c: Config, s: State)
    requires c.Valid() && !c.holdsLock && Invariant(c, s)
    ensures Stuck(c, s) ==> Quiescent(s)
  {
    if Stuck(c, s) {
      assert !Enabled(c, s, Raise) && !Enabled(c, s, Read);
      assert !Enabled(c, s, Credit) && !Enabled(c, s, Free) && !Enabled(c, s, Take);
      assert !Enabled(c, s, WriteSucceeds) && !Enabled(c, s, Test);
      forall t | t in s.waiters
        ensures !s.waiters[t].Testing?
      {
        assert !Enabled(c, s, TestBarrier(t));
      }
    }
  }

  ghost predicate Fits(s: State, length: nat) { s.lost.Plus(Record(length)).AtMost(s.flow.initial) }

  /** In a quiescent state every grant has arrived, so a sender sleeps only on a body that can
      never fit, and a barrier only if records were lost. */
  lemma QuiescenceIsSettled(c: Config, s: State)
    requires Invariant(c, s) && Quiescent(s)
    ensures s.flow.maxima == s.flow.initial.Plus(s.freed) && s.flow.sent == s.freed.Plus(s.lost)
    ensures s.sender.Asleep? ==> !s.flow.closed && !Fits(s, s.sender.length)
    ensures forall t :: t in s.waiters && s.waiters[t].Sleeping? ==>
              !s.flow.closed && !s.waiters[t].required.Plus(s.lost).AtMost(s.flow.initial.Plus(s.flow.sent))
    ensures s.lost == NOTHING ==> forall t :: t in s.waiters ==> !s.waiters[t].Sleeping?
  {
    assert Grants(s) == [s.flow.maxima];
    forall t | t in s.waiters && s.waiters[t].Sleeping?
      ensures !s.flow.closed && !s.waiters[t].required.Plus(s.lost).AtMost(s.flow.initial.Plus(s.flow.sent))
      ensures s.lost != NOTHING
    {
      assert WaiterInvariant(s, t);
    }
  }

  /** A body that does not fit the initial window beside what was lost is never admitted. */
  lemma UnfitIsNeverAdmitted(c: Config, s: State, length: nat)
    requires Invariant(c, s) && !Fits(s, length)
    ensures !s.flow.Admits(length)
  {
    assert Grants(s)[0].AtMost(Grants(s)[|Grants(s)| - 1]);
  }

  /** Where the send that `e` waits for can be after internal steps. */
  ghost predicate SendIn(e: State, r: State, length: nat) {
    && r.flow.closed == e.flow.closed && r.flow.initial == e.flow.initial
    && match r.sender
       case Checking(l) => l == length && r.flow.sent == e.flow.sent && r.lost == e.lost
       case Asleep(l) => l == length && r.flow.sent == e.flow.sent && r.lost == e.lost
       case Writing(l) => l == length && r.flow.sent == e.flow.sent.Plus(Record(length))
       case Idle => r.flow.sent == e.flow.sent.Plus(Record(length)) || e.flow.closed
  }

  lemma StepKeepsSend(c: Config, e: State, s: State, step: Step, length: nat)
    requires SendIn(e, s, length) && Internal(step) && Enabled(c, s, step)
    ensures SendIn(e, Next(c, s, step), length)
  {}

  lemma {:induction false} SendProgresses(c: Config, run: Run, earlier: Run, length: nat)
    requires run.Legal(c) && earlier.Legal(c) && OnlyInternal(run, earlier)
    requires earlier.State(c).sender == Checking(length) || earlier.State(c).sender == Asleep(length)
    ensures SendIn(earlier.State(c), run.State(c), length)
  {
    if run != earlier {
      SendProgresses(c, run.before, earlier, length);
      StepKeepsSend(c, earlier.State(c), run.before.State(c), run.step, length);
    }
  }

  /** A waiting sender whose body fits is admitted: the parties can take only a bounded number of
      steps, and when none is left the record has been charged, unless the channel was closed. */
  lemma FittingSendIsAdmitted(c: Config, run: Run, earlier: Run, length: nat)
    requires c.Valid() && !c.holdsLock
    requires run.Legal(c) && earlier.Legal(c) && OnlyInternal(run, earlier)
    requires earlier.State(c).sender == Checking(length) || earlier.State(c).sender == Asleep(length)
    requires Fits(earlier.State(c), length)
    ensures StepsSince(run, earlier) <= Measure(earlier.State(c))
    ensures Stuck(c, run.State(c)) ==> run.State(c).sender == Idle
    ensures Stuck(c, run.State(c)) && !earlier.State(c).flow.closed ==>
              run.State(c).flow.sent == earlier.State(c).flow.sent.Plus(Record(length))
  {
    InternalRunsEnd(c, run, earlier);
    RunsKeepInvariant(c, run);
    SendProgresses(c, run, earlier, length);
    OnlyQuiescenceIsStuck(c, run.State(c));
    if Quiescent(run.State(c)) {
      QuiescenceIsSettled(c, run.State(c));
    }
  }

  lemma {:induction false} FailureHasReason(c: Config, run: Run, call: Run, t: ThreadId)
    requires run.Legal(c) && call.Legal(c) && call.Then? && call.step == CallBarrier(t) && run.Extends(call)
    ensures t in run.State(c).waiters
    ensures run.State(c).waiters[t].Failed? ==>
              run.State(c).flow.closed || call.before.State(c).flow.Requirement() == None
  {
    if run != call {
      FailureHasReason(c, run.before, call, t);
      StepKeepsReason(c, run.before.State(c), run.step, t);
    }
  }

  lemma StepKeepsReason(c: Config, s: State, step: Step, t: ThreadId)
    requires Enabled(c, s, step) && t in s.waiters
    ensures s.flow.closed ==> Next(c, s, step).flow.closed
    ensures Next(c, s, step).waiters[t].Failed? ==> s.waiters[t].Failed? || s.flow.closed
  {}

  /** A barrier comes to its end, and how is decided by what was lost: the parties can take only a
      bounded number of steps, and when none is left it has passed exactly if everything charged
      before the call and everything lost are within what has been charged by now, which holds if
      nothing was lost. It fails only on a closed channel or a requirement beyond 64 bits. */
  lemma BarrierIsReached(c: Config, run: Run, earlier: Run, call: Run, t: ThreadId)
    requires c.Valid() && !c.holdsLock
    requires call.Legal(c) && call.Then? && call.step == CallBarrier(t)
    requires run.Legal(c) && earlier.Legal(c) && earlier.Extends(call) && OnlyInternal(run, earlier)
    ensures StepsSince(run, earlier) <= Measure(earlier.State(c)) && t in run.State(c).waiters
    ensures var before, s := call.before.State(c), run.State(c);
            Stuck(c, s) ==>
              && (s.waiters[t].Failed? ==> s.flow.closed || before.flow.Requirement() == None)
              && (!s.waiters[t].Failed? ==>
                    (s.waiters[t].Passed? <==> before.flow.sent.Plus(s.lost).AtMost(s.flow.sent)))
              && (s.lost == NOTHING ==> s.waiters[t].Passed? || s.waiters[t].Failed?)
  {
    var s := run.State(c);
    InternalRunsEnd(c, run, earlier);
    InternalExtends(run, earlier, call);
    FailureHasReason(c, run, call, t);
    RunsKeepInvariant(c, run);
    OnlyQuiescenceIsStuck(c, s);
    if Stuck(c, s) && !s.waiters[t].Failed? {
      CallRequires(c, run, call, t);
      BarrierIsSettled(c, s, t, call.before.State(c).flow.sent);
    }
  }

  lemma BarrierIsSettled(c: Config, s: State, t: ThreadId, sent: Amount)
    requires Invariant(c, s) && Quiescent(s)
    requires t in s.waiters && !s.waiters[t].Failed? && s.waiters[t].required == c.initial.Plus(sent)
    ensures s.waiters[t].Passed? <==> sent.Plus(s.lost).AtMost(s.flow.sent)
    ensures s.lost == NOTHING ==> s.waiters[t].Passed?
  {
    QuiescenceIsSettled(c, s);
    assert WaiterInvariant(s, t);
  }

  lemma {:induction false} InternalExtends(run: Run, earlier: Run, first: Run)
    requires OnlyInternal(run, earlier) && earlier.Extends(first)
    ensures run.Extends(first)
  {
    if run != earlier {
      InternalExtends(run.before, earlier, first);
    }
  }

  lemma CallRequires(c: Config, run: Run, call: Run, t: ThreadId)
    requires run.Legal(c) && call.Legal(c) && call.Then? && call.step == CallBarrier(t) && run.Extends(call)
    requires t in run.State(c).waiters && !run.State(c).waiters[t].Failed?
    ensures run.State(c).waiters[t].required == c.initial.Plus(call.before.State(c).flow.sent)
  {
    BarrierKeepsItsRequirement(c, run, call, t);
    RunsKeepInvariant(c, call.before);
  }

  // What each turn answers.

  ghost predicate HasClosed(run: Run) { run.Then? && (run.step.Close? || HasClosed(run.before)) }

  lemma {:induction false} ClosedIsExact(c: Config, run: Run)
    requires run.Legal(c)
    ensures run.State(c).flow.closed <==> HasClosed(run)
    ensures run.State(c).flow.initial == c.initial
  {
    if run.Then? {
      ClosedIsExact(c, run.before);
      AmountsGrow(c, run.before.State(c), run.step);
    }
  }

  /** A sender that takes its turn gives up exactly if the channel has been closed, is charged for its
      record if both totals stay within the maxima, and goes to sleep otherwise. */
  lemma SendTurnIsExact(c: Config, run: Run)
    requires run.Legal(c) && run.Then? && run.step.Test?
    ensures var s, r := run.before.State(c), run.State(c);
            var length, sent, maxima := s.sender.length, s.flow.sent, s.flow.maxima;
            var fits := sent.bytes + length <= maxima.bytes && sent.records < maxima.records;
            && r.sender == (if HasClosed(run.before) then Idle else if fits then Writing(length) else Asleep(length))
            && r.flow.sent == if r.sender.Writing? then Amount(sent.bytes + length, sent.records + 1) else sent
  {
    ClosedIsExact(c, run.before);
  }

  /** A barrier that takes its turn fails exactly if the channel has been closed, or on its first turn if
      its requirement, the initial window on top of what was sent, is beyond 64 bits; it passes if both
      maxima reach the requirement, and goes to sleep otherwise. */
  lemma BarrierTurnIsExact(c: Config, run: Run, t: ThreadId)
    requires run.Legal(c) && run.Then? && (run.step == CallBarrier(t) || run.step == TestBarrier(t))
    ensures var s, r, called := run.before.State(c), run.State(c), run.step.CallBarrier?;
            var bytes := if called then c.initial.bytes + s.flow.sent.bytes else s.waiters[t].required.bytes;
            var records := if called then c.initial.records + s.flow.sent.records else s.waiters[t].required.records;
            var beyond := called && (bytes > U64_MAX || records > U64_MAX);
            && t in r.waiters
            && r.waiters[t] == if HasClosed(run.before) || beyond then Failed
                               else if bytes <= s.flow.maxima.bytes && records <= s.flow.maxima.records
                               then Passed(Amount(bytes, records)) else Sleeping(Amount(bytes, records))
  {
    ClosedIsExact(c, run.before);
  }

  /** The maxima that opening a channel accepts. */
  predicate Usable(maxima: Amount, maximumBody: nat, maximumRecordBody: nat) {
    maximumBody <= maxima.bytes && maxima.records != 0 && maximumBody != 0 && maximumBody <= maximumRecordBody
  }

  /** That is: the largest body is positive and within the track's limit, and every body up to it fits an
      empty window. */
  lemma UsableIsExact(maxima: Amount, maximumBody: nat, maximumRecordBody: nat)
    ensures Usable(maxima, maximumBody, maximumRecordBody) <==>
              && 0 < maximumBody <= maximumRecordBody
              && forall length: nat :: length <= maximumBody ==> Record(length).AtMost(maxima)
  {
    if forall length: nat :: length <= maximumBody ==> Record(length).AtMost(maxima) {
      assert Record(maximumBody).AtMost(maxima);
    }
  }

  /** On a channel opened with usable maxima, while no write has failed, every body up to the
      accepted maximum fits. */
  lemma AcceptedBodiesFit(c: Config, s: State, maximumBody: nat, maximumRecordBody: nat, length: nat)
    requires Invariant(c, s) && Usable(c.initial, maximumBody, maximumRecordBody)
    requires length <= maximumBody && s.lost == NOTHING
    ensures Fits(s, length)
  {}

  // ------------------------------------------------------------------------------------------
  // Why the lock is released before the write
  // ------------------------------------------------------------------------------------------

  /** Room for nine one-byte records, one slot in each direction, and the lock kept while writing. */
  const LOCKED := Config(Amount(9, 9), 1, 1, true)

  function Snapshot(sent: nat, freed: nat, sender: Sender, forward: seq<nat>, presenter: Presenter,
                    reverse: seq<Amount>, reader: Reader): State
  {
    State(Flow(Amount(9, 9), Amount(9, 9), Amount(sent, sent), false), sender, forward, presenter, reverse,
          reader, Amount(freed, freed), NOTHING, map[])
  }

  ghost predicate Reaches(run: Run, s: State) { run.Legal(LOCKED) && run.State(LOCKED) == s }

  lemma Extend(run: Run, s: State, step: Step) returns (next: Run)
    requires Reaches(run, s) && Enabled(LOCKED, s, step)
    ensures Reaches(next, Next(LOCKED, s, step))
  {
    next := Then(run, step);
  }

  lemma Submit(run: Run, n: nat, freed: nat, forward: seq<nat>, presenter: Presenter, reverse: seq<Amount>,
               reader: Reader)
    returns (next: Run)
    requires n < 9 && Reaches(run, Snapshot(n, freed, Idle, forward, presenter, reverse, reader))
    ensures Reaches(next, Snapshot(n + 1, freed, Writing(1), forward, presenter, reverse, reader))
  {
    next := Extend(run, Snapshot(n, freed, Idle, forward, presenter, reverse, reader), Begin(1));
    next := Extend(next, Snapshot(n, freed, Checking(1), forward, presenter, reverse, reader), Test);
  }

  /** Send one more record, up to the point where the presenter has freed it. */
  lemma SendOne(run: Run, n: nat, reverse: seq<Amount>, reader: Reader) returns (next: Run)
    requires n < 9 && Reaches(run, Snapshot(n, n, Idle, [], Ready, reverse, reader))
    ensures Reaches(next, Snapshot(n + 1, n + 1, Idle, [], Crediting(Amount(n + 10, n + 10)), reverse, reader))
  {
    next := Submit(run, n, n, [], Ready, reverse, reader);
    next := Extend(next, Snapshot(n + 1, n, Writing(1), [], Ready, reverse, reader), WriteSucceeds);
    next := Serve(next, n + 1, n, reverse, reader);
  }

  lemma Serve(run: Run, n: nat, freed: nat, reverse: seq<Amount>, reader: Reader) returns (next: Run)
    requires Reaches(run, Snapshot(n, freed, Idle, [1], Ready, reverse, reader))
    ensures Reaches(next, Snapshot(n, freed + 1, Idle, [], Crediting(Amount(freed + 10, freed + 10)), reverse, reader))
  {
    next := Extend(run, Snapshot(n, freed, Idle, [1], Ready, reverse, reader), Take);
    next := Extend(next, Snapshot(n, freed, Idle, [], Storing(1), reverse, reader), Free);
  }

  lemma FirstGrantIsRead() returns (run: Run)
    ensures Reaches(run, Snapshot(1, 1, Idle, [], Ready, [], Raising(Amount(10, 10))))
  {
    var a := Amount(10, 10);
    run := SendOne(Open, 0, [], Listening);
    run := Extend(run, Snapshot(1, 1, Idle, [], Crediting(a), [], Listening), Credit);
    run := Extend(run, Snapshot(1, 1, Idle, [], Ready, [a], Listening), Read);
  }

  /** Two records answered: one grant in the reader's hands and one in the reverse direction. */
  lemma FillReverse() returns (run: Run)
    ensures Reaches(run, Snapshot(2, 2, Idle, [], Ready, [Amount(11, 11)], Raising(Amount(10, 10))))
  {
    var a, b := Amount(10, 10), Amount(11, 11);
    run := FirstGrantIsRead();
    run := SendOne(run, 1, [], Raising(a));
    run := Extend(run, Snapshot(2, 2, Idle, [], Crediting(b), [], Raising(a)), Credit);
  }

  lemma EverybodyIsBlocked(n: nat, freed: nat, grants: seq<Amount>)
    requires |grants| == 3
    ensures Stuck(LOCKED, Snapshot(n, freed, Writing(1), [1], Crediting(grants[2]), [grants[1]], Raising(grants[0])))
  {}

  /** The variant that keeps the flow lock across the write does deadlock, well inside its window:
      the reader cannot raise the maxima, so the presenter cannot return credit, so the write
      cannot complete. */
  lemma HoldingTheLockDeadlocks() returns (run: Run)
    ensures LOCKED.Valid() && run.Legal(LOCKED) && Stuck(LOCKED, run.State(LOCKED))
    ensures run.State(LOCKED).sender == Writing(1)
    ensures !run.State(LOCKED).flow.closed && run.State(LOCKED).lost == NOTHING
  {
    var a, b, d := Amount(10, 10), Amount(11, 11), Amount(12, 12);
    run := FillReverse();
    run := SendOne(run, 2, [b], Raising(a));
    run := Submit(run, 3, 3, [], Crediting(d), [b], Raising(a));
    run := Extend(run, Snapshot(4, 3, Writing(1), [], Crediting(d), [b], Raising(a)), WriteSucceeds);
    run := Submit(run, 4, 3, [1], Crediting(d), [b], Raising(a));
    EverybodyIsBlocked(5, 3, [a, b, d]);
  }

  // ------------------------------------------------------------------------------------------
  // The same sections in place
  // ------------------------------------------------------------------------------------------

  datatype Decision = Admitted | Waits | Broken

  /** The flow state shared by a channel's sender, its reverse reader and its barriers, with the
      threads asleep on its condition variable. `active` is what a thread reads of the session
      before it tests the flow. */
  class SharedFlow {
    var maximumBytes: nat
    var maximumRecords: nat
    var sentBytes: nat
    var sentRecords: nat
    var closed: bool
    var asleep: set<ThreadId>
    const initialBytes: nat
    const initialRecords: nat

    ghost function View(): Flow
      reads this
    {
      Flow(Amount(initialBytes, initialRecords), Amount(maximumBytes, maximumRecords),
           Amount(sentBytes, sentRecords), closed)
    }

    constructor (bytes: nat, records: nat)
      ensures View() == Flow(Amount(bytes, records), Amount(bytes, records), NOTHING, false) && asleep == {}
    {
      initialBytes, initialRecords := bytes, records;
      maximumBytes, maximumRecords := bytes, records;
      sentBytes, sentRecords, closed, asleep := 0, 0, false, {};
    }

    /** One turn of the admission loop under the flow lock. */
    method Admit(t: ThreadId, active: bool, length: nat) returns (decision: Decision)
      modifies this`sentBytes, this`sentRecords, this`asleep
      ensures decision == Broken <==> !active || old(View()).closed
      ensures decision == Admitted <==> active && !old(View()).closed && old(View()).Admits(length)
      ensures View() == if decision == Admitted then old(View()).Charge(length) else old(View())
      ensures asleep == if decision == Waits then old(asleep) + {t} else old(asleep)
    {
      if !active || closed {
        return Broken;
      }
      if sentBytes + length <= maximumBytes && sentRecords + 1 <= maximumRecords {
        sentBytes, sentRecords := sentBytes + length, sentRecords + 1;
        return Admitted;
      }
      asleep := asleep + {t};
      return Waits;
    }

    method RaiseMaxima(bytes: nat, records: nat)
      modifies this`maximumBytes, this`maximumRecords, this`asleep
      ensures View() == old(View()).Raise(Amount(bytes, records)) && asleep == {}
      ensures old(View()).maxima.AtMost(View().maxima) && Amount(bytes, records).AtMost(View().maxima)
    {
      if maximumBytes < bytes {
        maximumBytes := bytes;
      }
      if maximumRecords < records {
        maximumRecords := records;
      }
      asleep := {};
    }

    /** What the barrier computes on entry, before its loop. */
    method RequiredForReuse() returns (required: Option<Amount>)
      ensures required == View().Requirement()
    {
      if initialBytes + sentBytes > U64_MAX || initialRecords + sentRecords > U64_MAX {
        return None;
      }
      return Some(Amount(initialBytes + sentBytes, initialRecords + sentRecords));
    }

    /** One turn of the barrier's loop under the flow lock. */
    method TestReuse(t: ThreadId, active: bool, required: Amount) returns (waiter: Waiter)
      modifies this`asleep
      ensures waiter == if active then Tested(View(), required) else Failed
      ensures asleep == if waiter.Sleeping? then old(asleep) + {t} else old(asleep)
    {
      if !active || closed {
        return Failed;
      }
      if maximumBytes >= required.bytes && maximumRecords >= required.records {
        return Passed(required);
      }
      asleep := asleep + {t};
      return Sleeping(required);
    }

    method Close()
      modifies this`closed, this`asleep
      ensures View() == old(View()).(closed := true) && asleep == {}
    {
      closed, asleep := true, {};
    }
  }
}

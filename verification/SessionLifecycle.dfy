/** Closing a session while channels are being registered and senders wait for flow.

    `register_track_flow` checks the session flag, takes the registry lock, drops dead entries,
    checks the flag again and pushes. `close` sets the flag, then takes the registry lock and marks
    every registered flow closed, taking each flow lock in turn. A sender tests the session flag
    and its flow's flag under the flow lock before it is admitted or goes to sleep.

    The input-lane registry of the same object is guarded by the same two checks. */
module SessionLifecycle {
  import opened Integers
  import opened Wrappers

  type FlowId = nat
  type ThreadId = nat

  /** The thread opening a flow: before the first check, after it, holding the registry lock,
      holding it after the second check, and done. */
  datatype Registrar = Starting | FirstChecked | Locked | SecondChecked | Registered | Refused

  /** A thread inside `close`: the flag is set; the registry lock is held and `todo` is left to
      mark; returned. */
  datatype Closer = Flagged | Sweeping(todo: set<FlowId>) | Finished

  /** A thread sending on `flow`: about to take the flow lock; holding it, having read whether the
      session was active; asleep on the flow's condition variable; admitted; failed. */
  datatype Sender =
    | Ready(flow: FlowId)
    | Holding(flow: FlowId, active: bool)
    | Asleep(flow: FlowId)
    | Admitted
    | Failed

  datatype Owner = Nobody | OwnedBy(registrar: FlowId) | SweptBy(closer: ThreadId)

  datatype Flow = Flow(closed: bool, holder: Option<ThreadId>)

  /** `dead` holds the flows whose last strong reference is gone. */
  datatype State = State(
    closed: bool, lock: Owner, registry: set<FlowId>, dead: set<FlowId>,
    flows: map<FlowId, Flow>, registrars: map<FlowId, Registrar>,
    closers: map<ThreadId, Closer>, senders: map<ThreadId, Sender>)

  datatype Step =
    | NewFlow(flow: FlowId)
    | FirstCheck(flow: FlowId)
    | LockRegistry(flow: FlowId)
    | SecondCheck(flow: FlowId)
    | Push(flow: FlowId)
    | SetFlag(thread: ThreadId)
    | LockSweep(thread: ThreadId)
    | MarkFlow(thread: ThreadId, flow: FlowId)
    | FinishSweep(thread: ThreadId)
    | BeginSend(thread: ThreadId, flow: FlowId)
    | LockFlow(thread: ThreadId)
    | Decide(thread: ThreadId, admits: bool)
    | Spurious(thread: ThreadId)
    | Credit(flow: FlowId)
    | CloseOne(flow: FlowId)
    | DropFlow(flow: FlowId)

  const INITIAL_STATE := State(false, Nobody, {}, {}, map[], map[], map[], map[])

  ghost predicate Stage(s: State, flow: FlowId, registrar: Registrar) {
    flow in s.registrars && s.registrars[flow] == registrar
  }

  ghost predicate Unlocked(s: State, flow: FlowId) { flow in s.flows && s.flows[flow].holder == None }

  ghost predicate Uses(sender: Sender, flow: FlowId) {
    (sender.Ready? || sender.Holding? || sender.Asleep?) && sender.flow == flow
  }

  ghost predicate Enabled(s: State, step: Step) {
    match step
    case NewFlow(f) => f !in s.registrars && f !in s.flows
    case FirstCheck(f) => Stage(s, f, Starting)
    case LockRegistry(f) => Stage(s, f, FirstChecked) && s.lock == Nobody
    case SecondCheck(f) => Stage(s, f, Locked)
    case Push(f) => Stage(s, f, SecondChecked)
    case SetFlag(t) => t !in s.closers
    case LockSweep(t) => t in s.closers && s.closers[t] == Flagged && s.lock == Nobody
    case MarkFlow(t, f) =>
      t in s.closers && s.closers[t].Sweeping? && f in s.closers[t].todo && Unlocked(s, f)
    case FinishSweep(t) => t in s.closers && s.closers[t] == Sweeping({})
    case BeginSend(t, f) => t !in s.senders && Stage(s, f, Registered) && f !in s.dead && f in s.flows
    case LockFlow(t) => t in s.senders && s.senders[t].Ready? && Unlocked(s, s.senders[t].flow)
    case Decide(t, _) => t in s.senders && s.senders[t].Holding? && s.senders[t].flow in s.flows
    case Spurious(t) => t in s.senders && s.senders[t].Asleep?
    case Credit(f) => Unlocked(s, f)
    case CloseOne(f) => Unlocked(s, f)
    case DropFlow(f) =>
      Stage(s, f, Registered) && f in s.flows && forall t :: t in s.senders ==> !Uses(s.senders[t], f)
  }

  function WakeAll(senders: map<ThreadId, Sender>, f: FlowId): map<ThreadId, Sender> {
    map t | t in senders :: if senders[t] == Asleep(f) then Ready(f) else senders[t]
  }

  /** What a sender does under the flow lock. */
  function Decision(active: bool, closed: bool, f: FlowId, admits: bool): Sender {
    if !active || closed then Failed else if admits then Admitted else Asleep(f)
  }

  ghost function Next(s: State, step: Step): State
    requires Enabled(s, step)
  {
    match step
    case NewFlow(f) => s.(registrars := s.registrars[f := Starting], flows := s.flows[f := Flow(false, None)])
    case FirstCheck(f) => s.(registrars := s.registrars[f := if s.closed then Refused else FirstChecked])
    case LockRegistry(f) =>
      s.(registrars := s.registrars[f := Locked], lock := OwnedBy(f), registry := s.registry - s.dead)
    case SecondCheck(f) =>
      if s.closed then s.(registrars := s.registrars[f := Refused], lock := Nobody)
      else s.(registrars := s.registrars[f := SecondChecked])
    case Push(f) =>
      s.(registrars := s.registrars[f := Registered], lock := Nobody, registry := s.registry + {f})
    case SetFlag(t) => s.(closed := true, closers := s.closers[t := Flagged])
    case LockSweep(t) =>
      s.(closers := s.closers[t := Sweeping(s.registry - s.dead)], lock := SweptBy(t), registry := s.registry - s.dead)
    case MarkFlow(t, f) =>
      s.(closers := s.closers[t := Sweeping(s.closers[t].todo - {f})],
         flows := s.flows[f := Flow(true, None)], senders := WakeAll(s.senders, f))
    case FinishSweep(t) => s.(closers := s.closers[t := Finished], lock := Nobody)
    case BeginSend(t, f) => s.(senders := s.senders[t := Ready(f)])
    case LockFlow(t) =>
      var f := s.senders[t].flow;
      s.(senders := s.senders[t := Holding(f, !s.closed)],
         flows := s.flows[f := s.flows[f].(holder := Some(t))])
    case Decide(t, admits) =>
      var f := s.senders[t].flow;
      s.(senders := s.senders[t := Decision(s.senders[t].active, s.flows[f].closed, f, admits)],
         flows := s.flows[f := s.flows[f].(holder := None)])
    case Spurious(t) => s.(senders := s.senders[t := Ready(s.senders[t].flow)])
    case Credit(f) => s.(senders := WakeAll(s.senders, f))
    case CloseOne(f) => s.(flows := s.flows[f := Flow(true, None)], senders := WakeAll(s.senders, f))
    case DropFlow(f) => s.(dead := s.dead + {f})
  }

  datatype Run = Start | Then(before: Run, step: Step) {
    ghost predicate Legal()
      decreases this, 0
    {
      Then? ==> before.Legal() && Enabled(before.State(), step)
    }

    ghost function State(): State
      requires Legal()
      decreases this, 1
    {
      if Start? then INITIAL_STATE else Next(before.State(), step)
    }

    ghost predicate Extends(earlier: Run) { this == earlier || (Then? && before.Extends(earlier)) }
  }

  // ------------------------------------------------------------------------------------------
  // Invariant
  // ------------------------------------------------------------------------------------------

  ghost predicate ClosedOrDead(s: State, f: FlowId) { f in s.dead || (f in s.flows && s.flows[f].closed) }

  ghost predicate LocksAgree(s: State) {
    && (forall f :: f in s.registrars ==>
          (s.registrars[f] == Locked || s.registrars[f] == SecondChecked <==> s.lock == OwnedBy(f)))
    && (forall t :: t in s.closers ==> (s.closers[t].Sweeping? <==> s.lock == SweptBy(t)))
    && (s.lock.OwnedBy? ==> s.lock.registrar in s.registrars)
    && (s.lock.SweptBy? ==> s.lock.closer in s.closers)
    && s.flows.Keys == s.registrars.Keys
  }

  ghost predicate CloserAgrees(s: State, closer: Closer) {
    match closer
    case Flagged => true
    case Sweeping(todo) =>
      && todo <= s.flows.Keys
      && (forall f :: f in s.registrars ==> s.registrars[f] != SecondChecked)
      && (forall f :: f in s.registry ==> f in todo || ClosedOrDead(s, f))
    case Finished =>
      && (forall f :: f in s.registrars ==> s.registrars[f] != SecondChecked)
      && (forall f :: f in s.registry ==> ClosedOrDead(s, f))
  }

  ghost predicate RegistryAgrees(s: State) {
    && s.registry <= s.registrars.Keys
    && (forall f :: Stage(s, f, Registered) ==> f in s.registry || f in s.dead)
    && (forall t :: t in s.closers ==> s.closed && CloserAgrees(s, s.closers[t]))
  }

  ghost predicate SenderAgrees(s: State, t: ThreadId, sender: Sender) {
    match sender
    case Ready(f) => Stage(s, f, Registered) && f !in s.dead
    case Holding(f, _) => Stage(s, f, Registered) && f !in s.dead && f in s.flows && s.flows[f].holder == Some(t)
    case Asleep(f) => Stage(s, f, Registered) && f !in s.dead && f in s.flows && !s.flows[f].closed
    case Admitted => true
    case Failed => true
  }

  ghost predicate HoldsLock(s: State, t: ThreadId, f: FlowId) {
    t in s.senders && s.senders[t].Holding? && s.senders[t].flow == f
  }

  ghost predicate SendersAgree(s: State) {
    && (forall t :: t in s.senders ==> SenderAgrees(s, t, s.senders[t]))
    && (forall f :: f in s.flows && s.flows[f].holder.Some? ==> HoldsLock(s, s.flows[f].holder.value, f))
  }

  ghost predicate Invariant(s: State) { LocksAgree(s) && RegistryAgrees(s) && SendersAgree(s) }

  ghost predicate ByRegistrar(step: Step) {
    step.NewFlow? || step.FirstCheck? || step.LockRegistry? || step.SecondCheck? || step.Push?
  }

  ghost predicate ByCloser(step: Step) {
    step.SetFlag? || step.LockSweep? || step.MarkFlow? || step.FinishSweep?
  }

  lemma RegistrarsKeepLocks(s: State, step: Step)
    requires LocksAgree(s) && Enabled(s, step) && ByRegistrar(step)
    ensures LocksAgree(Next(s, step))
  {}

  lemma OthersKeepLocks(s: State, step: Step)
    requires LocksAgree(s) && Enabled(s, step) && !ByRegistrar(step)
    ensures LocksAgree(Next(s, step))
  {}

  lemma RegistrarsKeepRegistry(s: State, step: Step)
    requires LocksAgree(s) && RegistryAgrees(s) && Enabled(s, step) && ByRegistrar(step)
    ensures RegistryAgrees(Next(s, step))
  {
    var r := Next(s, step);
    forall t | t in r.closers
      ensures r.closed && CloserAgrees(r, r.closers[t])
    {
      assert CloserAgrees(s, s.closers[t]);
      assert s.closers[t].Sweeping? ==> s.lock == SweptBy(t);
    }
  }

  lemma ClosersKeepRegistry(s: State, step: Step)
    requires LocksAgree(s) && RegistryAgrees(s) && Enabled(s, step) && ByCloser(step)
    ensures RegistryAgrees(Next(s, step))
  {
    var r := Next(s, step);
    forall t | t in r.closers
      ensures r.closed && CloserAgrees(r, r.closers[t])
    {
      if t in s.closers {
        assert CloserAgrees(s, s.closers[t]);
      }
    }
  }

  lemma OthersKeepRegistry(s: State, step: Step)
    requires LocksAgree(s) && RegistryAgrees(s) && Enabled(s, step) && !ByCloser(step) && !ByRegistrar(step)
    ensures RegistryAgrees(Next(s, step))
  {
    var r := Next(s, step);
    assert r.registrars == s.registrars && r.flows.Keys == s.flows.Keys;
    assert forall f :: ClosedOrDead(s, f) ==> ClosedOrDead(r, f);
    forall t | t in r.closers
      ensures r.closed && CloserAgrees(r, r.closers[t])
    {
      assert CloserAgrees(s, s.closers[t]);
    }
  }

  lemma RegistrarsKeepSenders(s: State, step: Step)
    requires SendersAgree(s) && LocksAgree(s) && Enabled(s, step) && ByRegistrar(step)
    ensures SendersAgree(Next(s, step))
  {
    var r := Next(s, step);
    forall t | t in r.senders
      ensures SenderAgrees(r, t, r.senders[t])
    {
      assert SenderAgrees(s, t, s.senders[t]);
    }
    forall f | f in r.flows && r.flows[f].holder.Some?
      ensures HoldsLock(r, r.flows[f].holder.value, f)
    {
      assert HoldsLock(s, s.flows[f].holder.value, f);
    }
  }

  lemma OthersKeepSenders(s: State, step: Step)
    requires SendersAgree(s) && Enabled(s, step) && !ByRegistrar(step)
    ensures SendersAgree(Next(s, step))
  {
    var r := Next(s, step);
    assert r.registrars == s.registrars;
    forall t | t in r.senders
      ensures SenderAgrees(r, t, r.senders[t])
    {
      if t in s.senders {
        assert SenderAgrees(s, t, s.senders[t]);
      }
    }
    forall f | f in r.flows && r.flows[f].holder.Some?
      ensures HoldsLock(r, r.flows[f].holder.value, f)
    {
      if s.flows[f].holder.Some? {
        assert HoldsLock(s, s.flows[f].holder.value, f);
      }
    }
  }

  lemma StepKeepsInvariant(s: State, step: Step)
    requires Invariant(s) && Enabled(s, step)
    ensures Invariant(Next(s, step))
  {
    if ByRegistrar(step) {
      RegistrarsKeepLocks(s, step);
      RegistrarsKeepRegistry(s, step);
      RegistrarsKeepSenders(s, step);
    } else {
      if ByCloser(step) {
        ClosersKeepRegistry(s, step);
      } else {
        OthersKeepRegistry(s, step);
      }
      OthersKeepLocks(s, step);
      OthersKeepSenders(s, step);
    }
  }

  /** In every interleaving the locks, the registry and the senders agree. */
  lemma {:induction false} RunsKeepInvariant(run: Run)
    requires run.Legal()
    ensures LocksAgree(run.State()) && RegistryAgrees(run.State()) && SendersAgree(run.State())
  {
    if run.Then? {
      RunsKeepInvariant(run.before);
      StepKeepsInvariant(run.before.State(), run.step);
    }
  }

  // ------------------------------------------------------------------------------------------
  // Main results
  // ------------------------------------------------------------------------------------------

  ghost predicate HasClosed(s: State, t: ThreadId) { t in s.closers && s.closers[t] == Finished }

  lemma FinishedStays(s: State, step: Step, t: ThreadId)
    requires Enabled(s, step) && HasClosed(s, t)
    ensures HasClosed(Next(s, step), t)
  {}

  lemma {:induction false} CloseIsFinal(run: Run, earlier: Run, t: ThreadId)
    requires run.Legal() && run.Extends(earlier) && earlier.Legal() && HasClosed(earlier.State(), t)
    ensures HasClosed(run.State(), t)
  {
    if run != earlier {
      CloseIsFinal(run.before, earlier, t);
      FinishedStays(run.before.State(), run.step, t);
    }
  }

  /** From the moment one `close` has returned, every flow that was ever registered is marked
      closed, or has no holder left. */
  lemma NoFlowEscapesClose(run: Run, earlier: Run, t: ThreadId, f: FlowId)
    requires run.Legal() && run.Extends(earlier) && earlier.Legal() && HasClosed(earlier.State(), t)
    requires Stage(run.State(), f, Registered)
    ensures ClosedOrDead(run.State(), f)
  {
    CloseIsFinal(run, earlier, t);
    RunsKeepInvariant(run);
  }

  /** A registration whose outcome is still open when `close` has returned can only be refused. */
  lemma LateRegistrationIsRefused(run: Run, t: ThreadId, f: FlowId)
    requires run.Legal() && HasClosed(run.State(), t) && f in run.State().registrars
    ensures run.State().registrars[f] != SecondChecked
    ensures Enabled(run.State(), FirstCheck(f)) ==> Stage(Next(run.State(), FirstCheck(f)), f, Refused)
    ensures Enabled(run.State(), SecondCheck(f)) ==> Stage(Next(run.State(), SecondCheck(f)), f, Refused)
  {
    RunsKeepInvariant(run);
  }

  /** After `close` has returned no sender is asleep on any flow, and whatever the flow window
      would allow, a sender that takes its turn fails. */
  lemma EverySenderIsWokenAndFails(run: Run, earlier: Run, t: ThreadId, sender: ThreadId)
    requires run.Legal() && run.Extends(earlier) && earlier.Legal() && HasClosed(earlier.State(), t)
    requires sender in run.State().senders
    ensures !run.State().senders[sender].Asleep?
    ensures forall admits :: Enabled(run.State(), Decide(sender, admits)) ==>
              Next(run.State(), Decide(sender, admits)).senders[sender] == Failed
  {
    CloseIsFinal(run, earlier, t);
    RunsKeepInvariant(run);
  }

  // An open session lets everybody through.

  /** A close has begun. */
  ghost predicate Flagging(run: Run) { run.Then? && (run.step.SetFlag? || Flagging(run.before)) }

  lemma FlagMoves(s: State, step: Step)
    requires Enabled(s, step)
    ensures Next(s, step).closed <==> s.closed || step.SetFlag?
  {}

  lemma {:induction false} FlagIsRaised(run: Run)
    requires run.Legal()
    ensures run.State().closed <==> Flagging(run)
  {
    if run.Then? {
      FlagIsRaised(run.before);
      FlagMoves(run.before.State(), run.step);
    }
  }

  ghost predicate Created(run: Run, f: FlowId) { run.Then? && (run.step == NewFlow(f) || Created(run.before, f)) }

  lemma FlowsMove(s: State, step: Step, f: FlowId)
    requires Invariant(s) && Enabled(s, step)
    ensures f in Next(s, step).flows <==> f in s.flows || step == NewFlow(f)
  {
    if step.Decide? {
      assert SenderAgrees(s, step.thread, s.senders[step.thread]);
    }
  }

  /** Any flow can be opened, once. */
  lemma {:induction false} FlowsAreCreatedOnce(run: Run, f: FlowId)
    requires run.Legal()
    ensures f in run.State().flows <==> Created(run, f)
    ensures f in run.State().registrars <==> Created(run, f)
    ensures Enabled(run.State(), NewFlow(f)) <==> !Created(run, f)
  {
    RunsKeepInvariant(run);
    if run.Then? {
      FlowsAreCreatedOnce(run.before, f);
      RunsKeepInvariant(run.before);
      FlowsMove(run.before.State(), run.step, f);
    }
  }

  /** A flow opened while no close has begun passes both checks and is registered; from the begin of a
      close on each check refuses. */
  lemma OpenSessionRegisters(run: Run, f: FlowId)
    requires run.Legal()
    ensures Enabled(run.State(), FirstCheck(f)) ==>
              Stage(Next(run.State(), FirstCheck(f)), f, if Flagging(run) then Refused else FirstChecked)
    ensures Enabled(run.State(), SecondCheck(f)) ==>
              Stage(Next(run.State(), SecondCheck(f)), f, if Flagging(run) then Refused else SecondChecked)
    ensures Enabled(run.State(), Push(f)) ==>
              Stage(Next(run.State(), Push(f)), f, Registered) && f in Next(run.State(), Push(f)).registry
  {
    FlagIsRaised(run);
  }

  /** The flow has been closed, by itself or by a close that found it in the registry. */
  ghost predicate Closing(run: Run, f: FlowId) {
    match run
    case Start => false
    case Then(before, NewFlow(created)) => created != f && Closing(before, f)
    case Then(before, MarkFlow(_, marked)) => marked == f || Closing(before, f)
    case Then(before, CloseOne(closed)) => closed == f || Closing(before, f)
    case Then(before, _) => Closing(before, f)
  }

  lemma FlowMoves(s: State, step: Step, f: FlowId)
    requires Enabled(s, step)
    ensures var r := Next(s, step);
            && (f in s.flows ==> f in r.flows)
            && (f in r.flows ==>
                  (r.flows[f].closed <==>
                     match step
                     case NewFlow(created) => created != f && f in s.flows && s.flows[f].closed
                     case MarkFlow(_, marked) => marked == f || (f in s.flows && s.flows[f].closed)
                     case CloseOne(closed) => closed == f || (f in s.flows && s.flows[f].closed)
                     case _ => f in s.flows && s.flows[f].closed))
            && (f !in s.flows ==> (f in r.flows <==> step == NewFlow(f)))
  {}

  lemma {:induction false} FlowIsClosed(run: Run, f: FlowId)
    requires run.Legal()
    ensures f in run.State().flows ==> (run.State().flows[f].closed <==> Closing(run, f))
    ensures f !in run.State().flows ==> !Closing(run, f)
  {
    if run.Then? {
      FlowIsClosed(run.before, f);
      FlowMoves(run.before.State(), run.step, f);
    }
  }

  /** When the sender took the flow lock it has in hand, no close had begun. */
  ghost predicate LockedOpen(run: Run, t: ThreadId) {
    run.Then? && if run.step == LockFlow(t) then !Flagging(run.before) else LockedOpen(run.before, t)
  }

  lemma LockMoves(s: State, step: Step, t: ThreadId, open: bool)
    requires Enabled(s, step)
    requires t in s.senders && s.senders[t].Holding? ==> s.senders[t].active == open
    ensures var r := Next(s, step);
            t in r.senders && r.senders[t].Holding? ==>
              r.senders[t].active == if step == LockFlow(t) then !s.closed else open
  {}

  lemma {:induction false} LockIsRemembered(run: Run, t: ThreadId)
    requires run.Legal()
    ensures var s := run.State();
            t in s.senders && s.senders[t].Holding? ==> s.senders[t].active == LockedOpen(run, t)
  {
    if run.Then? {
      LockIsRemembered(run.before, t);
      FlagIsRaised(run.before);
      LockMoves(run.before.State(), run.step, t, LockedOpen(run.before, t));
    }
  }

  /** A sender fails exactly if a close had begun when it took the flow lock, or its flow has been
      closed; otherwise it is admitted if the window allows it, and goes to sleep if not. */
  lemma SendersAreDecidedExactly(run: Run, t: ThreadId, admits: bool)
    requires run.Legal() && Enabled(run.State(), Decide(t, admits))
    ensures var s := run.State();
            var f := s.senders[t].flow;
            Next(s, Decide(t, admits)).senders[t]
            == if !LockedOpen(run, t) || Closing(run, f) then Failed else if admits then Admitted else Asleep(f)
  {
    LockIsRemembered(run, t);
    FlowIsClosed(run, run.State().senders[t].flow);
  }

  /** `step` belongs to `t`, or to the thread holding the lock that `t` needs next: the registrar
      or closer holding the registry lock, or the sender holding the lock of a flow that closer
      still has to mark. */
  ghost predicate Unblocks(s: State, t: ThreadId, step: Step) {
    match s.lock
    case Nobody => step == LockSweep(t)
    case OwnedBy(f) => step == SecondCheck(f) || step == Push(f)
    case SweptBy(closer) =>
      || step == FinishSweep(closer)
      || (step.MarkFlow? && step.thread == closer)
      || (step.Decide? && closer in s.closers && s.closers[closer].Sweeping?
          && exists f :: f in s.closers[closer].todo && HoldsLock(s, step.thread, f))
  }

  /** The locks never deadlock: a thread inside `close` can move, or the thread holding the lock
      it needs can. */
  lemma CloseIsNeverStuck(run: Run, t: ThreadId)
    requires run.Legal() && t in run.State().closers && run.State().closers[t] != Finished
    ensures exists step :: Enabled(run.State(), step) && Unblocks(run.State(), t, step)
  {
    var s := run.State();
    RunsKeepInvariant(run);
    match s.lock {
      case Nobody =>
        assert Enabled(s, LockSweep(t)) && Unblocks(s, t, LockSweep(t));
      case OwnedBy(f) =>
        var step := if s.registrars[f] == Locked then SecondCheck(f) else Push(f);
        assert Enabled(s, step) && Unblocks(s, t, step);
      case SweptBy(closer) =>
        assert CloserAgrees(s, s.closers[closer]);
        var todo := s.closers[closer].todo;
        if todo == {} {
          assert Enabled(s, FinishSweep(closer)) && Unblocks(s, t, FinishSweep(closer));
        } else {
          var f :| f in todo;
          var step := if s.flows[f].holder == None then MarkFlow(closer, f) else Decide(s.flows[f].holder.value, false);
          assert step.Decide? ==> HoldsLock(s, step.thread, f);
          assert Enabled(s, step) && Unblocks(s, t, step);
        }
    }
  }

  // ------------------------------------------------------------------------------------------
  // A close returns
  // ------------------------------------------------------------------------------------------

  /** A step of a thread inside `close`, or of a thread that holds a lock. */
  predicate ByHolder(step: Step) {
    || step.LockSweep? || step.MarkFlow? || step.FinishSweep?
    || step.SecondCheck? || step.Push? || step.Decide?
  }

  /** A step by which another thread takes a lock or begins a close. */
  predicate Acquires(step: Step) { step.LockFlow? || step.LockRegistry? || step.SetFlag? }

  ghost function Waiting(s: State): set<ThreadId> { set t | t in s.closers && s.closers[t].Flagged? }

  ghost function Holders(s: State): set<ThreadId> { set t | t in s.senders && s.senders[t].Holding? }

  /** The flows a sweep that begins now or later may have to mark. */
  ghost function Registrable(s: State): nat { |s.registry| + if s.lock.OwnedBy? then 1 else 0 }

  ghost function SweepLeft(s: State): nat {
    if s.lock.SweptBy? && s.lock.closer in s.closers && s.closers[s.lock.closer].Sweeping?
    then |s.closers[s.lock.closer].todo| + 1 else 0
  }

  ghost function RegistrationLeft(s: State): nat {
    if !s.lock.OwnedBy? then 0 else if Stage(s, s.lock.registrar, Locked) then 2 else 1
  }

  /** How many steps the closers and the holders of locks can still take. */
  ghost function Measure(s: State): nat {
    |Waiting(s)| * (Registrable(s) + 2) + SweepLeft(s) + RegistrationLeft(s) + |Holders(s)|
  }

  lemma LockSweepShrinks(s: State, step: Step)
    requires Invariant(s) && Enabled(s, step) && step.LockSweep?
    ensures Measure(Next(s, step)) < Measure(s)
  {
    var r := Next(s, step);
    assert Waiting(r) == Waiting(s) - {step.thread};
    assert Holders(r) == Holders(s);
    SubsetCounts(s.registry - s.dead, s.registry);
    var n, was, now := |Waiting(r)|, Registrable(s), Registrable(r);
    Distributes(n, 1, was + 2);
    Scales(n, now + 2, was + 2);
  }

  lemma Scales(n: nat, a: nat, b: nat)
    requires a <= b
    ensures n * a <= n * b
  {}

  lemma MarkFlowShrinks(s: State, step: Step)
    requires Invariant(s) && Enabled(s, step) && step.MarkFlow?
    ensures Measure(Next(s, step)) < Measure(s)
  {
    var r := Next(s, step);
    assert Waiting(r) == Waiting(s) && Holders(r) == Holders(s);
    var todo := s.closers[step.thread].todo;
    assert |todo - {step.flow}| == |todo| - 1;
  }

  lemma FinishSweepShrinks(s: State, step: Step)
    requires Invariant(s) && Enabled(s, step) && step.FinishSweep?
    ensures Measure(Next(s, step)) < Measure(s)
  {
    var r := Next(s, step);
    assert Waiting(r) == Waiting(s) && Holders(r) == Holders(s);
  }

  lemma RegistrationShrinks(s: State, step: Step)
    requires Invariant(s) && Enabled(s, step) && (step.SecondCheck? || step.Push?)
    ensures Measure(Next(s, step)) < Measure(s)
  {
    var r := Next(s, step);
    assert Waiting(r) == Waiting(s) && Holders(r) == Holders(s);
    assert s.lock == OwnedBy(step.flow);
    assert |s.registry + {step.flow}| <= |s.registry| + 1;
    Scales(|Waiting(s)|, Registrable(r) + 2, Registrable(s) + 2);
  }

  lemma DecideShrinks(s: State, step: Step)
    requires Invariant(s) && Enabled(s, step) && step.Decide?
    ensures Measure(Next(s, step)) < Measure(s)
  {
    var r := Next(s, step);
    assert Waiting(r) == Waiting(s) && Holders(r) == Holders(s) - {step.thread};
  }

  lemma HolderStepsShrink(s: State, step: Step)
    requires Invariant(s) && Enabled(s, step) && ByHolder(step)
    ensures Measure(Next(s, step)) < Measure(s)
  {
    match step {
      case LockSweep(_) => LockSweepShrinks(s, step);
      case MarkFlow(_, _) => MarkFlowShrinks(s, step);
      case FinishSweep(_) => FinishSweepShrinks(s, step);
      case Decide(_, _) => DecideShrinks(s, step);
      case _ => RegistrationShrinks(s, step);
    }
  }

  lemma OtherStepsDoNotGrow(s: State, step: Step)
    requires Invariant(s) && Enabled(s, step) && !ByHolder(step) && !Acquires(step)
    ensures Measure(Next(s, step)) <= Measure(s)
  {
    var r := Next(s, step);
    assert Waiting(r) == Waiting(s) && Holders(r) == Holders(s);
    assert r.registry == s.registry && r.lock == s.lock && r.closers == s.closers;
  }

  /** Since `earlier` no thread has taken a lock, except the closers the registry lock, and no
      close has begun. Everything else may have happened. */
  ghost predicate NothingAcquired(run: Run, earlier: Run) {
    run == earlier || (run.Then? && !Acquires(run.step) && NothingAcquired(run.before, earlier))
  }

  ghost function HolderSteps(run: Run, earlier: Run): nat {
    if run == earlier || run.Start? then 0 else HolderSteps(run.before, earlier) + if ByHolder(run.step) then 1 else 0
  }

  lemma {:induction false} HoldersRunOut(run: Run, earlier: Run)
    requires run.Legal() && earlier.Legal() && NothingAcquired(run, earlier)
    ensures HolderSteps(run, earlier) + Measure(run.State()) <= Measure(earlier.State())
  {
    if run != earlier {
      HoldersRunOut(run.before, earlier);
      RunsKeepInvariant(run.before);
      if ByHolder(run.step) {
        HolderStepsShrink(run.before.State(), run.step);
      } else {
        OtherStepsDoNotGrow(run.before.State(), run.step);
      }
    }
  }

  lemma ClosersStay(s: State, step: Step, t: ThreadId)
    requires Enabled(s, step) && t in s.closers
    ensures t in Next(s, step).closers
  {}

  lemma {:induction false} ClosersRemain(run: Run, earlier: Run, t: ThreadId)
    requires run.Legal() && earlier.Legal() && NothingAcquired(run, earlier) && t in earlier.State().closers
    ensures t in run.State().closers
  {
    if run != earlier {
      ClosersRemain(run.before, earlier, t);
      ClosersStay(run.before.State(), run.step, t);
    }
  }

  /** While no other thread takes a lock, the closers and the lock holders can take only a bounded
      number of steps, whatever else happens meanwhile, and when none of them can move every close
      that had begun has returned. */
  lemma CloseReturns(run: Run, earlier: Run, t: ThreadId)
    requires run.Legal() && earlier.Legal() && NothingAcquired(run, earlier) && t in earlier.State().closers
    ensures HolderSteps(run, earlier) <= Measure(earlier.State())
    ensures (forall step :: ByHolder(step) ==> !Enabled(run.State(), step)) ==> HasClosed(run.State(), t)
  {
    HoldersRunOut(run, earlier);
    ClosersRemain(run, earlier, t);
    if run.State().closers[t] != Finished {
      CloseIsNeverStuck(run, t);
      var step :| Enabled(run.State(), step) && Unblocks(run.State(), t, step);
      assert ByHolder(step);
    }
  }

  // ------------------------------------------------------------------------------------------
  // The lifecycle object
  // ------------------------------------------------------------------------------------------

  /** A channel's flow lock. `alive` says a strong reference is left. */
  class FlowSync {
    var closed: bool
    var diagnostic: Option<string>
    var asleep: set<ThreadId>
    var alive: bool

    constructor ()
      ensures !closed && diagnostic == None && asleep == {} && alive
    {
      closed, diagnostic, asleep, alive := false, None, {}, true;
    }

    /** Mark closed, keep the first diagnostic, wake everybody. */
    method Close(message: string)
      modifies this
      ensures closed && asleep == {} && alive == old(alive)
      ensures diagnostic == if old(diagnostic).Some? then old(diagnostic) else Some(message)
    {
      closed, asleep := true, {};
      if diagnostic == None {
        diagnostic := Some(message);
      }
    }
  }

  /** `kept` is what is left of the flows when only those of the set stay: `picks` are the places it
      was taken from, in their order, and no place of a flow of the set is missing. */
  ghost predicate Keeps(flows: seq<FlowSync>, alive: set<FlowSync>, kept: seq<FlowSync>, picks: seq<nat>) {
    && |picks| == |kept|
    && (forall i, j :: 0 <= i < j < |picks| ==> picks[i] < picks[j])
    && (forall i :: 0 <= i < |picks| ==> picks[i] < |flows| && kept[i] == flows[picks[i]] && kept[i] in alive)
    && (forall k :: 0 <= k < |flows| && flows[k] in alive ==> k in picks)
  }

  /** Exactly the flows of the set are left, in their order and as often as they occurred. */
  ghost predicate IsKept(flows: seq<FlowSync>, alive: set<FlowSync>, kept: seq<FlowSync>) {
    exists picks :: Keeps(flows, alive, kept, picks)
  }

  ghost function AliveAmong(flows: seq<FlowSync>): set<FlowSync>
    reads flows
  {
    set flow | flow in flows && flow.alive
  }

  lemma PickLast(flows: seq<FlowSync>, alive: set<FlowSync>, kept: seq<FlowSync>, picks: seq<nat>, k: nat)
    requires k < |flows| && flows[k] in alive && Keeps(flows[..k], alive, kept, picks)
    ensures Keeps(flows[..k + 1], alive, kept + [flows[k]], picks + [k])
  {
    assert flows[..k + 1] == flows[..k] + [flows[k]];
    assert (picks + [k])[|picks|] == k;
    forall n | 0 <= n < k + 1 && flows[..k + 1][n] in alive
      ensures n in picks + [k]
    {
      if n < k {
        assert flows[..k][n] in alive;
      }
    }
  }

  lemma SkipLast(flows: seq<FlowSync>, alive: set<FlowSync>, kept: seq<FlowSync>, picks: seq<nat>, k: nat)
    requires k < |flows| && flows[k] !in alive && Keeps(flows[..k], alive, kept, picks)
    ensures Keeps(flows[..k + 1], alive, kept, picks)
  {
    assert flows[..k + 1] == flows[..k] + [flows[k]];
    forall n | 0 <= n < k + 1 && flows[..k + 1][n] in alive
      ensures n in picks
    {
      assert flows[..k][n] in alive;
    }
  }

  /** Exactly the members of the set are left. */
  lemma KeepsExactly(flows: seq<FlowSync>, alive: set<FlowSync>, kept: seq<FlowSync>, picks: seq<nat>, flow: FlowSync)
    requires Keeps(flows, alive, kept, picks)
    ensures flow in kept <==> flow in flows && flow in alive
  {
    if flow in flows && flow in alive {
      var k :| 0 <= k < |flows| && flows[k] == flow;
      assert k in picks;
      var i :| 0 <= i < |picks| && picks[i] == k;
      assert kept[i] == flow;
    }
  }

  lemma KeptMembers(flows: seq<FlowSync>, alive: set<FlowSync>, kept: seq<FlowSync>)
    requires IsKept(flows, alive, kept)
    ensures forall flow :: flow in kept <==> flow in flows && flow in alive
  {
    var picks :| Keeps(flows, alive, kept, picks);
    forall flow
      ensures flow in kept <==> flow in flows && flow in alive
    {
      KeepsExactly(flows, alive, kept, picks, flow);
    }
  }

  lemma Appended(kept: seq<FlowSync>, flow: FlowSync)
    ensures (kept + [flow])[..|kept|] == kept && (kept + [flow])[|kept|] == flow
    ensures forall other :: other in kept + [flow] <==> other == flow || other in kept
  {}

  /** `accepted` is every flow ever registered. */
  class Lifecycle {
    var closed: bool
    var diagnostic: Option<string>
    var trackFlows: seq<FlowSync>
    ghost var accepted: set<FlowSync>

    /** No registered flow that is still alive has left the registry. */
    ghost predicate Valid()
      reads this, accepted
    {
      && (forall flow :: flow in trackFlows ==> flow in accepted)
      && (forall flow :: flow in accepted && flow.alive ==> flow in trackFlows)
    }

    /** References to flows are lost at any time and never come back. */
    twostate lemma LosingFlowsKeepsValid()
      requires old(Valid()) && unchanged(this)
      requires forall flow :: flow in accepted && flow.alive ==> old(flow.alive)
      ensures Valid()
    {}

    constructor ()
      ensures Valid() && !closed && diagnostic == None && trackFlows == [] && accepted == {}
    {
      closed, diagnostic, trackFlows, accepted := false, None, [], {};
    }

    /** The live flows of the registry stay, in their order, and the new one comes last. */
    method RegisterTrackFlow(flow: FlowSync) returns (registered: bool)
      requires Valid()
      modifies this`trackFlows, this`accepted
      ensures Valid() && (registered <==> !closed)
      ensures !registered ==> trackFlows == old(trackFlows) && accepted == old(accepted)
      ensures registered ==>
                && accepted == old(accepted) + {flow}
                && |trackFlows| > 0 && trackFlows[|trackFlows| - 1] == flow
                && IsKept(old(trackFlows), old(AliveAmong(trackFlows)), trackFlows[..|trackFlows| - 1])
                && forall other :: other in trackFlows <==> other == flow || other in old(AliveAmong(trackFlows))
    {
      if closed {
        return false;
      }
      var kept := KeepAlive();
      KeptMembers(trackFlows, AliveAmong(trackFlows), kept);
      Appended(kept, flow);
      trackFlows := kept + [flow];
      accepted := accepted + {flow};
      registered := true;
    }

    method KeepAlive() returns (kept: seq<FlowSync>)
      ensures IsKept(trackFlows, AliveAmong(trackFlows), kept)
    {
      kept := [];
      ghost var picks: seq<nat> := [];
      for i := 0 to |trackFlows|
        invariant Keeps(trackFlows[..i], AliveAmong(trackFlows), kept, picks)
      {
        if trackFlows[i].alive {
          PickLast(trackFlows, AliveAmong(trackFlows), kept, picks, i);
          kept, picks := kept + [trackFlows[i]], picks + [i];
        } else {
          SkipLast(trackFlows, AliveAmong(trackFlows), kept, picks, i);
        }
      }
      assert trackFlows[..|trackFlows|] == trackFlows;
    }

    /** Every flow ever registered that is still alive is marked, keeps its first diagnostic and loses
        its sleepers; the dead ones are dropped and left alone. */
    method Close(message: string)
      requires Valid()
      modifies this, trackFlows
      ensures Valid() && closed && accepted == old(accepted)
      ensures diagnostic == if old(diagnostic).Some? then old(diagnostic) else Some(message)
      ensures IsKept(old(trackFlows), old(AliveAmong(trackFlows)), trackFlows)
      ensures forall flow :: flow in accepted ==>
                if old(flow.alive) then
                  && flow.closed && flow.asleep == {} && flow.alive
                  && flow.diagnostic == if old(flow.diagnostic).Some? then old(flow.diagnostic) else Some(message)
                else
                  unchanged(flow)
    {
      closed := true;
      if diagnostic == None {
        diagnostic := Some(message);
      }
      var kept := [];
      ghost var picks: seq<nat>, alive := [], old(AliveAmong(trackFlows));
      var flows := trackFlows;
      for i := 0 to |flows|
        invariant closed && accepted == old(accepted)
        invariant diagnostic == if old(diagnostic).Some? then old(diagnostic) else Some(message)
        invariant flows == old(trackFlows) && Keeps(flows[..i], alive, kept, picks)
        invariant forall flow :: flow in accepted || flow in flows ==>
                    if flow in flows[..i] && old(flow.alive) then
                      && flow.closed && flow.asleep == {} && flow.alive
                      && flow.diagnostic == if old(flow.diagnostic).Some? then old(flow.diagnostic) else Some(message)
                    else
                      unchanged(flow)
      {
        assert flows[..i + 1] == flows[..i] + [flows[i]];
        assert flows[i].alive == old(flows[i].alive);
        if flows[i].alive {
          PickLast(flows, alive, kept, picks, i);
          flows[i].Close(message);
          kept, picks := kept + [flows[i]], picks + [i];
        } else {
          SkipLast(flows, alive, kept, picks, i);
        }
      }
      assert flows[..|flows|] == flows;
      assert IsKept(flows, alive, kept);
      KeptMembers(flows, alive, kept);
      trackFlows := kept;
    }
  }
}

/** The producer-side input-binding guard: epochs, grants and the watchdog deadline. */
module InputGuard {
  import opened Integers
  import opened Wrappers

  /** Values owned by the protocol library: the assigned class bits and the registered range. */
  datatype Limits = Limits(knownClasses: bv64, minimumWatchdog: nat, maximumWatchdog: nat) {
    predicate Registered(watchdog: nat) { minimumWatchdog <= watchdog <= maximumWatchdog }
  }

  datatype Preconditions = Preconditions(
    surfacePresent: bool, surfaceGeneration: nat, capabilityMask: bv64, presented: bool, laneLive: bool)

  datatype Grant = Grant(generation: nat, effectiveClasses: bv64, watchdog: nat)

  datatype GuardState = Fresh | Active(grant: Grant) | Inactive

  datatype Guard = Guard(
    epoch: nat, state: GuardState, contextId: nat, surfaceId: nat, surfaceGeneration: nat,
    deadline: Option<nat>, lastSequence: nat, preconditions: Preconditions)
  {
    predicate Expired(now: nat) { deadline.Some? && now >= deadline.value }

    predicate Armed(now: nat) { state.Active? && !Expired(now) }
  }

  datatype Binding = Binding(
    epoch: nat, contextId: nat, surfaceId: nat, surfaceGeneration: nat, classes: bv64, reason: nat, watchdog: nat)

  datatype BoundStatus = BoundStatus(
    epoch: nat, grantGeneration: nat, effectiveClasses: bv64, state: nat, watchdog: nat)

  datatype LeaseRenewal = LeaseRenewal(sequence: nat, watchdog: nat)

  /** What events are tagged with while a grant is active. */
  datatype Tag = Tag(epoch: nat, grantGeneration: nat, contextId: nat, surfaceId: nat, surfaceGeneration: nat)

  datatype Error = Refused | EpochWrapped

  const INITIAL_STATE := Guard(0, Fresh, 0, 0, 0, None, 0, Preconditions(false, 0, 0, false, false))

  // ------------------------------------------------------------------------------------------
  // The operations
  // ------------------------------------------------------------------------------------------

  predicate MayEnable(l: Limits, p: Preconditions, contextId: nat, surfaceGeneration: nat, classes: bv64,
                      watchdog: nat, reason: nat)
  {
    && contextId != 0
    && classes != 0 && classes & !l.knownClasses == 0
    && l.Registered(watchdog)
    && reason <= 7
    && p.surfacePresent && surfaceGeneration == p.surfaceGeneration && p.presented && p.laneLive
    && classes & p.capabilityMask != 0
  }

  /** Wrapping the epoch panics in the source; here it is an error that changes nothing. */
  function Enable(g: Guard, l: Limits, contextId: nat, surfaceId: nat, surfaceGeneration: nat, classes: bv64,
                  watchdog: nat, reason: nat): Result<(Guard, Binding), Error>
  {
    if !MayEnable(l, g.preconditions, contextId, surfaceGeneration, classes, watchdog, reason) then Failure(Refused)
    else if g.epoch >= U64_MAX then Failure(EpochWrapped)
    else
      Success((g.(epoch := g.epoch + 1, contextId := contextId, surfaceId := surfaceId,
                  surfaceGeneration := surfaceGeneration),
               Binding(g.epoch + 1, contextId, surfaceId, surfaceGeneration, classes, reason, watchdog)))
  }

  function Disable(g: Guard, reason: nat): Result<(Guard, Binding), Error> {
    if g.epoch >= U64_MAX then Failure(EpochWrapped)
    else Success((Release(g).(epoch := g.epoch + 1), Binding(g.epoch + 1, 0, 0, 0, 0, reason, 0)))
  }

  function Release(g: Guard): Guard { g.(state := Inactive, deadline := None) }

  function HandleBound(g: Guard, l: Limits, status: BoundStatus): Result<Guard, Error> {
    if status.epoch != g.epoch || status.state > 2 then Failure(Refused)
    else if status.state != 1 then Success(Release(g))
    else if status.effectiveClasses == 0 || status.grantGeneration == 0 || !l.Registered(status.watchdog) then
      Failure(Refused)
    else Success(g.(state := Active(Grant(status.grantGeneration, status.effectiveClasses, status.watchdog))))
  }

  function HandleRenewal(g: Guard, renewal: LeaseRenewal, now: nat): Result<Guard, Error> {
    if !g.state.Active? || renewal.sequence == 0 || renewal.sequence <= g.lastSequence
       || renewal.watchdog != g.state.grant.watchdog || g.Expired(now) || now + renewal.watchdog > U64_MAX
    then Failure(Refused)
    else Success(g.(lastSequence := renewal.sequence, deadline := Some(now + renewal.watchdog)))
  }

  function CurrentTag(g: Guard): Option<Tag> {
    match g.state
    case Active(grant) => Some(Tag(g.epoch, grant.generation, g.contextId, g.surfaceId, g.surfaceGeneration))
    case _ => None
  }

  class InputBindingGuard {
    const limits: Limits
    var epoch: nat
    var state: GuardState
    var contextId: nat
    var surfaceId: nat
    var surfaceGeneration: nat
    var watchdogDeadline: Option<nat>
    var lastRenewalSequence: nat
    var preconditions: Preconditions

    ghost function View(): Guard
      reads this
    {
      Guard(epoch, state, contextId, surfaceId, surfaceGeneration, watchdogDeadline, lastRenewalSequence, preconditions)
    }

    constructor (limits: Limits)
      ensures View() == INITIAL_STATE && this.limits == limits
    {
      this.limits := limits;
      epoch, state, contextId, surfaceId, surfaceGeneration := 0, Fresh, 0, 0, 0;
      watchdogDeadline, lastRenewalSequence := None, 0;
      preconditions := Preconditions(false, 0, 0, false, false);
    }

    method SetPreconditions(p: Preconditions)
      modifies this`preconditions
      ensures preconditions == p
    {
      preconditions := p;
    }

    method EnableForContext(contextId: nat, surfaceId: nat, surfaceGeneration: nat, classes: bv64, watchdog: nat,
                            reason: nat)
      returns (r: Result<Binding, Error>)
      modifies this
      ensures var next :=
          Enable(old(View()), limits, contextId, surfaceId, surfaceGeneration, classes, watchdog, reason);
        if next.Failure? then r == Failure(next.error) && unchanged(this)
        else r == Success(next.value.1) && View() == next.value.0
    {
      if !MayEnable(limits, preconditions, contextId, surfaceGeneration, classes, watchdog, reason) {
        return Failure(Refused);
      }
      var advanced := AdvanceEpoch();
      if !advanced {
        return Failure(EpochWrapped);
      }
      this.contextId, this.surfaceId, this.surfaceGeneration := contextId, surfaceId, surfaceGeneration;
      return Success(Binding(epoch, contextId, surfaceId, surfaceGeneration, classes, reason, watchdog));
    }

    method DisableBinding(reason: nat) returns (r: Result<Binding, Error>)
      modifies this
      ensures var next := Disable(old(View()), reason);
        if next.Failure? then r == Failure(next.error) && unchanged(this)
        else r == Success(next.value.1) && View() == next.value.0
    {
      var advanced := AdvanceEpoch();
      if !advanced {
        return Failure(EpochWrapped);
      }
      ReleaseGrant();
      return Success(Binding(epoch, 0, 0, 0, 0, reason, 0));
    }

    method AcceptBound(status: BoundStatus) returns (ok: bool)
      modifies this
      ensures var next := HandleBound(old(View()), limits, status);
        && ok == next.Success?
        && if ok then View() == next.value else unchanged(this)
    {
      if status.epoch != epoch || status.state > 2 {
        return false;
      }
      if status.state != 1 {
        ReleaseGrant();
        return true;
      }
      if status.effectiveClasses == 0 || status.grantGeneration == 0 || !limits.Registered(status.watchdog) {
        return false;
      }
      state := Active(Grant(status.grantGeneration, status.effectiveClasses, status.watchdog));
      return true;
    }

    method AcceptRenewal(renewal: LeaseRenewal, now: nat) returns (ok: bool)
      modifies this`watchdogDeadline, this`lastRenewalSequence
      ensures var next := HandleRenewal(old(View()), renewal, now);
        && ok == next.Success?
        && if ok then View() == next.value else unchanged(this)
    {
      if !state.Active? || renewal.sequence == 0 || renewal.sequence <= lastRenewalSequence {
        return false;
      }
      if renewal.watchdog != state.grant.watchdog {
        return false;
      }
      if watchdogDeadline.Some? && now >= watchdogDeadline.value {
        return false;
      }
      if now + renewal.watchdog > U64_MAX {
        return false;
      }
      lastRenewalSequence := renewal.sequence;
      watchdogDeadline := Some(now + renewal.watchdog);
      return true;
    }

    method ReleaseGrant()
      modifies this`state, this`watchdogDeadline
      ensures View() == Release(old(View()))
    {
      state := Inactive;
      watchdogDeadline := None;
    }

    method AdvanceEpoch() returns (advanced: bool)
      modifies this`epoch
      ensures advanced <==> old(epoch) < U64_MAX
      ensures epoch == if advanced then old(epoch) + 1 else old(epoch)
    {
      advanced := epoch < U64_MAX;
      if advanced {
        epoch := epoch + 1;
      }
    }
  }

  // ------------------------------------------------------------------------------------------
  // Whole runs
  // ------------------------------------------------------------------------------------------

  datatype Event =
    | Precondition(p: Preconditions)
    | EnableRequest(contextId: nat, surfaceId: nat, surfaceGeneration: nat, classes: bv64, watchdog: nat, reason: nat)
    | DisableRequest(disableReason: nat)
    | Bound(status: BoundStatus)
    | Renewal(renewal: LeaseRenewal)
    | Revocation
    | Releasing
    | Query  // any call that only reads the guard

  /** Any calls in any order, on a clock that never goes back. */
  datatype Run = Start | Then(before: Run, event: Event, now: nat) {
    ghost predicate Legal() { Then? ==> before.Legal() && before.Now() <= now }

    ghost function Now(): nat { if Start? then 0 else now }

    /** The guard, and whether the latest call was accepted, and the binding it issued. */
    ghost function Outcome(l: Limits): (Guard, bool, Option<Binding>)
      decreases this, 0
    {
      match this
      case Start => (INITIAL_STATE, false, None)
      case Then(before, event, now) =>
        var g := before.State(l);
        match event
        case Precondition(p) => (g.(preconditions := p), true, None)
        case EnableRequest(c, s, sg, classes, w, reason) =>
          (match Enable(g, l, c, s, sg, classes, w, reason)
           case Success((next, binding)) => (next, true, Some(binding))
           case Failure(_) => (g, false, None))
        case DisableRequest(reason) =>
          (match Disable(g, reason)
           case Success((next, binding)) => (next, true, Some(binding))
           case Failure(_) => (g, false, None))
        case Bound(status) =>
          (match HandleBound(g, l, status)
           case Success(next) => (next, true, None)
           case Failure(_) => (g, false, None))
        case Renewal(renewal) =>
          (match HandleRenewal(g, renewal, now)
           case Success(next) => (next, true, None)
           case Failure(_) => (g, false, None))
        case Revocation => (Release(g), true, None)
        case Releasing => (Release(g), true, None)
        case Query => (g, true, None)
    }

    ghost function State(l: Limits): Guard
      decreases this, 1
    {
      Outcome(l).0
    }

    ghost predicate Accepted(l: Limits) { Outcome(l).1 }

    ghost function Issued(l: Limits): Option<Binding> { Outcome(l).2 }

    ghost predicate Extends(earlier: Run) { this == earlier || (Then? && before.Extends(earlier)) }

    /** The latest call ended the grant: a disable, release or revocation, or a bound reply that
        does not enable. */
    ghost predicate Clears(l: Limits) {
      && Then? && Accepted(l)
      && (event.DisableRequest? || event.Revocation? || event.Releasing? || (event.Bound? && event.status.state != 1))
    }

    /** No call since `earlier` ended the grant. */
    ghost predicate Uncleared(l: Limits, earlier: Run) {
      this == earlier || (Then? && !Clears(l) && before.Uncleared(l, earlier))
    }
  }

  lemma {:induction false} EpochNeverDecreases(run: Run, earlier: Run, l: Limits)
    requires run.Extends(earlier)
    ensures earlier.State(l).epoch <= run.State(l).epoch
  {
    if run != earlier {
      EpochNeverDecreases(run.before, earlier, l);
    }
  }

  /** A binding is issued with the next epoch, which the guard keeps. */
  lemma IssuedEpochIsNext(run: Run, l: Limits)
    requires run.Issued(l).Some?
    ensures run.Then? && run.before.State(l).epoch + 1 == run.Issued(l).value.epoch == run.State(l).epoch
  {}

  /** Every binding ever issued carries a greater producer epoch than all bindings before it. */
  lemma IssuedEpochsIncrease(run: Run, earlier: Run, l: Limits)
    requires run.Extends(earlier) && run != earlier
    requires run.Issued(l).Some? && earlier.Issued(l).Some?
    ensures earlier.Issued(l).value.epoch < run.Issued(l).value.epoch
  {
    EpochNeverDecreases(run.before, earlier, l);
    IssuedEpochIsNext(run, l);
    IssuedEpochIsNext(earlier, l);
  }

  /** Accepted renewals carry strictly increasing sequences over the guard's whole life, across
      disables and new grants. */
  lemma {:induction false} SequenceNeverDecreases(run: Run, earlier: Run, l: Limits)
    requires run.Extends(earlier)
    ensures earlier.State(l).lastSequence <= run.State(l).lastSequence
  {
    if run != earlier {
      SequenceNeverDecreases(run.before, earlier, l);
    }
  }

  lemma RenewalsIncrease(run: Run, earlier: Run, l: Limits)
    requires run.Extends(earlier) && run != earlier
    requires run.Then? && run.event.Renewal? && run.Accepted(l)
    requires earlier.Then? && earlier.event.Renewal? && earlier.Accepted(l)
    ensures earlier.event.renewal.sequence < run.event.renewal.sequence
  {
    SequenceNeverDecreases(run.before, earlier, l);
  }

  /** The time and watchdog of the last accepted renewal since the grant was last ended. */
  ghost function LastRenewal(run: Run, l: Limits): Option<(nat, nat)> {
    match run
    case Start => None
    case Then(before, event, now) =>
      if run.Clears(l) then None
      else if event.Renewal? && run.Accepted(l) then Some((now, event.renewal.watchdog))
      else LastRenewal(before, l)
  }

  /** A deadline is set exactly when a renewal has been accepted since the grant was last ended,
      and then it is that renewal's time plus its watchdog, which is registered. So a grant that was
      never renewed has no deadline and stays armed at every later time. */
  lemma {:induction false} DeadlineComesFromRenewal(run: Run, l: Limits)
    ensures var g, last := run.State(l), LastRenewal(run, l);
      && (g.deadline.Some? <==> last.Some?)
      && (last.Some? ==> g.deadline == Some(last.value.0 + last.value.1) && l.Registered(last.value.1))
  {
    if run.Then? {
      DeadlineComesFromRenewal(run.before, l);
      DeadlineMoves(run, l);
    }
  }

  /** The latest call clears the deadline, sets it by a renewal, or leaves it. */
  lemma DeadlineMoves(run: Run, l: Limits)
    requires run.Then?
    ensures var g, r := run.before.State(l), run.State(l);
      if run.Clears(l) then r.deadline == None
      else if run.event.Renewal? && run.Accepted(l) then
        r.deadline == Some(run.now + run.event.renewal.watchdog) && l.Registered(run.event.renewal.watchdog)
      else r.deadline == g.deadline
  {
    if run.event.Renewal? {
      ActiveGrantIsRegistered(run.before, l);
    }
  }

  lemma {:induction false} ActiveGrantIsRegistered(run: Run, l: Limits)
    ensures run.State(l).state.Active? ==> l.Registered(run.State(l).state.grant.watchdog)
  {
    if run.Then? {
      ActiveGrantIsRegistered(run.before, l);
    }
  }

  /** The guard is armed at a time exactly when a grant is active and that time is before the
      watchdog of the last renewal since the grant was last ended, if there was one. */
  lemma ArmedIsExact(run: Run, l: Limits, now: nat)
    ensures run.State(l).Armed(now) <==>
      && run.State(l).state.Active?
      && (LastRenewal(run, l).Some? ==> now < LastRenewal(run, l).value.0 + LastRenewal(run, l).value.1)
  {
    DeadlineComesFromRenewal(run, l);
  }

  // ------------------------------------------------------------------------------------------
  // What each call answers
  // ------------------------------------------------------------------------------------------

  /** How many bindings have been issued. */
  ghost function IssuedCount(run: Run, l: Limits): nat {
    if run.Start? then 0 else IssuedCount(run.before, l) + if run.Issued(l).Some? then 1 else 0
  }

  ghost function LastPreconditions(run: Run): Preconditions {
    if run.Start? then Preconditions(false, 0, 0, false, false)
    else if run.event.Precondition? then run.event.p else LastPreconditions(run.before)
  }

  /** Context, surface and surface generation of the last accepted enable. */
  ghost function LastEnabled(run: Run, l: Limits): (nat, nat, nat) {
    if run.Start? then (0, 0, 0)
    else if run.event.EnableRequest? && run.Accepted(l) then
      (run.event.contextId, run.event.surfaceId, run.event.surfaceGeneration)
    else LastEnabled(run.before, l)
  }

  /** The grant that the last enabling INPUT_BOUND has brought, unless it has been ended since. */
  ghost function LastGrant(run: Run, l: Limits): Option<Grant> {
    if run.Start? || run.Clears(l) then None
    else if run.event.Bound? && run.Accepted(l) then
      var status := run.event.status; Some(Grant(status.grantGeneration, status.effectiveClasses, status.watchdog))
    else LastGrant(run.before, l)
  }

  /** The sequence of the last accepted renewal. */
  ghost function LastSequence(run: Run, l: Limits): nat {
    if run.Start? then 0
    else if run.event.Renewal? && run.Accepted(l) then run.event.renewal.sequence
    else LastSequence(run.before, l)
  }

  ghost predicate IsState(g: Guard, issued: nat, p: Preconditions, enabled: (nat, nat, nat), grant: Option<Grant>,
                          sequence: nat)
  {
    && g.epoch == issued && g.preconditions == p && (g.contextId, g.surfaceId, g.surfaceGeneration) == enabled
    && (g.state.Active? <==> grant.Some?) && (g.state.Active? ==> Some(g.state.grant) == grant)
    && g.lastSequence == sequence
  }

  lemma CallMovesState(run: Run, l: Limits, issued: nat, p: Preconditions, enabled: (nat, nat, nat),
                       grant: Option<Grant>, sequence: nat)
    requires run.Then? && IsState(run.before.State(l), issued, p, enabled, grant, sequence)
    ensures var e, ok := run.event, run.Accepted(l);
            IsState(run.State(l), issued + (if run.Issued(l).Some? then 1 else 0),
                    if e.Precondition? then e.p else p,
                    if e.EnableRequest? && ok then (e.contextId, e.surfaceId, e.surfaceGeneration) else enabled,
                    if run.Clears(l) then None
                    else if e.Bound? && ok then
                      Some(Grant(e.status.grantGeneration, e.status.effectiveClasses, e.status.watchdog))
                    else grant,
                    if e.Renewal? && ok then e.renewal.sequence else sequence)
  {}

  /** The guard holds exactly what the accepted calls say. */
  lemma {:induction false} StateIsExact(run: Run, l: Limits)
    ensures IsState(run.State(l), IssuedCount(run, l), LastPreconditions(run), LastEnabled(run, l),
                    LastGrant(run, l), LastSequence(run, l))
  {
    if run.Then? {
      StateIsExact(run.before, l);
      CallMovesState(run, l, IssuedCount(run.before, l), LastPreconditions(run.before), LastEnabled(run.before, l),
                     LastGrant(run.before, l), LastSequence(run.before, l));
    }
  }

  /** The values of an enable are valid, and the preconditions allow it. */
  ghost predicate Allows(l: Limits, p: Preconditions, e: Event)
    requires e.EnableRequest?
  {
    && e.contextId != 0 && e.classes != 0 && e.classes & !l.knownClasses == 0 && e.reason <= 7
    && l.minimumWatchdog <= e.watchdog <= l.maximumWatchdog
    && p.surfacePresent && p.presented && p.laneLive && p.surfaceGeneration == e.surfaceGeneration
    && e.classes & p.capabilityMask != 0
  }

  lemma AllowsIsTested(l: Limits, p: Preconditions, e: Event)
    requires e.EnableRequest?
    ensures Allows(l, p, e) <==> MayEnable(l, p, e.contextId, e.surfaceGeneration, e.classes, e.watchdog, e.reason)
  {}

  lemma EnableAnswers(run: Run, l: Limits)
    requires run.Then? && run.event.EnableRequest?
    ensures var e, g := run.event, run.before.State(l);
            && (run.Accepted(l) <==>
                  MayEnable(l, g.preconditions, e.contextId, e.surfaceGeneration, e.classes, e.watchdog, e.reason)
                  && g.epoch < U64_MAX)
            && run.Issued(l) == if !run.Accepted(l) then None else
                 Some(Binding(g.epoch + 1, e.contextId, e.surfaceId, e.surfaceGeneration, e.classes, e.reason,
                              e.watchdog))
  {}

  /** An enable is accepted exactly if its values are valid and the preconditions set last allow it, and
      then the binding issued is the request's own, with the next epoch. */
  lemma EnableIsExact(run: Run, l: Limits)
    requires run.Then? && run.event.EnableRequest?
    ensures var e, count := run.event, IssuedCount(run.before, l);
            && (run.Accepted(l) <==> Allows(l, LastPreconditions(run.before), e) && count < U64_MAX)
            && run.Issued(l) == if !run.Accepted(l) then None else
                 Some(Binding(count + 1, e.contextId, e.surfaceId, e.surfaceGeneration, e.classes, e.reason,
                              e.watchdog))
  {
    StateIsExact(run.before, l);
    EnableAnswers(run, l);
    AllowsIsTested(l, run.before.State(l).preconditions, run.event);
  }

  /** A disable is accepted until the epochs run out, and its binding names nothing but the next epoch and
      the reason. */
  lemma DisableIsExact(run: Run, l: Limits)
    requires run.Then? && run.event.DisableRequest?
    ensures var count := IssuedCount(run.before, l);
            && (run.Accepted(l) <==> count < U64_MAX)
            && run.Issued(l) == if run.Accepted(l) then Some(Binding(count + 1, 0, 0, 0, 0, run.event.disableReason, 0))
                                else None
  {
    StateIsExact(run.before, l);
  }

  /** An INPUT_BOUND is accepted exactly if it answers the last binding issued, and enables only with
      valid fields. */
  lemma BoundIsExact(run: Run, l: Limits)
    requires run.Then? && run.event.Bound?
    ensures var status := run.event.status;
            run.Accepted(l) <==>
              && status.epoch == IssuedCount(run.before, l) && status.state <= 2
              && (status.state == 1 ==>
                    status.effectiveClasses != 0 && status.grantGeneration != 0
                    && l.minimumWatchdog <= status.watchdog <= l.maximumWatchdog)
  {
    StateIsExact(run.before, l);
  }

  /** A renewal is accepted exactly if a grant is active, its sequence is above the last one accepted, it
      repeats the grant's watchdog, the deadline of the last renewal has not passed, and its own deadline
      can be expressed. */
  lemma RenewalIsExact(run: Run, l: Limits)
    requires run.Then? && run.event.Renewal?
    ensures var renewal, grant, last := run.event.renewal, LastGrant(run.before, l), LastRenewal(run.before, l);
            run.Accepted(l) <==>
              && grant.Some? && renewal.watchdog == grant.value.watchdog
              && LastSequence(run.before, l) < renewal.sequence
              && (last.Some? ==> run.now < last.value.0 + last.value.1)
              && run.now + renewal.watchdog <= U64_MAX
  {
    StateIsExact(run.before, l);
    DeadlineComesFromRenewal(run.before, l);
  }

  /** While a grant is active the tag of its events is made of the last epoch issued, the grant's
      generation, and what the last enable named. */
  lemma TagIsExact(run: Run, l: Limits)
    ensures var grant, (context, surface, generation) := LastGrant(run, l), LastEnabled(run, l);
            CurrentTag(run.State(l))
            == if grant.None? then None
               else Some(Tag(IssuedCount(run, l), grant.value.generation, context, surface, generation))
  {
    StateIsExact(run, l);
  }

  // ------------------------------------------------------------------------------------------
  // Which epoch an armed grant belongs to
  // ------------------------------------------------------------------------------------------

  /** The latest call was an INPUT_BOUND that enabled. */
  ghost predicate Grants(run: Run, l: Limits) {
    run.Then? && run.event.Bound? && run.Accepted(l) && run.event.status.state == 1
  }

  /** The latest call issued a new binding without ending the grant. */
  ghost predicate Rebinds(run: Run, l: Limits) { run.Then? && run.event.EnableRequest? && run.Accepted(l) }

  /** What the last enabling INPUT_BOUND since the grant was last ended has granted. */
  ghost function Granted(run: Run, l: Limits): Option<Tag> {
    if run.Start? || run.Clears(l) then None
    else if Grants(run, l) then CurrentTag(run.State(l))
    else Granted(run.before, l)
  }

  /** A new binding has been issued since then, and none of its replies has enabled. */
  ghost predicate ReboundSince(run: Run, l: Limits) {
    run.Then? && !run.Clears(l) && !Grants(run, l) && (Rebinds(run, l) || ReboundSince(run.before, l))
  }

  lemma StepMovesTag(run: Run, l: Limits)
    requires run.Then? && !run.Clears(l) && !Grants(run, l)
    ensures var g, r := run.before.State(l), run.State(l);
            && r.state == g.state
            && if Rebinds(run, l) then r.epoch == g.epoch + 1 else CurrentTag(r) == CurrentTag(g) && r.epoch == g.epoch
  {}

  lemma ClearingEndsTag(run: Run, l: Limits)
    requires run.Clears(l)
    ensures CurrentTag(run.State(l)) == None
  {}

  lemma GrantingTags(run: Run, l: Limits)
    requires Grants(run, l)
    ensures var g, status := run.before.State(l), run.event.status;
            CurrentTag(run.State(l))
            == Some(Tag(status.epoch, status.grantGeneration, g.contextId, g.surfaceId, g.surfaceGeneration))
  {}

  lemma {:induction false} TagIsGranted(run: Run, l: Limits)
    ensures var tag, granted := CurrentTag(run.State(l)), Granted(run, l);
            && (tag.Some? <==> granted.Some?)
            && (tag.Some? ==> tag.value.grantGeneration == granted.value.grantGeneration)
            && (tag.Some? && ReboundSince(run, l) ==> granted.value.epoch < tag.value.epoch)
            && (tag.Some? && !ReboundSince(run, l) ==> granted == tag)
  {
    if run.Then? {
      TagIsGranted(run.before, l);
      if run.Clears(l) {
        ClearingEndsTag(run, l);
      } else if Grants(run, l) {
        GrantingTags(run, l);
      } else {
        StepMovesTag(run, l);
      }
    }
  }

  /** While a grant is active, its events carry the tag that the last enabling INPUT_BOUND granted
      exactly if no binding has been issued since; otherwise they carry a later epoch than the one
      it granted. */
  lemma {:induction false} GrantIsCurrentExactly(run: Run, l: Limits)
    requires run.State(l).state.Active?
    ensures var tag, granted := CurrentTag(run.State(l)), Granted(run, l);
            && tag.Some? && granted.Some? && tag.value.grantGeneration == granted.value.grantGeneration
            && (tag == granted <==> !ReboundSince(run, l))
            && (tag != granted ==> granted.value.epoch < tag.value.epoch)
  {
    TagIsGranted(run, l);
  }

  const SMALL_LIMITS := Limits(1, 10, 20)

  lemma FirstGrant() returns (bound: Run)
    ensures bound.Legal() && bound.Now() == 0 && Grants(bound, SMALL_LIMITS)
    ensures bound.State(SMALL_LIMITS)
            == Guard(1, Active(Grant(5, 1, 10)), 1, 7, 1, None, 0, Preconditions(true, 1, 1, true, true))
  {
    var prepared := Then(Start, Precondition(Preconditions(true, 1, 1, true, true)), 0);
    var enabled := Then(prepared, EnableRequest(1, 7, 1, 1, 10, 0), 0);
    assert enabled.Accepted(SMALL_LIMITS) && enabled.State(SMALL_LIMITS).epoch == 1;
    bound := Then(enabled, Bound(BoundStatus(1, 5, 1, 1, 10)), 0);
  }

  lemma EnableAgain(bound: Run) returns (again: Run)
    requires bound.Legal() && bound.Now() == 0
    requires bound.State(SMALL_LIMITS)
             == Guard(1, Active(Grant(5, 1, 10)), 1, 7, 1, None, 0, Preconditions(true, 1, 1, true, true))
    ensures again.Legal() && again.Now() == 0 && again.Then? && again.before == bound && Rebinds(again, SMALL_LIMITS)
    ensures again.State(SMALL_LIMITS)
            == Guard(2, Active(Grant(5, 1, 10)), 1, 8, 1, None, 0, Preconditions(true, 1, 1, true, true))
  {
    again := Then(bound, EnableRequest(1, 8, 1, 1, 10, 0), 0);
  }

  /** Enabling again while a grant is active leaves the guard armed under an epoch that was never
      granted, and it can be renewed. */
  lemma GrantCanBeStale() returns (run: Run)
    ensures run.Legal() && run.Then? && run.event.Renewal? && run.Accepted(SMALL_LIMITS)
    ensures run.State(SMALL_LIMITS).Armed(0) && CurrentTag(run.State(SMALL_LIMITS)) == Some(Tag(2, 5, 1, 8, 1))
    ensures Granted(run, SMALL_LIMITS) == Some(Tag(1, 5, 1, 7, 1))
  {
    var bound := FirstGrant();
    var again := EnableAgain(bound);
    assert Granted(again, SMALL_LIMITS) == Granted(bound, SMALL_LIMITS) == Some(Tag(1, 5, 1, 7, 1));
    run := Then(again, Renewal(LeaseRenewal(1, 10)), 0);
  }

  lemma {:induction false} ClockIsMonotone(run: Run, earlier: Run)
    requires run.Legal() && run.Extends(earlier)
    ensures earlier.Now() <= run.Now()
  {
    if run != earlier {
      ClockIsMonotone(run.before, earlier);
    }
  }

  /** Once the deadline has passed, no sequence of renewals, enables, enabled INPUT_BOUND replies
      or anything else arms the guard again until a call ends the grant. */
  lemma {:induction false} ExpiredStaysDisarmed(run: Run, expired: Run, l: Limits, now: nat)
    requires run.Legal() && run.Extends(expired) && run.Uncleared(l, expired)
    requires expired.State(l).Expired(expired.Now()) && expired.Now() <= now
    ensures run.State(l).deadline == expired.State(l).deadline
    ensures !run.State(l).Armed(now)
  {
    if run != expired {
      ExpiredStaysDisarmed(run.before, expired, l, now);
      ClockIsMonotone(run, expired);
    }
  }

  lemma EnableSucceeds(g: Guard, l: Limits, p: Preconditions, classes: bv64, watchdog: nat)
    requires g.preconditions == p && g.epoch < U64_MAX
    requires MayEnable(l, p, 1, p.surfaceGeneration, classes, watchdog, 0)
    ensures Enable(g, l, 1, 7, p.surfaceGeneration, classes, watchdog, 0).Success?
  {}

  lemma AfterDisable(before: Run, l: Limits, t: nat)
    requires before.State(l).epoch < U64_MAX
    ensures var r := Then(before, DisableRequest(1), t).State(l);
            r.epoch == before.State(l).epoch + 1 && r.deadline == None
  {}

  lemma AfterPrecondition(before: Run, l: Limits, p: Preconditions, t: nat)
    ensures var g, r := before.State(l), Then(before, Precondition(p), t).State(l);
            r.preconditions == p && r.epoch == g.epoch && r.deadline == g.deadline
  {}

  lemma AfterEnable(before: Run, l: Limits, generation: nat, classes: bv64, watchdog: nat, t: nat)
    requires Enable(before.State(l), l, 1, 7, generation, classes, watchdog, 0).Success?
    ensures var g := before.State(l);
            var r := Then(before, EnableRequest(1, 7, generation, classes, watchdog, 0), t).State(l);
            r.epoch == g.epoch + 1 && r.deadline == g.deadline
  {
    var run := Then(before, EnableRequest(1, 7, generation, classes, watchdog, 0), t);
    var next := Enable(before.State(l), l, 1, 7, generation, classes, watchdog, 0).value;
    assert run.Outcome(l) == (next.0, true, Some(next.1));
  }

  /** Ending the grant does allow a new one, so the condition is needed: a disable, an enable and
      an enabled reply arm an expired guard. */
  lemma ClearingAllowsANewGrant(expired: Run, l: Limits, p: Preconditions, classes: bv64, watchdog: nat)
    requires expired.State(l).Expired(expired.Now()) && expired.State(l).epoch + 2 <= U64_MAX
    requires MayEnable(l, p, 1, p.surfaceGeneration, classes, watchdog, 0)
    ensures var t := expired.Now();
      var disabled := Then(expired, DisableRequest(1), t);
      var prepared := Then(disabled, Precondition(p), t);
      var enabled := Then(prepared, EnableRequest(1, 7, p.surfaceGeneration, classes, watchdog, 0), t);
      var bound := Then(enabled, Bound(BoundStatus(expired.State(l).epoch + 2, 1, classes, 1, watchdog)), t);
      bound.State(l).Armed(t) && bound.State(l).deadline == None
  {
    var t := expired.Now();
    var disabled := Then(expired, DisableRequest(1), t);
    AfterDisable(expired, l, t);
    var prepared := Then(disabled, Precondition(p), t);
    var g := prepared.State(l);
    AfterPrecondition(disabled, l, p, t);
    EnableSucceeds(g, l, p, classes, watchdog);
    var enabled := Then(prepared, EnableRequest(1, 7, p.surfaceGeneration, classes, watchdog, 0), t);
    AfterEnable(prepared, l, p.surfaceGeneration, classes, watchdog, t);
    BoundArms(enabled.State(l), l, classes, watchdog);
  }

  lemma BoundArms(g: Guard, l: Limits, classes: bv64, watchdog: nat)
    requires g.deadline == None && classes != 0 && l.Registered(watchdog)
    ensures var next := HandleBound(g, l, BoundStatus(g.epoch, 1, classes, 1, watchdog));
            next.Success? && next.value.state.Active? && next.value.deadline == None
  {}
}

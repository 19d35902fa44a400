/** The bounded producer/consumer queue: one mutex and two condition variables.

    A turn is what a thread does between acquiring the mutex and either returning or going to
    sleep, so every interleaving of threads is a sequence of turns. Waking up and calling afresh
    run the same turn, as the re-tested loop guards do. The pure functions say what each turn
    does to the whole monitor; the class at the end performs the turns in place. */
module QueueMonitor {
  import opened Wrappers

  type ThreadId = nat

  /** Threads parked on a condition variable, and threads taken off it that have not yet
      re-acquired the mutex. */
  datatype Condvar = Condvar(asleep: set<ThreadId>, woken: set<ThreadId>) {
    function Members(): set<ThreadId> { asleep + woken }

    function Park(t: ThreadId): Condvar { Condvar(asleep + {t}, woken - {t}) }

    function Leave(t: ThreadId): Condvar { Condvar(asleep - {t}, woken - {t}) }

    function Wake(t: ThreadId): Condvar {
      if t in asleep then Condvar(asleep - {t}, woken + {t}) else this
    }

    function WakeAll(): Condvar { Condvar({}, Members()) }

    /** The notifier may pick any sleeper, but it must pick one when there is one. */
    ghost predicate MayPick(t: ThreadId) { asleep != {} ==> t in asleep }
  }

  /** `held` keeps the item of every producer blocked in a blocking push. */
  datatype Monitor<T> = Monitor(
    items: seq<T>, dropped: nat, closed: bool, capacity: nat,
    notEmpty: Condvar, notFull: Condvar, held: map<ThreadId, T>)
  {
    predicate Idle(t: ThreadId) { t !in notEmpty.Members() && t !in notFull.Members() }
  }

  datatype Outcome<T> =
    | Pushed(item: T)   // Ok from either push
    | Refused(item: T)  // Err from a push on a closed queue
    | Dropped(item: T)  // Err from a nonblocking push on a full open queue
    | Popped(item: T)   // Ok from pop
    | Ended             // Err from pop
    | Waits             // the thread went to sleep
    | Silent            // close, or a spurious wake-up

  function Initial<T>(capacity: nat): Monitor<T> {
    Monitor([], 0, false, capacity, Condvar({}, {}), Condvar({}, {}), map[])
  }

  function PushTurn<T>(q: Monitor<T>, t: ThreadId, item: T, pick: ThreadId): (Monitor<T>, Outcome<T>) {
    if |q.items| >= q.capacity && !q.closed then
      (q.(notFull := q.notFull.Park(t), held := q.held[t := item]), Waits)
    else
      var awake := q.(notFull := q.notFull.Leave(t), held := q.held - {t});
      if q.closed then (awake, Refused(item))
      else (awake.(items := q.items + [item], notEmpty := q.notEmpty.Wake(pick)), Pushed(item))
  }

  function TryPushTurn<T>(q: Monitor<T>, item: T, pick: ThreadId): (Monitor<T>, Outcome<T>) {
    if q.closed then (q, Refused(item))
    else if |q.items| >= q.capacity then (q.(dropped := q.dropped + 1), Dropped(item))
    else (q.(items := q.items + [item], notEmpty := q.notEmpty.Wake(pick)), Pushed(item))
  }

  function PopTurn<T>(q: Monitor<T>, t: ThreadId, pick: ThreadId): (Monitor<T>, Outcome<T>) {
    if q.items != [] then
      (q.(items := q.items[1..], notEmpty := q.notEmpty.Leave(t), notFull := q.notFull.Wake(pick)),
       Popped(q.items[0]))
    else if q.closed then (q.(notEmpty := q.notEmpty.Leave(t)), Ended)
    else (q.(notEmpty := q.notEmpty.Park(t)), Waits)
  }

  function CloseTurn<T>(q: Monitor<T>): Monitor<T> {
    q.(closed := true, notEmpty := q.notEmpty.WakeAll(), notFull := q.notFull.WakeAll())
  }

  /** Every way a turn can start. `pick` is the sleeper the notification reaches. */
  datatype Step<T> =
    | CallPush(t: ThreadId, item: T, pick: ThreadId)
    | ResumePush(t: ThreadId, item: T, pick: ThreadId)  // with the item it holds
    | CallTryPush(item: T, pick: ThreadId)
    | CallPop(t: ThreadId, pick: ThreadId)
    | ResumePop(t: ThreadId, pick: ThreadId)
    | CallClose
    | SpuriousPush(t: ThreadId)
    | SpuriousPop(t: ThreadId)

  ghost predicate Enabled<T>(q: Monitor<T>, step: Step<T>) {
    match step
    case CallPush(t, _, pick) => q.Idle(t) && q.notEmpty.MayPick(pick)
    case ResumePush(t, item, pick) =>
      t in q.notFull.woken && t in q.held && q.held[t] == item && q.notEmpty.MayPick(pick)
    case CallTryPush(_, pick) => q.notEmpty.MayPick(pick)
    case CallPop(t, pick) => q.Idle(t) && q.notFull.MayPick(pick)
    case ResumePop(t, pick) => t in q.notEmpty.woken && q.notFull.MayPick(pick)
    case CallClose => true
    case SpuriousPush(t) => t in q.notFull.asleep
    case SpuriousPop(t) => t in q.notEmpty.asleep
  }

  ghost function Next<T>(q: Monitor<T>, step: Step<T>): (Monitor<T>, Outcome<T>) {
    match step
    case CallPush(t, item, pick) => PushTurn(q, t, item, pick)
    case ResumePush(t, item, pick) => PushTurn(q, t, item, pick)
    case CallTryPush(item, pick) => TryPushTurn(q, item, pick)
    case CallPop(t, pick) => PopTurn(q, t, pick)
    case ResumePop(t, pick) => PopTurn(q, t, pick)
    case CallClose => (CloseTurn(q), Silent)
    case SpuriousPush(t) => (q.(notFull := q.notFull.Wake(t)), Silent)
    case SpuriousPop(t) => (q.(notEmpty := q.notEmpty.Wake(t)), Silent)
  }

  /** A run of the queue: any number of turns after its creation. */
  datatype Run<T> = Start(capacity: nat) | Then(before: Run<T>, step: Step<T>) {
    ghost predicate Legal() {
      match this
      case Start(capacity) => capacity > 0
      case Then(before, step) => before.Legal() && Enabled(before.State(), step)
    }

    ghost function State(): Monitor<T> {
      match this
      case Start(capacity) => Initial(capacity)
      case Then(before, step) => Next(before.State(), step).0
    }

    ghost function Out(): Outcome<T>
      requires Then?
    {
      Next(before.State(), step).1
    }

    ghost predicate Extends(earlier: Run<T>) { this == earlier || (Then? && before.Extends(earlier)) }
  }

  // ------------------------------------------------------------------------------------------
  // No lost wake-up
  // ------------------------------------------------------------------------------------------

  ghost predicate NoLostWakeup<T>(q: Monitor<T>) {
    && (q.notEmpty.asleep != {} ==> |q.items| <= |q.notEmpty.woken|)
    && (q.notFull.asleep != {} ==> q.capacity - |q.items| <= |q.notFull.woken|)
    && (q.closed ==> q.notEmpty.asleep == {} && q.notFull.asleep == {})
  }

  ghost predicate WellFormed<T>(q: Monitor<T>) {
    && 0 < q.capacity && |q.items| <= q.capacity
    && q.notEmpty.asleep !! q.notEmpty.woken
    && q.notFull.asleep !! q.notFull.woken
    && q.notEmpty.Members() !! q.notFull.Members()
    && q.held.Keys == q.notFull.Members()
  }

  ghost predicate Sound<T>(q: Monitor<T>) { WellFormed(q) && NoLostWakeup(q) }

  lemma WithoutCounts(s: set<ThreadId>, t: ThreadId)
    ensures |s - {t}| == if t in s then |s| - 1 else |s|
  {
    if t !in s {
      assert s - {t} == s;
    }
  }

  lemma WithCounts(s: set<ThreadId>, t: ThreadId)
    ensures |s + {t}| == if t in s then |s| else |s| + 1
  {
    if t in s {
      assert s + {t} == s;
    }
  }

  lemma LeaveCounts(cv: Condvar, t: ThreadId)
    requires cv.asleep !! cv.woken
    ensures cv.Leave(t).asleep !! cv.Leave(t).woken
    ensures cv.Leave(t).Members() == cv.Members() - {t}
    ensures |cv.Leave(t).woken| == if t in cv.woken then |cv.woken| - 1 else |cv.woken|
    ensures |cv.Leave(t).asleep| == if t in cv.asleep then |cv.asleep| - 1 else |cv.asleep|
  {
    WithoutCounts(cv.woken, t);
    WithoutCounts(cv.asleep, t);
    assert cv.Leave(t).Members() == cv.Members() - {t};
  }

  lemma ParkCounts(cv: Condvar, t: ThreadId)
    requires cv.asleep !! cv.woken
    ensures cv.Park(t).asleep !! cv.Park(t).woken
    ensures cv.Park(t).Members() == cv.Members() + {t}
    ensures |cv.Park(t).woken| == if t in cv.woken then |cv.woken| - 1 else |cv.woken|
    ensures |cv.Park(t).asleep| == if t in cv.asleep then |cv.asleep| else |cv.asleep| + 1
  {
    WithoutCounts(cv.woken, t);
    WithCounts(cv.asleep, t);
  }

  lemma WakeCounts(cv: Condvar, t: ThreadId)
    requires cv.asleep !! cv.woken
    ensures cv.Wake(t).asleep !! cv.Wake(t).woken
    ensures cv.Wake(t).Members() == cv.Members()
    ensures |cv.Wake(t).woken| == if t in cv.asleep then |cv.woken| + 1 else |cv.woken|
    ensures |cv.Wake(t).asleep| == if t in cv.asleep then |cv.asleep| - 1 else |cv.asleep|
  {}

  lemma ParkKeepsShape<T>(q: Monitor<T>, t: ThreadId, item: T)
    requires WellFormed(q) && t !in q.notEmpty.Members()
    ensures WellFormed(q.(notFull := q.notFull.Park(t), held := q.held[t := item]))
  {
    ParkCounts(q.notFull, t);
    assert q.held[t := item].Keys == q.held.Keys + {t};
  }

  lemma EnterKeepsShape<T>(q: Monitor<T>, t: ThreadId)
    requires WellFormed(q)
    ensures WellFormed(q.(notFull := q.notFull.Leave(t), held := q.held - {t}))
  {
    LeaveCounts(q.notFull, t);
    assert (q.held - {t}).Keys == q.held.Keys - {t};
  }

  lemma PushKeepsShape<T>(q: Monitor<T>, t: ThreadId, item: T, pick: ThreadId)
    requires WellFormed(q) && (q.Idle(t) || t in q.notFull.woken)
    ensures WellFormed(PushTurn(q, t, item, pick).0)
  {
    if |q.items| >= q.capacity && !q.closed {
      ParkKeepsShape(q, t, item);
    } else {
      EnterKeepsShape(q, t);
      WakeCounts(q.notEmpty, pick);
    }
  }

  lemma PushKeepsCover<T>(q: Monitor<T>, t: ThreadId, item: T, pick: ThreadId)
    requires WellFormed(q) && NoLostWakeup(q) && q.notEmpty.MayPick(pick)
    ensures NoLostWakeup(PushTurn(q, t, item, pick).0)
  {
    if |q.items| < q.capacity || q.closed {
      LeaveCounts(q.notFull, t);
      WakeCounts(q.notEmpty, pick);
    }
  }

  lemma PopKeepsShape<T>(q: Monitor<T>, t: ThreadId, pick: ThreadId)
    requires WellFormed(q) && (q.Idle(t) || t in q.notEmpty.woken)
    ensures WellFormed(PopTurn(q, t, pick).0)
  {
    if q.items == [] && !q.closed {
      ParkCounts(q.notEmpty, t);
    } else {
      LeaveCounts(q.notEmpty, t);
      WakeCounts(q.notFull, pick);
    }
  }

  lemma PopKeepsCover<T>(q: Monitor<T>, t: ThreadId, pick: ThreadId)
    requires WellFormed(q) && NoLostWakeup(q) && q.notFull.MayPick(pick)
    ensures NoLostWakeup(PopTurn(q, t, pick).0)
  {
    if q.items != [] || q.closed {
      LeaveCounts(q.notEmpty, t);
      WakeCounts(q.notFull, pick);
    }
  }

  lemma TryPushKeepsInvariant<T>(q: Monitor<T>, item: T, pick: ThreadId)
    requires WellFormed(q) && NoLostWakeup(q) && q.notEmpty.MayPick(pick)
    ensures WellFormed(TryPushTurn(q, item, pick).0) && NoLostWakeup(TryPushTurn(q, item, pick).0)
  {
    WakeCounts(q.notEmpty, pick);
  }

  lemma CloseKeepsInvariant<T>(q: Monitor<T>)
    requires WellFormed(q)
    ensures WellFormed(CloseTurn(q)) && NoLostWakeup(CloseTurn(q))
  {
    assert CloseTurn(q).notEmpty.Members() == q.notEmpty.Members();
    assert CloseTurn(q).notFull.Members() == q.notFull.Members();
  }

  lemma SpuriousKeepsInvariant<T>(q: Monitor<T>, t: ThreadId)
    requires WellFormed(q) && NoLostWakeup(q)
    ensures var r := q.(notFull := q.notFull.Wake(t)); WellFormed(r) && NoLostWakeup(r)
    ensures var r := q.(notEmpty := q.notEmpty.Wake(t)); WellFormed(r) && NoLostWakeup(r)
  {
    WakeCounts(q.notFull, t);
    WakeCounts(q.notEmpty, t);
  }

  lemma StepKeepsInvariant<T>(q: Monitor<T>, step: Step<T>)
    requires Sound(q) && Enabled(q, step)
    ensures Sound(Next(q, step).0)
  {
    match step {
      case CallPush(t, item, pick) => PushKeepsShape(q, t, item, pick); PushKeepsCover(q, t, item, pick);
      case ResumePush(t, item, pick) => PushKeepsShape(q, t, item, pick); PushKeepsCover(q, t, item, pick);
      case CallTryPush(item, pick) => TryPushKeepsInvariant(q, item, pick);
      case CallPop(t, pick) => PopKeepsShape(q, t, pick); PopKeepsCover(q, t, pick);
      case ResumePop(t, pick) => PopKeepsShape(q, t, pick); PopKeepsCover(q, t, pick);
      case CallClose => CloseKeepsInvariant(q);
      case SpuriousPush(t) => SpuriousKeepsInvariant(q, t);
      case SpuriousPop(t) => SpuriousKeepsInvariant(q, t);
    }
  }

  /** In every reachable state a sleeping consumer is covered by awakened ones for every queued
      item, a sleeping producer likewise for every free slot, and after close nobody sleeps. */
  lemma {:induction false} WakeupsAreNeverLost<T>(run: Run<T>)
    requires run.Legal()
    ensures WellFormed(run.State()) && NoLostWakeup(run.State())
  {
    match run {
      case Start(capacity) =>
        assert Condvar({}, {}).Members() == {};
      case Then(before, step) =>
        WakeupsAreNeverLost(before);
        StepKeepsInvariant(before.State(), step);
    }
  }

  // ------------------------------------------------------------------------------------------
  // Progress of the awakened threads
  // ------------------------------------------------------------------------------------------

  /** The threads inside a blocking call. */
  ghost function Blocked<T>(q: Monitor<T>): nat {
    |q.notEmpty.asleep| + |q.notEmpty.woken| + |q.notFull.asleep| + |q.notFull.woken|
  }

  ghost function Pending<T>(q: Monitor<T>): nat { Blocked(q) + |q.notEmpty.woken| + |q.notFull.woken| }

  ghost predicate Resuming<T>(step: Step<T>) { step.ResumePush? || step.ResumePop? }

  /** The turns since `earlier` all belong to threads that had been awakened. */
  ghost predicate OnlyResumes<T>(run: Run<T>, earlier: Run<T>) {
    run == earlier || (run.Then? && Resuming(run.step) && OnlyResumes(run.before, earlier))
  }

  ghost function TurnsSince<T>(run: Run<T>, earlier: Run<T>): nat {
    if run == earlier || run.Start? then 0 else 1 + TurnsSince(run.before, earlier)
  }

  lemma PushResumeShrinks<T>(q: Monitor<T>, t: ThreadId, item: T, pick: ThreadId)
    requires WellFormed(q) && t in q.notFull.woken && q.notEmpty.MayPick(pick)
    ensures Pending(PushTurn(q, t, item, pick).0) < Pending(q)
  {
    if |q.items| >= q.capacity && !q.closed {
      ParkCounts(q.notFull, t);
    } else {
      LeaveCounts(q.notFull, t);
      WakeCounts(q.notEmpty, pick);
    }
  }

  lemma PopResumeShrinks<T>(q: Monitor<T>, t: ThreadId, pick: ThreadId)
    requires WellFormed(q) && t in q.notEmpty.woken && q.notFull.MayPick(pick)
    ensures Pending(PopTurn(q, t, pick).0) < Pending(q)
  {
    if q.items == [] && !q.closed {
      ParkCounts(q.notEmpty, t);
    } else {
      LeaveCounts(q.notEmpty, t);
      WakeCounts(q.notFull, pick);
    }
  }

  lemma {:induction false} ResumesShrink<T>(run: Run<T>, earlier: Run<T>)
    requires run.Legal() && OnlyResumes(run, earlier)
    ensures TurnsSince(run, earlier) + Pending(run.State()) <= Pending(earlier.State())
  {
    if run != earlier {
      ResumesShrink(run.before, earlier);
      WakeupsAreNeverLost(run.before);
      var q, step := run.before.State(), run.step;
      if step.ResumePush? {
        PushResumeShrinks(q, step.t, step.item, step.pick);
      } else {
        PopResumeShrinks(q, step.t, step.pick);
      }
    }
  }

  /** From any reachable state the awakened threads can take at most two turns per blocked
      thread; when none is left to schedule, no consumer sleeps beside an item, no producer
      sleeps beside a free slot, and a closed queue has no blocked thread at all. */
  lemma AwakenedThreadsSettleTheQueue<T>(run: Run<T>, earlier: Run<T>)
    requires run.Legal() && OnlyResumes(run, earlier)
    ensures TurnsSince(run, earlier) <= 2 * Blocked(earlier.State())
    ensures (forall step :: Resuming(step) ==> !Enabled(run.State(), step)) ==>
              var q := run.State();
              && (q.notEmpty.asleep != {} ==> q.items == [])
              && (q.notFull.asleep != {} ==> |q.items| == q.capacity)
              && (q.closed ==> Blocked(q) == 0)
  {
    ResumesShrink(run, earlier);
    WakeupsAreNeverLost(run);
    if forall step :: Resuming(step) ==> !Enabled(run.State(), step) {
      NobodyAwakened(run.State());
    }
  }

  lemma NobodyAwakened<T>(q: Monitor<T>)
    requires WellFormed(q) && forall step :: Resuming(step) ==> !Enabled(q, step)
    ensures q.notEmpty.woken == {} && q.notFull.woken == {}
  {
    if t :| t in q.notFull.woken {
      var pick := if q.notEmpty.asleep == {} then 0 else var p :| p in q.notEmpty.asleep; p;
      assert Enabled(q, ResumePush(t, q.held[t], pick)) && Resuming(ResumePush(t, q.held[t], pick));
    }
    if t :| t in q.notEmpty.woken {
      var pick := if q.notFull.asleep == {} then 0 else var p :| p in q.notFull.asleep; p;
      assert Enabled(q, ResumePop(t, pick)) && Resuming<T>(ResumePop(t, pick));
    }
  }

  // ------------------------------------------------------------------------------------------
  // The contents refine a FIFO
  // ------------------------------------------------------------------------------------------

  ghost function Accepted<T>(run: Run<T>): seq<T> {
    match run
    case Start(_) => []
    case Then(before, _) => Accepted(before) + if run.Out().Pushed? then [run.Out().item] else []
  }

  ghost function Delivered<T>(run: Run<T>): seq<T> {
    match run
    case Start(_) => []
    case Then(before, _) => Delivered(before) + if run.Out().Popped? then [run.Out().item] else []
  }

  ghost function Drops<T>(run: Run<T>): nat {
    match run
    case Start(_) => 0
    case Then(before, _) => Drops(before) + if run.Out().Dropped? then 1 else 0
  }

  lemma TurnEffect<T>(q: Monitor<T>, step: Step<T>)
    requires Enabled(q, step)
    ensures var (r, out) := Next(q, step);
      && (q.closed ==> r.closed)
      && r.capacity == q.capacity
      && r.dropped == (if out.Dropped? then q.dropped + 1 else q.dropped)
      && (out.Dropped? ==> !q.closed && |q.items| >= q.capacity)
      && match out
         case Pushed(item) => !q.closed && r.items == q.items + [item]
         case Popped(item) => q.items == [item] + r.items
         case Ended => q.closed && q.items == [] && r.items == []
         case _ => r.items == q.items
  {}

  /** Nothing is lost, duplicated or reordered, the bound holds, and `dropped` counts exactly the
      refusals of nonblocking pushes that met a full open queue. */
  lemma {:induction false} ContentsAreFifo<T>(run: Run<T>)
    requires run.Legal()
    ensures Accepted(run) == Delivered(run) + run.State().items
    ensures run.State().dropped == Drops(run)
  {
    if run.Then? {
      ContentsAreFifo(run.before);
      TurnEffect(run.before.State(), run.step);
    }
  }

  /** Once closed, a queue stays closed and accepts nothing more. */
  lemma {:induction false} ClosedIsFinal<T>(run: Run<T>, earlier: Run<T>)
    requires run.Legal() && run.Extends(earlier) && earlier.State().closed
    ensures run.State().closed && Accepted(run) == Accepted(earlier)
  {
    if run != earlier {
      ClosedIsFinal(run.before, earlier);
      TurnEffect(run.before.State(), run.step);
    }
  }

  lemma {:induction false} DeliveredGrows<T>(run: Run<T>, earlier: Run<T>)
    requires run.Extends(earlier)
    ensures Delivered(earlier) <= Delivered(run)
  {
    if run != earlier {
      DeliveredGrows(run.before, earlier);
    }
  }

  lemma {:induction false} EarlierIsLegal<T>(run: Run<T>, earlier: Run<T>)
    requires run.Legal() && run.Extends(earlier)
    ensures earlier.Legal()
  {
    if run != earlier {
      EarlierIsLegal(run.before, earlier);
    }
  }

  /** The first Err a consumer sees comes after every accepted item, including those queued at
      close, has been delivered in order; from then on nothing is ever accepted or delivered. */
  lemma EndComesAfterEverything<T>(run: Run<T>, ended: Run<T>)
    requires run.Legal() && run.Extends(ended) && ended.Then? && ended.Out() == Ended
    ensures Accepted(run) == Delivered(ended) == Delivered(run)
  {
    EarlierIsLegal(run, ended);
    TurnEffect(ended.before.State(), ended.step);
    ContentsAreFifo(ended);
    ContentsAreFifo(run);
    ClosedIsFinal(run, ended);
    DeliveredGrows(run, ended);
    assert |Accepted(run)| == |Delivered(ended)| && |Delivered(run)| <= |Accepted(run)|;
  }

  // ------------------------------------------------------------------------------------------
  // What each turn answers
  // ------------------------------------------------------------------------------------------

  ghost predicate WasClosed<T>(run: Run<T>) { run.Then? && (run.step.CallClose? || WasClosed(run.before)) }

  ghost function Capacity<T>(run: Run<T>): nat { if run.Start? then run.capacity else Capacity(run.before) }

  /** How many items are in the queue: accepted and not yet delivered. */
  ghost function Size<T>(run: Run<T>): int { |Accepted(run)| - |Delivered(run)| }

  ghost predicate IsPush<T>(step: Step<T>) { step.CallPush? || step.ResumePush? }

  ghost predicate IsPop<T>(step: Step<T>) { step.CallPop? || step.ResumePop? }

  lemma {:induction false} HistoryIsState<T>(run: Run<T>)
    requires run.Legal()
    ensures run.State().closed <==> WasClosed(run)
    ensures run.State().capacity == Capacity(run)
  {
    if run.Then? {
      HistoryIsState(run.before);
      TurnEffect(run.before.State(), run.step);
    }
  }

  lemma TurnAnswers<T>(q: Monitor<T>, step: Step<T>, accepted: seq<T>, delivered: seq<T>)
    requires 0 < q.capacity && |q.items| <= q.capacity && accepted == delivered + q.items
    ensures var out, size := Next(q, step).1, |accepted| - |delivered|;
            && 0 <= size <= q.capacity
            && (IsPush(step) ==>
                  out == if q.closed then Refused(step.item)
                         else if size == q.capacity then Waits else Pushed(step.item))
            && (step.CallTryPush? ==>
                  out == if q.closed then Refused(step.item)
                         else if size == q.capacity then Dropped(step.item) else Pushed(step.item))
            && (IsPop(step) ==>
                  out == if size > 0 then Popped(accepted[|delivered|]) else if q.closed then Ended else Waits)
            && (!IsPush(step) && !step.CallTryPush? && !IsPop(step) ==> out == Silent)
  {}

  /** What every turn of every run answers, from what has been called before. A push is refused exactly
      on a closed queue, waits or is dropped exactly on a full open one, and is accepted otherwise. A
      pop delivers the oldest item there is, and waits on an empty queue until it is closed. */
  lemma TurnsAreExact<T>(run: Run<T>)
    requires run.Legal() && run.Then?
    ensures var before, step, out := run.before, run.step, run.Out();
            && 0 <= Size(before) <= Capacity(before)
            && (IsPush(step) ==>
                  out == if WasClosed(before) then Refused(step.item)
                         else if Size(before) == Capacity(before) then Waits else Pushed(step.item))
            && (step.CallTryPush? ==>
                  out == if WasClosed(before) then Refused(step.item)
                         else if Size(before) == Capacity(before) then Dropped(step.item) else Pushed(step.item))
            && (IsPop(step) ==>
                  out == if Size(before) > 0 then Popped(Accepted(before)[|Delivered(before)|])
                         else if WasClosed(before) then Ended else Waits)
            && (!IsPush(step) && !step.CallTryPush? && !IsPop(step) ==> out == Silent)
  {
    HistoryIsState(run.before);
    ContentsAreFifo(run.before);
    WakeupsAreNeverLost(run.before);
    TurnAnswers(run.before.State(), run.step, Accepted(run.before), Delivered(run.before));
  }

  /** The item with which the thread's latest turn went to wait, if it was a push and did. */
  ghost function WaitingPush<T>(run: Run<T>, t: ThreadId): Option<T> {
    if run.Start? then None
    else if IsPush(run.step) && run.step.t == t then if run.Out() == Waits then Some(run.step.item) else None
    else WaitingPush(run.before, t)
  }

  ghost predicate WaitingPop<T>(run: Run<T>, t: ThreadId) {
    run.Then? && if IsPop(run.step) && run.step.t == t then run.Out() == Waits else WaitingPop(run.before, t)
  }

  /** A thread waits in a push with an item, or in a pop, or in neither. */
  ghost predicate BlockedAs<T>(q: Monitor<T>, t: ThreadId, push: Option<T>, pop: bool) {
    && (t in q.held <==> push.Some?) && (t in q.held ==> Some(q.held[t]) == push)
    && (t in q.notEmpty.Members() <==> pop)
  }

  lemma PushBlocks<T>(q: Monitor<T>, step: Step<T>, t: ThreadId, push: Option<T>, pop: bool)
    requires BlockedAs(q, t, push, pop) && IsPush(step)
    ensures var (r, out) := Next(q, step);
            BlockedAs(r, t, if step.t != t then push else if out == Waits then Some(step.item) else None, pop)
  {}

  lemma PopBlocks<T>(q: Monitor<T>, step: Step<T>, t: ThreadId, push: Option<T>, pop: bool)
    requires BlockedAs(q, t, push, pop) && IsPop(step)
    ensures var (r, out) := Next(q, step);
            BlockedAs(r, t, push, if step.t != t then pop else out == Waits)
  {}

  lemma OthersBlockNobody<T>(q: Monitor<T>, step: Step<T>, t: ThreadId, push: Option<T>, pop: bool)
    requires BlockedAs(q, t, push, pop) && !IsPush(step) && !IsPop(step)
    ensures BlockedAs(Next(q, step).0, t, push, pop)
  {}

  lemma {:induction false} WaitersAreBlocked<T>(run: Run<T>, t: ThreadId)
    requires run.Legal()
    ensures BlockedAs(run.State(), t, WaitingPush(run, t), WaitingPop(run, t))
  {
    if run.Then? {
      WaitersAreBlocked(run.before, t);
      var q, step, push, pop := run.before.State(), run.step, WaitingPush(run.before, t), WaitingPop(run.before, t);
      if IsPush(step) {
        PushBlocks(q, step, t, push, pop);
      } else if IsPop(step) {
        PopBlocks(q, step, t, push, pop);
      } else {
        OthersBlockNobody(q, step, t, push, pop);
      }
    }
  }

  /** The threads on the condition variables are exactly those whose latest turn went to wait there,
      and a producer that resumes pushes the item it was called with. */
  lemma {:induction false} BlockedThreadsAreExact<T>(run: Run<T>, t: ThreadId)
    requires run.Legal()
    ensures var q := run.State();
            && (t in q.notFull.Members() <==> WaitingPush(run, t).Some?)
            && (t in q.notEmpty.Members() <==> WaitingPop(run, t))
            && (t in q.held <==> WaitingPush(run, t).Some?)
            && (t in q.held ==> Some(q.held[t]) == WaitingPush(run, t))
            && (q.Idle(t) <==> WaitingPush(run, t).None? && !WaitingPop(run, t))
  {
    WakeupsAreNeverLost(run);
    WaitersAreBlocked(run, t);
  }

  /** A thread that does not wait can make any call at any time, and anybody can close. */
  lemma EveryCallCanBeMade<T>(run: Run<T>, t: ThreadId, item: T)
    requires run.Legal()
    ensures Enabled(run.State(), CallClose) && exists pick :: Enabled(run.State(), CallTryPush(item, pick))
    ensures WaitingPush(run, t).None? && !WaitingPop(run, t) ==>
              && (exists pick :: Enabled(run.State(), CallPush(t, item, pick)))
              && (exists pick :: Enabled(run.State(), CallPop(t, pick)))
  {
    BlockedThreadsAreExact(run, t);
    var q := run.State();
    var consumer := if q.notEmpty.asleep == {} then 0 else var p :| p in q.notEmpty.asleep; p;
    var producer := if q.notFull.asleep == {} then 0 else var p :| p in q.notFull.asleep; p;
    assert q.notEmpty.MayPick(consumer) && q.notFull.MayPick(producer);
    assert Enabled(q, CallTryPush(item, consumer));
    if q.Idle(t) {
      assert Enabled(q, CallPush(t, item, consumer)) && Enabled<T>(q, CallPop(t, producer));
    }
  }

  // ------------------------------------------------------------------------------------------
  // The queue itself
  // ------------------------------------------------------------------------------------------

  class BoundedQueue<T> {
    var items: seq<T>
    var dropped: nat
    var closed: bool
    const capacity: nat
    var notEmpty: Condvar
    var notFull: Condvar
    var held: map<ThreadId, T>

    ghost function View(): Monitor<T>
      reads this
    {
      Monitor(items, dropped, closed, capacity, notEmpty, notFull, held)
    }

    constructor (capacity: nat)
      requires capacity > 0
      ensures View() == Initial(capacity)
    {
      this.capacity := capacity;
      items, dropped, closed := [], 0, false;
      notEmpty, notFull, held := Condvar({}, {}), Condvar({}, {}), map[];
    }

    /** One turn of a blocking push: `t` is calling, or has just been woken. */
    method PushBlocking(t: ThreadId, item: T) returns (outcome: Outcome<T>, ghost pick: ThreadId)
      modifies this
      ensures old(notEmpty).MayPick(pick)
      ensures (View(), outcome) == PushTurn(old(View()), t, item, pick)
    {
      pick := 0;
      if |items| >= capacity && !closed {
        notFull := notFull.Park(t);
        held := held[t := item];
        outcome := Waits;
        pick := if notEmpty.asleep == {} then 0 else var p :| p in notEmpty.asleep; p;
        return;
      }
      notFull := notFull.Leave(t);
      held := held - {t};
      if closed {
        pick := if notEmpty.asleep == {} then 0 else var p :| p in notEmpty.asleep; p;
        return Refused(item), pick;
      }
      items := items + [item];
      pick := NotifyNotEmpty();
      outcome := Pushed(item);
    }

    method PushNonblocking(item: T) returns (outcome: Outcome<T>, ghost pick: ThreadId)
      modifies this
      ensures old(notEmpty).MayPick(pick)
      ensures (View(), outcome) == TryPushTurn(old(View()), item, pick)
    {
      if closed || |items| >= capacity {
        pick := if notEmpty.asleep == {} then 0 else var p :| p in notEmpty.asleep; p;
        if closed {
          return Refused(item), pick;
        }
        dropped := dropped + 1;
        return Dropped(item), pick;
      }
      items := items + [item];
      pick := NotifyNotEmpty();
      outcome := Pushed(item);
    }

    /** One turn of a pop: `t` is calling, or has just been woken. */
    method Pop(t: ThreadId) returns (outcome: Outcome<T>, ghost pick: ThreadId)
      modifies this
      ensures old(notFull).MayPick(pick)
      ensures (View(), outcome) == PopTurn(old(View()), t, pick)
    {
      if |items| != 0 {
        var item := items[0];
        items := items[1..];
        notEmpty := notEmpty.Leave(t);
        pick := NotifyNotFull();
        return Popped(item), pick;
      }
      pick := if notFull.asleep == {} then 0 else var p :| p in notFull.asleep; p;
      if closed {
        notEmpty := notEmpty.Leave(t);
        outcome := Ended;
      } else {
        notEmpty := notEmpty.Park(t);
        outcome := Waits;
      }
    }

    method Close()
      modifies this
      ensures View() == CloseTurn(old(View()))
    {
      closed := true;
      notEmpty := notEmpty.WakeAll();
      notFull := notFull.WakeAll();
    }

    method NotifyNotEmpty() returns (ghost pick: ThreadId)
      modifies this`notEmpty
      ensures old(notEmpty).MayPick(pick) && notEmpty == old(notEmpty).Wake(pick)
    {
      pick := 0;
      if notEmpty.asleep != {} {
        var t :| t in notEmpty.asleep;
        notEmpty := notEmpty.Wake(t);
        pick := t;
      }
    }

    method NotifyNotFull() returns (ghost pick: ThreadId)
      modifies this`notFull
      ensures old(notFull).MayPick(pick) && notFull == old(notFull).Wake(pick)
    {
      pick := 0;
      if notFull.asleep != {} {
        var t :| t in notFull.asleep;
        notFull := notFull.Wake(t);
        pick := t;
      }
    }
  }
}

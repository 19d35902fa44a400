/** Request correlation on a live connection: the table of pending requests, the reader thread
    that answers them, and the threads that close the connection.

    The control plane and the interactive lane share this protocol. On the control plane the only
    thread that closes is the reader after its loop has ended; on the lane an explicit close, a
    drop or the session lifecycle may close at any moment, several at once, while the reader is
    still in its loop. The machine below allows all of that. */
module RequestTable {
  import opened Wrappers

  type RequestId = nat
  type ThreadId = nat

  const FIRST_REQUEST_ID: RequestId := 2
  const LAST_REQUEST_ID: RequestId := 0xFFFF_FFFF_FFFF_FFFF

  /** What is sent into a requester's channel: the record of the reply with that request ID, or
      the diagnostic of a drain. */
  datatype Message = Reply(requestId: RequestId) | Diagnostic

  /** The shared part: `requests` holds the IDs whose sender is in the table, and `mail` every
      message ever sent into the channel of each ID. */
  datatype Pending = Pending(closed: bool, requests: set<RequestId>, mail: map<RequestId, seq<Message>>)

  datatype Result = Received(message: Message) | Closed | Duplicate | WriteFailed

  // ------------------------------------------------------------------------------------------
  // The atomic sections
  // ------------------------------------------------------------------------------------------

  /** Under the table lock: re-check the flag, then insert. An insertion over a live entry is
      reported, and leaves the same IDs in the table; `RepliesAreOwnAndUnique` excludes it. */
  function Register(p: Pending, id: RequestId): (Pending, bool, Result) {
    if p.closed then (p, false, Closed)
    else if id in p.requests then (p, false, Duplicate)
    else (p.(requests := p.requests + {id}), true, Closed)
  }

  function Withdraw(p: Pending, id: RequestId): Pending { p.(requests := p.requests - {id}) }

  function Send(p: Pending, id: RequestId, message: Message): Pending {
    if id in p.mail then p.(mail := p.mail[id := p.mail[id] + [message]]) else p
  }

  /** Under the table lock: empty the table, sending the diagnostic to each entry. */
  function Drain(p: Pending): Pending {
    Pending(p.closed, {},
      map id | id in p.mail :: if id in p.requests then p.mail[id] + [Diagnostic] else p.mail[id])
  }

  class PendingRequests {
    var closed: bool
    var requests: set<RequestId>
    var mail: map<RequestId, seq<Message>>

    ghost function View(): Pending
      reads this
    {
      Pending(closed, requests, mail)
    }

    constructor ()
      ensures View() == Pending(false, {}, map[])
    {
      closed, requests, mail := false, {}, map[];
    }

    method Insert(id: RequestId) returns (inserted: bool, error: Result)
      modifies this`requests
      ensures (View(), inserted, error) == Register(old(View()), id)
      ensures inserted <==> !closed && id !in old(requests)
      ensures requests == if inserted then old(requests) + {id} else old(requests)
      ensures !inserted ==> error == if closed then Closed else Duplicate
    {
      if closed {
        return false, Closed;
      }
      if id in requests {
        return false, Duplicate;
      }
      requests := requests + {id};
      return true, Closed;
    }

    method Remove(id: RequestId) returns (found: bool)
      modifies this`requests
      ensures View() == Withdraw(old(View()), id)
      ensures found <==> id in old(requests)
    {
      found := id in requests;
      requests := requests - {id};
    }

    method Deliver(id: RequestId, message: Message)
      requires id in mail
      modifies this`mail
      ensures View() == Send(old(View()), id, message)
    {
      mail := mail[id := mail[id] + [message]];
    }

    method FailAll()
      requires requests <= mail.Keys
      modifies this
      ensures View() == Drain(old(View()))
    {
      ghost var before := mail;
      ghost var table := requests;
      while requests != {}
        invariant requests <= table && mail.Keys == before.Keys && closed == old(closed)
        invariant forall id :: id in before ==>
          mail[id] == if id in table && id !in requests then before[id] + [Diagnostic] else before[id]
        decreases requests
      {
        var id :| id in requests;
        requests := requests - {id};
        mail := mail[id := mail[id] + [Diagnostic]];
      }
    }

    method Close()
      requires requests <= mail.Keys
      modifies this
      ensures View() == Drain(old(View()).(closed := true))
    {
      closed := true;
      FailAll();
    }
  }

  // ------------------------------------------------------------------------------------------
  // The machine
  // ------------------------------------------------------------------------------------------

  /** A requester's program counter: its ID is allocated; it passed the unlocked check; its entry
      is in the table; its record is written and it waits on its channel; it has returned. */
  datatype Caller = Allocated | Open | Inserted | Waiting | Returned(result: Result)

  /** The reader between records, the reader having taken a sender out of the table but not yet
      sent on it, and the reader after its loop. */
  datatype Reader = Reading | Holding(id: RequestId) | Stopped

  datatype Closer = Flagged | Drained

  datatype State = State(
    pending: Pending, nextId: RequestId, callers: map<RequestId, Caller>,
    reader: Reader, closers: map<ThreadId, Closer>)

  datatype Step =
    | Allocate
    | FirstCheck(id: RequestId)
    | Insert(id: RequestId)
    | WriteSucceeds(id: RequestId)
    | WriteFails(id: RequestId)
    | Receive(id: RequestId)
    | ReaderTakes(id: RequestId)
    | ReaderSends
    | ReaderStops
    | SetFlag(t: ThreadId)
    | DrainTable(t: ThreadId)

  const INITIAL_STATE := State(Pending(false, {}, map[]), FIRST_REQUEST_ID, map[], Reading, map[])

  ghost predicate At(s: State, id: RequestId, caller: Caller) { id in s.callers && s.callers[id] == caller }

  ghost predicate Enabled(s: State, step: Step) {
    match step
    case Allocate => s.nextId < LAST_REQUEST_ID
    case FirstCheck(id) => At(s, id, Allocated)
    case Insert(id) => At(s, id, Open)
    case WriteSucceeds(id) => At(s, id, Inserted)
    case WriteFails(id) => At(s, id, Inserted)
    case Receive(id) => At(s, id, Waiting) && id in s.pending.mail && s.pending.mail[id] != []
    case ReaderTakes(_) => s.reader == Reading
    case ReaderSends => s.reader.Holding?
    case ReaderStops => s.reader == Reading
    case SetFlag(t) => t !in s.closers
    case DrainTable(t) => t in s.closers && s.closers[t] == Flagged
  }

  ghost function Next(s: State, step: Step): State
    requires Enabled(s, step)
  {
    match step
    case Allocate =>
      s.(nextId := s.nextId + 1, callers := s.callers[s.nextId := Allocated],
         pending := s.pending.(mail := s.pending.mail[s.nextId := []]))
    case FirstCheck(id) =>
      s.(callers := s.callers[id := if s.pending.closed then Returned(Closed) else Open])
    case Insert(id) =>
      var (pending, inserted, error) := Register(s.pending, id);
      s.(pending := pending, callers := s.callers[id := if inserted then Inserted else Returned(error)])
    case WriteSucceeds(id) => s.(callers := s.callers[id := Waiting])
    case WriteFails(id) =>
      s.(pending := Withdraw(s.pending, id), callers := s.callers[id := Returned(WriteFailed)])
    case Receive(id) => s.(callers := s.callers[id := Returned(Received(s.pending.mail[id][0]))])
    case ReaderTakes(id) =>
      if id in s.pending.requests then s.(pending := Withdraw(s.pending, id), reader := Holding(id))
      else s.(reader := Stopped)
    case ReaderSends =>
      s.(pending := Send(s.pending, s.reader.id, Reply(s.reader.id)), reader := Reading)
    case ReaderStops => s.(reader := Stopped)
    case SetFlag(t) => s.(pending := s.pending.(closed := true), closers := s.closers[t := Flagged])
    case DrainTable(t) => s.(pending := Drain(s.pending), closers := s.closers[t := Drained])
  }

  datatype Run = Start | Then(before: Run, step: Step) {
    ghost predicate Legal()
      decreases this, 0
    {
      Then? ==> before.Legal() && Enabled(before.State(), step)
    }

    ghost function State(): State
      requires Legal()
      decreases this, 1
    {
      if Start? then INITIAL_STATE else Next(before.State(), step)
    }

    ghost predicate Extends(earlier: Run) { this == earlier || (Then? && before.Extends(earlier)) }

    /** The discipline of the control plane: only the reader closes, once its loop has ended. */
    ghost predicate ReaderCloses()
      requires Legal()
    {
      Then? ==> before.ReaderCloses() && (step.SetFlag? ==> before.State().reader == Stopped)
    }
  }

  // ------------------------------------------------------------------------------------------
  // Invariant
  // ------------------------------------------------------------------------------------------

  /** Where the answer to an inserted request is. */
  ghost predicate AnswerOnItsWay(s: State, id: RequestId)
    requires id in s.pending.mail
  {
    id in s.pending.requests || s.reader == Holding(id) || s.pending.mail[id] != []
  }

  ghost predicate CallerInvariant(s: State, id: RequestId)
    requires id in s.callers && id in s.pending.mail
  {
    var mail := s.pending.mail[id];
    && |mail| <= 1
    && (mail != [] ==> mail[0] == Reply(id) || mail[0] == Diagnostic)
    && (id in s.pending.requests || s.reader == Holding(id) ==> mail == [])
    && (id in s.pending.requests ==> s.reader != Holding(id))
    && match s.callers[id]
       case Allocated => !AnswerOnItsWay(s, id)
       case Open => !AnswerOnItsWay(s, id)
       case Inserted => AnswerOnItsWay(s, id)
       case Waiting => AnswerOnItsWay(s, id)
       case Returned(result) =>
         && id !in s.pending.requests
         && result != Duplicate
         && (result.Received? ==> mail == [result.message])
         && (result == Closed ==> !AnswerOnItsWay(s, id))
  }

  ghost predicate Invariant(s: State) {
    && FIRST_REQUEST_ID <= s.nextId
    && s.callers.Keys == s.pending.mail.Keys
    && s.pending.requests <= s.callers.Keys
    && (s.reader.Holding? ==> s.reader.id in s.callers)
    && (forall id :: id in s.callers ==> FIRST_REQUEST_ID <= id < s.nextId && CallerInvariant(s, id))
    && (forall t :: t in s.closers ==> s.pending.closed && (s.closers[t] == Drained ==> s.pending.requests == {}))
  }

  ghost predicate ByRequester(step: Step) {
    || step.Allocate? || step.FirstCheck? || step.Insert? || step.WriteSucceeds? || step.WriteFails? || step.Receive?
  }

  ghost predicate ByReader(step: Step) { step.ReaderTakes? || step.ReaderSends? || step.ReaderStops? }

  /** The caller of a requester's step, or of an allocation the new one. */
  ghost function Actor(s: State, step: Step): RequestId
    requires ByRequester(step)
  {
    if step.Allocate? then s.nextId else step.id
  }

  lemma RequestersKeepOthers(s: State, step: Step, id: RequestId)
    requires Invariant(s) && Enabled(s, step) && ByRequester(step) && id in s.callers && id != Actor(s, step)
    ensures var r := Next(s, step);
            id in r.callers && id in r.pending.mail && FIRST_REQUEST_ID <= id < r.nextId && CallerInvariant(r, id)
  {
    assert CallerInvariant(s, id);
  }

  lemma RequestersKeepThemselves(s: State, step: Step)
    requires Invariant(s) && Enabled(s, step) && ByRequester(step)
    ensures var id, r := Actor(s, step), Next(s, step);
            id in r.callers && id in r.pending.mail && FIRST_REQUEST_ID <= id < r.nextId && CallerInvariant(r, id)
  {
    if !step.Allocate? {
      assert CallerInvariant(s, step.id);
    }
  }

  lemma RequestersKeepInvariant(s: State, step: Step)
    requires Invariant(s) && Enabled(s, step) && ByRequester(step)
    ensures Invariant(Next(s, step))
  {
    var r := Next(s, step);
    RequestersKeepThemselves(s, step);
    assert r.callers.Keys == s.callers.Keys + {Actor(s, step)} == r.pending.mail.Keys;
    forall id | id in r.callers
      ensures FIRST_REQUEST_ID <= id < r.nextId && CallerInvariant(r, id)
    {
      if id != Actor(s, step) {
        RequestersKeepOthers(s, step, id);
      }
    }
  }

  lemma ReaderKeepsInvariant(s: State, step: Step)
    requires Invariant(s) && Enabled(s, step) && ByReader(step)
    ensures Invariant(Next(s, step))
  {
    var r := Next(s, step);
    forall id | id in r.callers
      ensures FIRST_REQUEST_ID <= id < r.nextId && CallerInvariant(r, id)
    {
      assert CallerInvariant(s, id);
    }
  }

  lemma ClosersKeepInvariant(s: State, step: Step)
    requires Invariant(s) && Enabled(s, step) && !ByRequester(step) && !ByReader(step)
    ensures Invariant(Next(s, step))
  {
    var r := Next(s, step);
    forall id | id in r.callers
      ensures FIRST_REQUEST_ID <= id < r.nextId && CallerInvariant(r, id)
    {
      assert CallerInvariant(s, id);
    }
  }

  lemma StepKeepsInvariant(s: State, step: Step)
    requires Invariant(s) && Enabled(s, step)
    ensures Invariant(Next(s, step))
  {
    if ByRequester(step) {
      RequestersKeepInvariant(s, step);
    } else if ByReader(step) {
      ReaderKeepsInvariant(s, step);
    } else {
      ClosersKeepInvariant(s, step);
    }
  }

  lemma {:induction false} RunsKeepInvariant(run: Run)
    requires run.Legal()
    ensures Invariant(run.State())
  {
    if run.Then? {
      RunsKeepInvariant(run.before);
      StepKeepsInvariant(run.before.State(), run.step);
    }
  }

  // ------------------------------------------------------------------------------------------
  // Main results
  // ------------------------------------------------------------------------------------------

  ghost predicate HasDrained(s: State, t: ThreadId) { t in s.closers && s.closers[t] == Drained }

  lemma DrainedStays(s: State, step: Step, t: ThreadId)
    requires Enabled(s, step) && HasDrained(s, t)
    ensures HasDrained(Next(s, step), t)
  {}

  lemma {:induction false} DrainedIsFinal(run: Run, earlier: Run, t: ThreadId)
    requires run.Legal() && run.Extends(earlier) && earlier.Legal() && HasDrained(earlier.State(), t)
    ensures HasDrained(run.State(), t)
  {
    if run != earlier {
      DrainedIsFinal(run.before, earlier, t);
      DrainedStays(run.before.State(), run.step, t);
    }
  }

  /** Once any closer has drained, the table is empty in every later state, and every requester
      that got past its insertion has its answer waiting, or the reader is between taking its
      sender and sending on it. When the reader has left its loop the answer is there. */
  lemma NoRequestIsStranded(run: Run, earlier: Run, t: ThreadId, id: RequestId)
    requires run.Legal() && run.Extends(earlier) && earlier.Legal() && HasDrained(earlier.State(), t)
    requires At(run.State(), id, Inserted) || At(run.State(), id, Waiting)
    ensures run.State().pending.requests == {}
    ensures run.State().reader == Holding(id) || (id in run.State().pending.mail && |run.State().pending.mail[id]| == 1)
    ensures run.State().reader == Stopped ==> id in run.State().pending.mail && |run.State().pending.mail[id]| == 1
  {
    DrainedIsFinal(run, earlier, t);
    RunsKeepInvariant(run);
    assert CallerInvariant(run.State(), id);
  }

  lemma {:induction false} ReaderHasStopped(run: Run)
    requires run.Legal() && run.ReaderCloses() && run.State().closers != map[]
    ensures run.State().reader == Stopped
  {
    if run.before.State().closers != map[] {
      ReaderHasStopped(run.before);
    }
  }

  /** On the control plane every request inserted before the drain has its answer waiting from
      the drain on, whatever the interleaving. */
  lemma ControlRequestsAreAnswered(run: Run, t: ThreadId, id: RequestId)
    requires run.Legal() && run.ReaderCloses() && HasDrained(run.State(), t)
    requires At(run.State(), id, Waiting)
    ensures Enabled(run.State(), Receive(id))
  {
    assert run.State().closers != map[];
    ReaderHasStopped(run);
    NoRequestIsStranded(run, run, t, id);
  }

  /** A reply reaches the requester whose ID it carries and nobody else, a channel carries at
      most one message in its lifetime, and no live ID is ever allocated twice. */
  lemma RepliesAreOwnAndUnique(run: Run, id: RequestId)
    requires run.Legal() && id in run.State().callers
    ensures id in run.State().pending.mail && |run.State().pending.mail[id]| <= 1
    ensures !At(run.State(), id, Returned(Duplicate))
    ensures forall message :: At(run.State(), id, Returned(Received(message))) ==>
              run.State().pending.mail[id] == [message] && (message == Reply(id) || message == Diagnostic)
  {
    RunsKeepInvariant(run);
    assert CallerInvariant(run.State(), id);
  }

  ghost predicate StepOf(step: Step, id: RequestId) {
    || step == FirstCheck(id) || step == Insert(id) || step == WriteSucceeds(id)
    || step == WriteFails(id) || step == Receive(id)
  }

  ghost function Remaining(caller: Caller): nat {
    match caller
    case Allocated => 4
    case Open => 3
    case Inserted => 2
    case Waiting => 1
    case Returned(_) => 0
  }

  lemma OwnStepAdvances(s: State, step: Step, id: RequestId)
    requires Invariant(s) && s.pending.requests == {} && id in s.callers && StepOf(step, id) && Enabled(s, step)
    ensures id in Next(s, step).callers && Remaining(Next(s, step).callers[id]) < Remaining(s.callers[id]) <= 4
  {}

  /** After the drain, with the reader stopped, no requester depends on anybody else: until it has
      returned one of its own steps is enabled, and each of its steps brings it closer to its
      return, which is at most four steps away. */
  lemma RequestersFinishAlone(run: Run, t: ThreadId, id: RequestId)
    requires run.Legal() && HasDrained(run.State(), t) && run.State().reader == Stopped
    requires id in run.State().callers && !run.State().callers[id].Returned?
    ensures exists step :: StepOf(step, id) && Enabled(run.State(), step)
    ensures forall step :: StepOf(step, id) && Enabled(run.State(), step) ==>
              var s := Next(run.State(), step);
              id in s.callers && Remaining(s.callers[id]) < Remaining(run.State().callers[id]) <= 4
  {
    var s := run.State();
    RunsKeepInvariant(run);
    assert CallerInvariant(s, id);
    var step := match s.callers[id]
      case Allocated => FirstCheck(id)
      case Open => Insert(id)
      case Inserted => WriteSucceeds(id)
      case _ => Receive(id);
    assert StepOf(step, id) && Enabled(s, step);
    forall own | StepOf(own, id) && Enabled(s, own)
      ensures id in Next(s, own).callers && Remaining(Next(s, own).callers[id]) < Remaining(s.callers[id]) <= 4
    {
      OwnStepAdvances(s, own, id);
    }
  }

  // ------------------------------------------------------------------------------------------
  // What a request comes to
  // ------------------------------------------------------------------------------------------

  /** A closer has raised the flag. */
  ghost predicate Flagging(run: Run) { run.Then? && (run.step.SetFlag? || Flagging(run.before)) }

  /** The request has been inserted, and neither its failed write, the reader nor a drain has taken it
      out of the table since. */
  ghost predicate Tabled(run: Run, id: RequestId) {
    match run
    case Start => false
    case Then(before, Insert(inserted)) => if inserted == id then !Flagging(before) else Tabled(before, id)
    case Then(before, WriteFails(failed)) => failed != id && Tabled(before, id)
    case Then(before, ReaderTakes(taken)) => taken != id && Tabled(before, id)
    case Then(_, DrainTable(_)) => false
    case Then(before, _) => Tabled(before, id)
  }

  /** The reader has taken the request out of the table and not sent on it yet. */
  ghost predicate Taken(run: Run, id: RequestId) {
    match run
    case Start => false
    case Then(before, ReaderTakes(taken)) => taken == id && Tabled(before, id)
    case Then(_, ReaderSends) => false
    case Then(before, _) => Taken(before, id)
  }

  /** What has been sent to the requester: its reply once the reader has sent on it, or the diagnostic
      once a drain has found it in the table. */
  ghost function Answer(run: Run, id: RequestId): Option<Message> {
    match run
    case Start => None
    case Then(before, ReaderSends) => if Taken(before, id) then Some(Reply(id)) else Answer(before, id)
    case Then(before, DrainTable(_)) => if Tabled(before, id) then Some(Diagnostic) else Answer(before, id)
    case Then(before, _) => Answer(before, id)
  }

  lemma FlagMoves(s: State, step: Step)
    requires Enabled(s, step)
    ensures Next(s, step).pending.closed <==> s.pending.closed || step.SetFlag?
  {}

  lemma {:induction false} FlagIsRaised(run: Run)
    requires run.Legal()
    ensures run.State().pending.closed <==> Flagging(run)
  {
    if run.Then? {
      FlagIsRaised(run.before);
      FlagMoves(run.before.State(), run.step);
    }
  }

  ghost predicate TableIs(s: State, id: RequestId, tabled: bool, taken: bool, answer: Option<Message>) {
    && (id in s.pending.requests <==> tabled) && (s.reader == Holding(id) <==> taken)
    && (id in s.pending.mail ==> s.pending.mail[id] == if answer.Some? then [answer.value] else [])
    && (answer.Some? ==> id in s.pending.mail)
  }

  lemma InsertMovesTable(s: State, inserted: RequestId, id: RequestId, tabled: bool, taken: bool,
                         answer: Option<Message>)
    requires Invariant(s) && Enabled(s, Insert(inserted)) && TableIs(s, id, tabled, taken, answer)
    ensures TableIs(Next(s, Insert(inserted)), id, if inserted == id then !s.pending.closed else tabled, taken, answer)
  {
    assert CallerInvariant(s, inserted);
  }

  lemma RequestersLeaveTable(s: State, step: Step, id: RequestId, tabled: bool, taken: bool, answer: Option<Message>)
    requires Invariant(s) && Enabled(s, step) && ByRequester(step) && !step.Insert?
    requires TableIs(s, id, tabled, taken, answer)
    ensures TableIs(Next(s, step), id, tabled && step != WriteFails(id), taken, answer)
  {}

  lemma ReaderMovesTable(s: State, step: Step, id: RequestId, tabled: bool, taken: bool, answer: Option<Message>)
    requires Invariant(s) && Enabled(s, step) && ByReader(step) && TableIs(s, id, tabled, taken, answer)
    ensures TableIs(Next(s, step), id, tabled && step != ReaderTakes(id),
                    if step.ReaderTakes? then step == ReaderTakes(id) && tabled else taken && !step.ReaderSends?,
                    if step.ReaderSends? && taken then Some(Reply(id)) else answer)
  {
    if id in s.callers {
      assert CallerInvariant(s, id);
    }
  }

  lemma ClosersMoveTable(s: State, step: Step, id: RequestId, tabled: bool, taken: bool, answer: Option<Message>)
    requires Invariant(s) && Enabled(s, step) && !ByRequester(step) && !ByReader(step)
    requires TableIs(s, id, tabled, taken, answer)
    ensures TableIs(Next(s, step), id, tabled && !step.DrainTable?, taken,
                    if step.DrainTable? && tabled then Some(Diagnostic) else answer)
  {
    if id in s.callers {
      assert CallerInvariant(s, id);
    }
  }

  lemma {:induction false} TableIsExact(run: Run, id: RequestId)
    requires run.Legal()
    ensures TableIs(run.State(), id, Tabled(run, id), Taken(run, id), Answer(run, id))
  {
    if run.Then? {
      var before, step := run.before, run.step;
      TableIsExact(before, id);
      RunsKeepInvariant(before);
      FlagIsRaised(before);
      var s, tabled, taken, answer := before.State(), Tabled(before, id), Taken(before, id), Answer(before, id);
      if step.Insert? {
        InsertMovesTable(s, step.id, id, tabled, taken, answer);
      } else if ByRequester(step) {
        RequestersLeaveTable(s, step, id, tabled, taken, answer);
      } else if ByReader(step) {
        ReaderMovesTable(s, step, id, tabled, taken, answer);
      } else {
        ClosersMoveTable(s, step, id, tabled, taken, answer);
      }
    }
  }

  ghost function Allocations(run: Run): nat {
    if run.Start? then 0 else Allocations(run.before) + if run.step.Allocate? then 1 else 0
  }

  lemma AllocationMoves(s: State, step: Step)
    requires Enabled(s, step)
    ensures Next(s, step).nextId == s.nextId + if step.Allocate? then 1 else 0
    ensures Next(s, step).callers.Keys == s.callers.Keys + if step.Allocate? then {s.nextId} else {}
  {}

  /** IDs are handed out one by one from 2 up, all of them used up to the last but one of 64 bits. */
  lemma {:induction false} AllocationIsExact(run: Run)
    requires run.Legal()
    ensures run.State().nextId == 2 + Allocations(run)
    ensures forall id :: id in run.State().callers <==> 2 <= id < 2 + Allocations(run)
    ensures Enabled(run.State(), Allocate) <==> 2 + Allocations(run) < 0xFFFF_FFFF_FFFF_FFFF
  {
    if run.Then? {
      AllocationIsExact(run.before);
      AllocationMoves(run.before.State(), run.step);
    }
  }

  ghost predicate RaisedBy(run: Run, t: ThreadId) { run.Then? && (run.step == SetFlag(t) || RaisedBy(run.before, t)) }

  ghost predicate DrainedBy(run: Run, t: ThreadId) {
    run.Then? && (run.step == DrainTable(t) || DrainedBy(run.before, t))
  }

  lemma CloserMoves(s: State, step: Step, t: ThreadId)
    requires Enabled(s, step)
    ensures t in Next(s, step).closers <==> t in s.closers || step == SetFlag(t)
    ensures HasDrained(Next(s, step), t) <==> HasDrained(s, t) || step == DrainTable(t)
  {}

  /** A thread closes once: it raises the flag at any time, and drains the table after that. */
  lemma {:induction false} ClosersAreExact(run: Run, t: ThreadId)
    requires run.Legal()
    ensures t in run.State().closers <==> RaisedBy(run, t)
    ensures HasDrained(run.State(), t) <==> DrainedBy(run, t)
    ensures Enabled(run.State(), SetFlag(t)) <==> !RaisedBy(run, t)
    ensures Enabled(run.State(), DrainTable(t)) <==> RaisedBy(run, t) && !DrainedBy(run, t)
  {
    if run.Then? {
      ClosersAreExact(run.before, t);
      CloserMoves(run.before.State(), run.step, t);
    }
  }

  /** A request on an open connection is let through: as long as nobody has raised the flag, the first
      check passes and the insertion succeeds, whatever else is pending. From then on both fail. */
  lemma OpenConnectionAdmits(run: Run, id: RequestId)
    requires run.Legal()
    ensures Enabled(run.State(), FirstCheck(id)) ==>
              At(Next(run.State(), FirstCheck(id)), id, if Flagging(run) then Returned(Closed) else Open)
    ensures Enabled(run.State(), Insert(id)) ==>
              var r := Next(run.State(), Insert(id));
              At(r, id, if Flagging(run) then Returned(Closed) else Inserted)
              && (id in r.pending.requests <==> !Flagging(run))
  {
    FlagIsRaised(run);
    RunsKeepInvariant(run);
    if At(run.State(), id, Open) {
      assert CallerInvariant(run.State(), id);
    }
  }

  lemma ClosedIsAnswered(s: State, step: Step, id: RequestId)
    requires Enabled(s, step) && At(Next(s, step), id, Returned(Closed))
    ensures At(s, id, Returned(Closed)) || s.pending.closed
  {}

  /** No request is told that the connection is closed unless somebody has closed it. */
  lemma {:induction false} ClosedMeansFlagged(run: Run, id: RequestId)
    requires run.Legal() && At(run.State(), id, Returned(Closed))
    ensures Flagging(run)
  {
    FlagIsRaised(run.before);
    ClosedIsAnswered(run.before.State(), run.step, id);
    if !Flagging(run.before) {
      ClosedMeansFlagged(run.before, id);
    }
  }

  /** The reader takes a reply exactly if its request is in the table; any other ends its loop. */
  lemma UnmatchedReplyStopsReader(run: Run, id: RequestId)
    requires run.Legal() && Enabled(run.State(), ReaderTakes(id))
    ensures Next(run.State(), ReaderTakes(id)).reader == if Tabled(run, id) then Holding(id) else Stopped
  {
    TableIsExact(run, id);
  }

  /** A requester that waits can receive exactly when it has an answer, and receives that: its own reply
      if the reader took it out of the table and sent on it, the diagnostic if a drain found it there. */
  lemma AnswersAreExact(run: Run, id: RequestId)
    requires run.Legal() && At(run.State(), id, Waiting)
    ensures Enabled(run.State(), Receive(id)) <==> Answer(run, id).Some?
    ensures Enabled(run.State(), Receive(id)) ==>
              At(Next(run.State(), Receive(id)), id, Returned(Received(Answer(run, id).value)))
    ensures Answer(run, id).None? ==> Tabled(run, id) || Taken(run, id)
  {
    TableIsExact(run, id);
    RunsKeepInvariant(run);
    assert CallerInvariant(run.State(), id);
  }
}

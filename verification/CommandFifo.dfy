/**
  The bounded command queue of the PLC worker: submitters on any goroutine, one
  worker, cancellation at any moment, and an orderly shutdown.
*/
module CommandFifo {
  import opened Wrappers

  const CAPACITY := 64

  // One admitted user action. Every call of TrySubmit brings a ticket of its own.
  datatype Request = Request(ticket: nat, pointId: string)

  datatype Outcome = Executed(success: bool) | ServiceStopping

  datatype Reply = Reply(ticket: nat, outcome: Outcome)

  // Where the worker goroutine stands in Run.
  datatype Stage =
    | Starting                   // before the initial read
    | Looping                    // about to look at the context
    | Selecting                  // waiting for a command, the timer or the context
    | Busy(request: Request)     // executing, reply outstanding
    | Leaving                    // returned from the loop, still admitting
    | Rejecting                  // admission closed, draining
    | Done                       // done is closed

  datatype State = State(
    stage: Stage, stopping: bool, cancelled: bool, queue: seq<Request>,
    // history
    submitted: nat, admitted: seq<nat>, replies: seq<Reply>)

  datatype Event =
    | TrySubmit(pointId: string)   // any goroutine
    | Cancel                       // the owner of the context
    | Start | LookAtContext | Take | ContextDone | Poll | Finish(success: bool) | StopAdmitting | RejectOne | Close

  const INITIAL := State(Starting, false, false, [], 0, [], [])

  predicate Enabled(s: State, e: Event) {
    match e
    case TrySubmit(_) => true
    case Cancel => true
    case Start => s.stage.Starting?
    case LookAtContext => s.stage.Looping?
    case Take => s.stage.Selecting? && s.queue != []
    case ContextDone => s.stage.Selecting? && s.cancelled
    case Poll => s.stage.Selecting? && s.queue == []
    case Finish(_) => s.stage.Busy?
    case StopAdmitting => s.stage.Leaving?
    case RejectOne => s.stage.Rejecting? && s.queue != []
    case Close => s.stage.Rejecting? && s.queue == []
  }

  predicate ByWorker(e: Event) {
    !e.TrySubmit? && !e.Cancel?
  }

  predicate Admits(s: State) {
    !s.stopping && |s.queue| < CAPACITY
  }

  function Apply(s: State, e: Event): State
    requires Enabled(s, e)
  {
    match e
    case TrySubmit(pointId) =>
      if Admits(s) then
        s.(queue := s.queue + [Request(s.submitted, pointId)], admitted := s.admitted + [s.submitted], submitted := s.submitted + 1)
      else s.(submitted := s.submitted + 1)
    case Cancel => s.(cancelled := true)
    case Start => s.(stage := if s.cancelled then Leaving else Looping)
    case LookAtContext => s.(stage := if s.cancelled then Leaving else Selecting)
    case Take => s.(stage := Busy(s.queue[0]), queue := s.queue[1..])
    case ContextDone => s.(stage := Leaving)
    case Poll => s.(stage := Looping)
    case Finish(success) => s.(stage := Looping, replies := s.replies + [Reply(s.stage.request.ticket, Executed(success))])
    case StopAdmitting => s.(stage := Rejecting, stopping := true)
    case RejectOne => s.(queue := s.queue[1..], replies := s.replies + [Reply(s.queue[0].ticket, ServiceStopping)])
    case Close => s.(stage := Done)
  }

  // -------------------------------------------------------------- the worker's methods

  /** Fields of the worker that the queue methods change. */
  class Fifo {
    var stage: Stage
    var stopping: bool
    var cancelled: bool
    var commands: seq<Request>
    var submitted: nat
    ghost var admitted: seq<nat>
    ghost var replies: seq<Reply>

    ghost function Snapshot(): State
      reads this
    {
      State(stage, stopping, cancelled, commands, submitted, admitted, replies)
    }

    constructor ()
      ensures Snapshot() == INITIAL
    {
      stage, stopping, cancelled, commands, submitted := Starting, false, false, [], 0;
      admitted, replies := [], [];
    }

    /** Never blocks: a full queue or a stopping worker answers at once. */
    method TrySubmit(pointId: string) returns (ticket: Option<nat>, code: string)
      modifies this
      ensures Snapshot() == Apply(old(Snapshot()), Event.TrySubmit(pointId))
      ensures ticket.Some? <==> old(!stopping && |commands| < CAPACITY)
      ensures ticket.Some? ==> admitted == old(admitted) + [ticket.value]
      ensures ticket.None? ==> admitted == old(admitted) && commands == old(commands)
      ensures ticket.None? ==> code == if old(stopping) then "SERVICE_STOPPING" else "BUSY"
    {
      var request := Request(submitted, pointId);
      submitted := submitted + 1;
      if stopping {
        return None, "SERVICE_STOPPING";
      }
      if |commands| < CAPACITY {
        commands := commands + [request];
        admitted := admitted + [request.ticket];
        return Some(request.ticket), "";
      }
      return None, "BUSY";
    }

    /** handleCommand's reply: the only one this request ever gets. */
    method FinishCommand(success: bool)
      requires stage.Busy?
      modifies this
      ensures Snapshot() == Apply(old(Snapshot()), Finish(success))
    {
      replies := replies + [Reply(stage.request.ticket, Executed(success))];
      stage := Looping;
    }

    method StopAdmission()
      requires stage.Leaving?
      modifies this
      ensures Snapshot() == Apply(old(Snapshot()), StopAdmitting)
    {
      stopping := true;
      stage := Rejecting;
    }

    /** rejectQueued: everything still queued is answered, in order. */
    method RejectQueued(ghost events: seq<Event>)
      requires stage.Rejecting? && IsRun(events) && Snapshot() == After(events)
      modifies this
      ensures IsRun(events + Rejections(old(|commands|))) && Snapshot() == After(events + Rejections(old(|commands|)))
      ensures stage.Rejecting? && commands == []
    {
      ghost var n, k := |commands|, 0;
      assert events + Rejections(0) == events;
      while commands != []
        invariant k + |commands| == n && stage.Rejecting?
        invariant IsRun(events + Rejections(k)) && Snapshot() == After(events + Rejections(k))
        decreases |commands|
      {
        RejectOneMore(events, k);
        var request := commands[0];
        commands := commands[1..];
        replies := replies + [Reply(request.ticket, ServiceStopping)];
        k := k + 1;
      }
    }

    /** The deferred end of Run: close admission, answer everything queued, close done. */
    method ShutDown(ghost events: seq<Event>)
      requires stage.Leaving? && IsRun(events) && Snapshot() == After(events)
      modifies this
      ensures var all := events + [StopAdmitting] + Rejections(old(|commands|)) + [Close];
              IsRun(all) && Snapshot() == After(all)
      ensures stage.Done? && commands == []
    {
      ghost var n := |commands|;
      RunMore(events, StopAdmitting);
      StopAdmission();
      RejectQueued(events + [StopAdmitting]);
      RunMore(events + [StopAdmitting] + Rejections(n), Close);
      stage := Done;
    }
  }

  function Rejections(n: nat): seq<Event> {
    seq(n, _ => RejectOne)
  }

  // -------------------------------------------------------------- runs

  function After(events: seq<Event>): State
    requires IsRun(events)
    decreases |events|, 1
  {
    if events == [] then INITIAL else Apply(After(events[..|events| - 1]), events[|events| - 1])
  }

  predicate IsRun(events: seq<Event>)
    decreases |events|, 0
  {
    events != [] ==> IsRun(events[..|events| - 1]) && Enabled(After(events[..|events| - 1]), events[|events| - 1])
  }

  lemma RunMore(events: seq<Event>, e: Event)
    requires IsRun(events) && Enabled(After(events), e)
    ensures IsRun(events + [e]) && After(events + [e]) == Apply(After(events), e)
  {
    assert (events + [e])[..|events|] == events;
  }

  lemma RejectOneMore(events: seq<Event>, k: nat)
    requires IsRun(events + Rejections(k)) && Enabled(After(events + Rejections(k)), RejectOne)
    ensures IsRun(events + Rejections(k + 1)) && After(events + Rejections(k + 1)) == Apply(After(events + Rejections(k)), RejectOne)
  {
    RunMore(events + Rejections(k), RejectOne);
    assert events + Rejections(k + 1) == events + Rejections(k) + [RejectOne];
  }

  // -------------------------------------------------------------- the invariant

  function InFlight(s: State): seq<nat> {
    if s.stage.Busy? then [s.stage.request.ticket] else []
  }

  function Tickets(queue: seq<Request>): (t: seq<nat>)
    ensures |t| == |queue| && forall i :: 0 <= i < |t| ==> t[i] == queue[i].ticket
  {
    seq(|queue|, i requires 0 <= i < |queue| => queue[i].ticket)
  }

  function Answered(replies: seq<Reply>): (t: seq<nat>)
    ensures |t| == |replies| && forall i :: 0 <= i < |t| ==> t[i] == replies[i].ticket
  {
    seq(|replies|, i requires 0 <= i < |replies| => replies[i].ticket)
  }

  /** Executions come first, in order; only the shutdown rejects, and from then on nothing executes. */
  ghost predicate RejectsLast(s: State) {
    && (forall i, j :: 0 <= i < j < |s.replies| && s.replies[i].outcome.ServiceStopping? ==> s.replies[j].outcome.ServiceStopping?)
    && (!s.stage.Rejecting? && !s.stage.Done? ==> forall i :: 0 <= i < |s.replies| ==> s.replies[i].outcome.Executed?)
  }

  ghost predicate Increasing(t: seq<nat>, limit: nat) {
    && (forall i, j :: 0 <= i < j < |t| ==> t[i] < t[j])
    && forall i :: 0 <= i < |t| ==> t[i] < limit
  }

  ghost predicate Inv(s: State) {
    Placed(s) && Increasing(s.admitted, s.submitted) && Bounded(s)
  }

  /** The queue fits, admission is closed exactly in the last two stages, and nothing waits at the end. */
  predicate Bounded(s: State) {
    && |s.queue| <= CAPACITY
    && (s.stopping <==> s.stage.Rejecting? || s.stage.Done?)
    && (s.stage.Done? ==> s.queue == [])
  }

  lemma AnsweredMore(replies: seq<Reply>, r: Reply)
    ensures Answered(replies + [r]) == Answered(replies) + [r.ticket]
  {
  }

  lemma TicketsSplit(queue: seq<Request>)
    requires queue != []
    ensures Tickets(queue) == [queue[0].ticket] + Tickets(queue[1..])
  {
  }

  /** Every request is in exactly one place, in admission order. */
  ghost predicate Placed(s: State) {
    s.admitted == Answered(s.replies) + InFlight(s) + Tickets(s.queue)
  }

  lemma SubmitKeepsPlaces(s: State, pointId: string)
    requires Placed(s)
    ensures Placed(Apply(s, Event.TrySubmit(pointId)))
  {
    assert Tickets(s.queue + [Request(s.submitted, pointId)]) == Tickets(s.queue) + [s.submitted];
  }

  /** The head of the queue moves forward; nothing changes its place relative to the others. */
  lemma HeadMoves(before: seq<nat>, queue: seq<Request>)
    requires queue != []
    ensures before + [] + Tickets(queue) == before + [queue[0].ticket] + Tickets(queue[1..])
    ensures before + [] + Tickets(queue) == (before + [queue[0].ticket]) + [] + Tickets(queue[1..])
  {
    var rest := Tickets(queue[1..]);
    TicketsSplit(queue);
    assert before + [] == before && before + ([queue[0].ticket] + rest) == before + [queue[0].ticket] + rest;
  }

  lemma TakeKeepsPlaces(s: State)
    requires Placed(s) && Enabled(s, Take)
    ensures Placed(Apply(s, Take))
  {
    HeadMoves(Answered(s.replies), s.queue);
  }

  lemma FinishKeepsPlaces(s: State, success: bool)
    requires Placed(s) && Enabled(s, Finish(success))
    ensures Placed(Apply(s, Finish(success)))
  {
    AnsweredMore(s.replies, Reply(s.stage.request.ticket, Executed(success)));
  }

  lemma RejectKeepsPlaces(s: State)
    requires Placed(s) && Enabled(s, RejectOne)
    ensures Placed(Apply(s, RejectOne))
  {
    AnsweredMore(s.replies, Reply(s.queue[0].ticket, ServiceStopping));
    HeadMoves(Answered(s.replies), s.queue);
  }

  lemma StepKeepsPlaces(s: State, e: Event)
    requires Placed(s) && Enabled(s, e)
    ensures Placed(Apply(s, e))
  {
    match e {
      case TrySubmit(p) => SubmitKeepsPlaces(s, p);
      case Take => TakeKeepsPlaces(s);
      case Finish(success) => FinishKeepsPlaces(s, success);
      case RejectOne => RejectKeepsPlaces(s);
      case _ =>
    }
  }

  lemma StepKeepsTickets(s: State, e: Event)
    requires Increasing(s.admitted, s.submitted) && Enabled(s, e)
    ensures Increasing(Apply(s, e).admitted, Apply(s, e).submitted)
  {
    var t := Apply(s, e);
    assert t.admitted == s.admitted || t.admitted == s.admitted + [s.submitted];
  }

  lemma StepKeepsBounds(s: State, e: Event)
    requires Bounded(s) && Enabled(s, e)
    ensures Bounded(Apply(s, e))
  {
  }

  lemma StepKeepsInv(s: State, e: Event)
    requires Inv(s) && Enabled(s, e)
    ensures Inv(Apply(s, e))
  {
    StepKeepsPlaces(s, e);
    StepKeepsTickets(s, e);
    StepKeepsBounds(s, e);
  }

  lemma StepKeepsRejectsLast(s: State, e: Event)
    requires RejectsLast(s) && Enabled(s, e)
    ensures RejectsLast(Apply(s, e))
  {
  }

  lemma {:induction false} RunInv(events: seq<Event>)
    requires IsRun(events)
    ensures Inv(After(events)) && RejectsLast(After(events))
    decreases |events|
  {
    if events != [] {
      var front := events[..|events| - 1];
      RunInv(front);
      StepKeepsInv(After(front), events[|events| - 1]);
      StepKeepsRejectsLast(After(front), events[|events| - 1]);
    }
  }

  // -------------------------------------------------------------- theorems

  ghost predicate AnsweredOnce(replies: seq<Reply>, ticket: nat) {
    exists i :: 0 <= i < |replies| && replies[i].ticket == ticket &&
      forall j :: 0 <= j < |replies| && replies[j].ticket == ticket ==> j == i
  }

  lemma IncreasingAnsweredOnce(replies: seq<Reply>, limit: nat, ticket: nat)
    requires Increasing(Answered(replies), limit)
    ensures ticket in Answered(replies) <==> AnsweredOnce(replies, ticket)
  {
    var t := Answered(replies);
    if ticket in t {
      var i :| 0 <= i < |t| && t[i] == ticket;
      forall j | 0 <= j < |replies| && replies[j].ticket == ticket ensures j == i {
        assert t[j] == t[i];
      }
      assert replies[i].ticket == ticket;
    }
    if AnsweredOnce(replies, ticket) {
      var i :| 0 <= i < |replies| && replies[i].ticket == ticket;
      assert t[i] == ticket;
    }
  }

  /** When done closes, every admitted command has exactly one reply, and nobody else has one. */
  lemma EveryAdmittedCommandIsAnsweredOnce(events: seq<Event>, ticket: nat)
    requires IsRun(events) && After(events).stage.Done?
    ensures ticket in After(events).admitted <==> AnsweredOnce(After(events).replies, ticket)
  {
    RunInv(events);
    var s := After(events);
    assert s.admitted == Answered(s.replies);
    IncreasingAnsweredOnce(s.replies, s.submitted, ticket);
  }

  /** At any moment of any run no command has two replies, at most 64 wait, and one executes. */
  lemma NeverAnsweredTwice(events: seq<Event>, i: nat, j: nat)
    requires IsRun(events) && i < j < |After(events).replies|
    ensures After(events).replies[i].ticket < After(events).replies[j].ticket
    ensures |After(events).queue| <= CAPACITY
  {
    RunInv(events);
    var s := After(events);
    assert s.admitted[i] == s.replies[i].ticket && s.admitted[j] == s.replies[j].ticket;
  }

  function ExecutedTickets(replies: seq<Reply>): seq<nat> {
    if replies == [] then []
    else
      var r := replies[|replies| - 1];
      ExecutedTickets(replies[..|replies| - 1]) + (if r.outcome.Executed? then [r.ticket] else [])
  }

  lemma {:induction false} ExecutionsAreAPrefix(replies: seq<Reply>)
    requires forall i, j :: 0 <= i < j < |replies| && replies[i].outcome.ServiceStopping? ==> replies[j].outcome.ServiceStopping?
    ensures ExecutedTickets(replies) <= Answered(replies)
    ensures (forall i :: 0 <= i < |replies| ==> replies[i].outcome.Executed?) ==> ExecutedTickets(replies) == Answered(replies)
  {
    if replies != [] {
      var front, r := replies[..|replies| - 1], replies[|replies| - 1];
      ExecutionsAreAPrefix(front);
      assert replies == front + [r];
      AnsweredMore(front, r);
    }
  }

  /** Commands run on the PLC in the order they were admitted, with none skipped. */
  lemma ExecutedInAdmissionOrder(events: seq<Event>)
    requires IsRun(events)
    ensures ExecutedTickets(After(events).replies) <= After(events).admitted
    ensures After(events).stage.Busy? ==>
      ExecutedTickets(After(events).replies) + [After(events).stage.request.ticket] <= After(events).admitted
  {
    RunInv(events);
    ExecutionsAreAPrefix(After(events).replies);
  }

  /** After done nothing is admitted. */
  lemma NothingIsAdmittedAfterDone(events: seq<Event>, pointId: string)
    requires IsRun(events) && After(events).stage.Done?
    ensures !Admits(After(events)) && Apply(After(events), Event.TrySubmit(pointId)).admitted == After(events).admitted
  {
    RunInv(events);
  }

  // -------------------------------------------------------------- shutdown ends

  /** Steps the worker still has to take once it left the loop. */
  function Remaining(s: State): nat {
    match s.stage
    case Leaving => |s.queue| + 2
    case Rejecting => |s.queue| + 1
    case _ => 0
  }

  function CountByWorker(events: seq<Event>): nat {
    if events == [] then 0
    else CountByWorker(events[..|events| - 1]) + (if ByWorker(events[|events| - 1]) then 1 else 0)
  }

  /** The worker never gets stuck before done. */
  lemma WorkerCanAlwaysMove(events: seq<Event>)
    requires IsRun(events) && !After(events).stage.Done?
    ensures exists e :: ByWorker(e) && Enabled(After(events), e)
  {
    var s := After(events);
    var e := match s.stage
      case Starting => Start
      case Looping => LookAtContext
      case Selecting => if s.queue == [] then Poll else Take
      case Busy(_) => Finish(true)
      case Leaving => StopAdmitting
      case Rejecting => if s.queue == [] then Close else RejectOne
      case Done => Start;
    assert ByWorker(e) && Enabled(s, e);
  }

  lemma RemainingSpends(s: State, e: Event)
    requires Bounded(s) && (s.stage.Rejecting? || s.stage.Done?) && Enabled(s, e)
    ensures var t := Apply(s, e);
            (t.stage.Rejecting? || t.stage.Done?) && Remaining(t) + (if ByWorker(e) then 1 else 0) == Remaining(s)
  {
  }

  /** Once admission is closed the worker is done after at most 65 steps of its own, whatever others do. */
  lemma {:induction false} ShutdownIsBounded(events: seq<Event>, more: seq<Event>)
    requires IsRun(events) && IsRun(events + more) && After(events).stage.Rejecting?
    ensures var s := After(events + more);
            (s.stage.Rejecting? || s.stage.Done?) && CountByWorker(more) + Remaining(s) == Remaining(After(events)) <= CAPACITY + 1
  {
    RunInv(events);
    if more == [] {
      assert events + more == events;
    } else {
      var front, e := more[..|more| - 1], more[|more| - 1];
      var all := events + more;
      assert all[..|all| - 1] == events + front;
      ShutdownIsBounded(events, front);
      RunInv(events + front);
      RemainingSpends(After(events + front), e);
    }
  }

  // -------------------------------------------------------------- cancellation ends the worker

  /** Steps the worker can still take once the context is cancelled, whatever it was doing. */
  function Budget(s: State): nat {
    match s.stage
    case Starting => CAPACITY + 3
    case Looping => CAPACITY + 3
    case Selecting => CAPACITY + 5
    case Busy(_) => CAPACITY + 4
    case Leaving => CAPACITY + 2
    case Rejecting => |s.queue| + 1
    case Done => 0
  }

  lemma CancelledStepSpends(s: State, e: Event)
    requires Inv(s) && s.cancelled && Enabled(s, e)
    ensures Apply(s, e).cancelled
    ensures Budget(Apply(s, e)) + (if ByWorker(e) then 1 else 0) <= Budget(s)
  {
  }

  /**
    From the moment the context is cancelled, wherever the worker stands, it takes at most
    69 more steps until done, whatever submitters do; and until done it always has one.
  */
  lemma {:induction false} CancellationEndsTheWorker(events: seq<Event>, more: seq<Event>)
    requires IsRun(events) && IsRun(events + more) && After(events).cancelled
    ensures After(events + more).cancelled
    ensures CountByWorker(more) + Budget(After(events + more)) <= Budget(After(events)) <= CAPACITY + 5
    ensures !After(events + more).stage.Done? ==> exists e :: ByWorker(e) && Enabled(After(events + more), e)
  {
    RunInv(events);
    if more == [] {
      assert events + more == events;
    } else {
      var front, e := more[..|more| - 1], more[|more| - 1];
      var all := events + more;
      assert all[..|all| - 1] == events + front;
      CancellationEndsTheWorker(events, front);
      RunInv(events + front);
      CancelledStepSpends(After(events + front), e);
    }
    if !After(events + more).stage.Done? {
      WorkerCanAlwaysMove(events + more);
    }
  }

  // -------------------------------------------------------------- admission and replies

  /** On every run a submission is admitted exactly while the worker admits and fewer than 64 commands wait. */
  lemma ASubmissionIsAdmittedExactlyWhen(events: seq<Event>, pointId: string)
    requires IsRun(events)
    ensures var s, t := After(events), Apply(After(events), Event.TrySubmit(pointId));
            && t.admitted == (if !s.stage.Rejecting? && !s.stage.Done? && |s.queue| < 64 then s.admitted + [s.submitted] else s.admitted)
            && t.queue == (if t.admitted == s.admitted then s.queue else s.queue + [Request(s.submitted, pointId)])
            && t.replies == s.replies && t.stage == s.stage && t.submitted == s.submitted + 1
  {
    RunInv(events);
  }

  /** The worker leaves its loop only because the context was cancelled. */
  lemma {:induction false} OnlyCancellationEndsTheLoop(events: seq<Event>)
    requires IsRun(events) && (After(events).stage.Leaving? || After(events).stage.Rejecting? || After(events).stage.Done?)
    ensures After(events).cancelled && Cancel in events
    decreases |events|
  {
    CancelledMeansCancel(events);
    if events != [] {
      var front := events[..|events| - 1];
      if After(front).stage.Leaving? || After(front).stage.Rejecting? || After(front).stage.Done? {
        OnlyCancellationEndsTheLoop(front);
      }
    }
  }

  lemma {:induction false} CancelledMeansCancel(events: seq<Event>)
    requires IsRun(events)
    ensures After(events).cancelled <==> Cancel in events
    decreases |events|
  {
    if events != [] {
      CancelledMeansCancel(events[..|events| - 1]);
      assert events == events[..|events| - 1] + [events[|events| - 1]];
    }
  }

  /** The step that made a reply: the end of that command's execution, with this success, or its rejection from the head of the queue. */
  ghost predicate MadeBy(events: seq<Event>, k: nat, reply: Reply)
    requires IsRun(events) && k < |events|
  {
    IsRun(events[..k]) &&
    var s := After(events[..k]);
    match reply.outcome
    case Executed(success) => events[k] == Finish(success) && s.stage.Busy? && s.stage.request.ticket == reply.ticket
    case ServiceStopping => events[k] == RejectOne && s.queue != [] && s.queue[0].ticket == reply.ticket && s.stage.Rejecting?
  }

  lemma MadeBefore(events: seq<Event>, front: seq<Event>, k: nat, reply: Reply)
    requires IsRun(events) && IsRun(front) && front <= events && k < |front| && MadeBy(front, k, reply)
    ensures MadeBy(events, k, reply)
  {
    assert front[..k] == events[..k];
  }

  /** A step makes a reply only as its last event. */
  lemma StepMakesReply(s: State, e: Event, i: nat)
    requires Enabled(s, e) && i < |Apply(s, e).replies|
    ensures i < |s.replies| ==> Apply(s, e).replies[i] == s.replies[i]
    ensures i >= |s.replies| ==>
      || (e.Finish? && Apply(s, e).replies[i] == Reply(s.stage.request.ticket, Executed(e.success)))
      || (e.RejectOne? && s.stage.Rejecting? && Apply(s, e).replies[i] == Reply(s.queue[0].ticket, ServiceStopping))
  {
  }

  lemma RunSplits(events: seq<Event>)
    requires IsRun(events) && events != []
    ensures var front := events[..|events| - 1];
            IsRun(front) && Enabled(After(front), events[|events| - 1]) && After(events) == Apply(After(front), events[|events| - 1])
  {
  }

  /** Every reply on every run was made by such a step. */
  lemma {:induction false} EveryReplyHasItsStep(events: seq<Event>, i: nat) returns (k: nat)
    requires IsRun(events) && i < |After(events).replies|
    ensures k < |events| && MadeBy(events, k, After(events).replies[i])
    decreases |events|
  {
    var front := events[..|events| - 1];
    RunSplits(events);
    StepMakesReply(After(front), events[|events| - 1], i);
    if i < |After(front).replies| {
      k := EveryReplyHasItsStep(front, i);
      MadeBefore(events, front, k, After(events).replies[i]);
    } else {
      k := |events| - 1;
    }
  }
}

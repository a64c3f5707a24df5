/**
  The idempotent command pipeline: begin a durable record, check that the device
  is ready, execute, read back, confirm, and complete the record atomically.

  `Step` and `Next` are the pipeline as a step system, with crashes, restarts, lost
  acknowledgements and concurrent sampling; `Queue.Process` is the agent's code,
  proved to take only these steps.
*/
module CommandQueue {
  import opened Wrappers
  import opened Contract
  import opened CommandResults
  import opened CommandStore

  datatype Phase =
    | Down                                          // the process is not running
    | Idle                                          // waiting for a request
    | Dead                                          // the queue ended after a fatal persistence error
    | Admitted(command: Command, meta: CommandMeta)  // its record was just created
    | Ready(command: Command, meta: CommandMeta)     // availability was checked
    | Calling(command: Command, meta: CommandMeta)   // the device was called and has not answered
    | Reading(command: Command, meta: CommandMeta, result: CommandResult)
    | Persisting(command: Command, meta: CommandMeta, result: CommandResult, readback: Option<Snapshot>)

  // What the outside world sees of the pipeline.
  datatype Event =
    | Sent(command: Command)
    | Called(command: Command, answer: Result<CommandResult>)
    | ReadBack(command: Command, reading: Result<Snapshot>)
    | Replied(command: Command, result: CommandResult)

  datatype System = System(store: StoreState, phase: Phase, trail: seq<Event>)

  datatype Step =
    | Submit(command: Command, meta: CommandMeta, commit: Commit)
    | CheckReady(loadFails: bool, now: int, staleAfter: int)
    | Call
    | Execute(answer: Result<CommandResult>)
    | Read(reading: Result<Snapshot>)
    | Persist(now: int, staleAfter: int, commit: Commit)
    | GiveUp
    | Crash
    | Restart(commit: Commit)
    | Sample(sample: Snapshot, receivedAt: int, staleAfter: int, commit: Commit)
    | GoStale(code: string, loaded: bool, commit: Commit)

  // -------------------------------------------------------------- pure rules

  function ConflictResult(c: Command): CommandResult {
    CommandResult(c.id, c.name, Rejected, IDEMPOTENCY_CONFLICT,
                  "commandId is already bound to different command content", false, 0, None)
  }

  /** The reason why a command may not be sent now; "" when it may. */
  function Availability(s: StoreState, loadFails: bool, now: int, staleAfter: int): string {
    if loadFails || s.db.current.None? then BACKEND_UNAVAILABLE
    else if !s.health.available then (if s.health.code == "" then BACKEND_UNAVAILABLE else s.health.code)
    else AvailabilityCode(s.db.current.value, now, staleAfter)
  }

  function CheckedHealth(s: StoreState, loadFails: bool, now: int, staleAfter: int): Health {
    if loadFails || s.db.current.None? || !s.health.available then s.health
    else
      var code := AvailabilityCode(s.db.current.value, now, staleAfter);
      if code != "" then Unavailable(code) else s.health
  }

  /** What is said about it: a snapshot that cannot be loaded has a reason of its own. */
  function UnavailabilityReason(s: StoreState, loadFails: bool, code: string): string {
    if loadFails || s.db.current.None? then "persisted device state is unavailable" else AvailabilityReason(code)
  }

  function UnavailableResult(c: Command, code: string, reason: string): CommandResult {
    CommandResult(c.id, c.name, Rejected, code, reason, false, 0, None)
  }

  function Judged(c: Command, answer: Result<CommandResult>): CommandResult {
    EnsureResultCode(ValidatedResult(c, answer))
  }

  function ReadResult(c: Command, r: CommandResult, reading: Result<Snapshot>): CommandResult {
    match reading
    case Err(e) => r.(status := Unknown, code := OUTCOME_UNKNOWN,
                      reason := "command response was received but readback failed: " + e)
    case Ok(snapshot) =>
      if Confirm(c, r, snapshot) then r
      else r.(status := Failed, code := READBACK_FAILED, reason := "readback confirmation failed")
  }

  function Confirmed(c: Command, r: CommandResult, reading: Result<Snapshot>): Option<Snapshot> {
    if reading.Ok? && Confirm(c, r, reading.value) then Some(reading.value) else None
  }

  function CompletionOf(p: Phase): Completion
    requires p.Persisting?
  {
    Completion(p.result, p.readback, ResultMessage(p.result), p.meta, FingerprintOf(p.command))
  }

  // -------------------------------------------------------------- the step system

  predicate Enabled(s: System, step: Step) {
    match step
    case Submit(_, _, _) => s.phase.Idle?
    case CheckReady(_, _, _) => s.phase.Admitted?
    case Call => s.phase.Ready?
    case Execute(_) => s.phase.Calling?
    case Read(_) => s.phase.Reading?
    case Persist(_, _, _) => s.phase.Persisting?
    case GiveUp => s.phase.Persisting?
    case Crash => true
    case Restart(_) => s.phase.Down?
    case Sample(_, _, _, _) => !s.phase.Down?
    case GoStale(_, _, _) => !s.phase.Down?
  }

  function Submitted(s: System, command: Command, meta: CommandMeta, commit: Commit): System {
    var c := NormalizeCommand(command);
    var t := s.(store := s.store.(db := Begun(s.store.db, c, meta, commit)));
    match BeginAnswer(s.store.db, c, commit)
    case Fresh => t.(phase := Admitted(c, meta))
    case Existing(result) => t.(trail := s.trail + [Replied(c, result)])
    case Conflict => t.(trail := s.trail + [Replied(c, ConflictResult(c))])
    case BeginFailed => t.(phase := Dead)
  }

  function Checked(s: System, loadFails: bool, now: int, staleAfter: int): System
    requires s.phase.Admitted?
  {
    var code := Availability(s.store, loadFails, now, staleAfter);
    var t := s.(store := s.store.(health := CheckedHealth(s.store, loadFails, now, staleAfter)));
    if code == "" then t.(phase := Ready(s.phase.command, s.phase.meta))
    else t.(phase := Persisting(s.phase.command, s.phase.meta, UnavailableResult(s.phase.command, code, UnavailabilityReason(s.store, loadFails, code)), None))
  }

  /** The call starts; from here on the device may carry the command out. */
  function DidCall(s: System): System
    requires s.phase.Ready?
  {
    s.(phase := Calling(s.phase.command, s.phase.meta), trail := s.trail + [Sent(s.phase.command)])
  }

  function DidExecute(s: System, answer: Result<CommandResult>): System
    requires s.phase.Calling?
  {
    var c, r := s.phase.command, Judged(s.phase.command, answer);
    var next := if r.status.Executed? then Reading(c, s.phase.meta, r) else Persisting(c, s.phase.meta, r, None);
    s.(phase := next, trail := s.trail + [Called(c, answer)])
  }

  function DidRead(s: System, reading: Result<Snapshot>): System
    requires s.phase.Reading?
  {
    var p := s.phase;
    s.(phase := Persisting(p.command, p.meta, ReadResult(p.command, p.result, reading), Confirmed(p.command, p.result, reading)),
       trail := s.trail + [ReadBack(p.command, reading)])
  }

  function Persisted(s: System, now: int, staleAfter: int, commit: Commit): System
    requires s.phase.Persisting?
  {
    var answer := CommandStore.Completed(s.store, CompletionOf(s.phase), now, staleAfter, commit);
    var t := s.(store := answer.state);
    if answer.reply.Err? then t
    else t.(phase := Idle, trail := s.trail + [Replied(s.phase.command, s.phase.result)])
  }

  function Apply(s: System, step: Step): System
    requires Enabled(s, step) && !step.Restart?
  {
    match step
    case Submit(command, meta, commit) => Submitted(s, command, meta, commit)
    case CheckReady(loadFails, now, staleAfter) => Checked(s, loadFails, now, staleAfter)
    case Call => DidCall(s)
    case Execute(answer) => DidExecute(s, answer)
    case Read(reading) => DidRead(s, reading)
    case Persist(now, staleAfter, commit) => Persisted(s, now, staleAfter, commit)
    case GiveUp => s.(phase := Dead)
    case Crash => s.(phase := Down)
    case Sample(sample, receivedAt, staleAfter, commit) =>
      s.(store := Saved(s.store, sample, receivedAt, staleAfter, commit).state)
    case GoStale(code, loaded, commit) => s.(store := MarkedStale(s.store, code, loaded, commit))
  }

  /** Restart runs RecoverPending before the queue accepts requests; it may fail, even after its commit. */
  ghost predicate Restarted(s: System, t: System, commit: Commit) {
    && t.trail == s.trail
    && t.phase == (if commit.Committed? then Idle else Down)
    && t.store.health == Unavailable(BACKEND_UNAVAILABLE)
    && if commit.Lost? then t.store.db == s.store.db else RecoveredFrom(s.store.db, t.store.db)
  }

  ghost predicate Next(s: System, step: Step, t: System) {
    && Enabled(s, step)
    && if step.Restart? then Restarted(s, t, step.commit) else t == Apply(s, step)
  }

  /** The phases in which the queue holds the device coordinator. */
  predicate HoldsCoordinator(p: Phase) {
    p.Ready? || p.Calling? || p.Reading? || p.Persisting?
  }

  /** Sampling that shares the coordinator with the queue waits while the queue holds it. */
  ghost predicate Coordinated(states: seq<System>, steps: seq<Step>)
    requires |states| == |steps| + 1
  {
    forall i :: 0 <= i < |steps| && (steps[i].Sample? || steps[i].GoStale?) ==> !HoldsCoordinator(states[i].phase)
  }

  /** A first start on an empty database. */
  predicate Init(s: System) {
    s == System(StoreState(Db(map[], [], [], None), Unavailable(BACKEND_UNAVAILABLE)), Idle, [])
  }

  ghost predicate EndsWith(trail: seq<Event>, e: Event) {
    trail != [] && trail[|trail| - 1] == e
  }

  /** A run: states joined by steps. */
  ghost predicate IsRun(states: seq<System>, steps: seq<Step>) {
    && |states| == |steps| + 1
    && forall i :: 0 <= i < |steps| ==> Next(states[i], steps[i], states[i + 1])
  }

  // -------------------------------------------------------------- the queue

  // What the environment does during one request: one commit per completion attempt, then the deadline.
  datatype Environment = Environment(
    begin: Commit, loadFails: bool, answer: Result<CommandResult>, reading: Result<Snapshot>,
    attempts: seq<Commit>, now: int, staleAfter: int)

  datatype ProcessOutcome = Answered(result: CommandResult) | Fatal

  class Queue {
    const store: Store
    var phase: Phase
    ghost var trail: seq<Event>
    ghost var states: seq<System>
    ghost var steps: seq<Step>

    ghost function State(): System
      reads this, store
    {
      System(store.State(), phase, trail)
    }

    /** The states and steps so far are a run that ends in the present state. */
    ghost predicate Valid()
      reads this, store
    {
      IsRun(states, steps) && states[|states| - 1] == State()
    }

    /** A queue on a started store: after a first start, or after the restart that ends `states`. */
    constructor (store: Store, ghost states: seq<System>, ghost steps: seq<Step>, ghost trail: seq<Event>)
      requires IsRun(states, steps) && states[|states| - 1] == System(store.State(), Idle, trail)
      ensures this.store == store && phase == Idle
      ensures Valid() && this.states == states && this.steps == steps && this.trail == trail
    {
      this.store := store;
      phase := Idle;
      this.trail := trail;
      this.states := states;
      this.steps := steps;
    }

    ghost method Record(step: Step)
      requires IsRun(states, steps) && Next(states[|states| - 1], step, State())
      modifies this`states, this`steps
      ensures Valid() && states == old(states) + [State()] && steps == old(steps) + [step]
    {
      states, steps := states + [State()], steps + [step];
    }

    /** Submit: a queue that ended after a fatal error takes no more requests. */
    method Submit(command: Command, meta: CommandMeta, env: Environment) returns (r: Result<ProcessOutcome>)
      requires Valid() && (phase == Idle || phase == Dead) && env.attempts != []
      modifies this, store
      ensures Valid() && Extends(states, old(states)) && Extends(steps, old(steps)) && Extends(trail, old(trail))
      ensures old(phase) == Dead ==> r == Err("command queue terminated") && State() == old(State())
      ensures old(phase) == Idle ==> r.Ok? && phase == (if r.value.Fatal? then Dead else Idle)
      ensures r.Ok? && r.value.Answered? ==> EndsWith(trail, Replied(NormalizeCommand(command), r.value.result))
    {
      if phase == Dead {
        return Err("command queue terminated");
      }
      var outcome := Process(command, meta, env);
      r := Ok(outcome);
    }

    /** One request from admission to its terminal record, under the queue's own deadline. */
    method Process(command: Command, meta: CommandMeta, env: Environment) returns (outcome: ProcessOutcome)
      requires Valid() && phase == Idle && env.attempts != []
      modifies this, store
      ensures Valid() && Extends(states, old(states)) && Extends(steps, old(steps))
      ensures Extends(trail, old(trail))
      ensures outcome.Fatal? ==> phase == Dead
      ensures outcome.Answered? ==> phase == Idle && EndsWith(trail, Replied(NormalizeCommand(command), outcome.result))
    {
      var admitted := Admit(command, meta, env.begin);
      if admitted.Some? {
        return admitted.value;
      }
      Carry(env);
      outcome := PersistOutcome(env);
    }

    /** The middle of process: the readiness check, then the device unless it failed. */
    method Carry(env: Environment)
      requires Valid() && phase.Admitted?
      modifies this, store
      ensures Valid() && Extends(states, old(states)) && Extends(steps, old(steps)) && Extends(trail, old(trail))
      ensures phase.Persisting? && phase.command == old(phase.command)
    {
      var code := CommandAvailability(env);
      if code == "" {
        ExecuteAndRead(env);
      }
    }

    /** The start of process: the durable record, or an answer at once. */
    method Begin(command: Command, meta: CommandMeta, commit: Commit) returns (outcome: Option<ProcessOutcome>)
      requires phase == Idle
      modifies this`phase, this`trail, store
      ensures Next(old(State()), Step.Submit(command, meta, commit), State())
      ensures outcome.None? ==> phase == Admitted(NormalizeCommand(command), meta) && trail == old(trail)
      ensures outcome == Some(Fatal) ==> phase == Dead && trail == old(trail)
      ensures outcome.Some? && outcome.value.Answered? ==>
        phase == Idle && trail == old(trail) + [Replied(NormalizeCommand(command), outcome.value.result)]
    {
      var c := NormalizeCommand(command);
      var record := store.BeginCommand(c, meta, commit);
      match record {
        case BeginFailed =>
          phase, outcome := Dead, Some(Fatal);
        case Conflict =>
          trail, outcome := trail + [Replied(c, ConflictResult(c))], Some(Answered(ConflictResult(c)));
        case Existing(result) =>
          trail, outcome := trail + [Replied(c, result)], Some(Answered(result));
        case Fresh =>
          phase, outcome := Admitted(c, meta), None;
      }
    }

    /** Creates the durable record, or answers at once: replay, conflict or failure. */
    method Admit(command: Command, meta: CommandMeta, commit: Commit) returns (outcome: Option<ProcessOutcome>)
      requires Valid() && phase == Idle
      modifies this, store
      ensures Valid() && Extends(states, old(states)) && Extends(trail, old(trail))
      ensures steps == old(steps) + [Step.Submit(command, meta, commit)]
      ensures outcome.None? ==> phase == Admitted(NormalizeCommand(command), meta)
      ensures outcome == Some(Fatal) ==> phase == Dead
      ensures outcome.Some? && outcome.value.Answered? ==>
        phase == Idle && EndsWith(trail, Replied(NormalizeCommand(command), outcome.value.result))
    {
      outcome := Begin(command, meta, commit);
      Record(Step.Submit(command, meta, commit));
    }

    /** The readiness check: one step, on the stored snapshot and the clock; a command that may not be sent is rejected. */
    method CommandAvailability(env: Environment) returns (code: string)
      requires Valid() && phase.Admitted?
      modifies this, store
      ensures Valid() && Extends(states, old(states)) && trail == old(trail)
      ensures steps == old(steps) + [CheckReady(env.loadFails, env.now, env.staleAfter)]
      ensures code == Availability(old(store.State()), env.loadFails, env.now, env.staleAfter)
      ensures code == "" ==> phase == Ready(old(phase.command), old(phase.meta))
      ensures code != "" ==> phase == Persisting(old(phase.command), old(phase.meta),
        UnavailableResult(old(phase.command), code, UnavailabilityReason(old(store.State()), env.loadFails, code)), None)
    {
      var c, meta := phase.command, phase.meta;
      var reason := "";
      if env.loadFails || store.db.current.None? {
        code, reason := BACKEND_UNAVAILABLE, "persisted device state is unavailable";
      } else if !store.health.available {
        code := if store.health.code == "" then BACKEND_UNAVAILABLE else store.health.code;
        reason := AvailabilityReason(code);
      } else {
        code := AvailabilityCode(store.db.current.value, env.now, env.staleAfter);
        if code != "" {
          store.SetSourceUnavailable(code);
          reason := AvailabilityReason(code);
        }
      }
      phase := if code == "" then Ready(c, meta) else Persisting(c, meta, UnavailableResult(c, code, reason), None);
      Record(CheckReady(env.loadFails, env.now, env.staleAfter));
    }

    /** The device is called, and then answers. */
    method Exchange(answer: Result<CommandResult>) returns (result: CommandResult)
      requires Valid() && phase.Ready?
      modifies this
      ensures Valid() && Extends(states, old(states)) && steps == old(steps) + [Call, Execute(answer)]
      ensures trail == old(trail) + [Sent(old(phase.command)), Called(old(phase.command), answer)]
      ensures result == Judged(old(phase.command), answer)
      ensures phase == if result.status.Executed? then Reading(old(phase.command), old(phase.meta), result)
                       else Persisting(old(phase.command), old(phase.meta), result, None)
    {
      var c, meta := phase.command, phase.meta;
      StartCall();
      result := ValidatedResult(c, answer);
      result := EnsureResultCode(result);
      trail := trail + [Called(c, answer)];
      phase := if result.status.Executed? then Reading(c, meta, result) else Persisting(c, meta, result, None);
      Record(Execute(answer));
    }

    /** From here on the device may carry the command out, whatever becomes of the process. */
    method StartCall()
      requires Valid() && phase.Ready?
      modifies this
      ensures Valid() && Extends(states, old(states)) && steps == old(steps) + [Call]
      ensures phase == Calling(old(phase.command), old(phase.meta)) && trail == old(trail) + [Sent(old(phase.command))]
    {
      trail := trail + [Sent(phase.command)];
      phase := Calling(phase.command, phase.meta);
      Record(Call);
    }

    /** One call of the device, and one reading exactly when it answered EXECUTED. */
    method ExecuteAndRead(env: Environment)
      requires Valid() && phase.Ready?
      modifies this
      ensures Valid() && Extends(states, old(states))
      ensures var c, r := old(phase.command), Judged(old(phase.command), env.answer);
              if r.status.Executed? then
                && steps == old(steps) + [Call, Execute(env.answer), Read(env.reading)]
                && trail == old(trail) + [Sent(c), Called(c, env.answer), ReadBack(c, env.reading)]
                && phase == Persisting(c, old(phase.meta), ReadResult(c, r, env.reading), Confirmed(c, r, env.reading))
              else
                && steps == old(steps) + [Call, Execute(env.answer)]
                && trail == old(trail) + [Sent(c), Called(c, env.answer)]
                && phase == Persisting(c, old(phase.meta), r, None)
    {
      var result := Exchange(env.answer);
      if result.status == Executed {
        ReadDevice(env.reading);
      }
    }

    /** The reading that confirms an executed command, or does not. */
    method ReadDevice(reading: Result<Snapshot>)
      requires Valid() && phase.Reading?
      modifies this
      ensures Valid() && Extends(states, old(states)) && steps == old(steps) + [Read(reading)]
      ensures trail == old(trail) + [ReadBack(old(phase.command), reading)]
      ensures var p := old(phase);
              phase == Persisting(p.command, p.meta, ReadResult(p.command, p.result, reading), Confirmed(p.command, p.result, reading))
    {
      var c, meta, result := phase.command, phase.meta, phase.result;
      var readback := None;
      match reading {
        case Err(e) =>
          result := result.(status := Unknown, code := OUTCOME_UNKNOWN,
                            reason := "command response was received but readback failed: " + e);
        case Ok(value) =>
          if !Confirm(c, result, value) {
            result := result.(status := Failed, code := READBACK_FAILED, reason := "readback confirmation failed");
          } else {
            readback := Some(value);
          }
      }
      trail := trail + [ReadBack(c, reading)];
      phase := Persisting(c, meta, result, readback);
      Record(Read(reading));
    }

    /**
      Retries the completion until it is acknowledged or the deadline passes: every attempt
      up to the first acknowledged one is made, and only after all of them failed it is fatal.
    */
    method PersistOutcome(env: Environment) returns (outcome: ProcessOutcome)
      requires Valid() && phase.Persisting? && env.attempts != []
      modifies this, store
      ensures Valid() && Extends(states, old(states)) && Extends(trail, old(trail))
      ensures outcome.Fatal? ==> phase == Dead && trail == old(trail)
      ensures outcome.Fatal? ==> steps == old(steps) + Attempts(env, |env.attempts|) + [GiveUp]
      ensures outcome.Answered? ==> exists n :: 1 <= n <= |env.attempts| && steps == old(steps) + Attempts(env, n)
      ensures outcome.Answered? ==> outcome.result == old(phase.result) && phase == Idle
      ensures outcome.Answered? ==> trail == old(trail) + [Replied(old(phase.command), outcome.result)]
    {
      var p := phase;
      var acknowledged, n := TryAll(env);
      if acknowledged {
        return Answered(p.result);
      }
      phase := Dead;
      Record(GiveUp);
      outcome := Fatal;
    }

    /** The retry loop: `n` attempts were made. */
    method TryAll(env: Environment) returns (acknowledged: bool, ghost n: nat)
      requires Valid() && phase.Persisting?
      modifies this, store
      ensures Valid() && Extends(states, old(states)) && n <= |env.attempts| && steps == old(steps) + Attempts(env, n)
      ensures acknowledged ==> n >= 1 && phase == Idle && trail == old(trail) + [Replied(old(phase.command), old(phase.result))]
      ensures !acknowledged ==> n == |env.attempts| && phase == old(phase) && trail == old(trail)
    {
      acknowledged, n := false, 0;
      var attempt := 0;
      while attempt < |env.attempts| && !acknowledged
        invariant 0 <= attempt == n <= |env.attempts|
        invariant Valid() && Extends(states, old(states)) && steps == old(steps) + Attempts(env, n)
        invariant acknowledged ==> n >= 1 && phase == Idle && trail == old(trail) + [Replied(old(phase.command), old(phase.result))]
        invariant !acknowledged ==> phase == old(phase) && trail == old(trail)
        decreases |env.attempts| - attempt
      {
        AttemptsNext(env, attempt);
        acknowledged := Attempt(env, attempt);
        attempt := attempt + 1;
        n := attempt;
      }
    }

    /** One turn of the retry loop. */
    method Attempt(env: Environment, i: nat) returns (acknowledged: bool)
      requires Valid() && phase.Persisting? && i < |env.attempts|
      modifies this, store
      ensures Valid() && Extends(states, old(states)) && steps == old(steps) + [Persist(env.now, env.staleAfter, env.attempts[i])]
      ensures acknowledged ==> phase == Idle && trail == old(trail) + [Replied(old(phase.command), old(phase.result))]
      ensures !acknowledged ==> phase == old(phase) && trail == old(trail)
    {
      acknowledged := TryComplete(env.now, env.staleAfter, env.attempts[i]);
    }

    /** One attempt; it is acknowledged exactly when the store answers without an error. */
    method TryComplete(now: int, staleAfter: int, commit: Commit) returns (acknowledged: bool)
      requires Valid() && phase.Persisting?
      modifies this, store
      ensures Valid() && Extends(states, old(states)) && steps == old(steps) + [Persist(now, staleAfter, commit)]
      ensures acknowledged <==> CommandStore.Completed(old(store.State()), CompletionOf(old(phase)), now, staleAfter, commit).reply.Ok?
      ensures acknowledged ==> phase == Idle && trail == old(trail) + [Replied(old(phase.command), old(phase.result))]
      ensures !acknowledged ==> phase == old(phase) && trail == old(trail)
    {
      var p := phase;
      var persisted := store.CompleteCommand(CompletionOf(p), now, staleAfter, commit);
      acknowledged := persisted.Ok?;
      if acknowledged {
        phase := Idle;
        trail := trail + [Replied(p.command, p.result)];
      }
      Record(Persist(now, staleAfter, commit));
    }
  }

  lemma AttemptsNext(env: Environment, n: nat)
    requires n < |env.attempts|
    ensures Attempts(env, n + 1) == Attempts(env, n) + [Persist(env.now, env.staleAfter, env.attempts[n])]
  {
  }

  /** The first `n` attempts to complete, one step each. */
  function Attempts(env: Environment, n: nat): (r: seq<Step>)
    requires n <= |env.attempts|
    ensures |r| == n
  {
    seq(n, i requires 0 <= i < n => Persist(env.now, env.staleAfter, env.attempts[i]))
  }
}

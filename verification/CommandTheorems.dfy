/** The command pipeline's main results, over every run from an empty database. */
module CommandTheorems {
  import opened Wrappers
  import opened Contract
  import opened CommandResults
  import opened CommandStore
  import opened CommandQueue
  import opened CommandRuns

  /** A run that starts on an empty database. */
  ghost predicate RunFromStart(states: seq<System>, steps: seq<Step>) {
    IsRun(states, steps) && Init(states[0])
  }

  lemma {:induction false} EveryRunIsSafe(states: seq<System>, steps: seq<Step>, i: nat)
    requires RunFromStart(states, steps) && i < |states|
    ensures Inv(states[i])
    decreases i
  {
    if i > 0 {
      EveryRunIsSafe(states, steps, i - 1);
      assert Next(states[i - 1], steps[i - 1], states[i - 1 + 1]);
      StepKeeps(states[i - 1], steps[i - 1], states[i]);
    }
  }

  /** A command id is sent to the device at most once in any run: a call that a crash cuts short counts. */
  lemma EachCommandIsSentAtMostOnce(states: seq<System>, steps: seq<Step>, i: nat, a: nat, b: nat)
    requires RunFromStart(states, steps) && i < |states|
    requires a < |states[i].trail| && b < |states[i].trail|
    requires states[i].trail[a].Sent? && states[i].trail[b].Sent?
    requires states[i].trail[a].command.id == states[i].trail[b].command.id
    ensures a == b
  {
    EveryRunIsSafe(states, steps, i);
  }

  /** Every answer directly follows the sending of its command, and a call under way is the last thing that happened. */
  ghost predicate AnswersFollowCalls(s: System) {
    && (forall a :: 0 <= a < |s.trail| && s.trail[a].Called? ==> a > 0 && s.trail[a - 1] == Sent(s.trail[a].command))
    && (s.phase.Calling? ==> EndsWith(s.trail, Sent(s.phase.command)))
  }

  /** A step that adds no call and no answer to what was observed, and starts no call. */
  ghost predicate Quiet(s: System, t: System) {
    && s.trail <= t.trail && (forall k :: |s.trail| <= k < |t.trail| ==> !t.trail[k].Called? && !t.trail[k].Sent?)
    && (t.phase.Calling? ==> t.phase == s.phase && t.trail == s.trail)
  }

  lemma ReplyingIsQuiet(s: System, t: System, replies: seq<Event>)
    requires t.trail == s.trail + replies && !t.phase.Calling?
    requires forall k :: 0 <= k < |replies| ==> !replies[k].Called? && !replies[k].Sent?
    ensures Quiet(s, t)
  {
  }

  /** A submission ends in a reply, or in none yet. */
  lemma SubmitReplies(s: System, command: Command, meta: CommandMeta, commit: Commit) returns (replies: seq<Event>)
    ensures var t := Submitted(s, command, meta, commit); t.trail == s.trail + replies && (s.phase.Idle? ==> !t.phase.Calling?)
    ensures forall k :: 0 <= k < |replies| ==> replies[k].Replied?
  {
    var c := NormalizeCommand(command);
    replies := match BeginAnswer(s.store.db, c, commit)
      case Existing(result) => [Replied(c, result)]
      case Conflict => [Replied(c, ConflictResult(c))]
      case _ => [];
  }

  lemma SubmitIsQuiet(s: System, command: Command, meta: CommandMeta, commit: Commit)
    requires s.phase.Idle?
    ensures Quiet(s, Submitted(s, command, meta, commit))
  {
    var replies := SubmitReplies(s, command, meta, commit);
    ReplyingIsQuiet(s, Submitted(s, command, meta, commit), replies);
  }

  lemma CheckIsQuiet(s: System, loadFails: bool, now: int, staleAfter: int)
    requires s.phase.Admitted?
    ensures Quiet(s, Checked(s, loadFails, now, staleAfter))
  {
  }

  lemma ReadIsQuiet(s: System, reading: Result<Snapshot>)
    requires s.phase.Reading?
    ensures Quiet(s, DidRead(s, reading))
  {
  }

  lemma PersistIsQuiet(s: System, now: int, staleAfter: int, commit: Commit)
    requires s.phase.Persisting?
    ensures Quiet(s, Persisted(s, now, staleAfter, commit))
  {
  }

  lemma OtherStepsAreQuiet(s: System, step: Step, t: System)
    requires Next(s, step, t) && !step.Execute? && !step.Call?
    ensures Quiet(s, t)
  {
    match step
    case Submit(command, meta, commit) => SubmitIsQuiet(s, command, meta, commit);
    case CheckReady(loadFails, now, staleAfter) => CheckIsQuiet(s, loadFails, now, staleAfter);
    case Read(reading) => ReadIsQuiet(s, reading);
    case Persist(now, staleAfter, commit) => PersistIsQuiet(s, now, staleAfter, commit);
    case _ =>
  }

  lemma QuietKeepsAnswers(s: System, t: System)
    requires Quiet(s, t) && AnswersFollowCalls(s)
    ensures AnswersFollowCalls(t)
  {
  }

  lemma CallKeepsAnswers(s: System, answer: Result<CommandResult>)
    requires AnswersFollowCalls(s)
    ensures s.phase.Ready? ==> AnswersFollowCalls(DidCall(s))
    ensures s.phase.Calling? ==> AnswersFollowCalls(DidExecute(s, answer))
  {
  }

  lemma StepKeepsAnswers(s: System, step: Step, t: System)
    requires Next(s, step, t) && AnswersFollowCalls(s)
    ensures AnswersFollowCalls(t)
  {
    if step.Execute? {
      CallKeepsAnswers(s, step.answer);
    } else if step.Call? {
      CallKeepsAnswers(s, Err(""));
    } else {
      OtherStepsAreQuiet(s, step, t);
      QuietKeepsAnswers(s, t);
    }
  }

  lemma {:induction false} AnswersFollowInRuns(states: seq<System>, steps: seq<Step>, i: nat)
    requires RunFromStart(states, steps) && i < |states|
    ensures AnswersFollowCalls(states[i])
    decreases i
  {
    if i > 0 {
      AnswersFollowInRuns(states, steps, i - 1);
      assert Next(states[i - 1], steps[i - 1], states[i - 1 + 1]);
      StepKeepsAnswers(states[i - 1], steps[i - 1], states[i]);
    }
  }

  /** So a command id is also executed and answered at most once, and never without having been sent. */
  lemma EachCommandExecutesAtMostOnce(states: seq<System>, steps: seq<Step>, i: nat, a: nat, b: nat)
    requires RunFromStart(states, steps) && i < |states|
    requires a < |states[i].trail| && b < |states[i].trail|
    requires states[i].trail[a].Called? && states[i].trail[b].Called?
    requires states[i].trail[a].command.id == states[i].trail[b].command.id
    ensures a == b && a > 0 && states[i].trail[a - 1] == Sent(states[i].trail[a].command)
  {
    AnswersFollowInRuns(states, steps, i);
    EachCommandIsSentAtMostOnce(states, steps, i, a - 1, b - 1);
  }

  /** A stored EXECUTED was answered by the device for this very command, and a later reading confirmed it. */
  lemma ExecutedMeansAnsweredAndConfirmed(states: seq<System>, steps: seq<Step>, i: nat, id: string)
    requires RunFromStart(states, steps) && i < |states|
    requires id in states[i].store.db.records && states[i].store.db.records[id].status.Executed?
    ensures var r := states[i].store.db.records[id];
            && r.result.Some? && r.result.value.commandId == id && r.result.value.name == r.name && r.result.value.status.Executed?
            && exists c: Command, a, b ::
                 && c.id == id && FingerprintOf(c) == r.fingerprint && 0 <= a < b < |states[i].trail|
                 && states[i].trail[a] == Called(c, Ok(r.result.value)) && Confirming(states[i].trail[b], c, r.result.value)
  {
    EveryRunIsSafe(states, steps, i);
    var r, trail := states[i].store.db.records[id], states[i].trail;
    assert RecordOk(id, r) && RecordExplained(trail, id, r);
    var a :| 0 <= a < |trail| && Became(trail, a, r.result.value) && Concerns(trail[a].command, id, r.fingerprint);
    var b :| a < b < |trail| && ReadAs(trail[b], trail[a].command, trail[a].answer.value, r.result.value);
  }

  /** Every stored result has its cause: recovery, a refusal before the command was sent, or the device's one answer. */
  lemma EveryStoredResultIsExplained(states: seq<System>, steps: seq<Step>, i: nat, id: string)
    requires RunFromStart(states, steps) && i < |states|
    requires id in states[i].store.db.records && !states[i].store.db.records[id].status.Pending?
    ensures var record, trail := states[i].store.db.records[id], states[i].trail;
            && record.result.Some? && record.result.value.status == record.status
            && (|| record.result.value == RecoveredResult(id, record)
                || (record.status.Rejected? && forall k :: 0 <= k < |trail| && (trail[k].Sent? || trail[k].Called?) ==> trail[k].command.id != id)
                || CameFromAnswer(trail, id, record.fingerprint, record.result.value))
  {
    EveryRunIsSafe(states, steps, i);
    AnswersFollowInRuns(states, steps, i);
    var trail := states[i].trail;
    assert RecordOk(id, states[i].store.db.records[id]) && RecordExplained(trail, id, states[i].store.db.records[id]);
    if NotSent(trail, id) {
      forall k | 0 <= k < |trail| && (trail[k].Sent? || trail[k].Called?) ensures trail[k].command.id != id {
        if trail[k].Called? {
          assert trail[k - 1] == Sent(trail[k].command);
        }
      }
    }
  }

  ghost predicate ReadLater(trail: seq<Event>, a: nat, e: Event) {
    exists b :: a < b < |trail| && trail[b] == e
  }

  /** `r` is what the EXECUTED answer at `a` becomes by a later reading. */
  ghost predicate EndsAsRead(trail: seq<Event>, a: nat, c: Command, answer: CommandResult, r: CommandResult) {
    || (r == answer && exists s :: ReadLater(trail, a, ReadBack(c, Ok(s))) && Confirm(c, answer, s))
    || (r == answer.(status := Failed, code := "readback_failed", reason := r.reason)
        && exists s :: ReadLater(trail, a, ReadBack(c, Ok(s))) && !Confirm(c, answer, s))
    || (r == answer.(status := Unknown, code := "command_outcome_unknown", reason := r.reason)
        && exists e :: ReadLater(trail, a, ReadBack(c, Err(e))))
  }

  lemma BecameAsRead(trail: seq<Event>, a: nat, c: Command, answer: CommandResult, r: CommandResult)
    requires a < |trail| && trail[a] == Called(c, Ok(answer)) && SaysExecuted(c, Ok(answer)) && Became(trail, a, r)
    ensures EndsAsRead(trail, a, c, answer, r)
  {
    var b :| a < b < |trail| && ReadAs(trail[b], c, answer, r);
    assert ReadLater(trail, a, ReadBack(c, trail[b].reading));
  }

  /**
    An answer EXECUTED ends as the reading after it was: EXECUTED as answered with a
    reading that confirms it, FAILED/readback_failed with one that does not,
    UNKNOWN/command_outcome_unknown with none; or as recovery left it after a crash.
  */
  lemma ExecutedAnswersEndAsTheyWereRead(states: seq<System>, steps: seq<Step>, i: nat, a: nat, c: Command, answer: CommandResult)
    requires RunFromStart(states, steps) && i < |states| && a < |states[i].trail|
    requires states[i].trail[a] == Called(c, Ok(answer)) && answer.status.Executed? && answer.commandId == c.id && answer.name == c.name
    ensures var records := states[i].store.db.records;
            && c.id in records
            && if records[c.id].status.Pending? then records[c.id].result.None?
               else
                 && records[c.id].result.Some?
                 && var r := records[c.id].result.value;
                    r == RecoveredResult(c.id, records[c.id]) || EndsAsRead(states[i].trail, a, c, answer, r)
  {
    var trail, records := states[i].trail, states[i].store.db.records;
    EveryRunIsSafe(states, steps, i);
    AnswersFollowInRuns(states, steps, i);
    assert trail[a - 1] == Sent(c);
    assert RecordOk(c.id, records[c.id]) && RecordExplained(trail, c.id, records[c.id]);
    if !records[c.id].status.Pending? && records[c.id].result.value != RecoveredResult(c.id, records[c.id]) {
      var r := records[c.id].result.value;
      var k :| 0 <= k < |trail| && Became(trail, k, r) && Concerns(trail[k].command, c.id, records[c.id].fingerprint);
      EachCommandExecutesAtMostOnce(states, steps, i, a, k);
      BecameAsRead(trail, a, c, answer, r);
    }
  }

  /** `r` is what `reading` makes of the answer `a`. */
  predicate DecidedBy(c: Command, a: CommandResult, reading: Result<Snapshot>, r: CommandResult) {
    && (r.status.Executed? <==> reading.Ok? && Confirm(c, a, reading.value))
    && (r.status.Executed? ==> r == a)
    && (r == a.(status := Unknown, code := "command_outcome_unknown", reason := r.reason) <==> reading.Err?)
    && (r == a.(status := Failed, code := "readback_failed", reason := r.reason) <==> reading.Ok? && !Confirm(c, a, reading.value))
  }

  lemma ReadingDecides(c: Command, a: CommandResult, reading: Result<Snapshot>)
    requires a.status.Executed?
    ensures DecidedBy(c, a, reading, ReadResult(c, a, reading))
  {
  }

  lemma ReadStep(s: System, step: Step, t: System)
    requires Next(s, step, t) && step.Read?
    ensures s.phase.Reading?
    ensures var p := s.phase;
            t.phase == Persisting(p.command, p.meta, ReadResult(p.command, p.result, step.reading), Confirmed(p.command, p.result, step.reading))
  {
  }

  /** What one reading makes of the answer that is being confirmed: EXECUTED, UNKNOWN or FAILED, each exactly in its own case. */
  lemma AReadingDecidesTheOutcome(states: seq<System>, steps: seq<Step>, i: nat)
    requires RunFromStart(states, steps) && i < |steps| && steps[i].Read?
    ensures states[i].phase.Reading? && states[i + 1].phase.Persisting?
    ensures var p, q, reading := states[i].phase, states[i + 1].phase, steps[i].reading;
            && q.command == p.command && q.meta == p.meta && p.result.status.Executed?
            && DecidedBy(p.command, p.result, reading, q.result)
            && q.readback == (if q.result.status.Executed? then Some(reading.value) else None)
  {
    EveryRunIsSafe(states, steps, i);
    assert Next(states[i], steps[i], states[i + 1]);
    ReadStep(states[i], steps[i], states[i + 1]);
    ReadingDecides(states[i].phase.command, states[i].phase.result, steps[i].reading);
  }

  /** One operation row and one audit row per terminal command, with its outcome; none while it is pending or unknown. */
  lemma TerminalCommandsHaveExactlyOneRow(states: seq<System>, steps: seq<Step>, i: nat, id: string)
    requires RunFromStart(states, steps) && i < |states|
    ensures var db := states[i].store.db;
            var ops, audits := OperationsOf(db.operations, id), AuditsOf(db.audits, id);
            if id in db.records && Terminal(db.records[id].status) then
              && db.records[id].result.Some?
              && ops == [OperationRow(id, db.records[id].name, db.records[id].status, ResultMessage(db.records[id].result.value))]
              && |audits| == 1 && AuditTells(audits[0], id, db.records[id])
            else ops == [] && audits == []
  {
    EveryRunIsSafe(states, steps, i);
    var db := states[i].store.db;
    assert RowsFor(db, id);
    if id in db.records {
      assert RecordOk(id, db.records[id]);
    }
  }

  // -------------------------------------------------------------- when the device is called

  predicate PassedCheck(s: System, step: Step) {
    && step.CheckReady? && !step.loadFails && s.store.health.available
    && FreshAndGood(s.store.db.current, step.now, step.staleAfter)
  }

  /** Why a command may not be sent, in the order in which it is looked at. */
  function NotReadyCode(s: System, step: Step): string
    requires step.CheckReady?
  {
    var current := s.store.db.current;
    if step.loadFails || current.None? then "backend_unavailable"
    else if !s.store.health.available then (if s.store.health.code == "" then "backend_unavailable" else s.store.health.code)
    else if !current.value.plcConnected then "device_unavailable"
    else if !current.value.quality.Good? then "bad_quality"
    else "data_stale"
  }

  /** The readiness check sends the command exactly when the stored snapshot allows it, and otherwise rejects it with its reason. */
  lemma ReadyExactlyWhenFresh(s: System, step: Step, t: System)
    requires Next(s, step, t) && step.CheckReady?
    ensures s.phase.Admitted? && t.trail == s.trail && t.store.db == s.store.db
    ensures t.phase == Ready(s.phase.command, s.phase.meta) <==> PassedCheck(s, step)
    ensures !PassedCheck(s, step) ==>
      && t.phase.Persisting? && t.phase.command == s.phase.command && t.phase.meta == s.phase.meta && t.phase.readback.None?
      && t.phase.result == CommandResult(s.phase.command.id, s.phase.command.name, Rejected, NotReadyCode(s, step), t.phase.result.reason, false, 0, None)
      && t.store.health == (if !step.loadFails && s.store.db.current.Some? && s.store.health.available
                            then Health(false, NotReadyCode(s, step)) else s.store.health)
  {
  }

  lemma ReadyMeansPassedCheck(s: System, step: Step, t: System)
    requires Next(s, step, t) && t.phase.Ready? && s.phase != t.phase
    ensures PassedCheck(s, step) && s.phase == Admitted(t.phase.command, t.phase.meta)
  {
  }

  /** The device is called only for a command that passed the readiness check after it was
      admitted, and nothing but sampling happened in between. */
  lemma {:induction false} DeviceIsCalledOnlyAfterAFreshCheck(states: seq<System>, steps: seq<Step>, i: nat) returns (j: nat)
    requires RunFromStart(states, steps) && i < |states| && states[i].phase.Ready?
    ensures j < i && PassedCheck(states[j], steps[j])
    ensures states[j].phase == Admitted(states[i].phase.command, states[i].phase.meta)
    ensures forall k :: j < k <= i ==> states[k].phase == states[i].phase
    decreases i
  {
    assert i > 0 && Next(states[i - 1], steps[i - 1], states[i - 1 + 1]);
    if states[i - 1].phase == states[i].phase {
      j := DeviceIsCalledOnlyAfterAFreshCheck(states, steps, i - 1);
    } else {
      j := i - 1;
      ReadyMeansPassedCheck(states[i - 1], steps[i - 1], states[i]);
    }
  }

  lemma OnlySamplingKeepsReady(s: System, step: Step, t: System)
    requires Next(s, step, t) && s.phase.Ready? && t.phase == s.phase
    ensures step.Sample? || step.GoStale?
  {
  }

  lemma CheckKeepsCurrent(s: System, step: Step, t: System)
    requires Next(s, step, t) && step.CheckReady? && t.phase.Ready?
    ensures t.store == s.store
  {
  }

  /** When sampling shares the coordinator, the call directly follows its check: what was
      checked is what is stored at the call. */
  lemma TheCheckedSnapshotIsStoredAtTheCall(states: seq<System>, steps: seq<Step>, i: nat)
    requires RunFromStart(states, steps) && Coordinated(states, steps) && i < |steps| && steps[i].Call?
    ensures i > 0 && PassedCheck(states[i - 1], steps[i - 1]) && states[i].store == states[i - 1].store
    ensures FreshAndGood(states[i].store.db.current, steps[i - 1].now, steps[i - 1].staleAfter)
  {
    assert Next(states[i], steps[i], states[i + 1]);
    assert i > 0 && Next(states[i - 1], steps[i - 1], states[i - 1 + 1]);
    if states[i - 1].phase == states[i].phase {
      OnlySamplingKeepsReady(states[i - 1], steps[i - 1], states[i]);
    } else {
      ReadyMeansPassedCheck(states[i - 1], steps[i - 1], states[i]);
      CheckKeepsCurrent(states[i - 1], steps[i - 1], states[i]);
    }
  }

  // -------------------------------------------------------------- what never changes

  ghost predicate Settled(db: Db, id: string) {
    id in db.records && Terminal(db.records[id].status)
  }

  lemma PersistPreserves(s: StoreState, k: Completion, now: int, staleAfter: int, commit: Commit, id: string)
    requires Settled(s.db, id)
    ensures var db := Completed(s, k, now, staleAfter, commit).state.db;
            Settled(db, id) && db.records[id] == s.db.records[id]
  {
  }

  lemma BeginPreserves(db: Db, c: Command, meta: CommandMeta, commit: Commit, id: string)
    requires Settled(db, id)
    ensures var after := Begun(db, c, meta, commit); Settled(after, id) && after.records[id] == db.records[id]
  {
  }

  lemma SubmitBegins(s: System, command: Command, meta: CommandMeta, commit: Commit)
    ensures Submitted(s, command, meta, commit).store.db == Begun(s.store.db, NormalizeCommand(command), meta, commit)
  {
  }

  lemma SubmitPreserves(s: System, command: Command, meta: CommandMeta, commit: Commit, id: string)
    requires Settled(s.store.db, id)
    ensures var db := Submitted(s, command, meta, commit).store.db; Settled(db, id) && db.records[id] == s.store.db.records[id]
  {
    SubmitBegins(s, command, meta, commit);
    BeginPreserves(s.store.db, NormalizeCommand(command), meta, commit, id);
  }

  lemma RecoveryPreserves(before: Db, after: Db, id: string)
    requires RecoveredFrom(before, after) && Settled(before, id)
    ensures Settled(after, id) && after.records[id] == before.records[id]
  {
    assert ClosedRow(before, after, id, id in PendingIds(before));
  }

  /** Steps other than submission, completion and recovery leave every record alone. */
  lemma OtherStepsKeepRecords(s: System, step: Step, t: System)
    requires Next(s, step, t) && !step.Submit? && !step.Persist? && (step.Restart? ==> step.commit.Lost?)
    ensures t.store.db.records == s.store.db.records
  {
  }

  lemma StepPreserves(s: System, step: Step, t: System, id: string)
    requires Next(s, step, t) && Settled(s.store.db, id)
    ensures Settled(t.store.db, id) && t.store.db.records[id] == s.store.db.records[id]
  {
    if step.Submit? {
      SubmitPreserves(s, step.command, step.meta, step.commit, id);
    } else if step.Persist? {
      PersistPreserves(s.store, CompletionOf(s.phase), step.now, step.staleAfter, step.commit, id);
    } else if step.Restart? && !step.commit.Lost? {
      RecoveryPreserves(s.store.db, t.store.db, id);
    } else {
      OtherStepsKeepRecords(s, step, t);
    }
  }

  lemma TrailExtends(s: System, step: Step, t: System)
    requires Next(s, step, t)
    ensures Extends(t.trail, s.trail)
  {
    if !step.Call? && !step.Execute? {
      OtherStepsAreQuiet(s, step, t);
    }
  }

  /** A terminal record never changes, and nothing observed is ever taken back. */
  lemma {:induction false} TerminalResultsAreFinal(states: seq<System>, steps: seq<Step>, i: nat, j: nat, id: string)
    requires RunFromStart(states, steps) && i <= j < |states|
    ensures Settled(states[i].store.db, id) ==>
              Settled(states[j].store.db, id) && states[j].store.db.records[id] == states[i].store.db.records[id]
    ensures Extends(states[j].trail, states[i].trail)
    decreases j - i
  {
    if i < j {
      TerminalResultsAreFinal(states, steps, i, j - 1, id);
      assert Next(states[j - 1], steps[j - 1], states[j - 1 + 1]);
      TrailExtends(states[j - 1], steps[j - 1], states[j]);
      if Settled(states[i].store.db, id) {
        StepPreserves(states[j - 1], steps[j - 1], states[j], id);
      }
    }
  }

  /** Every reply is the stored final result of this very command, or the conflict with another one under its id. */
  lemma RepliesAreStoredResultsOrConflicts(states: seq<System>, steps: seq<Step>, i: nat, k: nat)
    requires RunFromStart(states, steps) && i < |states| && k < |states[i].trail| && states[i].trail[k].Replied?
    ensures var c, r, records := states[i].trail[k].command, states[i].trail[k].result, states[i].store.db.records;
            && c.id in records
            && if records[c.id].fingerprint == FingerprintOf(c) then !records[c.id].status.Pending? && records[c.id].result == Some(r)
               else r.commandId == c.id && r.name == c.name && r.status.Rejected? && r.code == "idempotency_conflict" && r.snapshot.None?
  {
    EveryRunIsSafe(states, steps, i);
    assert ReplyOk(states[i].store.db.records, states[i].trail[k]);
  }

  /** Whoever sends one command, whenever, is told one result. */
  lemma RepliesAgree(states: seq<System>, steps: seq<Step>, i: nat, j: nat, first: Event, second: Event)
    requires RunFromStart(states, steps) && i <= j < |states|
    requires first in states[i].trail && second in states[j].trail && first.Replied? && second.Replied?
    requires first.command == second.command
    ensures first.result == second.result
  {
    TerminalResultsAreFinal(states, steps, i, j, first.command.id);
    EveryRunIsSafe(states, steps, j);
    var k :| 0 <= k < |states[i].trail| && states[i].trail[k] == first;
    assert states[j].trail[k] == first && first in states[j].trail;
    var records := states[j].store.db.records;
    assert ReplyOk(records, first) && ReplyOk(records, second);
  }

  /** The result recovery stores. */
  predicate ClosedResult(id: string, name: string, r: Option<CommandResult>) {
    && r.Some? && r.value.commandId == id && r.value.name == name && r.value.status.Unknown?
    && r.value.code == "command_outcome_unknown" && r.value.controlRevision == 0 && r.value.snapshot.None?
  }

  /** A successful restart leaves no command pending, and neither does an idle queue. */
  lemma NoPendingSurvivesRestart(states: seq<System>, steps: seq<Step>, i: nat, id: string)
    requires RunFromStart(states, steps) && i < |steps| && steps[i].Restart? && steps[i].commit.Committed?
    ensures states[i + 1].phase.Idle? && !IsPending(states[i + 1].store.db.records, id)
    ensures IsPending(states[i].store.db.records, id) ==>
              && id in states[i + 1].store.db.records && states[i + 1].store.db.records[id].status.Unknown?
              && ClosedResult(id, states[i].store.db.records[id].name, states[i + 1].store.db.records[id].result)
              && |OperationsOf(states[i + 1].store.db.operations, id)| == 1
  {
    assert Next(states[i], steps[i], states[i + 1]);
    EveryRunIsSafe(states, steps, i);
    EveryRunIsSafe(states, steps, i + 1);
    var before, after := states[i].store.db, states[i + 1].store.db;
    assert ClosedRow(before, after, id, id in PendingIds(before));
    assert RowsFor(before, id) && RowsFor(after, id);
    if id in before.records {
      assert RecordOk(id, before.records[id]);
    }
  }

  /** Repeating a completion whose commit was not acknowledged succeeds and writes nothing. */
  lemma RetryAfterLostAcknowledgement(s: StoreState, k: Completion, at: int, later: int, staleAfter: int)
    requires Terminal(k.result.status) && k.result.commandId in s.db.records
    requires s.db.records[k.result.commandId].status.Pending? && s.db.records[k.result.commandId].name == k.result.name
    requires AfterReadback(s.db.current, k.readback, at, staleAfter).Ok?
    ensures var first := Completed(s, k, at, staleAfter, Unacknowledged);
            var second := Completed(first.state, k, later, staleAfter, Committed);
            && first.reply.Err? && first.state.db != s.db
            && second.state.db == first.state.db && second.reply == Ok(first.state.db.current)
  {
    var first := Completed(s, k, at, staleAfter, Unacknowledged);
    assert |first.state.db.operations| == |s.db.operations| + 1;
  }

  // -------------------------------------------------------------- the current snapshot

  lemma MergeNotBefore(s: Snapshot, previous: Option<Current>, receivedAt: int, staleAfter: int)
    ensures var m := MergeSnapshot(s, previous, receivedAt, staleAfter); m.Merged? ==> NotBefore(Some(m.current), previous)
  {
  }

  lemma CompletionNotBefore(store: StoreState, k: Completion, now: int, staleAfter: int, commit: Commit)
    ensures NotBefore(CommandStore.Completed(store, k, now, staleAfter, commit).state.db.current, store.db.current)
  {
    if k.readback.Some? {
      MergeNotBefore(k.readback.value, store.db.current, now, staleAfter);
    }
  }

  lemma SampleNotBefore(store: StoreState, sample: Snapshot, receivedAt: int, staleAfter: int, commit: Commit)
    ensures NotBefore(Saved(store, sample, receivedAt, staleAfter, commit).state.db.current, store.db.current)
  {
    MergeNotBefore(sample, store.db.current, receivedAt, staleAfter);
  }

  lemma StaleNotBefore(store: StoreState, code: string, loaded: bool, commit: Commit)
    ensures NotBefore(MarkedStale(store, code, loaded, commit).db.current, store.db.current)
  {
  }

  /** Every other step leaves the stored snapshot alone. */
  lemma OtherStepsKeepCurrent(s: System, step: Step, t: System)
    requires Next(s, step, t) && !step.Persist? && !step.Sample? && !step.GoStale?
    ensures t.store.db.current == s.store.db.current
  {
  }

  /** No step moves the stored snapshot back: not a late readback, not a late sample, not a restart. */
  lemma StepNotBefore(s: System, step: Step, t: System)
    requires Next(s, step, t)
    ensures NotBefore(t.store.db.current, s.store.db.current)
  {
    match step
    case Persist(now, staleAfter, commit) => CompletionNotBefore(s.store, CompletionOf(s.phase), now, staleAfter, commit);
    case Sample(sample, receivedAt, staleAfter, commit) => SampleNotBefore(s.store, sample, receivedAt, staleAfter, commit);
    case GoStale(code, loaded, commit) => StaleNotBefore(s.store, code, loaded, commit);
    case _ => OtherStepsKeepCurrent(s, step, t);
  }

  lemma RunNotBefore(states: seq<System>, steps: seq<Step>, i: nat)
    requires IsRun(states, steps) && i < |steps|
    ensures NotBefore(states[i + 1].store.db.current, states[i].store.db.current)
  {
    assert Next(states[i], steps[i], states[i + 1]);
    StepNotBefore(states[i], steps[i], states[i + 1]);
  }

  lemma {:induction false} RevisionNeverDecreases(states: seq<System>, steps: seq<Step>, i: nat, j: nat)
    requires IsRun(states, steps) && i <= j < |states|
    ensures var older, newer := states[i].store.db.current, states[j].store.db.current;
            older.Some? ==> newer.Some? && newer.value.revision >= older.value.revision
    decreases j - i
  {
    if i < j {
      RevisionNeverDecreases(states, steps, i, j - 1);
      RunNotBefore(states, steps, j - 1);
    }
  }

  /** Both are snapshots of one session, and (revision, sample sequence) is in lexicographic order. */
  ghost predicate InOrder(a: Option<Current>, b: Option<Current>, session: string) {
    && InSession(a, session) && InSession(b, session)
    && (a.value.revision < b.value.revision ||
        (a.value.revision == b.value.revision && a.value.sampleSequence <= b.value.sampleSequence))
  }

  predicate InSession(c: Option<Current>, session: string) {
    c.Some? && c.value.sessionId == session
  }

  lemma {:induction false} SessionInOrder(shots: seq<Option<Current>>, i: nat, j: nat, session: string)
    requires i <= j < |shots|
    requires forall k :: 0 <= k < |shots| - 1 ==> NotBefore(shots[k + 1], shots[k])
    requires forall k :: i <= k <= j ==> InSession(shots[k], session)
    ensures InOrder(shots[i], shots[j], session)
    decreases j - i
  {
    if i < j {
      SessionInOrder(shots, i, j - 1, session);
      assert NotBefore(shots[j - 1 + 1], shots[j - 1]);
    }
  }

  /** While one session lasts, the stored (revision, sample sequence) pairs never decrease. */
  lemma SessionNeverGoesBack(states: seq<System>, steps: seq<Step>, i: nat, j: nat, session: string)
    requires IsRun(states, steps) && i <= j < |states|
    requires forall k :: i <= k <= j ==> InSession(states[k].store.db.current, session)
    ensures InOrder(states[i].store.db.current, states[j].store.db.current, session)
  {
    var shots := seq(|states|, k requires 0 <= k < |states| => states[k].store.db.current);
    forall k | 0 <= k < |shots| - 1 ensures NotBefore(shots[k + 1], shots[k]) {
      RunNotBefore(states, steps, k);
    }
    SessionInOrder(shots, i, j, session);
  }
}

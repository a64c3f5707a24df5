/**
  Safety of the command pipeline over every run of submissions, crashes, restarts,
  failed completions, lost acknowledgements and concurrent samples.
*/
module CommandRuns {
  import opened Wrappers
  import opened Contract
  import opened CommandResults
  import opened CommandStore
  import opened CommandQueue

  // -------------------------------------------------------------- the invariant

  ghost predicate RecordOk(id: string, r: Record) {
    && r.name == r.fingerprint.name
    && if Terminal(r.status) then
         r.result.Some? && r.result.value.commandId == id && r.result.value.name == r.name && r.result.value.status == r.status
       else r.status.Pending? && r.result.None?
  }

  ghost predicate RecordsOk(db: Db) {
    forall id :: id in db.records ==> RecordOk(id, db.records[id])
  }

  /** Exactly one operation row and one audit row for a terminal command, none before. */
  ghost predicate RowsFor(db: Db, id: string) {
    var ops, audits := OperationsOf(db.operations, id), AuditsOf(db.audits, id);
    if id in db.records && Terminal(db.records[id].status) && db.records[id].result.Some? then
      var r := db.records[id];
      && ops == [OperationRow(id, r.name, r.status, ResultMessage(r.result.value))]
      && |audits| == 1 && AuditTells(audits[0], id, r)
    else ops == [] && audits == []
  }

  ghost predicate AuditTells(a: AuditRow, id: string, r: Record)
    requires r.result.Some?
  {
    && a.commandId == id && a.operator == r.meta.operator && a.requestId == r.meta.requestId
    && a.action == "command." + r.name && a.message == ResultMessage(r.result.value)
    && a.status == r.status && a.code == r.result.value.code && a.fingerprint == r.fingerprint
  }

  ghost predicate RowsOk(db: Db) {
    forall id :: RowsFor(db, id)
  }

  /** The only command that may still be pending. */
  ghost predicate OnlyPending(records: map<string, Record>, id: string) {
    forall x :: IsPending(records, x) ==> x == id
  }

  ghost predicate NonePending(records: map<string, Record>) {
    forall x :: !IsPending(records, x)
  }

  /** The device was called with this command and answered with this result. */
  ghost predicate AnsweredWith(trail: seq<Event>, c: Command, r: CommandResult) {
    Called(c, Ok(r)) in trail
  }

  /** The answer is for this very command, and final. */
  predicate Usable(c: Command, answer: Result<CommandResult>) {
    answer.Ok? && answer.value.commandId == c.id && answer.value.name == c.name &&
    (answer.value.status.Executed? || answer.value.status.Rejected? || answer.value.status.Failed? || answer.value.status.Unknown?)
  }

  predicate SaysExecuted(c: Command, answer: Result<CommandResult>) {
    Usable(c, answer) && answer.value.status.Executed?
  }

  /** What an answer other than EXECUTED is stored as: itself, with a code, or an unknown outcome. */
  predicate TakenAs(c: Command, answer: Result<CommandResult>, r: CommandResult) {
    if Usable(c, answer) then
      && r == answer.value.(code := r.code) && !r.status.Executed?
      && r.code == (if answer.value.code != "" then answer.value.code
                    else if r.status.Rejected? then "command_rejected"
                    else if r.status.Failed? then "command_failed" else "command_outcome_unknown")
    else r.status.Unknown? && r.code == "command_outcome_unknown" && r.controlRevision == 0
  }

  /** A reading that passes confirmation. */
  predicate Confirming(e: Event, c: Command, r: CommandResult) {
    e.ReadBack? && e.command == c && e.reading.Ok? && Confirm(c, r, e.reading.value)
  }

  predicate Refuting(e: Event, c: Command, r: CommandResult) {
    e.ReadBack? && e.command == c && e.reading.Ok? && !Confirm(c, r, e.reading.value)
  }

  predicate Unreadable(e: Event, c: Command) {
    e.ReadBack? && e.command == c && e.reading.Err?
  }

  /** What the answer `a`, EXECUTED, is stored as once `e` was read. */
  predicate ReadAs(e: Event, c: Command, a: CommandResult, r: CommandResult) {
    match r.status
    case Executed => r == a && Confirming(e, c, a)
    case Failed => r == a.(status := Failed, code := "readback_failed", reason := r.reason) && Refuting(e, c, a)
    case Unknown => r == a.(status := Unknown, code := "command_outcome_unknown", reason := r.reason) && Unreadable(e, c)
    case _ => false
  }

  ghost predicate ReadAfter(trail: seq<Event>, a: nat, r: CommandResult)
    requires a < |trail| && trail[a].Called? && trail[a].answer.Ok?
  {
    exists b :: a < b < |trail| && ReadAs(trail[b], trail[a].command, trail[a].answer.value, r)
  }

  /** The answer at `a` came to be stored as `r`. */
  ghost predicate Became(trail: seq<Event>, a: nat, r: CommandResult)
    requires a < |trail|
  {
    trail[a].Called? &&
    if SaysExecuted(trail[a].command, trail[a].answer) then ReadAfter(trail, a, r)
    else TakenAs(trail[a].command, trail[a].answer, r)
  }

  predicate Concerns(c: Command, id: string, f: Fingerprint) {
    c.id == id && FingerprintOf(c) == f
  }

  ghost predicate CameFromAnswer(trail: seq<Event>, id: string, f: Fingerprint, r: CommandResult) {
    exists a :: 0 <= a < |trail| && Became(trail, a, r) && Concerns(trail[a].command, id, f)
  }

  /** Why a result is stored: the command was refused without being sent, or the device's answer became it. */
  ghost predicate Explained(trail: seq<Event>, id: string, f: Fingerprint, r: CommandResult) {
    (NotSent(trail, id) && r.status.Rejected?) || CameFromAnswer(trail, id, f, r)
  }

  ghost predicate RecordExplained(trail: seq<Event>, id: string, r: Record) {
    Terminal(r.status) && r.result.Some? && r.result.value != RecoveredResult(id, r) ==>
      Explained(trail, id, r.fingerprint, r.result.value)
  }

  /** Every result that was not stored by recovery is explained by what was observed. */
  ghost predicate EvidenceOk(records: map<string, Record>, trail: seq<Event>) {
    forall id :: id in records ==> RecordExplained(trail, id, records[id])
  }

  ghost predicate SentOnce(trail: seq<Event>) {
    forall i, j :: 0 <= i < j < |trail| && trail[i].Sent? && trail[j].Sent? ==> trail[i].command.id != trail[j].command.id
  }

  ghost predicate NotSent(trail: seq<Event>, id: string) {
    forall i :: 0 <= i < |trail| && trail[i].Sent? ==> trail[i].command.id != id
  }

  /** No id is sent to the device twice, and none without a durable record. */
  ghost predicate CallsOk(records: map<string, Record>, trail: seq<Event>) {
    && SentOnce(trail)
    && forall i :: 0 <= i < |trail| && trail[i].Sent? ==> trail[i].command.id in records
  }

  /** A reply is the stored terminal result, or the conflict answer for different content. */
  ghost predicate ReplyOk(records: map<string, Record>, e: Event) {
    e.Replied? ==>
      && e.command.id in records
      && var r := records[e.command.id];
         if r.fingerprint == FingerprintOf(e.command) then Terminal(r.status) && r.result == Some(e.result)
         else e.result == ConflictResult(e.command)
  }

  ghost predicate RepliesOk(records: map<string, Record>, trail: seq<Event>) {
    forall i :: 0 <= i < |trail| ==> ReplyOk(records, trail[i])
  }

  ghost predicate HistoryOk(records: map<string, Record>, trail: seq<Event>) {
    EvidenceOk(records, trail) && CallsOk(records, trail) && RepliesOk(records, trail)
  }

  /** The record of the command in flight: pending, or already holding the outcome being stored. */
  ghost predicate InFlight(records: map<string, Record>, c: Command, meta: CommandMeta, outcome: Option<CommandResult>) {
    && NormalizeCommand(c) == c
    && c.id in records
    && OnlyPending(records, c.id)
    && (records[c.id] == PendingRecord(c, meta) ||
        (outcome.Some? &&
         records[c.id] == PendingRecord(c, meta).(status := outcome.value.status, result := outcome)))
  }

  ghost predicate PhaseOk(s: System) {
    var records := s.store.db.records;
    match s.phase
    case Down => true
    case Dead => true
    case Idle => NonePending(records)
    case Admitted(c, meta) => InFlight(records, c, meta, None) && NotSent(s.trail, c.id)
    case Ready(c, meta) => InFlight(records, c, meta, None) && NotSent(s.trail, c.id)
    case Calling(c, meta) => InFlight(records, c, meta, None)
    case Reading(c, meta, r) =>
      InFlight(records, c, meta, None) && r.commandId == c.id && r.name == c.name && r.status.Executed? && AnsweredWith(s.trail, c, r)
    case Persisting(c, meta, r, readback) =>
      && InFlight(records, c, meta, Some(r)) && r.commandId == c.id && r.name == c.name && Terminal(r.status)
      && Explained(s.trail, c.id, FingerprintOf(c), r)
  }

  ghost predicate DbOk(db: Db) {
    RecordsOk(db) && RowsOk(db)
  }

  ghost predicate Inv(s: System) {
    DbOk(s.store.db) && HistoryOk(s.store.db.records, s.trail) && PhaseOk(s)
  }

  // -------------------------------------------------------------- history lemmas

  lemma AnswerStays(trail: seq<Event>, e: Event, id: string, f: Fingerprint, r: CommandResult)
    requires CameFromAnswer(trail, id, f, r)
    ensures CameFromAnswer(trail + [e], id, f, r)
  {
    var more := trail + [e];
    var a :| 0 <= a < |trail| && Became(trail, a, r) && Concerns(trail[a].command, id, f);
    assert more[a] == trail[a];
    if SaysExecuted(trail[a].command, trail[a].answer) {
      var b :| a < b < |trail| && ReadAs(trail[b], trail[a].command, trail[a].answer.value, r);
      assert more[b] == trail[b];
    }
    assert Became(more, a, r);
  }

  lemma ExplanationStays(trail: seq<Event>, e: Event, id: string, f: Fingerprint, r: CommandResult)
    requires Explained(trail, id, f, r) && (e.Sent? ==> e.command.id != id)
    ensures Explained(trail + [e], id, f, r)
  {
    if CameFromAnswer(trail, id, f, r) {
      AnswerStays(trail, e, id, f, r);
    }
  }

  lemma EvidenceGrows(records: map<string, Record>, trail: seq<Event>, e: Event)
    requires EvidenceOk(records, trail) && (e.Sent? ==> e.command.id in records && records[e.command.id].status.Pending?)
    ensures EvidenceOk(records, trail + [e])
  {
    forall id | id in records ensures RecordExplained(trail + [e], id, records[id]) {
      var r := records[id];
      assert RecordExplained(trail, id, r);
      if Terminal(r.status) && r.result.Some? && r.result.value != RecoveredResult(id, r) {
        ExplanationStays(trail, e, id, r.fingerprint, r.result.value);
      }
    }
  }

  lemma CallsGrow(records: map<string, Record>, trail: seq<Event>, e: Event)
    requires CallsOk(records, trail) && (e.Sent? ==> e.command.id in records && NotSent(trail, e.command.id))
    ensures CallsOk(records, trail + [e])
  {
  }

  lemma RepliesGrow(records: map<string, Record>, trail: seq<Event>, e: Event)
    requires RepliesOk(records, trail) && ReplyOk(records, e)
    ensures RepliesOk(records, trail + [e])
  {
  }

  lemma TrailGrows(records: map<string, Record>, trail: seq<Event>, e: Event)
    requires HistoryOk(records, trail) && ReplyOk(records, e)
    requires e.Sent? ==> e.command.id in records && records[e.command.id].status.Pending? && NotSent(trail, e.command.id)
    ensures HistoryOk(records, trail + [e])
  {
    EvidenceGrows(records, trail, e);
    CallsGrow(records, trail, e);
    RepliesGrow(records, trail, e);
  }

  /** The reading after an EXECUTED answer explains the result that is persisted. */
  lemma ReadingExplains(trail: seq<Event>, c: Command, a: CommandResult, reading: Result<Snapshot>)
    requires AnsweredWith(trail, c, a) && SaysExecuted(c, Ok(a))
    ensures Explained(trail + [ReadBack(c, reading)], c.id, FingerprintOf(c), ReadResult(c, a, reading))
  {
    var k :| 0 <= k < |trail| && trail[k] == Called(c, Ok(a));
    var more := trail + [ReadBack(c, reading)];
    assert more[k] == trail[k];
    assert ReadAs(more[|trail|], c, a, ReadResult(c, a, reading));
    assert Became(more, k, ReadResult(c, a, reading));
  }

  /** Any other answer explains it at once. */
  lemma AnswerExplains(trail: seq<Event>, c: Command, answer: Result<CommandResult>)
    requires !SaysExecuted(c, answer)
    ensures Explained(trail + [Called(c, answer)], c.id, FingerprintOf(c), Judged(c, answer))
  {
    var more := trail + [Called(c, answer)];
    assert TakenAs(c, answer, Judged(c, answer));
    assert Became(more, |trail|, Judged(c, answer));
  }

  lemma RecordAdded(records: map<string, Record>, trail: seq<Event>, id: string, r: Record)
    requires HistoryOk(records, trail) && id !in records && r.status.Pending?
    ensures HistoryOk(records[id := r], trail)
    ensures NotSent(trail, id)
  {
    assert forall x :: x in records ==> RecordExplained(trail, x, records[x]);
    assert forall i :: 0 <= i < |trail| ==> ReplyOk(records, trail[i]);
  }

  lemma RecordCompleted(records: map<string, Record>, trail: seq<Event>, c: Command, meta: CommandMeta, r: CommandResult)
    requires HistoryOk(records, trail) && c.id in records && records[c.id] == PendingRecord(c, meta)
    requires Terminal(r.status) && Explained(trail, c.id, FingerprintOf(c), r)
    ensures HistoryOk(records[c.id := PendingRecord(c, meta).(status := r.status, result := Some(r))], trail)
  {
    var after := records[c.id := PendingRecord(c, meta).(status := r.status, result := Some(r))];
    forall id | id in after ensures RecordExplained(trail, id, after[id]) {
      if id != c.id {
        assert RecordExplained(trail, id, records[id]);
      }
    }
    forall i | 0 <= i < |trail| ensures ReplyOk(after, trail[i]) {
      assert ReplyOk(records, trail[i]);
    }
  }

  lemma RecordsRecovered(before: Db, after: Db, trail: seq<Event>)
    requires RecordsOk(before) && HistoryOk(before.records, trail) && RecoveredFrom(before, after)
    ensures HistoryOk(after.records, trail)
  {
    forall id ensures ClosedRow(before, after, id, id in PendingIds(before)) {}
    forall id | id in after.records ensures RecordExplained(trail, id, after.records[id]) {
      assert ClosedRow(before, after, id, id in PendingIds(before));
      assert RecordExplained(trail, id, before.records[id]);
    }
    forall i | 0 <= i < |trail| ensures ReplyOk(after.records, trail[i]) {
      assert ReplyOk(before.records, trail[i]);
      if trail[i].Replied? {
        assert ClosedRow(before, after, trail[i].command.id, trail[i].command.id in PendingIds(before));
      }
    }
    forall i | 0 <= i < |trail| && trail[i].Sent? ensures trail[i].command.id in after.records {
      assert ClosedRow(before, after, trail[i].command.id, trail[i].command.id in PendingIds(before));
    }
  }

  lemma PendingAfter(records: map<string, Record>, id: string, r: Record)
    requires OnlyPending(records, id)
    ensures OnlyPending(records[id := r], id)
    ensures !r.status.Pending? ==> NonePending(records[id := r])
    ensures id in records && !records[id].status.Pending? ==> NonePending(records)
  {
    var after := records[id := r];
    forall x | IsPending(after, x) ensures x == id {
      assert x == id || IsPending(records, x);
    }
  }

  // -------------------------------------------------------------- database lemmas

  lemma BeginKeeps(db: Db, c: Command, meta: CommandMeta, commit: Commit)
    requires DbOk(db) && NormalizeCommand(c) == c
    ensures DbOk(Begun(db, c, meta, commit))
  {
    var after := Begun(db, c, meta, commit);
    forall id ensures RowsFor(after, id) {
      assert RowsFor(db, id);
    }
  }

  lemma CompletionKeeps(db: Db, c: Command, meta: CommandMeta, r: CommandResult, readback: Option<Snapshot>, current: Option<Current>)
    requires DbOk(db) && c.id in db.records && db.records[c.id] == PendingRecord(c, meta)
    requires r.commandId == c.id && r.name == c.name && Terminal(r.status)
    ensures var k := Completion(r, readback, ResultMessage(r), meta, FingerprintOf(c));
            DbOk(Db(db.records[c.id := db.records[c.id].(status := r.status, result := Some(r))],
                    db.operations + [OperationFor(k)], db.audits + [AuditFor(k, current)], current))
  {
    var k := Completion(r, readback, ResultMessage(r), meta, FingerprintOf(c));
    var after := Db(db.records[c.id := db.records[c.id].(status := r.status, result := Some(r))],
                    db.operations + [OperationFor(k)], db.audits + [AuditFor(k, current)], current);
    assert RecordOk(c.id, db.records[c.id]);
    forall id ensures RowsFor(after, id) {
      assert RowsFor(db, id);
      AppendedRows(db.operations, OperationFor(k), db.audits, AuditFor(k, current), id);
    }
  }

  lemma RecoveryKeeps(before: Db, after: Db)
    requires DbOk(before) && RecoveredFrom(before, after)
    ensures DbOk(after) && NonePending(after.records)
  {
    forall id | id in after.records ensures RecordOk(id, after.records[id]) && !IsPending(after.records, id) {
      assert ClosedRow(before, after, id, id in PendingIds(before));
      assert RecordOk(id, before.records[id]);
    }
    assert "UNKNOWN" + ": " == "UNKNOWN: ";
    forall id ensures RowsFor(after, id) {
      assert ClosedRow(before, after, id, id in PendingIds(before));
      assert RowsFor(before, id);
      if id in before.records {
        assert RecordOk(id, before.records[id]);
      }
    }
  }

  // -------------------------------------------------------------- one step

  lemma SubmitNew(s: System, c: Command, meta: CommandMeta, commit: Commit)
    requires Inv(s) && s.phase.Idle? && NormalizeCommand(c) == c && c.id !in s.store.db.records
    ensures Inv(Submitted(s, c, meta, commit))
  {
    var db := s.store.db;
    BeginKeeps(db, c, meta, commit);
    RecordAdded(db.records, s.trail, c.id, PendingRecord(c, meta));
    if !commit.Lost? {
      PendingAfter(db.records, c.id, PendingRecord(c, meta));
    }
  }

  lemma SubmitKnown(s: System, c: Command, meta: CommandMeta, commit: Commit)
    requires Inv(s) && s.phase.Idle? && NormalizeCommand(c) == c && c.id in s.store.db.records
    ensures Inv(Submitted(s, c, meta, commit))
  {
    var records := s.store.db.records;
    assert RecordOk(c.id, records[c.id]) && !IsPending(records, c.id);
    if !commit.Lost? {
      TrailGrows(records, s.trail, Replied(c,
        if records[c.id].fingerprint != FingerprintOf(c) then ConflictResult(c) else Replay(c, records[c.id])));
    }
  }

  lemma SubmitKeeps(s: System, command: Command, meta: CommandMeta, commit: Commit)
    requires Inv(s) && s.phase.Idle?
    ensures Inv(Submitted(s, command, meta, commit))
  {
    var c := NormalizeCommand(command);
    CommandIdentity(command, command);
    if c.id in s.store.db.records {
      SubmitKnown(s, c, meta, commit);
    } else {
      SubmitNew(s, c, meta, commit);
    }
  }

  lemma CheckKeeps(s: System, loadFails: bool, now: int, staleAfter: int)
    requires Inv(s) && s.phase.Admitted?
    ensures Inv(Checked(s, loadFails, now, staleAfter))
  {
  }

  lemma CallKeeps(s: System)
    requires Inv(s) && s.phase.Ready?
    ensures Inv(DidCall(s))
  {
    TrailGrows(s.store.db.records, s.trail, Sent(s.phase.command));
  }

  lemma ExecuteKeeps(s: System, answer: Result<CommandResult>)
    requires Inv(s) && s.phase.Calling?
    ensures Inv(DidExecute(s, answer))
  {
    var c, r := s.phase.command, Judged(s.phase.command, answer);
    TrailGrows(s.store.db.records, s.trail, Called(c, answer));
    if r.status.Executed? {
      assert answer == Ok(r);
      assert (s.trail + [Called(c, answer)])[|s.trail|] == Called(c, Ok(r));
    } else {
      AnswerExplains(s.trail, c, answer);
    }
  }

  lemma ReadKeeps(s: System, reading: Result<Snapshot>)
    requires Inv(s) && s.phase.Reading?
    ensures Inv(DidRead(s, reading))
  {
    var p := s.phase;
    TrailGrows(s.store.db.records, s.trail, ReadBack(p.command, reading));
    ReadingExplains(s.trail, p.command, p.result, reading);
  }

  /** One completion attempt: whatever it reports, the tables stay sound and the record is
      pending or holds the outcome; a success means it holds the outcome. */
  lemma AttemptKeeps(s: System, now: int, staleAfter: int, commit: Commit)
    requires Inv(s) && s.phase.Persisting?
    ensures var p := s.phase;
            var a := CommandStore.Completed(s.store, CompletionOf(p), now, staleAfter, commit);
            && DbOk(a.state.db) && HistoryOk(a.state.db.records, s.trail)
            && InFlight(a.state.db.records, p.command, p.meta, Some(p.result))
            && (a.reply.Ok? ==> NonePending(a.state.db.records) && a.state.db.records[p.command.id].result == Some(p.result))
  {
    var p, db := s.phase, s.store.db;
    var current := AfterReadback(db.current, p.readback, now, staleAfter);
    PendingAfter(db.records, p.command.id, PendingRecord(p.command, p.meta).(status := p.result.status, result := Some(p.result)));
    if db.records[p.command.id] == PendingRecord(p.command, p.meta) {
      if !commit.Lost? && current.Ok? {
        CompletionKeeps(db, p.command, p.meta, p.result, p.readback, current.value);
        RecordCompleted(db.records, s.trail, p.command, p.meta, p.result);
      }
    }
  }

  lemma PersistKeeps(s: System, now: int, staleAfter: int, commit: Commit)
    requires Inv(s) && s.phase.Persisting?
    ensures Inv(Persisted(s, now, staleAfter, commit))
  {
    var p := s.phase;
    var t := Persisted(s, now, staleAfter, commit);
    AttemptKeeps(s, now, staleAfter, commit);
    if t.phase.Idle? {
      TrailGrows(t.store.db.records, s.trail, Replied(p.command, p.result));
    }
  }

  lemma StepKeeps(s: System, step: Step, t: System)
    requires Inv(s) && Next(s, step, t)
    ensures Inv(t)
  {
    match step
    case Submit(command, meta, commit) => SubmitKeeps(s, command, meta, commit);
    case CheckReady(loadFails, now, staleAfter) => CheckKeeps(s, loadFails, now, staleAfter);
    case Call => CallKeeps(s);
    case Execute(answer) => ExecuteKeeps(s, answer);
    case Read(reading) => ReadKeeps(s, reading);
    case Persist(now, staleAfter, commit) => PersistKeeps(s, now, staleAfter, commit);
    case GiveUp =>
    case Crash =>
    case Restart(commit) =>
      if !commit.Lost? {
        RecoveryKeeps(s.store.db, t.store.db);
        RecordsRecovered(s.store.db, t.store.db, s.trail);
      }
    case Sample(sample, receivedAt, staleAfter, commit) => SnapshotOnly(s, t);
    case GoStale(code, loaded, commit) => SnapshotOnly(s, t);
  }

  /** Sampling touches the current snapshot and the health flag only. */
  lemma SnapshotOnly(s: System, t: System)
    requires Inv(s) && t.phase == s.phase && t.trail == s.trail
    requires t.store.db == s.store.db.(current := t.store.db.current)
    ensures Inv(t)
  {
    forall id ensures RowsFor(t.store.db, id) {
      assert RowsFor(s.store.db, id);
    }
  }
}

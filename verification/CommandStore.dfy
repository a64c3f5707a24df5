/**
  The agent's durable store: command records with their operation and audit rows,
  and the current device snapshot. A transaction edits a copy of the tables and
  its commit makes the copy the tables.
*/
module CommandStore {
  import opened Wrappers
  import opened Contract
  import opened CommandResults

  datatype CommandMeta = CommandMeta(operator: string, requestId: string)

  datatype Record = Record(
    fingerprint: Fingerprint, name: string, status: Status, meta: CommandMeta, result: Option<CommandResult>)

  datatype OperationRow = OperationRow(commandId: string, action: string, status: Status, message: string)

  datatype AuditRow = AuditRow(
    operator: string, action: string, message: string, revision: nat, requestId: string,
    commandId: string, status: Status, code: string, simulationOnly: bool, fingerprint: Fingerprint, recovered: bool)

  // The current snapshot: the copied source fields and its freshness.
  datatype Current = Current(
    sessionId: string, sampleSequence: nat, revision: nat, updatedAt: int, receivedAt: int,
    quality: Quality, plcConnected: bool, stale: bool)

  datatype Db = Db(records: map<string, Record>, operations: seq<OperationRow>, audits: seq<AuditRow>, current: Option<Current>)

  datatype Health = Health(available: bool, code: string)

  // How a transaction ends: done; rolled back with an error; or durable although it reports an error.
  datatype Commit = Committed | Lost | Unacknowledged

  // -------------------------------------------------------------- snapshots

  function AvailabilityCode(c: Current, now: int, staleAfter: int): string {
    if !c.plcConnected then DEVICE_UNAVAILABLE
    else if c.quality != Good then BAD_QUALITY
    else if c.stale || c.receivedAt == 0 || c.updatedAt == 0 || c.receivedAt > now || c.updatedAt > now ||
            now - c.receivedAt >= staleAfter || now - c.updatedAt >= staleAfter then DATA_STALE
    else ""
  }

  datatype Merge = Merged(current: Current) | StaleSnapshot | InvalidSnapshot

  function FromPLC(s: Snapshot, receivedAt: int): Current {
    Current(s.sessionId, s.sampleSequence, s.points.controlRevision, s.generatedAt, receivedAt,
            s.quality, s.points.plcConnected, false)
  }

  /** Accepts a reading unless it is malformed or older than what is stored. */
  function MergeSnapshot(s: Snapshot, previous: Option<Current>, receivedAt: int, staleAfter: int): Merge {
    if s.schemaVersion != SCHEMA_VERSION || s.sessionId == "" || s.generatedAt == 0 then InvalidSnapshot
    else if previous.Some? && s.points.controlRevision < previous.value.revision then StaleSnapshot
    else if previous.Some? && s.sessionId == previous.value.sessionId &&
            s.points.controlRevision == previous.value.revision &&
            s.sampleSequence < previous.value.sampleSequence then StaleSnapshot
    else if previous.Some? && s.sessionId != previous.value.sessionId &&
            s.points.controlRevision == previous.value.revision &&
            s.generatedAt < previous.value.updatedAt then StaleSnapshot
    else
      var c := FromPLC(s, receivedAt);
      Merged(c.(stale := AvailabilityCode(c, receivedAt, staleAfter) != ""))
  }

  /** What may follow `older` as the stored snapshot: the control revision never falls, and
      within a session neither does the pair (revision, sample sequence); a snapshot of another
      session at the same revision is not older by the source's clock. */
  predicate NotBefore(newer: Option<Current>, older: Option<Current>) {
    older.Some? ==>
      && newer.Some?
      && newer.value.revision >= older.value.revision
      && (newer.value.sessionId == older.value.sessionId && newer.value.revision == older.value.revision ==>
            newer.value.sampleSequence >= older.value.sampleSequence)
      && (newer.value.sessionId != older.value.sessionId && newer.value.revision == older.value.revision ==>
            newer.value.updatedAt >= older.value.updatedAt)
  }

  /** A stored snapshot that is connected, GOOD and younger than the limit by both of its clocks. */
  predicate FreshAndGood(c: Option<Current>, now: int, staleAfter: int) {
    && c.Some? && c.value.plcConnected && c.value.quality.Good? && !c.value.stale
    && c.value.receivedAt != 0 && c.value.updatedAt != 0
    && 0 <= now - c.value.receivedAt < staleAfter && 0 <= now - c.value.updatedAt < staleAfter
  }

  // -------------------------------------------------------------- specification

  datatype StoreState = StoreState(db: Db, health: Health)

  function Unavailable(code: string): Health {
    Health(false, if code == "" then BACKEND_UNAVAILABLE else code)
  }

  function HealthOf(c: Current, now: int, staleAfter: int): Health {
    var code := AvailabilityCode(c, now, staleAfter);
    if code != "" then Unavailable(code) else Health(true, "")
  }

  datatype BeginReply = Fresh | Existing(result: CommandResult) | Conflict | BeginFailed

  function Replay(c: Command, r: Record): CommandResult {
    if r.result.Some? then r.result.value else CommandResult(c.id, c.name, r.status, "", "", false, 0, None)
  }

  function PendingRecord(c: Command, meta: CommandMeta): Record {
    Record(FingerprintOf(c), c.name, Pending, meta, None)
  }

  function BeginAnswer(db: Db, command: Command, commit: Commit): BeginReply {
    var c := NormalizeCommand(command);
    if c.id in db.records then
      if commit.Lost? then BeginFailed
      else if db.records[c.id].fingerprint != FingerprintOf(c) then Conflict
      else Existing(Replay(c, db.records[c.id]))
    else if commit.Committed? then Fresh else BeginFailed
  }

  function Begun(db: Db, command: Command, meta: CommandMeta, commit: Commit): Db {
    var c := NormalizeCommand(command);
    if c.id in db.records || commit.Lost? then db
    else db.(records := db.records[c.id := PendingRecord(c, meta)])
  }

  // Everything one completion is asked to store.
  datatype Completion = Completion(
    result: CommandResult, readback: Option<Snapshot>, message: string,
    meta: CommandMeta, fingerprint: Fingerprint)

  function OperationFor(k: Completion): OperationRow {
    OperationRow(k.result.commandId, k.result.name, k.result.status, k.message)
  }

  function AuditFor(k: Completion, current: Option<Current>): AuditRow {
    AuditRow(k.meta.operator, "command." + k.result.name, k.message,
             if current.Some? then current.value.revision else 0, k.meta.requestId,
             k.result.commandId, k.result.status, k.result.code, k.result.simulationOnly, k.fingerprint, false)
  }

  /** The current snapshot after a readback: a late readback never replaces a newer sample. */
  function AfterReadback(current: Option<Current>, readback: Option<Snapshot>, receivedAt: int, staleAfter: int): Result<Option<Current>> {
    if readback.None? then Ok(current)
    else
      match MergeSnapshot(readback.value, current, receivedAt, staleAfter)
      case Merged(m) => Ok(Some(m))
      case StaleSnapshot => Ok(current)
      case InvalidSnapshot => Err("invalid PLC snapshot identity, schema or timestamp")
  }

  predicate Accepts(current: Option<Current>, readback: Option<Snapshot>, receivedAt: int, staleAfter: int) {
    readback.Some? && MergeSnapshot(readback.value, current, receivedAt, staleAfter).Merged?
  }

  /** A record that already holds this outcome. */
  predicate AlreadyCompleted(r: Record, result: CommandResult) {
    && Terminal(r.status) && r.result.Some?
    && r.result.value.commandId == result.commandId
    && r.name == result.name && r.result.value.name == result.name
    && r.result.value.status == result.status == r.status
  }

  datatype CompleteAnswer = CompleteAnswer(state: StoreState, reply: Result<Option<Current>>)

  function Completed(s: StoreState, k: Completion, receivedAt: int, staleAfter: int, commit: Commit): CompleteAnswer {
    var db, id := s.db, k.result.commandId;
    var broken := StoreState(db, Unavailable(BACKEND_UNAVAILABLE));
    if !Terminal(k.result.status) then CompleteAnswer(s, Err("command result status is not terminal"))
    else if commit.Lost? then CompleteAnswer(broken, Err("storage"))
    else if id !in db.records then CompleteAnswer(s, Err("command record does not exist"))
    else if db.records[id].status != Pending then
      if !AlreadyCompleted(db.records[id], k.result) then CompleteAnswer(s, Err("command record already completed"))
      else if db.current.None? then CompleteAnswer(s, Ok(None))
      else CompleteAnswer(s.(health := HealthOf(db.current.value, receivedAt, staleAfter)), Ok(db.current))
    else
      match AfterReadback(db.current, k.readback, receivedAt, staleAfter)
      case Err(e) => CompleteAnswer(s, Err(e))
      case Ok(current) =>
        var done := Db(db.records[id := db.records[id].(status := k.result.status, result := Some(k.result))],
                       db.operations + [OperationFor(k)], db.audits + [AuditFor(k, current)], current);
        if commit.Unacknowledged? then CompleteAnswer(StoreState(done, Unavailable(BACKEND_UNAVAILABLE)), Err("storage"))
        else
          var health := if Accepts(db.current, k.readback, receivedAt, staleAfter)
                        then HealthOf(current.value, receivedAt, staleAfter) else s.health;
          CompleteAnswer(StoreState(done, health), Ok(current))
  }

  function Saved(s: StoreState, reading: Snapshot, receivedAt: int, staleAfter: int, commit: Commit): CompleteAnswer {
    if commit.Lost? then CompleteAnswer(s.(health := Unavailable(BACKEND_UNAVAILABLE)), Err("storage"))
    else
      match MergeSnapshot(reading, s.db.current, receivedAt, staleAfter)
      case InvalidSnapshot => CompleteAnswer(s, Err("invalid PLC snapshot identity, schema or timestamp"))
      case StaleSnapshot => CompleteAnswer(s, Err("snapshot is older than the persisted source state"))
      case Merged(m) =>
        var db := s.db.(current := Some(m));
        if commit.Unacknowledged? then CompleteAnswer(StoreState(db, Unavailable(BACKEND_UNAVAILABLE)), Err("storage"))
        else CompleteAnswer(StoreState(db, HealthOf(m, receivedAt, staleAfter)), Ok(Some(m)))
  }

  /** `loaded` is whether the transaction began and could look for a snapshot; with none stored the code is given whatever its commit says. */
  function MarkedStale(s: StoreState, code: string, loaded: bool, commit: Commit): StoreState {
    if !loaded then s.(health := Unavailable(BACKEND_UNAVAILABLE))
    else if s.db.current.None? then s.(health := Unavailable(code))
    else
      var db := if commit.Lost? then s.db else s.db.(current := Some(s.db.current.value.(stale := true)));
      StoreState(db, Unavailable(if commit.Committed? then code else BACKEND_UNAVAILABLE))
  }

  // -------------------------------------------------------------- recovery

  function OperationsOf(rows: seq<OperationRow>, id: string): seq<OperationRow> {
    if rows == [] then []
    else
      var last := rows[|rows| - 1];
      OperationsOf(rows[..|rows| - 1], id) + (if last.commandId == id then [last] else [])
  }

  function AuditsOf(rows: seq<AuditRow>, id: string): seq<AuditRow> {
    if rows == [] then []
    else
      var last := rows[|rows| - 1];
      AuditsOf(rows[..|rows| - 1], id) + (if last.commandId == id then [last] else [])
  }

  const RECOVERY_REASON := "agent restarted before command outcome was recorded"

  function RecoveredResult(id: string, r: Record): CommandResult {
    CommandResult(id, r.name, Unknown, OUTCOME_UNKNOWN, RECOVERY_REASON, false, 0, None)
  }

  function RecoveredRecord(id: string, r: Record): Record {
    if r.status == Pending then r.(status := Unknown, result := Some(RecoveredResult(id, r))) else r
  }

  function RecoveryOperation(id: string, r: Record): OperationRow {
    OperationRow(id, r.name, Unknown, "UNKNOWN: " + RECOVERY_REASON)
  }

  function RecoveryAudit(id: string, r: Record): AuditRow {
    AuditRow(r.meta.operator, "command." + r.name, "UNKNOWN: " + RECOVERY_REASON, 0, r.meta.requestId,
             id, Unknown, OUTCOME_UNKNOWN, false, r.fingerprint, true)
  }

  predicate IsPending(records: map<string, Record>, id: string) {
    id in records && records[id].status == Pending
  }

  function PendingIds(db: Db): set<string> {
    set id | id in db.records && db.records[id].status == Pending
  }

  ghost predicate ClosedRow(before: Db, after: Db, id: string, closed: bool) {
    && (id in before.records <==> id in after.records)
    && (id in before.records ==>
          after.records[id] == if closed then RecoveredRecord(id, before.records[id]) else before.records[id])
    && (closed ==> id in before.records)
    && OperationsOf(after.operations, id) ==
         OperationsOf(before.operations, id) + (if closed then [RecoveryOperation(id, before.records[id])] else [])
    && AuditsOf(after.audits, id) ==
         AuditsOf(before.audits, id) + (if closed then [RecoveryAudit(id, before.records[id])] else [])
  }

  /** `after` is `before` with the commands of `ids` closed as UNKNOWN, one operation and
      one audit row each. The order among the new rows is the database's own. */
  ghost predicate Closed(before: Db, after: Db, ids: set<string>) {
    after.current == before.current && forall id :: ClosedRow(before, after, id, id in ids)
  }

  ghost predicate RecoveredFrom(before: Db, after: Db) {
    Closed(before, after, PendingIds(before))
  }

  function CloseOne(db: Db, id: string): Db
    requires id in db.records
  {
    var r := db.records[id];
    Db(db.records[id := RecoveredRecord(id, r)], db.operations + [RecoveryOperation(id, r)],
       db.audits + [RecoveryAudit(id, r)], db.current)
  }

  lemma ClosingOne(before: Db, tx: Db, ids: set<string>, id: string)
    requires Closed(before, tx, ids) && id in before.records && id !in ids
    ensures id in tx.records && Closed(before, CloseOne(tx, id), ids + {id})
  {
    assert ClosedRow(before, tx, id, false);
    var next := CloseOne(tx, id);
    forall x ensures ClosedRow(before, next, x, x in ids + {id}) {
      assert ClosedRow(before, tx, x, x in ids);
      AppendedRows(tx.operations, RecoveryOperation(id, tx.records[id]), tx.audits, RecoveryAudit(id, tx.records[id]), x);
    }
  }

  lemma AppendedRows(ops: seq<OperationRow>, op: OperationRow, audits: seq<AuditRow>, audit: AuditRow, id: string)
    ensures OperationsOf(ops + [op], id) == OperationsOf(ops, id) + if op.commandId == id then [op] else []
    ensures AuditsOf(audits + [audit], id) == AuditsOf(audits, id) + if audit.commandId == id then [audit] else []
  {
    assert (ops + [op])[..|ops|] == ops;
    assert (audits + [audit])[..|audits|] == audits;
  }

  method CloseAllPending(db: Db) returns (tx: Db)
    ensures RecoveredFrom(db, tx)
  {
    var pending := PendingIds(db);
    ghost var done: set<string> := {};
    tx := db;
    while pending != {}
      invariant Closed(db, tx, done)
      invariant pending + done == PendingIds(db) && pending !! done
      decreases pending
    {
      var id :| id in pending;
      ClosingOne(db, tx, done, id);
      tx := CloseOne(tx, id);
      pending, done := pending - {id}, done + {id};
    }
    assert done == PendingIds(db);
  }

  // -------------------------------------------------------------- the store

  class Store {
    var db: Db
    var health: Health

    ghost function State(): StoreState
      reads this
    {
      StoreState(db, health)
    }

    constructor ()
      ensures db == Db(map[], [], [], None) && health == Unavailable(BACKEND_UNAVAILABLE)
    {
      db := Db(map[], [], [], None);
      health := Health(false, BACKEND_UNAVAILABLE);
    }

    method SetSourceUnavailable(code: string)
      modifies this`health
      ensures health == Unavailable(code)
    {
      health := Health(false, if code == "" then BACKEND_UNAVAILABLE else code);
    }

    method SetAvailabilityFromRecord(current: Current, now: int, staleAfter: int)
      modifies this`health
      ensures health == HealthOf(current, now, staleAfter)
    {
      var code := AvailabilityCode(current, now, staleAfter);
      if code != "" {
        SetSourceUnavailable(code);
      } else {
        health := Health(true, "");
      }
    }

    method BeginCommand(command: Command, meta: CommandMeta, commit: Commit) returns (r: BeginReply)
      modifies this`db
      ensures r == BeginAnswer(old(db), command, commit)
      ensures db == Begun(old(db), command, meta, commit)
    {
      var c := NormalizeCommand(command);
      CommandIdentity(command, command);
      if commit == Lost {
        return BeginFailed;
      }
      if c.id in db.records {
        var stored := db.records[c.id];
        if stored.fingerprint != FingerprintOf(c) {
          return Conflict;
        }
        var result := CommandResult(c.id, c.name, stored.status, "", "", false, 0, None);
        if stored.result.Some? {
          result := stored.result.value;
        }
        return Existing(result);
      }
      db := db.(records := db.records[c.id := Record(FingerprintOf(c), c.name, Pending, meta, None)]);
      r := if commit == Unacknowledged then BeginFailed else Fresh;
    }

    method CompleteCommand(k: Completion, receivedAt: int, staleAfter: int, commit: Commit) returns (r: Result<Option<Current>>)
      modifies this
      ensures CompleteAnswer(State(), r) == Completed(old(State()), k, receivedAt, staleAfter, commit)
    {
      var id := k.result.commandId;
      if !Terminal(k.result.status) {
        return Err("command result status is not terminal");
      }
      if commit == Lost {
        SetSourceUnavailable(BACKEND_UNAVAILABLE);
        return Err("storage");
      }
      if id !in db.records {
        return Err("command record does not exist");
      }
      var stored := db.records[id];
      if stored.status != Pending {
        if !AlreadyCompleted(stored, k.result) {
          return Err("command record already completed");
        }
        if db.current.Some? {
          SetAvailabilityFromRecord(db.current.value, receivedAt, staleAfter);
        }
        return Ok(db.current);
      }
      var current, accepted := db.current, false;
      if k.readback.Some? {
        match MergeSnapshot(k.readback.value, current, receivedAt, staleAfter)
        case Merged(m) => current, accepted := Some(m), true;
        case StaleSnapshot =>
        case InvalidSnapshot => return Err("invalid PLC snapshot identity, schema or timestamp");
      }
      var tx := db.(current := current);
      tx := tx.(records := tx.records[id := stored.(status := k.result.status, result := Some(k.result))]);
      tx := tx.(operations := tx.operations + [OperationFor(k)]);
      tx := tx.(audits := tx.audits + [AuditFor(k, current)]);
      db := tx;
      if commit == Unacknowledged {
        SetSourceUnavailable(BACKEND_UNAVAILABLE);
        return Err("storage");
      }
      if accepted {
        SetAvailabilityFromRecord(current.value, receivedAt, staleAfter);
      }
      r := Ok(current);
    }

    method SavePLC(reading: Snapshot, receivedAt: int, staleAfter: int, commit: Commit) returns (r: Result<Option<Current>>)
      modifies this
      ensures CompleteAnswer(State(), r) == Saved(old(State()), reading, receivedAt, staleAfter, commit)
    {
      if commit == Lost {
        SetSourceUnavailable(BACKEND_UNAVAILABLE);
        return Err("storage");
      }
      match MergeSnapshot(reading, db.current, receivedAt, staleAfter)
      case InvalidSnapshot => r := Err("invalid PLC snapshot identity, schema or timestamp");
      case StaleSnapshot => r := Err("snapshot is older than the persisted source state");
      case Merged(m) =>
        db := db.(current := Some(m));
        if commit == Unacknowledged {
          SetSourceUnavailable(BACKEND_UNAVAILABLE);
          return Err("storage");
        }
        SetAvailabilityFromRecord(m, receivedAt, staleAfter);
        r := Ok(Some(m));
    }

    method MarkStale(code: string, loaded: bool, commit: Commit) returns (ok: bool)
      modifies this
      ensures State() == MarkedStale(old(State()), code, loaded, commit)
      ensures ok == (loaded && commit.Committed?)
    {
      if !loaded {
        SetSourceUnavailable(BACKEND_UNAVAILABLE);
        return false;
      }
      if db.current.None? {
        SetSourceUnavailable(code);
        return commit == Committed;
      }
      if commit != Lost {
        db := db.(current := Some(db.current.value.(stale := true)));
      }
      if commit != Committed {
        SetSourceUnavailable(BACKEND_UNAVAILABLE);
        return false;
      }
      SetSourceUnavailable(code);
      return true;
    }

    /** Start-up: every command whose outcome was not recorded becomes UNKNOWN. */
    method RecoverPending(commit: Commit) returns (ok: bool)
      modifies this`db
      ensures commit.Lost? ==> db == old(db) && !ok
      ensures !commit.Lost? ==> RecoveredFrom(old(db), db) && ok == commit.Committed?
    {
      if commit == Lost {
        return false;
      }
      var tx := CloseAllPending(db);
      db := tx;
      ok := commit == Committed;
    }
  }
}

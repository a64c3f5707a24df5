/** What each transaction of the store does, told from the tables before it and the request alone. */
module StoreTheorems {
  import opened Wrappers
  import opened Contract
  import opened CommandResults
  import opened CommandStore

  // -------------------------------------------------------------- snapshots

  predicate WellFormed(s: Snapshot) {
    s.schemaVersion == "block-plc-private/v1" && s.sessionId != "" && s.generatedAt != 0
  }

  /** The sample as it is stored: its own fields, the instant of its receipt, and stale unless it is fresh and good then. */
  function Stored(s: Snapshot, receivedAt: int, staleAfter: int): Current {
    var c := Current(s.sessionId, s.sampleSequence, s.points.controlRevision, s.generatedAt, receivedAt, s.quality, s.points.plcConnected, false);
    c.(stale := !FreshAndGood(Some(c), receivedAt, staleAfter))
  }

  /** A sample is refused only if it is malformed or would move the stored snapshot back. */
  predicate Storable(s: Snapshot, current: Option<Current>, receivedAt: int, staleAfter: int) {
    WellFormed(s) && NotBefore(Some(Stored(s, receivedAt, staleAfter)), current)
  }

  lemma StoredWhenFresh(s: Snapshot, receivedAt: int, staleAfter: int)
    ensures AvailabilityCode(FromPLC(s, receivedAt), receivedAt, staleAfter) == "" <==>
            FreshAndGood(Some(FromPLC(s, receivedAt)), receivedAt, staleAfter)
    ensures Stored(s, receivedAt, staleAfter) ==
            FromPLC(s, receivedAt).(stale := AvailabilityCode(FromPLC(s, receivedAt), receivedAt, staleAfter) != "")
  {
  }

  lemma MergedExactlyWhen(s: Snapshot, current: Option<Current>, receivedAt: int, staleAfter: int)
    ensures var m := MergeSnapshot(s, current, receivedAt, staleAfter);
            && (m.InvalidSnapshot? <==> !WellFormed(s))
            && (m == Merged(Stored(s, receivedAt, staleAfter)) <==> Storable(s, current, receivedAt, staleAfter))
            && (m.StaleSnapshot? <==> WellFormed(s) && !NotBefore(Some(Stored(s, receivedAt, staleAfter)), current))
  {
    StoredWhenFresh(s, receivedAt, staleAfter);
  }

  /** The device is available on this snapshot, or it is not. */
  predicate HealthShows(h: Health, c: Current, now: int, staleAfter: int) {
    h.available == FreshAndGood(Some(c), now, staleAfter)
  }

  lemma HealthFollows(c: Current, now: int, staleAfter: int)
    ensures HealthShows(HealthOf(c, now, staleAfter), c, now, staleAfter)
    ensures !FreshAndGood(Some(c), now, staleAfter) ==>
      HealthOf(c, now, staleAfter).code == (if !c.plcConnected then "device_unavailable" else if !c.quality.Good? then "bad_quality" else "data_stale")
  {
  }

  /** A sample is stored exactly when it is well formed and not before what is stored; otherwise nothing changes. */
  lemma ASampleIsStoredExactlyWhen(s: StoreState, sample: Snapshot, receivedAt: int, staleAfter: int)
    ensures var a := Saved(s, sample, receivedAt, staleAfter, Committed);
            && (a.reply.Ok? <==> Storable(sample, s.db.current, receivedAt, staleAfter))
            && (a.reply.Ok? ==>
                  && a.reply.value == Some(Stored(sample, receivedAt, staleAfter))
                  && a.state.db == s.db.(current := Some(Stored(sample, receivedAt, staleAfter)))
                  && HealthShows(a.state.health, Stored(sample, receivedAt, staleAfter), receivedAt, staleAfter))
            && (a.reply.Err? ==> a.state == s)
  {
    MergedExactlyWhen(sample, s.db.current, receivedAt, staleAfter);
    HealthFollows(Stored(sample, receivedAt, staleAfter), receivedAt, staleAfter);
  }

  /** A transaction that fails answers an error and makes the device unavailable; the sample is stored if its commit happened. */
  lemma ASampleMayBeStoredUnacknowledged(s: StoreState, sample: Snapshot, receivedAt: int, staleAfter: int, commit: Commit)
    requires !commit.Committed?
    ensures var a, done := Saved(s, sample, receivedAt, staleAfter, commit), Saved(s, sample, receivedAt, staleAfter, Committed);
            && a.reply.Err?
            && a.state.db == (if commit.Lost? then s.db else done.state.db)
            && (commit.Lost? || Storable(sample, s.db.current, receivedAt, staleAfter) ==> a.state.health == Health(false, "backend_unavailable"))
  {
    MergedExactlyWhen(sample, s.db.current, receivedAt, staleAfter);
  }

  /** Marking stale keeps the stored snapshot's fields and withdraws availability: with the code it is given, or as the backend's own failure. */
  lemma MarkingStaleWithdraws(s: StoreState, code: string, loaded: bool, commit: Commit)
    ensures var t, marked := MarkedStale(s, code, loaded, commit), loaded && s.db.current.Some? && !commit.Lost?;
            && t.db == (if marked then s.db.(current := Some(s.db.current.value.(stale := true))) else s.db)
            && !t.health.available
            && t.health.code == (if !loaded || code == "" || (s.db.current.Some? && !commit.Committed?) then "backend_unavailable" else code)
  {
  }

  // -------------------------------------------------------------- commands

  /** A submission gets a new record, its old result, or a conflict, each exactly in its own case. */
  lemma ACommandBeginsExactlyWhen(db: Db, command: Command, meta: CommandMeta)
    ensures var id, after, answer := TrimSpace(command.id), Begun(db, command, meta, Committed), BeginAnswer(db, command, Committed);
            && (answer.Fresh? <==> id !in db.records)
            && (answer.Conflict? <==> id in db.records && db.records[id].fingerprint != FingerprintOf(command))
            && (answer.Existing? <==> id in db.records && db.records[id].fingerprint == FingerprintOf(command))
            && (answer.Existing? && db.records[id].result.Some? ==> answer.result == db.records[id].result.value)
            && after == (if answer.Fresh?
                         then db.(records := db.records[id := Record(FingerprintOf(command), TrimSpace(command.name), Pending, meta, None)])
                         else db)
  {
    CommandIdentity(command, command);
  }

  /** A transaction that fails answers an error; a new record is there if its commit happened. */
  lemma ACommandMayBeginUnacknowledged(db: Db, command: Command, meta: CommandMeta, commit: Commit)
    requires !commit.Committed? && TrimSpace(command.id) !in db.records
    ensures BeginAnswer(db, command, commit).BeginFailed?
    ensures Begun(db, command, meta, commit) == if commit.Lost? then db else Begun(db, command, meta, Committed)
  {
  }

  /** The stored snapshot after a readback: the readback if it may be stored, else what was there. */
  function CurrentAfter(current: Option<Current>, readback: Option<Snapshot>, receivedAt: int, staleAfter: int): Option<Current> {
    if readback.Some? && Storable(readback.value, current, receivedAt, staleAfter)
    then Some(Stored(readback.value, receivedAt, staleAfter)) else current
  }

  /** A pending record is completed exactly with a terminal result and no malformed readback; a late readback is passed over. */
  lemma ACompletionIsStoredExactlyWhen(s: StoreState, k: Completion, receivedAt: int, staleAfter: int)
    requires k.result.commandId in s.db.records && s.db.records[k.result.commandId].status.Pending?
    ensures var a := Completed(s, k, receivedAt, staleAfter, Committed);
            && (a.reply.Ok? <==> Terminal(k.result.status) && (k.readback.None? || WellFormed(k.readback.value)))
            && (a.reply.Err? ==> a.state == s)
            && (a.reply.Ok? ==> CompletedWith(s.db, a.state.db, k, CurrentAfter(s.db.current, k.readback, receivedAt, staleAfter)))
            && (a.reply.Ok? ==> a.reply.value == a.state.db.current)
  {
    if k.readback.Some? {
      MergedExactlyWhen(k.readback.value, s.db.current, receivedAt, staleAfter);
    }
  }

  /** The record holds the result, one operation row and one audit row tell of it, and nothing else changed. */
  predicate CompletedWith(before: Db, after: Db, k: Completion, current: Option<Current>)
    requires k.result.commandId in before.records
  {
    var id, r := k.result.commandId, k.result;
    && after.current == current
    && after.records == before.records[id := before.records[id].(status := r.status, result := Some(r))]
    && after.operations == before.operations + [OperationRow(id, r.name, r.status, k.message)]
    && after.audits == before.audits + [AuditRow(k.meta.operator, "command." + r.name, k.message,
                                                 if current.Some? then current.value.revision else 0, k.meta.requestId,
                                                 id, r.status, r.code, r.simulationOnly, k.fingerprint, false)]
  }

  /** Availability follows a readback that was stored, and nothing else. */
  lemma HealthAfterCompletion(s: StoreState, k: Completion, receivedAt: int, staleAfter: int)
    requires k.result.commandId in s.db.records && s.db.records[k.result.commandId].status.Pending? && Terminal(k.result.status)
    ensures var health := Completed(s, k, receivedAt, staleAfter, Committed).state.health;
            if k.readback.Some? && Storable(k.readback.value, s.db.current, receivedAt, staleAfter)
            then HealthShows(health, Stored(k.readback.value, receivedAt, staleAfter), receivedAt, staleAfter) else health == s.health
  {
    if k.readback.Some? {
      MergedExactlyWhen(k.readback.value, s.db.current, receivedAt, staleAfter);
      HealthFollows(Stored(k.readback.value, receivedAt, staleAfter), receivedAt, staleAfter);
    }
  }

  /** Any other completion changes no table: it succeeds exactly as the repetition of the stored outcome. */
  lemma ARepeatedCompletionSucceedsExactlyWhen(s: StoreState, k: Completion, receivedAt: int, staleAfter: int, commit: Commit)
    requires !commit.Lost?
    requires k.result.commandId !in s.db.records || !s.db.records[k.result.commandId].status.Pending?
    ensures var a, id := Completed(s, k, receivedAt, staleAfter, commit), k.result.commandId;
            && a.state.db == s.db
            && (a.reply.Ok? <==>
                  && Terminal(k.result.status) && id in s.db.records && Terminal(s.db.records[id].status) && s.db.records[id].result.Some?
                  && var stored := s.db.records[id].result.value;
                     && stored.commandId == id && stored.name == s.db.records[id].name == k.result.name
                     && stored.status == s.db.records[id].status == k.result.status)
  {
  }
}

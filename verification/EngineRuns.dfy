/**
  Every run of the simulator: conservation of parts, the revision ledger of
  executed commands, replay, restart, and independence from the sampling times.
*/
module PlcSimRuns {
  import opened Wrappers
  import opened Contract
  import opened PlcSim
  import opened PlcSimAlarms

  // -------------------------------------------------------------- operations

  datatype Op =
    | DoTick(now: int, persisted: bool)
    | DoCommand(command: Command, now: int, persisted: bool)
    | DoFault(request: FaultRequest, now: int, persisted: bool)
    | DoRestart(sessionId: string, now: int, persisted: bool)
    | DoReopen(sessionId: string, now: int, persisted: bool)

  function Kept(s: State, r: Result<State>): State {
    if r.Ok? then r.value else s
  }

  /** An operation that fails leaves the state (and the state file) as it was. */
  function Step(cfg: Config, s: State, op: Op): State
    requires |cfg.caps| == 3
  {
    match op
    case DoTick(now, persisted) => Kept(s, Ticked(cfg, s, now, persisted))
    case DoCommand(command, now, persisted) => Applied(cfg, s, command, now, persisted).state
    case DoFault(request, now, persisted) => Kept(s, FaultSet(cfg, s, request, now, persisted))
    case DoRestart(sessionId, now, persisted) => Kept(s, Restarted(cfg, s, sessionId, now, persisted))
    case DoReopen(sessionId, now, persisted) => Kept(s, Opened(cfg, Some(s), sessionId, now, persisted))
  }

  function Run(cfg: Config, s: State, ops: seq<Op>): State
    requires |cfg.caps| == 3
    decreases |ops|
  {
    if ops == [] then s else Step(cfg, Run(cfg, s, ops[..|ops| - 1]), ops[|ops| - 1])
  }

  /** The id of the command that `op` executes for the first time in `s`, if it does. */
  function Executes(cfg: Config, s: State, op: Op): Option<Command>
    requires |cfg.caps| == 3
  {
    if !op.DoCommand? then None
    else
      var c := NormalizeCommand(op.command);
      var o := Applied(cfg, s, op.command, op.now, op.persisted);
      if c.id !in s.processed && o.reply.Ok? && o.reply.value.status.Executed? then Some(c) else None
  }

  /** Whether the bins were emptied by hand since the start or the last reset. */
  function Cleared(cfg: Config, s: State, ops: seq<Op>): bool
    requires |cfg.caps| == 3
    decreases |ops|
  {
    if ops == [] then false
    else
      var before := ops[..|ops| - 1];
      var executed := Executes(cfg, Run(cfg, s, before), ops[|ops| - 1]);
      if executed.Some? && ActionOf(executed.value.name).ClearBins? then true
      else if executed.Some? && ActionOf(executed.value.name).Reset? then false
      else Cleared(cfg, s, before)
  }

  // -------------------------------------------------------------- invariants

  /** Counters, settings and quantities that every reachable state satisfies. */
  ghost predicate Sound(cfg: Config, s: State)
    requires |cfg.caps| == 3
  {
    && SoundCounts(s.points.counts)
    && s.points.controlRevision >= 1
    && s.points.cycleSeconds > 0 && s.points.target > 0 && s.points.toolLimit > 0 && s.points.inspectInterval > 0
    && s.points.mode in {"auto", "manual"}
    && s.points.counts.blank <= cfg.caps[0] && s.points.counts.finished <= cfg.caps[1] && s.rejectBin >= 0
  }

  ghost predicate SoundCounts(n: Counts) {
    ValidCounters(n) && n.toolUsed == n.output && n.blank >= 0 && n.finished >= 0
  }

  /** No part is lost: every blank is still blank, finished or rejected. */
  ghost predicate Conserved(cfg: Config, s: State)
    requires |cfg.caps| == 3
  {
    Balanced(s.points.counts, s.rejectBin, cfg.caps[0])
  }

  ghost predicate Balanced(n: Counts, rejectBin: int, blanks: int) {
    && n.finished == n.passed + n.pending
    && rejectBin == n.ng
    && n.blank + n.finished + rejectBin == blanks
  }

  predicate IsExecuted(m: map<string, Processed>, id: string) {
    id in m && m[id].result.status.Executed?
  }

  function ExecutedIds(m: map<string, Processed>): set<string> {
    set id | id in m && m[id].result.status.Executed?
  }

  function RevisionOf(m: map<string, Processed>, id: string): nat
    requires id in m
  {
    m[id].result.controlRevision
  }

  /** No expectation, or exactly this one. */
  predicate Expects(expected: Option<nat>, revision: int) {
    expected.None? || expected.value == revision
  }

  /** Executed commands carry the revisions 2..revision, once each. */
  ghost predicate Ledger(m: map<string, Processed>, revision: nat) {
    && |ExecutedIds(m)| + 1 == revision
    && AllFit(m, revision)
    && UniqueRevisions(m)
    && (forall id :: id in m ==> Names(m[id], id))
  }

  ghost predicate AllFit(m: map<string, Processed>, revision: nat) {
    forall id :: IsExecuted(m, id) ==> EntryFits(m[id], revision)
  }

  ghost predicate UniqueRevisions(m: map<string, Processed>) {
    forall a, b :: IsExecuted(m, a) && IsExecuted(m, b) && RevisionOf(m, a) == RevisionOf(m, b) ==> a == b
  }

  ghost predicate EntryFits(entry: Processed, revision: nat) {
    && 2 <= entry.result.controlRevision <= revision
    && Expects(entry.fingerprint.expectedRevision, entry.result.controlRevision - 1)
  }

  ghost predicate Names(entry: Processed, id: string) {
    entry.result.commandId == id && entry.result.name == entry.fingerprint.name
  }

  /** Fault-dependent inputs, bins and alarms are up to date. */
  ghost predicate Settled(cfg: Config, s: State)
    requires |cfg.caps| == 3
  {
    ApplyFaultState(s) == s && RefreshDerived(cfg, s) == s
  }

  // ------------------------------------------------------------ step lemmas

  lemma ProducesSoundly(cfg: Config, s: State)
    requires cfg.Valid() && Sound(cfg, s) && HasCapacity(cfg, s)
    ensures Sound(cfg, ProduceOne(cfg, s))
    ensures Conserved(cfg, s) ==> Conserved(cfg, ProduceOne(cfg, s))
    ensures ProduceOne(cfg, s).points.counts.output == s.points.counts.output + 1
    ensures ProduceOne(cfg, s).points.counts.finished >= s.points.counts.finished
    ensures ProduceOne(cfg, s).rejectBin <= cfg.caps[2]
  {
  }

  lemma InspectsSoundly(cfg: Config, s: State)
    requires cfg.Valid() && Sound(cfg, s) && s.points.counts.inspected < s.points.counts.output
    ensures Sound(cfg, InspectOne(cfg, s, true))
    ensures Conserved(cfg, s) ==> Conserved(cfg, InspectOne(cfg, s, true))
  {
  }

  /** What catching up leaves alone. */
  ghost predicate SameLine(s: State, t: State) {
    && t.processed == s.processed && t.faults == s.faults && t.generatedAt == s.generatedAt
    && t.sampleSequence == s.sampleSequence && t.sessionId == s.sessionId && t.schemaVersion == s.schemaVersion
    && t.points.(counts := s.points.counts) == s.points
  }

  lemma {:induction false} CatchUpKeeps(cfg: Config, s: State, cycle: int)
    requires cfg.Valid() && Sound(cfg, s)
    ensures Sound(cfg, CatchUp(cfg, s, cycle))
    ensures Conserved(cfg, s) ==> Conserved(cfg, CatchUp(cfg, s, cycle))
    ensures SameLine(s, CatchUp(cfg, s, cycle))
    ensures CatchUp(cfg, s, cycle).points.counts.output >= s.points.counts.output
    ensures CatchUp(cfg, s, cycle).points.counts.finished >= s.points.counts.finished
    ensures s.rejectBin <= cfg.caps[2] ==> CatchUp(cfg, s, cycle).rejectBin <= cfg.caps[2]
    decreases s.points.target - s.points.counts.output
  {
    if s.nextAt.Some? && s.generatedAt >= s.nextAt.value && CanProduce(s.points) && HasCapacity(cfg, s) {
      ProducesSoundly(cfg, s);
      CatchUpKeeps(cfg, ProduceOne(cfg, s).(nextAt := Some(s.nextAt.value + cycle)), cycle);
    }
  }

  ghost predicate Inv(cfg: Config, s: State)
    requires |cfg.caps| == 3
  {
    Sound(cfg, s) && Settled(cfg, s) && Ledger(s.processed, s.points.controlRevision)
  }

  // ---- ticks

  lemma TickIsCatchUp(cfg: Config, s: State, now: int)
    requires |cfg.caps| == 3 && ApplyFaultState(s) == s
    ensures var t := s.(sampleSequence := s.sampleSequence + 1, generatedAt := now);
            var cycle := s.points.cycleSeconds * SECOND;
            TickCandidate(cfg, s, now) ==
            if !CanProduce(s.points) || !HasCapacity(cfg, s) then t.(nextAt := None)
            else CatchUp(cfg, t.(nextAt := if s.nextAt.None? then Some(now + cycle) else s.nextAt), cycle)
  {
    var t := s.(sampleSequence := s.sampleSequence + 1, generatedAt := now);
    assert ApplyFaultState(t) == t;
  }

  lemma TickKeeps(cfg: Config, s: State, now: int)
    requires cfg.Valid() && Sound(cfg, s) && ApplyFaultState(s) == s
    ensures Sound(cfg, TickCandidate(cfg, s, now))
    ensures Conserved(cfg, s) ==> Conserved(cfg, TickCandidate(cfg, s, now))
    ensures SameLine(s.(sampleSequence := s.sampleSequence + 1, generatedAt := now), TickCandidate(cfg, s, now))
    ensures TickCandidate(cfg, s, now).points.counts.output >= s.points.counts.output
    ensures TickCandidate(cfg, s, now).points.counts.finished >= s.points.counts.finished
    ensures s.rejectBin <= cfg.caps[2] ==> TickCandidate(cfg, s, now).rejectBin <= cfg.caps[2]
    ensures !CanProduce(s.points) || !HasCapacity(cfg, s) ==>
            TickCandidate(cfg, s, now).points == s.points && TickCandidate(cfg, s, now).rejectBin == s.rejectBin
  {
    TickIsCatchUp(cfg, s, now);
    var t := s.(sampleSequence := s.sampleSequence + 1, generatedAt := now);
    var cycle := s.points.cycleSeconds * SECOND;
    CatchUpKeeps(cfg, t.(nextAt := if s.nextAt.None? then Some(now + cycle) else s.nextAt), cycle);
  }

  lemma SameLineSettles(cfg: Config, s: State, t: State)
    requires |cfg.caps| == 3 && ApplyFaultState(s) == s && SameLine(s, t)
    ensures Settled(cfg, RefreshDerived(cfg, t))
  {
    assert ApplyFaultState(t) == t;
    RefreshIsIdempotent(cfg, t);
  }

  lemma TickedInv(cfg: Config, s: State, now: int)
    requires cfg.Valid() && Inv(cfg, s)
    ensures ValidCounters(TickCandidate(cfg, s, now).points.counts)
    ensures Inv(cfg, RefreshDerived(cfg, TickCandidate(cfg, s, now)))
  {
    TickKeeps(cfg, s, now);
    SameLineSettles(cfg, s.(sampleSequence := s.sampleSequence + 1, generatedAt := now), TickCandidate(cfg, s, now));
  }

  // ---- commands

  lemma InspectKeeps(cfg: Config, s: State, c: Command)
    requires cfg.Valid() && Sound(cfg, s) && ApplyAction(cfg, s, Inspect, c).Accepted?
    ensures ApplyAction(cfg, s, Inspect, c).state == InspectOne(cfg, s, true)
    ensures var t := InspectOne(cfg, s, true);
            && Sound(cfg, t) && t.processed == s.processed && t.faults == s.faults
            && t.points.controlRevision == s.points.controlRevision && (Conserved(cfg, s) ==> Conserved(cfg, t))
  {
    InspectsSoundly(cfg, s);
  }

  /** Actions that touch neither the counters nor the reject bin. */
  predicate LeavesStock(a: Action) {
    a != Inspect && a != Reset && a != ClearBins
  }

  lemma SettingKeeps(cfg: Config, s: State, a: Action, c: Command)
    requires cfg.Valid() && Sound(cfg, s) && LeavesStock(a) && ApplyAction(cfg, s, a, c).Accepted?
    ensures var t := ApplyAction(cfg, s, a, c).state;
            && StockOf(t) == StockOf(s) && Sound(cfg, t) && t.processed == s.processed && t.faults == s.faults
            && t.points.controlRevision == s.points.controlRevision
  {
  }

  lemma EmptyingKeeps(cfg: Config, s: State, a: Action, c: Command)
    requires cfg.Valid() && Sound(cfg, s) && (a == Reset || a == ClearBins)
    ensures ApplyAction(cfg, s, a, c).Accepted?
    ensures var t := ApplyAction(cfg, s, a, c).state;
            && Sound(cfg, t) && t.processed == s.processed && t.faults == s.faults && t.rejectBin == 0
            && t.points.controlRevision == s.points.controlRevision && (a == Reset ==> Conserved(cfg, t))
  {
  }

  lemma ApplyActionKeeps(cfg: Config, s: State, a: Action, c: Command)
    requires cfg.Valid() && Sound(cfg, s) && ApplyAction(cfg, s, a, c).Accepted?
    ensures var t := ApplyAction(cfg, s, a, c).state;
            && Sound(cfg, t)
            && t.processed == s.processed && t.faults == s.faults
            && t.points.controlRevision == s.points.controlRevision
            && (a != Inspect && s.rejectBin <= cfg.caps[2] ==> t.rejectBin <= cfg.caps[2])
            && (a == Reset ==> Conserved(cfg, t))
            && (a != ClearBins && Conserved(cfg, s) ==> Conserved(cfg, t))
  {
    if a == Inspect {
      InspectKeeps(cfg, s, c);
    } else if LeavesStock(a) {
      SettingKeeps(cfg, s, a, c);
    } else {
      EmptyingKeeps(cfg, s, a, c);
    }
  }

  lemma LedgerRefused(m: map<string, Processed>, revision: nat, id: string, entry: Processed)
    requires Ledger(m, revision) && id !in m && !entry.result.status.Executed?
    requires Names(entry, id)
    ensures Ledger(m[id := entry], revision)
  {
    var u := m[id := entry];
    assert ExecutedIds(u) == ExecutedIds(m);
    assert forall x :: IsExecuted(u, x) ==> IsExecuted(m, x) && u[x] == m[x];
    assert UniqueRevisions(u);
  }

  lemma StillUnique(m: map<string, Processed>, revision: nat, id: string, entry: Processed)
    requires UniqueRevisions(m) && id !in m && entry.result.controlRevision == revision + 1
    requires AllFit(m, revision)
    ensures UniqueRevisions(m[id := entry])
  {
    var u := m[id := entry];
    forall x, y | IsExecuted(u, x) && IsExecuted(u, y) && RevisionOf(u, x) == RevisionOf(u, y) ensures x == y {
      assert x == id || (IsExecuted(m, x) && EntryFits(m[x], revision));
      assert y == id || (IsExecuted(m, y) && EntryFits(m[y], revision));
    }
  }

  lemma OneMoreExecuted(m: map<string, Processed>, id: string, entry: Processed)
    requires id !in m && entry.result.status.Executed?
    ensures ExecutedIds(m[id := entry]) == ExecutedIds(m) + {id} && |ExecutedIds(m[id := entry])| == |ExecutedIds(m)| + 1
  {
    assert ExecutedIds(m[id := entry]) == ExecutedIds(m) + {id};
  }

  lemma StillFits(m: map<string, Processed>, revision: nat, id: string, entry: Processed)
    requires AllFit(m, revision) && id !in m && EntryFits(entry, revision + 1)
    ensures AllFit(m[id := entry], revision + 1)
  {
    var u := m[id := entry];
    forall x | IsExecuted(u, x) ensures EntryFits(u[x], revision + 1) {
      assert x == id || (IsExecuted(m, x) && EntryFits(m[x], revision));
    }
  }

  lemma LedgerExecuted(m: map<string, Processed>, revision: nat, id: string, entry: Processed)
    requires Ledger(m, revision) && id !in m && entry.result.status.Executed? && revision >= 1
    requires Names(entry, id)
    requires entry.result.controlRevision == revision + 1
    requires Expects(entry.fingerprint.expectedRevision, revision)
    ensures Ledger(m[id := entry], revision + 1)
  {
    OneMoreExecuted(m, id, entry);
    StillFits(m, revision, id, entry);
    StillUnique(m, revision, id, entry);
  }

  lemma {:induction false} RefreshIgnoresLedger(cfg: Config, s: State, t: State, kinds: seq<AlarmKind>)
    requires |cfg.caps| == 3 && t.points == s.points && t.faults == s.faults && t.generatedAt == s.generatedAt
    ensures AddAlarms(cfg, t, kinds) == AddAlarms(cfg, s, kinds)
    decreases |kinds|
  {
    if kinds != [] {
      RefreshIgnoresLedger(cfg, s, t, kinds[..|kinds| - 1]);
    }
  }

  lemma StaysSettled(cfg: Config, s: State, t: State)
    requires |cfg.caps| == 3 && Settled(cfg, s)
    requires t.points == s.points && t.faults == s.faults && t.generatedAt == s.generatedAt && t.rejectBin == s.rejectBin
    ensures Settled(cfg, t)
  {
    RefreshIgnoresLedger(cfg, s, t, ALARM_KINDS);
    assert ApplyFaultState(s).points == s.points;
    assert RefreshDerived(cfg, s).points == s.points;
  }

  lemma SettledCommand(cfg: Config, edited: State, c: Command, now: int)
    requires cfg.Valid() && Sound(cfg, edited)
    ensures var t := Settle(cfg, edited, c, now);
            && Sound(cfg, t) && Settled(cfg, t)
            && t.points.counts == edited.points.counts && t.rejectBin == edited.rejectBin
            && t.processed == edited.processed && t.faults == edited.faults
            && t.points.controlRevision == edited.points.controlRevision + 1
  {
    var t := Rescheduled(edited, c, now);
    assert ApplyFaultState(t) == t;
    RefreshIsIdempotent(cfg, t);
  }

  /** The state after a first execution of `c`, and the result it is recorded with. */
  ghost predicate ExecutedAs(cfg: Config, s: State, c: Command, now: int, d: Decision)
    requires |cfg.caps| == 3
  {
    var applying := ApplyNamed(cfg, s, c);
    && applying.Accepted?
    && Expects(c.expectedRevision, s.points.controlRevision)
    && d == Execution(Settle(cfg, applying.state, c, now), c)
  }

  ghost predicate RefusedAs(s: State, c: Command, d: Decision) {
    && d.state == Recorded(s, c, d.result)
    && d.result.commandId == c.id && d.result.name == c.name && !d.result.status.Executed?
  }

  lemma RefusalRefuses(s: State, c: Command, status: Status, code: string, reason: string, simulationOnly: bool)
    requires !status.Executed?
    ensures RefusedAs(s, c, Refusal(s, c, status, code, reason, simulationOnly))
  {
  }

  lemma BarredRefuses(s: State, c: Command)
    ensures var b := Barred(s, c);
            if b.Some? then RefusedAs(s, c, b.value) else Expects(c.expectedRevision, s.points.controlRevision)
  {
    RefusalRefuses(s, c, Rejected, REVISION_CONFLICT, "control revision conflict", false);
    RefusalRefuses(s, c, Rejected, COMMAND_REJECTED, "fault injection rejected command", false);
    RefusalRefuses(s, c, Failed, COMMAND_FAILED, "fault injection failed command", false);
    RefusalRefuses(s, c, Rejected, DEVICE_UNAVAILABLE, "PLC is disconnected", false);
  }

  lemma Concludes(cfg: Config, s: State, c: Command, applying: Applying, now: int)
    requires cfg.Valid() && (applying.Accepted? ==> Sound(cfg, applying.state))
    ensures Conclude(cfg, s, c, applying, now).Ok?
    ensures var d := Conclude(cfg, s, c, applying, now).value;
            if d.result.status.Executed? then applying.Accepted? && d == Execution(Settle(cfg, applying.state, c, now), c)
            else RefusedAs(s, c, d)
  {
    if applying.Accepted? {
      SettledCommand(cfg, applying.state, c, now);
    }
  }

  lemma DecisionIs(cfg: Config, s: State, c: Command, now: int)
    requires cfg.Valid() && Sound(cfg, s)
    ensures Decide(cfg, s, c, now).Ok?
    ensures var d := Decide(cfg, s, c, now).value;
            if d.result.status.Executed? then ExecutedAs(cfg, s, c, now, d) else RefusedAs(s, c, d)
  {
    BarredRefuses(s, c);
    if ApplyNamed(cfg, s, c).Accepted? {
      ApplyActionKeeps(cfg, s, ActionOf(c.name), c);
    }
    Concludes(cfg, s, c, ApplyNamed(cfg, s, c), now);
  }

  lemma DecisionInv(cfg: Config, s: State, c: Command, now: int)
    requires cfg.Valid() && Inv(cfg, s) && c.id !in s.processed && NormalizeCommand(c) == c
    ensures Decide(cfg, s, c, now).Ok? && Inv(cfg, Decide(cfg, s, c, now).value.state)
  {
    DecisionIs(cfg, s, c, now);
    var d := Decide(cfg, s, c, now).value;
    var entry := Processed(FingerprintOf(c), d.result);
    if d.result.status.Executed? {
      ApplyActionKeeps(cfg, s, ActionOf(c.name), c);
      var t := Settle(cfg, ApplyNamed(cfg, s, c).state, c, now);
      SettledCommand(cfg, ApplyNamed(cfg, s, c).state, c, now);
      LedgerExecuted(s.processed, s.points.controlRevision, c.id, entry);
      StaysSettled(cfg, t, d.state);
    } else {
      LedgerRefused(s.processed, s.points.controlRevision, c.id, entry);
      StaysSettled(cfg, s, d.state);
    }
  }
}

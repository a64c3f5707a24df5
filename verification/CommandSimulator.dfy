/** The pipeline with the simulator as its device: what the queue stores of an executed command. */
module CommandSimulator {
  import opened Wrappers
  import opened Contract
  import opened CommandResults
  import opened CommandStore
  import opened CommandQueue
  import opened CommandRuns
  import opened CommandTheorems
  import PlcSim
  import PlcSimRuns
  import PlcSimSampling
  import PlcSimConfirm

  /** One execution by the simulator: the engine's state and operation, and how often it is sampled before the reading. */
  datatype Answering = Answering(cfg: PlcSim.Config, state: PlcSim.State, op: PlcSimRuns.Op, times: seq<int>)

  /** The simulator executed `c`, answered `r`, and was later read as `reading`. */
  ghost predicate Simulated(a: Answering, c: Command, r: CommandResult, reading: Result<Snapshot>) {
    && a.cfg.Valid() && PlcSimRuns.Inv(a.cfg, a.state)
    && PlcSimRuns.Executes(a.cfg, a.state, a.op) == Some(c)
    && PlcSim.Applied(a.cfg, a.state, a.op.command, a.op.now, a.op.persisted).reply == Ok(r)
    && reading == Ok(PlcSim.SnapshotOf(PlcSimSampling.Ticks(a.cfg, PlcSimRuns.Step(a.cfg, a.state, a.op), a.times)))
  }

  lemma ReadingConfirms(a: Answering, c: Command, r: CommandResult, reading: Result<Snapshot>)
    requires Simulated(a, c, r, reading)
    ensures Judged(c, Ok(r)) == r && r.status.Executed?
    ensures ReadResult(c, r, reading) == r && reading.Ok? && Confirmed(c, r, reading) == Some(reading.value)
  {
    PlcSimConfirm.ReadbackKeepsTheAnswer(a.cfg, a.state, a.op, a.times);
  }

  /** What may become of a command whose execution is being persisted with result `r`. */
  ghost predicate Outcome(s: System, c: Command, r: CommandResult) {
    && c.id in s.store.db.records
    && var record := s.store.db.records[c.id];
    if record.status.Pending? then
      s.phase.Down? || s.phase.Dead? || (s.phase.Persisting? && s.phase.command == c && s.phase.result == r)
    else
      (record.status.Executed? && record.result == Some(r)) || record.status.Unknown?
  }

  lemma PersistOutcomeStays(s: System, now: int, staleAfter: int, commit: Commit, c: Command, r: CommandResult)
    requires Inv(s) && s.phase.Persisting? && r.status.Executed? && r.commandId == c.id && Outcome(s, c, r)
    ensures Outcome(Persisted(s, now, staleAfter, commit), c, r)
  {
    if s.store.db.records[c.id].status.Pending? {
      assert s.phase.result == r;
    } else {
      PersistPreserves(s.store, CompletionOf(s.phase), now, staleAfter, commit, c.id);
    }
  }

  lemma OutcomeStays(s: System, step: Step, t: System, c: Command, r: CommandResult)
    requires Inv(s) && Next(s, step, t) && r.status.Executed? && r.commandId == c.id && Outcome(s, c, r)
    ensures Outcome(t, c, r)
  {
    if Settled(s.store.db, c.id) {
      StepPreserves(s, step, t, c.id);
    } else if step.Persist? {
      PersistOutcomeStays(s, step.now, step.staleAfter, step.commit, c, r);
    } else if step.Restart? && !step.commit.Lost? {
      assert ClosedRow(s.store.db, t.store.db, c.id, c.id in PendingIds(s.store.db));
    } else {
      PendingStays(s, step, t, c, r);
    }
  }

  /** While its record is pending, a step that completes or recovers nothing keeps it so, or ends the process. */
  lemma PendingStays(s: System, step: Step, t: System, c: Command, r: CommandResult)
    requires Inv(s) && Next(s, step, t) && Outcome(s, c, r) && s.store.db.records[c.id].status.Pending?
    requires !step.Persist? && (step.Restart? ==> step.commit.Lost?)
    ensures Outcome(t, c, r)
  {
    if !step.Submit? {
      OtherStepsKeepRecords(s, step, t);
    }
  }

  lemma {:induction false} OutcomeLasts(states: seq<System>, steps: seq<Step>, i: nat, j: nat, c: Command, r: CommandResult)
    requires RunFromStart(states, steps) && i <= j < |states| && r.status.Executed? && r.commandId == c.id && Outcome(states[i], c, r)
    ensures Outcome(states[j], c, r)
    decreases j
  {
    if i < j {
      OutcomeLasts(states, steps, i, j - 1, c, r);
      EveryRunIsSafe(states, steps, j - 1);
      assert Next(states[j - 1], steps[j - 1], states[j - 1 + 1]);
      OutcomeStays(states[j - 1], steps[j - 1], states[j], c, r);
    }
  }

  lemma ConfirmedMeansPersisting(s: System, reading: Result<Snapshot>)
    requires Inv(s) && s.phase.Reading? && ReadResult(s.phase.command, s.phase.result, reading) == s.phase.result
    ensures var t := DidRead(s, reading);
            && t.phase.Persisting? && t.phase.command == s.phase.command && t.phase.result == s.phase.result
            && s.phase.result.status.Executed? && s.phase.result.commandId == s.phase.command.id
            && Outcome(t, s.phase.command, s.phase.result)
  {
  }

  /** The reading of a simulated execution confirms it: the answered result goes to be persisted. */
  lemma ReadingLeadsToPersisting(s: System, reading: Result<Snapshot>, a: Answering)
    requires Inv(s) && s.phase.Reading? && Simulated(a, s.phase.command, s.phase.result, reading)
    ensures var t := DidRead(s, reading);
            && t.phase.Persisting? && t.phase.command == s.phase.command && t.phase.result == s.phase.result
            && s.phase.result.status.Executed? && s.phase.result.commandId == s.phase.command.id
            && Outcome(t, s.phase.command, s.phase.result)
  {
    ReadingConfirms(a, s.phase.command, s.phase.result, reading);
    ConfirmedMeansPersisting(s, reading);
  }

  /** The record of a command holds this result. */
  ghost predicate StoredAs(db: Db, id: string, r: CommandResult) {
    id in db.records && db.records[id].status == r.status && db.records[id].result == Some(r)
  }

  /** A completion that is acknowledged has stored and answered what was being persisted. */
  lemma AcknowledgedMeansStored(s: System, now: int, staleAfter: int, commit: Commit)
    requires Inv(s) && s.phase.Persisting? && Persisted(s, now, staleAfter, commit).phase.Idle?
    ensures var t := Persisted(s, now, staleAfter, commit);
            StoredAs(t.store.db, s.phase.command.id, s.phase.result) && EndsWith(t.trail, Replied(s.phase.command, s.phase.result))
  {
    AttemptKeeps(s, now, staleAfter, commit);
    var db := Persisted(s, now, staleAfter, commit).store.db;
    assert RecordOk(s.phase.command.id, db.records[s.phase.command.id]);
  }

  /**
    In every run, once the simulator executed a command and the queue read it back, the
    record of this command is from then on pending, or stored EXECUTED with the very
    result the simulator answered, or UNKNOWN after a crash: never readback_failed.
  */
  lemma SimulatorExecutionsAreStored(states: seq<System>, steps: seq<Step>, i: nat, j: nat, a: Answering)
    requires RunFromStart(states, steps) && i < j < |states| && steps[i].Read? && states[i].phase.Reading?
    requires Simulated(a, states[i].phase.command, states[i].phase.result, steps[i].reading)
    ensures Outcome(states[j], states[i].phase.command, states[i].phase.result)
  {
    EveryRunIsSafe(states, steps, i);
    assert Next(states[i], steps[i], states[i + 1]);
    ReadingLeadsToPersisting(states[i], steps[i].reading, a);
    OutcomeLasts(states, steps, i + 1, j, states[i].phase.command, states[i].phase.result);
  }

  /** And when its completion is acknowledged, the record is EXECUTED with this result and the caller is answered it. */
  lemma SimulatorExecutionsAreAnswered(states: seq<System>, steps: seq<Step>, i: nat, j: nat, a: Answering)
    requires RunFromStart(states, steps) && i < j < |steps| && steps[i].Read? && states[i].phase.Reading?
    requires Simulated(a, states[i].phase.command, states[i].phase.result, steps[i].reading)
    requires steps[j].Persist? && states[j].phase == states[i + 1].phase && states[j + 1].phase.Idle?
    ensures EndsWith(states[j + 1].trail, Replied(states[i].phase.command, states[i].phase.result))
    ensures states[i].phase.result.status.Executed?
    ensures StoredAs(states[j + 1].store.db, states[i].phase.command.id, states[i].phase.result)
  {
    EveryRunIsSafe(states, steps, i);
    EveryRunIsSafe(states, steps, j);
    assert Next(states[i], steps[i], states[i + 1]) && Next(states[j], steps[j], states[j + 1]);
    ReadingLeadsToPersisting(states[i], steps[i].reading, a);
    AcknowledgedMeansStored(states[j], steps[j].now, steps[j].staleAfter, steps[j].commit);
  }
}

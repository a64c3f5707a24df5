/** The agent's readback confirmation never fails for a command the simulator executed. */
module PlcSimConfirm {
  import opened Wrappers
  import opened Contract
  import opened PlcSim
  import opened PlcSimAlarms
  import opened PlcSimRuns
  import opened PlcSimTheorems
  import opened PlcSimSampling
  import CommandQueue
  import opened CommandResults

  /** What a command established and ticks cannot undo. */
  ghost predicate Holds(cfg: Config, a: Action, c: Command, s: State)
    requires |cfg.caps| == 3
  {
    var p := s.points;
    match a
    case Start => p.running
    case Pause => !p.running
    case Reset => !p.running && p.counts.output == 0 && p.counts.toolUsed == 0
    case SetMode => p.mode == c.mode
    case SetSinglePaused => c.paused == Some(p.singlePaused)
    case SetFramePaused => c.paused == Some(p.framePaused)
    case ClearBins => p.counts.blank == 0 && p.counts.finished == 0 && s.rejectBin == 0
    case UpdateSettings => c.settings == Some(Settings(p.target, p.toolLimit, p.inspectInterval))
    case AcknowledgeAlarm => Quieted(cfg, s, c.alarmId)
    case Inspect => true
    case Unsupported => false
  }

  /** While it holds and the derived lists are current, confirmation succeeds. */
  lemma HoldsConfirms(cfg: Config, a: Action, c: Command, s: State)
    requires |cfg.caps| == 3 && Settled(cfg, s) && Holds(cfg, a, c, s)
    ensures ConfirmAction(a, c, s.points)
  {
    if a == ClearBins {
      assert RefreshDerived(cfg, s).points.bins == s.points.bins;
    } else if a == AcknowledgeAlarm {
      var found := Find(s.points.alarms, c.alarmId).value;
      assert found in s.points.alarms;
    }
  }

  /** In a settled state a listed alarm's condition holds, and acknowledging finds it. */
  lemma AcknowledgedIsFound(cfg: Config, s: State, alarms: seq<Alarm>, i: nat)
    requires |cfg.caps| == 3 && alarms == AddAlarms(cfg, s, ALARM_KINDS) && i < |alarms|
    ensures var id := alarms[i].alarmId;
            && Alarming(cfg, s, id)
            && Find(Acknowledged(alarms, id), id).Some?
            && Find(Acknowledged(alarms, id), id).value.acknowledged
  {
    var id := alarms[i].alarmId;
    RefreshedAreAlarming(cfg, s, ALARM_KINDS);
    FindAcknowledged(alarms, id);
    assert alarms[i] in alarms;
  }

  lemma AcknowledgeHolds(cfg: Config, s: State, c: Command, now: int)
    requires cfg.Valid() && Settled(cfg, s) && ApplyAction(cfg, s, AcknowledgeAlarm, c).Accepted?
    ensures Quieted(cfg, Settle(cfg, ApplyAction(cfg, s, AcknowledgeAlarm, c).state, c, now), c.alarmId)
  {
    var alarms, id := s.points.alarms, c.alarmId;
    assert alarms == RefreshDerived(cfg, s).points.alarms;
    var i :| 0 <= i < |alarms| && alarms[i].alarmId == id && alarms[i].active;
    AcknowledgedIsFound(cfg, s, alarms, i);
    var edited := s.(points := s.points.(alarms := Acknowledged(alarms, id)));
    StillAlarming(cfg, s, edited, c, now, id);
    QuietedStays(cfg, Rescheduled(edited, c, now), id);
  }

  lemma StillAlarming(cfg: Config, s: State, edited: State, c: Command, now: int, id: string)
    requires |cfg.caps| == 3 && ApplyFaultState(s) == s && Alarming(cfg, s, id)
    requires edited == s.(points := s.points.(alarms := edited.points.alarms))
    ensures Alarming(cfg, Rescheduled(edited, c, now), id)
    ensures Rescheduled(edited, c, now).points.alarms == edited.points.alarms
  {
    assert ApplyFaultState(s).points == s.points;
  }

  lemma StartHolds(cfg: Config, s: State, c: Command, now: int)
    requires |cfg.caps| == 3 && ApplyFaultState(s) == s && ApplyAction(cfg, s, Start, c).Accepted?
    ensures Settle(cfg, ApplyAction(cfg, s, Start, c).state, c, now).points.running
  {
    assert ApplyFaultState(s).points == s.points;
  }

  /** Executing a command establishes what its confirmation looks for. */
  lemma ExecutionHolds(cfg: Config, s: State, a: Action, c: Command, now: int)
    requires cfg.Valid() && Inv(cfg, s) && ApplyAction(cfg, s, a, c).Accepted?
    ensures Holds(cfg, a, c, Settle(cfg, ApplyAction(cfg, s, a, c).state, c, now))
  {
    if a == Start {
      StartHolds(cfg, s, c, now);
    } else if a == AcknowledgeAlarm {
      AcknowledgeHolds(cfg, s, c, now);
    }
  }

  lemma BinStatusGrows(q: int, r: int, capacity: int)
    requires q <= r && capacity >= 1 && BinStatus(q, capacity) in {"warning", "full"}
    ensures BinStatus(r, capacity) in {"warning", "full"}
  {
  }

  lemma TickKeepsAlarming(cfg: Config, s: State, now: int, id: string)
    requires cfg.Valid() && Inv(cfg, s) && Alarming(cfg, s, id)
    ensures Alarming(cfg, TickCandidate(cfg, s, now), id)
    ensures TickCandidate(cfg, s, now).points.alarms == s.points.alarms
  {
    TickKeeps(cfg, s, now);
    var t := TickCandidate(cfg, s, now);
    assert t.points.(counts := s.points.counts) == s.points;
    if id == "2001" {
      BinStatusGrows(s.points.counts.finished, t.points.counts.finished, cfg.caps[1]);
    }
  }

  /** A tick keeps what a command established. */
  lemma TickHolds(cfg: Config, a: Action, c: Command, s: State, now: int)
    requires cfg.Valid() && Inv(cfg, s) && Holds(cfg, a, c, s)
    ensures Holds(cfg, a, c, RefreshDerived(cfg, TickCandidate(cfg, s, now)))
  {
    TickKeeps(cfg, s, now);
    var t := TickCandidate(cfg, s, now);
    assert t.points.(counts := s.points.counts) == s.points;
    if a == AcknowledgeAlarm {
      TickKeepsAlarming(cfg, s, now, c.alarmId);
      QuietedStays(cfg, t, c.alarmId);
    }
  }

  lemma {:induction false} TicksHold(cfg: Config, a: Action, c: Command, s: State, times: seq<int>)
    requires cfg.Valid() && Inv(cfg, s) && Holds(cfg, a, c, s)
    ensures Inv(cfg, Ticks(cfg, s, times)) && Holds(cfg, a, c, Ticks(cfg, s, times))
    ensures Ticks(cfg, s, times).points.controlRevision == s.points.controlRevision
    decreases |times|
  {
    if times != [] {
      var t := Ticks(cfg, s, times[..|times| - 1]);
      var now := times[|times| - 1];
      TicksHold(cfg, a, c, s, times[..|times| - 1]);
      TickHolds(cfg, a, c, t, now);
      TickKeeps(cfg, t, now);
      TickedInv(cfg, t, now);
    }
  }

  lemma RecordingHolds(cfg: Config, a: Action, c: Command, s: State, r: CommandResult)
    requires |cfg.caps| == 3 && Holds(cfg, a, c, s)
    ensures Holds(cfg, a, c, Recorded(s, c, r))
  {
  }

  /**
    An executed command is confirmed by every later reading, however often the
    line was sampled in between: the agent never turns it into readback_failed.
  */
  lemma ExecutedCommandsAreConfirmed(cfg: Config, s: State, op: Op, times: seq<int>)
    requires cfg.Valid() && Inv(cfg, s) && Executes(cfg, s, op).Some?
    ensures var c := Executes(cfg, s, op).value;
            var result := Applied(cfg, s, op.command, op.now, op.persisted).reply.value;
            var later := Ticks(cfg, Step(cfg, s, op), times);
            && ValidatedResult(c, Ok(result)) == result
            && Confirm(c, result, SnapshotOf(later))
  {
    var c := Executes(cfg, s, op).value;
    var a := ActionOf(c.name);
    ExecutionIs(cfg, s, op);
    StepInv(cfg, s, op);
    ApplyActionKeeps(cfg, s, a, c);
    SettledCommand(cfg, ApplyNamed(cfg, s, c).state, c, op.now);
    ExecutionHolds(cfg, s, a, c, op.now);
    var d := Decide(cfg, s, c, op.now).value;
    RecordingHolds(cfg, a, c, Settle(cfg, ApplyNamed(cfg, s, c).state, c, op.now), d.result);
    TicksHold(cfg, a, c, d.state, times);
    HoldsConfirms(cfg, a, c, Ticks(cfg, d.state, times));
  }

  /** So the queue keeps what the simulator answered: the readback never turns an execution into a failure. */
  lemma ReadbackKeepsTheAnswer(cfg: Config, s: State, op: Op, times: seq<int>)
    requires cfg.Valid() && Inv(cfg, s) && Executes(cfg, s, op).Some?
    ensures var c := Executes(cfg, s, op).value;
            var answer := Applied(cfg, s, op.command, op.now, op.persisted).reply;
            var reading := Ok(SnapshotOf(Ticks(cfg, Step(cfg, s, op), times)));
            var judged := CommandQueue.Judged(c, answer);
            && answer.Ok? && judged.status.Executed?
            && CommandQueue.ReadResult(c, judged, reading) == judged == answer.value
            && CommandQueue.Confirmed(c, judged, reading) == Some(reading.value)
  {
    ExecutedCommandsAreConfirmed(cfg, s, op, times);
  }
}

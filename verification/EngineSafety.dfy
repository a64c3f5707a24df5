/** Safety of the line over its steps: what makes parts, what starts the line, and what stops it. */
module PlcSimSafety {
  import opened Wrappers
  import opened Contract
  import opened PlcSim
  import opened PlcSimRuns
  import opened PlcSimTheorems

  predicate Interlocked(f: Faults) {
    f.plcDisconnected || f.emergencyStop || f.guardDoorOpen
  }

  predicate OrderedToProduce(p: Points) {
    p.running && p.mode == "auto" && !p.singlePaused && !p.framePaused
  }

  lemma TickProducesOnlyWhenSafe(cfg: Config, s: State, now: int)
    requires cfg.Valid() && Inv(cfg, s)
    ensures var t := TickCandidate(cfg, s, now);
            && t.points.running == (s.points.running && !Interlocked(s.faults))
            && (t.points.counts != s.points.counts ==> OrderedToProduce(s.points) && !Interlocked(s.faults))
  {
    TickKeeps(cfg, s, now);
    var t := ApplyFaultState(s.(sampleSequence := s.sampleSequence + 1, generatedAt := now));
    if !CanProduce(t.points) {
      assert TickCandidate(cfg, s, now) == t.(nextAt := None);
    }
  }

  lemma ActionsMakeNoParts(cfg: Config, s: State, a: Action, c: Command)
    requires |cfg.caps| == 3 && s.points.counts.output >= 0 && ApplyAction(cfg, s, a, c).Accepted?
    ensures ApplyAction(cfg, s, a, c).state.points.counts.output <= s.points.counts.output
  {
    if a == Inspect {
      assert ApplyAction(cfg, s, a, c).state == InspectOne(cfg, s, true);
    }
  }

  lemma OnlyStartSetsRunning(cfg: Config, s: State, a: Action, c: Command)
    requires |cfg.caps| == 3 && a != Start && ApplyAction(cfg, s, a, c).Accepted?
    ensures ApplyAction(cfg, s, a, c).state.points.running ==> s.points.running
  {
    if a == Inspect {
      assert ApplyAction(cfg, s, a, c).state == InspectOne(cfg, s, true);
    }
  }

  lemma SettleRunning(cfg: Config, s: State, c: Command, now: int)
    requires |cfg.caps| == 3
    ensures Settle(cfg, s, c, now).points.running == (s.points.running && !Interlocked(s.faults))
  {
  }

  lemma CommandsMakeNoParts(cfg: Config, s: State, op: Op)
    requires cfg.Valid() && Inv(cfg, s) && op.DoCommand?
    ensures var t, executed := Step(cfg, s, op), Executes(cfg, s, op);
            && t.points.counts.output <= s.points.counts.output
            && (t.points.running && !s.points.running ==>
                  executed.Some? && ActionOf(executed.value.name) == Start && !Interlocked(s.faults))
  {
    if Executes(cfg, s, op).Some? {
      var c := Executes(cfg, s, op).value;
      ExecutionIs(cfg, s, op);
      ApplyActionKeeps(cfg, s, ActionOf(c.name), c);
      ActionsMakeNoParts(cfg, s, ActionOf(c.name), c);
      if ActionOf(c.name) != Start {
        OnlyStartSetsRunning(cfg, s, ActionOf(c.name), c);
      }
      SettledCommand(cfg, ApplyNamed(cfg, s, c).state, c, op.now);
      SettleRunning(cfg, ApplyNamed(cfg, s, c).state, c, op.now);
    } else {
      NotExecuted(cfg, s, op);
    }
  }

  /**
    A part is made only by a tick, while the line is running in automatic mode and
    unpaused and no disconnect, emergency stop or open door is injected.
  */
  lemma PartsAreMadeOnlyWhenSafe(cfg: Config, s: State, op: Op)
    requires cfg.Valid() && Inv(cfg, s) && Step(cfg, s, op).points.counts.output > s.points.counts.output
    ensures op.DoTick? && op.persisted && !s.faults.freezeData && OrderedToProduce(s.points) && !Interlocked(s.faults)
  {
    match op
    case DoTick(now, _) => TickProducesOnlyWhenSafe(cfg, s, now);
    case DoCommand(_, _, _) => CommandsMakeNoParts(cfg, s, op);
    case DoFault(request, now, persisted) => FaultInv(cfg, s, request, now, persisted);
    case DoRestart(_, _, _) =>
    case DoReopen(sessionId, now, persisted) => ReopenInv(cfg, s, sessionId, now, persisted);
  }

  /** A stopped line starts again only by an executed start command, with no interlock active. */
  lemma OnlyStartStartsTheLine(cfg: Config, s: State, op: Op)
    requires cfg.Valid() && Inv(cfg, s) && !s.points.running && Step(cfg, s, op).points.running
    ensures Executes(cfg, s, op).Some? && ActionOf(Executes(cfg, s, op).value.name) == Start && !Interlocked(s.faults)
  {
    match op
    case DoTick(now, _) => TickProducesOnlyWhenSafe(cfg, s, now);
    case DoCommand(_, _, _) => CommandsMakeNoParts(cfg, s, op);
    case _ =>
  }

  /** Injecting a disconnect, an emergency stop or an open door stops the line at once. */
  lemma InterlocksStopTheLine(cfg: Config, s: State, request: FaultRequest, now: int)
    requires cfg.Valid() && Inv(cfg, s) && cfg.faultInjectionEnabled && request.enabled == Some(true)
    requires request.fault == "plc_disconnected" || request.fault == "emergency_stop" || request.fault == "guard_door_open"
    ensures var t := FaultSet(cfg, s, request, now, true);
            t.Ok? && Interlocked(t.value.faults) && !t.value.points.running && !CanProduce(t.value.points)
  {
    InterlockNames(request.fault);
    InterlocksAreSet(s.faults, FaultOf(request.fault));
    assert WithFault(s.faults, request) == Ok(Switched(s.faults, FaultOf(request.fault), true));
  }

  predicate IsInterlock(f: Fault) {
    f.PlcDisconnected? || f.EmergencyStop? || f.GuardDoorOpen?
  }

  lemma InterlockNames(name: string)
    requires name == "plc_disconnected" || name == "emergency_stop" || name == "guard_door_open"
    ensures IsInterlock(FaultOf(name))
  {
  }

  lemma InterlocksAreSet(f: Faults, k: Fault)
    requires IsInterlock(k)
    ensures Interlocked(Switched(f, k, true))
  {
  }
}

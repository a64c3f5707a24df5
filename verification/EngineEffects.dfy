/**
  What the simulator's operations do, told from the state before them and the request
  alone: when a command executes and what it changes, with what code it is refused,
  what an injected fault sets, and what every state shows of its bins and alarms.
*/
module PlcSimEffects {
  import opened Wrappers
  import opened Contract
  import opened PlcSim
  import opened PlcSimAlarms
  import opened PlcSimRuns
  import opened PlcSimTheorems

  // -------------------------------------------------------------- when a command executes

  /** The line is in a condition to do what the command asks, and the command says all that is needed. */
  predicate Grants(s: State, c: Command) {
    var p := s.points;
    match c.name
    case "start" => !p.emergencyStop && p.guardDoorClosed && p.safetyReady
    case "pause" => true
    case "reset" => true
    case "clear_bins" => true
    case "set_mode" => c.mode == "auto" || c.mode == "manual"
    case "set_single_paused" => c.paused.Some?
    case "set_frame_paused" => c.paused.Some?
    case "inspect" => p.counts.inspected < p.counts.output
    case "update_settings" => c.settings.Some? && c.settings.value.target >= 1 && c.settings.value.toolLimit >= 1 && c.settings.value.inspectInterval >= 1
    case "acknowledge_alarm" => exists i :: 0 <= i < |p.alarms| && p.alarms[i].alarmId == c.alarmId && p.alarms[i].active
    case _ => false
  }

  predicate RevisionHolds(s: State, c: Command) {
    c.expectedRevision.None? || c.expectedRevision == Some(s.points.controlRevision)
  }

  predicate Passes(s: State, c: Command) {
    RevisionHolds(s, c) && !s.faults.rejectCommands && !s.faults.failCommands && s.points.plcConnected
  }

  /** A usable id that has no answer yet. */
  predicate IsFirst(s: State, c: Command) {
    c.id != "" && Utf8Size(c.id) <= 128 && c.id !in s.processed
  }

  lemma AcceptedExactlyWhenGranted(cfg: Config, s: State, c: Command)
    requires |cfg.caps| == 3
    ensures ApplyNamed(cfg, s, c).Accepted? <==> Grants(s, c)
  {
  }

  /** A command executes exactly when it is new and persisted, nothing bars it, and the line grants what it asks. */
  lemma CommandExecutesExactlyWhenGranted(cfg: Config, s: State, op: Op)
    requires cfg.Valid() && Inv(cfg, s) && op.DoCommand?
    ensures var c := NormalizeCommand(op.command);
            Executes(cfg, s, op).Some? <==> op.persisted && IsFirst(s, c) && Passes(s, c) && Grants(s, c)
  {
    CommandExecutesExactlyWhen(cfg, s, op);
    AcceptedExactlyWhenGranted(cfg, s, NormalizeCommand(op.command));
  }

  // -------------------------------------------------------------- how a command is refused

  predicate OnlySimulated(name: string) {
    name == "clear_bins" || name == "update_settings" || name == "acknowledge_alarm"
  }

  datatype Why = Why(status: Status, code: string)

  function RefusedWith(s: State, c: Command): Why {
    if !RevisionHolds(s, c) then Why(Rejected, "revision_conflict")
    else if s.faults.rejectCommands then Why(Rejected, "command_rejected")
    else if s.faults.failCommands then Why(Failed, "command_failed")
    else if !s.points.plcConnected then Why(Rejected, "device_unavailable")
    else if c.name == "start" then Why(Rejected, "safety_interlock")
    else if c.name == "acknowledge_alarm" then Why(Rejected, "alarm_not_found")
    else Why(Rejected, "command_rejected")
  }

  /** A refused command leaves its answer in the ledger and changes nothing else. */
  predicate RefusedIn(s: State, c: Command, why: Why, onlySimulated: bool, t: State, r: CommandResult) {
    && r == CommandResult(c.id, c.name, why.status, why.code, r.reason, onlySimulated, s.points.controlRevision, None)
    && t == s.(processed := s.processed[c.id := Processed(FingerprintOf(c), r)])
  }

  predicate RefusedAsTold(s: State, c: Command, d: Decision) {
    RefusedIn(s, c, RefusedWith(s, c), Passes(s, c) && OnlySimulated(c.name), d.state, d.result)
  }

  lemma BarredWith(s: State, c: Command)
    ensures Barred(s, c).Some? <==> !Passes(s, c)
    ensures Barred(s, c).Some? ==> RefusedAsTold(s, c, Barred(s, c).value)
  {
  }

  lemma ActionRefusedWith(cfg: Config, s: State, c: Command)
    requires |cfg.caps| == 3 && Passes(s, c) && ApplyNamed(cfg, s, c).Refused?
    ensures RefusedWith(s, c) == Why(Rejected, ApplyNamed(cfg, s, c).code)
  {
  }

  lemma SimulatedNames(name: string)
    ensures SimulationOnly(name) <==> OnlySimulated(name)
  {
  }

  lemma RefusalIs(s: State, c: Command, code: string, reason: string, onlySimulated: bool)
    ensures var d := Refusal(s, c, Rejected, code, reason, onlySimulated);
            RefusedIn(s, c, Why(Rejected, code), onlySimulated, d.state, d.result)
  {
  }

  lemma RefusedDecision(cfg: Config, s: State, c: Command, now: int, code: string, reason: string)
    requires |cfg.caps| == 3 && Passes(s, c) && ApplyNamed(cfg, s, c) == Refused(code, reason)
    ensures Decide(cfg, s, c, now) == Ok(Refusal(s, c, Rejected, code, reason, SimulationOnly(c.name)))
  {
    BarredWith(s, c);
  }

  lemma DecisionRefusedWith(cfg: Config, s: State, c: Command, now: int)
    requires cfg.Valid() && Inv(cfg, s) && !(Passes(s, c) && Grants(s, c))
    ensures Decide(cfg, s, c, now).Ok? && RefusedAsTold(s, c, Decide(cfg, s, c, now).value)
  {
    if Passes(s, c) {
      var applying := ApplyNamed(cfg, s, c);
      AcceptedExactlyWhenGranted(cfg, s, c);
      ActionRefusedWith(cfg, s, c);
      RefusedDecision(cfg, s, c, now, applying.code, applying.reason);
      SimulatedNames(c.name);
      RefusalIs(s, c, applying.code, applying.reason, OnlySimulated(c.name));
    } else {
      BarredWith(s, c);
    }
  }

  /** The status and code of every refusal. */
  lemma RefusalsTellWhy(cfg: Config, s: State, command: Command, now: int)
    requires cfg.Valid() && Inv(cfg, s) && IsFirst(s, NormalizeCommand(command))
    requires !(Passes(s, NormalizeCommand(command)) && Grants(s, NormalizeCommand(command)))
    ensures var o := Applied(cfg, s, command, now, true);
            o.reply.Ok? && RefusedAsTold(s, NormalizeCommand(command), Decision(o.state, o.reply.value))
  {
    DecisionRefusedWith(cfg, s, NormalizeCommand(command), now);
  }

  /** Nothing changes without a usable id, for an id that has its answer, or when the write fails. */
  lemma OtherCommandsChangeNothing(cfg: Config, s: State, command: Command, now: int, persisted: bool)
    requires cfg.Valid() && Inv(cfg, s) && !(persisted && IsFirst(s, NormalizeCommand(command)))
    ensures var c, o := NormalizeCommand(command), Applied(cfg, s, command, now, persisted);
            && o.state == s
            && (o.reply.Ok? <==> c.id in s.processed && c.id != "" && Utf8Size(c.id) <= 128)
            && (o.reply.Ok? ==>
                  if s.processed[c.id].fingerprint == FingerprintOf(c) then o.reply.value == s.processed[c.id].result
                  else o.reply.value == CommandResult(c.id, c.name, Rejected, "idempotency_conflict", o.reply.value.reason, false, s.points.controlRevision, None))
  {
    if IsFirst(s, NormalizeCommand(command)) {
      DecisionIs(cfg, s, NormalizeCommand(command), now);
    }
  }

  // -------------------------------------------------------------- what an executed command changes

  predicate MayProduce(p: Points) {
    p.plcConnected && p.running && p.mode == "auto" && !p.singlePaused && !p.framePaused && p.safetyReady && !p.emergencyStop && p.guardDoorClosed
  }

  /** The switches: each is changed by its own commands only. */
  predicate SwitchesAfter(p: Points, c: Command, q: Points) {
    && q.running == (if c.name == "start" then true else if c.name == "pause" || c.name == "reset" then false else p.running)
    && q.mode == (if c.name == "set_mode" then c.mode else p.mode)
    && q.singlePaused == (if c.name == "reset" then false else if c.name == "set_single_paused" then c.paused == Some(true) else p.singlePaused)
    && q.framePaused == (if c.name == "reset" then false else if c.name == "set_frame_paused" then c.paused == Some(true) else p.framePaused)
  }

  predicate SettingsAfter(p: Points, c: Command, q: Points) {
    if c.name == "update_settings" then c.settings == Some(Settings(q.target, q.toolLimit, q.inspectInterval))
    else q.target == p.target && q.toolLimit == p.toolLimit && q.inspectInterval == p.inspectInterval
  }

  /** No command touches these. */
  predicate SameInputs(p: Points, q: Points) {
    && q.cycleSeconds == p.cycleSeconds && q.plcConnected == p.plcConnected && q.emergencyStop == p.emergencyStop
    && q.guardDoorClosed == p.guardDoorClosed && q.safetyReady == p.safetyReady
  }

  /** The stock: a reset starts over, clearing empties the bins, and an inspection by hand judges the next part. */
  predicate StockAfter(cfg: Config, k: Stock, c: Command, m: Stock)
    requires |cfg.caps| == 3
  {
    match c.name
    case "reset" => m == Stock(Counts(0, 0, 0, 0, 0, cfg.caps[0], 0, 0), 0)
    case "clear_bins" => m == Stock(k.counts.(blank := 0, finished := 0), 0)
    case "inspect" =>
      var pass := cfg.passes(k.counts.inspected + 1);
      && m.counts == k.counts.(inspected := k.counts.inspected + 1, pending := m.counts.pending,
                               passed := m.counts.passed, ng := m.counts.ng, finished := m.counts.finished)
      && m.counts.pending == k.counts.output - k.counts.inspected - 1
      && m.counts.passed == k.counts.passed + (if pass then 1 else 0)
      && m.counts.ng == k.counts.ng + (if pass then 0 else 1)
      && m.rejectBin == k.rejectBin + (if pass then 0 else 1)
      && m.counts.finished == k.counts.finished - (if !pass && k.counts.finished > 0 then 1 else 0)
    case _ => m == k
  }

  /** A running line keeps its schedule; one that may have been started by the command begins a new cycle. */
  predicate ScheduleAfter(s: State, c: Command, now: int, t: State) {
    t.nextAt ==
    if !MayProduce(t.points) then None
    else if c.name in {"start", "set_mode", "set_single_paused", "set_frame_paused"} || s.nextAt.None?
    then Some(now + t.points.cycleSeconds * 1_000_000_000) else s.nextAt
  }

  /** The points an action leaves, with what it changes spelled out. */
  lemma EditsPoints(cfg: Config, s: State, c: Command, e: State)
    requires |cfg.caps| == 3 && ApplyNamed(cfg, s, c) == Accepted(e)
    ensures e == s.(points := e.points, rejectBin := e.rejectBin) && e.points.controlRevision == s.points.controlRevision
    ensures SameInputs(s.points, e.points)
  {
    match ActionOf(c.name)
    case Inspect => assert e == InspectOne(cfg, s, true);
    case _ =>
  }

  lemma EditsSwitches(cfg: Config, s: State, c: Command, e: State)
    requires |cfg.caps| == 3 && ApplyNamed(cfg, s, c) == Accepted(e)
    ensures SwitchesAfter(s.points, c, e.points)
  {
    match ActionOf(c.name)
    case Inspect => assert e == InspectOne(cfg, s, true);
    case _ =>
  }

  lemma EditsSettings(cfg: Config, s: State, c: Command, e: State)
    requires |cfg.caps| == 3 && ApplyNamed(cfg, s, c) == Accepted(e)
    ensures SettingsAfter(s.points, c, e.points)
  {
    match ActionOf(c.name)
    case Inspect => assert e == InspectOne(cfg, s, true);
    case _ =>
  }

  lemma InspectsStock(cfg: Config, s: State, c: Command)
    requires |cfg.caps| == 3 && c.name == "inspect"
    ensures StockAfter(cfg, StockOf(s), c, InspectStock(cfg, StockOf(s), true))
  {
  }

  lemma EditsStock(cfg: Config, s: State, c: Command, e: State)
    requires |cfg.caps| == 3 && ApplyNamed(cfg, s, c) == Accepted(e)
    ensures StockAfter(cfg, StockOf(s), c, StockOf(e))
  {
    match ActionOf(c.name)
    case Inspect =>
      assert e == InspectOne(cfg, s, true);
      InspectsStock(cfg, s, c);
    case Reset =>
    case ClearBins =>
    case Unsupported =>
    case _ => assert StockOf(e) == StockOf(s);
  }

  lemma SettleKeeps(cfg: Config, s: State, e: State, c: Command, now: int)
    requires |cfg.caps| == 3 && SameInputs(s.points, e.points) && (e.points.running ==> s.points.safetyReady)
    requires ApplyFaultState(s) == s && e == s.(points := e.points, rejectBin := e.rejectBin)
    ensures var t := Settle(cfg, e, c, now);
            && t == s.(points := t.points, rejectBin := e.rejectBin, generatedAt := now, nextAt := t.nextAt)
            && t.points == e.points.(controlRevision := e.points.controlRevision + 1, bins := t.points.bins, alarms := t.points.alarms)
            && ScheduleAfter(s, c, now, t)
  {
    assert ApplyFaultState(s).points == s.points;
  }

  lemma RunsOnlyWhenReady(cfg: Config, s: State, c: Command, e: State)
    requires |cfg.caps| == 3 && ApplyFaultState(s) == s && ApplyNamed(cfg, s, c) == Accepted(e)
    ensures e.points.running ==> s.points.safetyReady
  {
    assert ApplyFaultState(s).points == s.points;
    EditsSwitches(cfg, s, c, e);
    AcceptedExactlyWhenGranted(cfg, s, c);
  }

  /** The ledger gets one entry, with the answer and the state as it is now. */
  predicate AnsweredIn(s: State, c: Command, t: State) {
    && c.id in t.processed
    && var r := t.processed[c.id].result;
       && t.processed == s.processed[c.id := Processed(FingerprintOf(c), r)]
       && r.commandId == c.id && r.name == c.name && r.status.Executed? && r.simulationOnly == OnlySimulated(c.name)
       && r.controlRevision == s.points.controlRevision + 1 && r.snapshot.Some? && r.snapshot.value.points == t.points
       && r.snapshot.value.sessionId == s.sessionId && r.snapshot.value.generatedAt == t.generatedAt
  }

  lemma ExecutionAnswers(s: State, t: State, c: Command)
    requires t.points.controlRevision == s.points.controlRevision + 1 && t.processed == s.processed && t.sessionId == s.sessionId
    ensures AnsweredIn(s, c, Execution(t, c).state) && Execution(t, c).state == t.(processed := Execution(t, c).state.processed)
  {
    SimulatedNames(c.name);
  }

  /** Everything an executed command changes; session, samples and faults stay. */
  predicate Did(cfg: Config, s: State, c: Command, now: int, t: State)
    requires |cfg.caps| == 3
  {
    && t == s.(points := t.points, rejectBin := t.rejectBin, generatedAt := now, nextAt := t.nextAt, processed := t.processed)
    && t.points.controlRevision == s.points.controlRevision + 1
    && SwitchesAfter(s.points, c, t.points) && SettingsAfter(s.points, c, t.points) && SameInputs(s.points, t.points)
    && StockAfter(cfg, StockOf(s), c, StockOf(t)) && ScheduleAfter(s, c, now, t)
  }

  lemma SettledDoes(cfg: Config, s: State, c: Command, now: int, e: State)
    requires cfg.Valid() && ApplyFaultState(s) == s && ApplyNamed(cfg, s, c) == Accepted(e)
    ensures Did(cfg, s, c, now, Settle(cfg, e, c, now))
  {
    EditsPoints(cfg, s, c, e);
    EditsSwitches(cfg, s, c, e);
    EditsSettings(cfg, s, c, e);
    EditsStock(cfg, s, c, e);
    RunsOnlyWhenReady(cfg, s, c, e);
    SettleKeeps(cfg, s, e, c, now);
    assert StockOf(Settle(cfg, e, c, now)) == StockOf(e);
  }

  lemma ExecutionDoes(cfg: Config, s: State, c: Command, now: int, e: State, t: State)
    requires cfg.Valid() && ApplyFaultState(s) == s && ApplyNamed(cfg, s, c) == Accepted(e) && t == Settle(cfg, e, c, now)
    ensures var u := Execution(t, c).state; Did(cfg, s, c, now, u) && AnsweredIn(s, c, u)
  {
    SettledDoes(cfg, s, c, now, e);
    ExecutionAnswers(s, t, c);
    RecordingDoes(cfg, s, c, now, t, Execution(t, c).state);
  }

  lemma RecordingDoes(cfg: Config, s: State, c: Command, now: int, t: State, u: State)
    requires |cfg.caps| == 3 && Did(cfg, s, c, now, t) && u == t.(processed := u.processed)
    ensures Did(cfg, s, c, now, u)
  {
    assert StockOf(u) == StockOf(t);
  }

  /** What an executed command changes, and what it is answered. */
  lemma ExecutedCommandsDo(cfg: Config, s: State, op: Op)
    requires cfg.Valid() && Inv(cfg, s) && Executes(cfg, s, op).Some?
    ensures var c, t := NormalizeCommand(op.command), Step(cfg, s, op);
            Did(cfg, s, c, op.now, t) && AnsweredIn(s, c, t)
  {
    var c := NormalizeCommand(op.command);
    ExecutionIs(cfg, s, op);
    var e := ApplyNamed(cfg, s, c).state;
    ExecutionDoes(cfg, s, c, op.now, e, Settle(cfg, e, c, op.now));
  }

  // -------------------------------------------------------------- parts made by a tick

  /** The stock after `n` more parts. */
  function Parts(cfg: Config, k: Stock, interval: int, n: nat): Stock {
    if n == 0 then k else ProduceStock(cfg, Parts(cfg, k, interval, n - 1), interval)
  }

  /** How many of the parts after number `a`, up to number `b`, fail inspection. */
  function Failing(cfg: Config, a: int, b: int): (n: nat)
    decreases b - a
  {
    if b <= a then 0 else Failing(cfg, a, b - 1) + (if cfg.passes(b) then 0 else 1)
  }

  /** How many numbers after `a`, up to `b`, are multiples of the interval. */
  function Multiples(a: int, b: int, interval: int): (n: nat)
    requires interval > 0
    decreases b - a
  {
    if b <= a then 0 else Multiples(a, b - 1, interval) + (if b % interval == 0 then 1 else 0)
  }

  /**
    The stock after `n` parts: each is a blank and a use of the tool, the part k is
    inspected exactly when k is a multiple of the interval, and what fails goes to
    the reject bin, all else to the finished parts.
  */
  predicate PartsMade(cfg: Config, k: Stock, interval: int, n: nat, m: Stock)
    requires interval > 0
  {
    var inspected := Multiples(k.counts.output, k.counts.output + n, interval);
    var failed := Failing(cfg, k.counts.inspected, k.counts.inspected + inspected);
    && m.counts.output == k.counts.output + n && m.counts.toolUsed == k.counts.toolUsed + n && m.counts.blank == k.counts.blank - n
    && m.counts.inspected == k.counts.inspected + inspected
    && m.counts.ng == k.counts.ng + failed && m.counts.passed == k.counts.passed + inspected - failed
    && m.rejectBin == k.rejectBin + failed && m.counts.finished == k.counts.finished + n - failed
    && m.counts.pending == (if n == 0 then k.counts.pending else m.counts.output - m.counts.inspected)
  }

  lemma OneMorePart(cfg: Config, k: Stock, interval: int, n: nat, m: Stock)
    requires interval > 0 && PartsMade(cfg, k, interval, n, m)
    ensures PartsMade(cfg, k, interval, n + 1, ProduceStock(cfg, m, interval))
  {
  }

  lemma {:induction false} PartsAre(cfg: Config, k: Stock, interval: int, n: nat)
    requires interval > 0
    ensures PartsMade(cfg, k, interval, n, Parts(cfg, k, interval, n))
  {
    if n > 0 {
      PartsAre(cfg, k, interval, n - 1);
      OneMorePart(cfg, k, interval, n - 1, Parts(cfg, k, interval, n - 1));
    }
  }

  lemma {:induction false} PartsFromFirst(cfg: Config, k: Stock, interval: int, n: nat)
    ensures Parts(cfg, k, interval, n + 1) == Parts(cfg, ProduceStock(cfg, k, interval), interval, n)
  {
    if n > 0 {
      PartsFromFirst(cfg, k, interval, n - 1);
    }
  }

  /** There is a blank to work on, a part is still wanted, and both bins have a place. */
  predicate Room(cfg: Config, target: int, k: Stock)
    requires |cfg.caps| == 3
  {
    k.counts.output < target && k.counts.blank > 0 && k.counts.finished < cfg.caps[1] && k.rejectBin < cfg.caps[2]
  }

  /** The part after `i` others is due: its cycle is over, and there is room. */
  predicate DueAt(cfg: Config, s: State, now: int, cycle: int, i: nat)
    requires |cfg.caps| == 3
  {
    s.nextAt.Some? && s.nextAt.value + i * cycle <= now && Room(cfg, s.points.target, Parts(cfg, StockOf(s), s.points.inspectInterval, i))
  }

  /** A tick at `now` makes `n` parts: each of them is due, and the next one is not. */
  ghost predicate DueExactly(cfg: Config, s: State, now: int, cycle: int, n: nat)
    requires |cfg.caps| == 3
  {
    (forall i :: 0 <= i < n ==> DueAt(cfg, s, now, cycle, i)) && !DueAt(cfg, s, now, cycle, n)
  }

  lemma DueNext(cfg: Config, s: State, cycle: int, i: nat)
    requires |cfg.caps| == 3 && s.nextAt.Some?
    ensures DueAt(cfg, s, s.generatedAt, cycle, i + 1) <==>
            DueAt(cfg, ProduceOne(cfg, s).(nextAt := Some(s.nextAt.value + cycle)), s.generatedAt, cycle, i)
    ensures s.nextAt.value + (i + 1) * cycle == s.nextAt.value + cycle + i * cycle
  {
    PartsFromFirst(cfg, StockOf(s), s.points.inspectInterval, i);
    assert StockOf(ProduceOne(cfg, s)) == ProduceStock(cfg, StockOf(s), s.points.inspectInterval);
  }

  /** The catch-up loop makes the parts that are due, and moves the schedule by as many cycles. */
  lemma {:induction false} CatchUpMakes(cfg: Config, s: State, cycle: int) returns (n: nat)
    requires |cfg.caps| == 3 && s.nextAt.Some? && CanProduce(s.points)
    ensures DueExactly(cfg, s, s.generatedAt, cycle, n)
    ensures CatchUp(cfg, s, cycle) ==
            WithStock(s, Parts(cfg, StockOf(s), s.points.inspectInterval, n)).(nextAt := Some(s.nextAt.value + n * cycle))
    decreases s.points.target - s.points.counts.output
  {
    n := 0;
    if s.generatedAt >= s.nextAt.value && HasCapacity(cfg, s) {
      var u := ProduceOne(cfg, s).(nextAt := Some(s.nextAt.value + cycle));
      var m := CatchUpMakes(cfg, u, cycle);
      n := m + 1;
      DueNext(cfg, s, cycle, m);
      PartsFromFirst(cfg, StockOf(s), s.points.inspectInterval, m);
      forall i: nat | i < n ensures DueAt(cfg, s, s.generatedAt, cycle, i) {
        if i > 0 {
          DueNext(cfg, s, cycle, i - 1);
        }
      }
    }
  }

  /** Everything else about a tick: the sample is counted and dated, and the derived lists are renewed. */
  predicate Sampled(s: State, now: int, t: State) {
    && t == s.(sampleSequence := s.sampleSequence + 1, generatedAt := now, nextAt := t.nextAt, rejectBin := t.rejectBin, points := t.points)
    && t.points == s.points.(counts := t.points.counts, bins := t.points.bins, alarms := t.points.alarms)
  }

  lemma SampledTick(cfg: Config, s: State, now: int)
    requires cfg.Valid() && Inv(cfg, s)
    ensures Sampled(s, now, TickCandidate(cfg, s, now)) && Sampled(s, now, RefreshDerived(cfg, TickCandidate(cfg, s, now)))
  {
    TickKeeps(cfg, s, now);
  }

  /** The `n` parts a tick makes, and the schedule it leaves. */
  ghost predicate Makes(cfg: Config, s: State, now: int, n: nat, t: State)
    requires |cfg.caps| == 3
  {
    var k, cycle := StockOf(s), s.points.cycleSeconds * 1_000_000_000;
    && StockOf(t) == Parts(cfg, k, s.points.inspectInterval, n)
    && if !MayProduce(s.points) || !Room(cfg, s.points.target, k) then n == 0 && t.nextAt.None?
       else if s.nextAt.None? then n == 0 && t.nextAt == Some(now + cycle)
       else DueExactly(cfg, s, now, cycle, n) && t.nextAt == Some(s.nextAt.value + n * cycle)
  }

  lemma IdleTick(cfg: Config, s: State, now: int)
    requires cfg.Valid() && Inv(cfg, s) && (!MayProduce(s.points) || !Room(cfg, s.points.target, StockOf(s)) || s.nextAt.None?)
    ensures Makes(cfg, s, now, 0, TickCandidate(cfg, s, now))
  {
    TickIsCatchUp(cfg, s, now);
  }

  lemma BusyTick(cfg: Config, s: State, now: int) returns (n: nat)
    requires cfg.Valid() && Inv(cfg, s) && MayProduce(s.points) && Room(cfg, s.points.target, StockOf(s)) && s.nextAt.Some?
    ensures Makes(cfg, s, now, n, TickCandidate(cfg, s, now))
  {
    var cycle, u := s.points.cycleSeconds * SECOND, s.(sampleSequence := s.sampleSequence + 1, generatedAt := now);
    TickIsCatchUp(cfg, s, now);
    n := CatchUpMakes(cfg, u, cycle);
    assert TickCandidate(cfg, s, now) == CatchUp(cfg, u, cycle);
    assert StockOf(u) == StockOf(s) && DueAt(cfg, u, now, cycle, n) == DueAt(cfg, s, now, cycle, n);
    forall i: nat | i < n ensures DueAt(cfg, s, now, cycle, i) {
      assert DueAt(cfg, u, now, cycle, i);
    }
  }

  lemma RefreshMakes(cfg: Config, s: State, now: int, n: nat, t: State)
    requires |cfg.caps| == 3 && Makes(cfg, s, now, n, t)
    ensures Makes(cfg, s, now, n, RefreshDerived(cfg, t))
  {
    assert StockOf(RefreshDerived(cfg, t)) == StockOf(t);
  }

  /**
    What a tick does. A line that may run and has room makes exactly the parts whose
    cycles are over, while there is room; a line that begins to run waits one cycle; any
    other makes nothing and loses its schedule.
  */
  lemma ATickMakesWhatIsDue(cfg: Config, s: State, now: int) returns (n: nat)
    requires cfg.Valid() && Inv(cfg, s) && !s.faults.freezeData
    ensures Ticked(cfg, s, now, true).Ok?
    ensures var t := Ticked(cfg, s, now, true).value;
            Sampled(s, now, t) && Makes(cfg, s, now, n, t) && PartsMade(cfg, StockOf(s), s.points.inspectInterval, n, StockOf(t))
  {
    TickedInv(cfg, s, now);
    SampledTick(cfg, s, now);
    n := 0;
    if MayProduce(s.points) && Room(cfg, s.points.target, StockOf(s)) && s.nextAt.Some? {
      n := BusyTick(cfg, s, now);
    } else {
      IdleTick(cfg, s, now);
    }
    RefreshMakes(cfg, s, now, n, TickCandidate(cfg, s, now));
    PartsAre(cfg, StockOf(s), s.points.inspectInterval, n);
  }

  /** Frozen data is answered as it is, and a tick that cannot be written changes nothing. */
  lemma OtherTicksChangeNothing(cfg: Config, s: State, now: int, persisted: bool)
    requires cfg.Valid() && Inv(cfg, s) && (s.faults.freezeData || !persisted)
    ensures Ticked(cfg, s, now, persisted).Ok? <==> s.faults.freezeData
    ensures Kept(s, Ticked(cfg, s, now, persisted)) == s
  {
    TickedInv(cfg, s, now);
  }

  // -------------------------------------------------------------- injected faults

  /** The text that names a fault in a request. */
  function NameOf(f: Fault): string {
    match f
    case PlcDisconnected => "plc_disconnected"
    case FreezeData => "freeze_data"
    case EmergencyStop => "emergency_stop"
    case GuardDoorOpen => "guard_door_open"
    case SevereAlarm => "severe_alarm"
    case CommandReject => "command_reject"
    case CommandFail => "command_fail"
    case AppliedResponseTimeout => "applied_response_timeout"
    case ResponseDelay => "response_delay"
    case ForcedQuality => "quality"
    case UnsupportedFault => ""
  }

  lemma FaultHasItsName(name: string)
    requires !FaultOf(name).UnsupportedFault?
    ensures name == NameOf(FaultOf(name))
  {
  }

  /** A text names a fault exactly when it is that fault's own name. */
  lemma FaultNames(name: string, f: Fault)
    requires !f.UnsupportedFault?
    ensures FaultOf(name) == f <==> name == NameOf(f)
  {
    assert FaultOf(NameOf(f)) == f;
    if FaultOf(name) == f {
      FaultHasItsName(name);
    }
  }

  predicate Proper(f: Fault, r: FaultRequest) {
    match f
    case UnsupportedFault => false
    case ResponseDelay => r.delayMillis.Some? && 0 <= r.delayMillis.value <= 60000
    case ForcedQuality => r.quality == "" || r.quality == "GOOD" || r.quality == "UNCERTAIN" || r.quality == "BAD"
    case _ => true
  }

  /** The switch is what the request says if it is the one asked for, and stays otherwise. */
  predicate SwitchAfter(was: bool, own: Fault, asked: Fault, enabled: bool, now: bool) {
    now == if own == asked then enabled else was
  }

  predicate InterlocksAfter(f: Faults, k: Fault, enabled: bool, g: Faults) {
    && SwitchAfter(f.plcDisconnected, PlcDisconnected, k, enabled, g.plcDisconnected)
    && SwitchAfter(f.emergencyStop, EmergencyStop, k, enabled, g.emergencyStop)
    && SwitchAfter(f.guardDoorOpen, GuardDoorOpen, k, enabled, g.guardDoorOpen)
  }

  predicate OtherSwitchesAfter(f: Faults, k: Fault, enabled: bool, g: Faults) {
    && SwitchAfter(f.freezeData, FreezeData, k, enabled, g.freezeData)
    && SwitchAfter(f.severeAlarm, SevereAlarm, k, enabled, g.severeAlarm)
    && SwitchAfter(f.rejectCommands, CommandReject, k, enabled, g.rejectCommands)
    && SwitchAfter(f.failCommands, CommandFail, k, enabled, g.failCommands)
    && SwitchAfter(f.appliedResponseTimeout, AppliedResponseTimeout, k, enabled, g.appliedResponseTimeout)
  }

  predicate ValuesAfter(f: Faults, k: Fault, r: FaultRequest, g: Faults) {
    && (if k.ResponseDelay? then r.delayMillis == Some(g.responseDelayMillis) else g.responseDelayMillis == f.responseDelayMillis)
    && (if k.ForcedQuality? then r.quality == QualityText(g.forcedQuality) else g.forcedQuality == f.forcedQuality)
  }

  /** Each request sets its own fault and no other. */
  predicate FaultsAfter(f: Faults, k: Fault, r: FaultRequest, g: Faults) {
    var enabled := r.enabled == Some(true);
    InterlocksAfter(f, k, enabled, g) && OtherSwitchesAfter(f, k, enabled, g) && ValuesAfter(f, k, r, g)
  }

  function QualityText(q: Option<Quality>): string {
    match q
    case None => ""
    case Some(Good) => "GOOD"
    case Some(Uncertain) => "UNCERTAIN"
    case Some(Bad) => "BAD"
  }

  lemma InjectsProperRequests(f: Faults, k: Fault, r: FaultRequest)
    ensures Inject(f, k, r).Ok? <==> Proper(k, r)
  {
  }

  lemma SwitchedInterlocks(f: Faults, k: Fault, enabled: bool)
    ensures InterlocksAfter(f, k, enabled, Switched(f, k, enabled))
  {
    match k
    case PlcDisconnected =>
    case FreezeData =>
    case EmergencyStop =>
    case GuardDoorOpen =>
    case SevereAlarm =>
    case CommandReject =>
    case CommandFail =>
    case AppliedResponseTimeout =>
    case ResponseDelay =>
    case ForcedQuality =>
    case UnsupportedFault =>
  }

  lemma SwitchedOthers(f: Faults, k: Fault, enabled: bool)
    ensures OtherSwitchesAfter(f, k, enabled, Switched(f, k, enabled))
  {
    match k
    case PlcDisconnected =>
    case FreezeData =>
    case EmergencyStop =>
    case GuardDoorOpen =>
    case SevereAlarm =>
    case CommandReject =>
    case CommandFail =>
    case AppliedResponseTimeout =>
    case ResponseDelay =>
    case ForcedQuality =>
    case UnsupportedFault =>
  }

  lemma SwitchedAfter(f: Faults, k: Fault, enabled: bool, g: Faults)
    requires if k.ResponseDelay? then g == f.(responseDelayMillis := g.responseDelayMillis)
             else if k.ForcedQuality? then g == f.(forcedQuality := g.forcedQuality)
             else g == Switched(f, k, enabled)
    ensures InterlocksAfter(f, k, enabled, g) && OtherSwitchesAfter(f, k, enabled, g)
  {
    if !k.ResponseDelay? && !k.ForcedQuality? {
      SwitchedInterlocks(f, k, enabled);
      SwitchedOthers(f, k, enabled);
    }
  }

  lemma QualityIsNamed(text: string)
    ensures QualityOf(text).Ok? ==> QualityText(QualityOf(text).value) == text
  {
  }

  lemma SwitchedKeepsValues(f: Faults, k: Fault, enabled: bool)
    ensures Switched(f, k, enabled).responseDelayMillis == f.responseDelayMillis && Switched(f, k, enabled).forcedQuality == f.forcedQuality
  {
    match k
    case PlcDisconnected =>
    case FreezeData =>
    case EmergencyStop =>
    case GuardDoorOpen =>
    case SevereAlarm =>
    case CommandReject =>
    case CommandFail =>
    case AppliedResponseTimeout =>
    case ResponseDelay =>
    case ForcedQuality =>
    case UnsupportedFault =>
  }

  lemma InjectsValues(f: Faults, k: Fault, r: FaultRequest, g: Faults)
    requires Inject(f, k, r) == Ok(g)
    ensures ValuesAfter(f, k, r, g)
    ensures if k.ResponseDelay? then g == f.(responseDelayMillis := g.responseDelayMillis)
            else if k.ForcedQuality? then g == f.(forcedQuality := g.forcedQuality)
            else g == Switched(f, k, r.enabled == Some(true))
  {
    QualityIsNamed(r.quality);
    SwitchedKeepsValues(f, k, r.enabled == Some(true));
  }

  lemma InjectsExactly(f: Faults, k: Fault, r: FaultRequest)
    ensures Inject(f, k, r).Ok? <==> Proper(k, r)
    ensures Inject(f, k, r).Ok? ==> FaultsAfter(f, k, r, Inject(f, k, r).value)
  {
    InjectsProperRequests(f, k, r);
    if Inject(f, k, r).Ok? {
      var g := Inject(f, k, r).value;
      InjectsValues(f, k, r, g);
      SwitchedAfter(f, k, r.enabled == Some(true), g);
    }
  }

  /** What the line reads from its inputs: the injected faults, and safety when there is none of the three. */
  predicate InputsShow(f: Faults, p: Points) {
    && p.plcConnected == !f.plcDisconnected && p.emergencyStop == f.emergencyStop && p.guardDoorClosed == !f.guardDoorOpen
    && p.safetyReady == !(f.plcDisconnected || f.emergencyStop || f.guardDoorOpen)
    && (p.running ==> p.safetyReady)
  }

  lemma FaultShows(cfg: Config, s: State, g: Faults, now: int)
    requires |cfg.caps| == 3
    ensures var t := RefreshDerived(cfg, ApplyFaultState(s.(faults := g, generatedAt := now))); t.faults == g && OnlyInputsFollow(s, now, t)
  {
  }

  /**
    A fault is injected exactly when injection is allowed, the request is proper and can
    be persisted: its own fault is set, the inputs show it at once, and only an unsafe
    line stops.
  */
  lemma AFaultIsSetExactlyAsAsked(cfg: Config, s: State, k: Fault, r: FaultRequest, now: int, persisted: bool)
    requires cfg.Valid() && Inv(cfg, s) && FaultOf(r.fault) == k
    ensures !k.UnsupportedFault? ==> r.fault == NameOf(k)
    ensures k.UnsupportedFault? ==> forall f: Fault :: !f.UnsupportedFault? ==> r.fault != NameOf(f)
    ensures var t := FaultSet(cfg, s, r, now, persisted);
            && (t.Ok? <==> cfg.faultInjectionEnabled && Proper(k, r) && persisted)
            && (t.Ok? ==> FaultsAfter(s.faults, k, r, t.value.faults) && OnlyInputsFollow(s, now, t.value))
  {
    InjectsExactly(s.faults, k, r);
    if k.UnsupportedFault? {
      forall f: Fault | !f.UnsupportedFault? ensures r.fault != NameOf(f) {
        FaultNames(r.fault, f);
      }
    } else {
      FaultNames(r.fault, k);
    }
    if Inject(s.faults, k, r).Ok? {
      FaultShows(cfg, s, Inject(s.faults, k, r).value, now);
    }
  }

  /** The inputs follow the faults; a line that is not safe stops, and all else stays. */
  predicate OnlyInputsFollow(s: State, now: int, t: State) {
    && InputsShow(t.faults, t.points)
    && t == s.(faults := t.faults, generatedAt := now, points := t.points)
    && t.points == s.points.(plcConnected := t.points.plcConnected, emergencyStop := t.points.emergencyStop,
                             guardDoorClosed := t.points.guardDoorClosed, safetyReady := t.points.safetyReady,
                             running := t.points.running, bins := t.points.bins, alarms := t.points.alarms)
    && t.points.running == (s.points.running && t.points.safetyReady)
  }

  // -------------------------------------------------------------- what every state shows

  predicate BinShows(b: Bin, id: string, quantity: int, capacity: int) {
    && b.id == id && b.quantity == quantity && b.capacity == capacity
    && (b.status == "empty" <==> quantity <= 0)
    && (b.status == "full" <==> 0 < quantity && capacity <= quantity)
    && (b.status == "warning" <==> 0 < quantity < capacity && 4 * capacity <= 5 * quantity)
    && (b.status == "normal" <==> 0 < quantity < capacity && 5 * quantity < 4 * capacity)
  }

  predicate BinsShow(cfg: Config, s: State)
    requires |cfg.caps| == 3
  {
    var bins := s.points.bins;
    && |bins| == 3
    && BinShows(bins[0], "BIN-01", s.points.counts.blank, cfg.caps[0])
    && BinShows(bins[1], "BIN-02", s.points.counts.finished, cfg.caps[1])
    && (if s.faults.severeAlarm then bins[2] == Bin("BIN-03", s.rejectBin, cfg.caps[2], "fault")
        else BinShows(bins[2], "BIN-03", s.rejectBin, cfg.caps[2]))
  }

  predicate Listed(s: State, id: string) {
    exists i :: 0 <= i < |s.points.alarms| && s.points.alarms[i].alarmId == id
  }

  /** Each alarm is listed exactly while its condition holds. */
  predicate AlarmsShow(cfg: Config, s: State)
    requires |cfg.caps| == 3
  {
    var n := s.points.counts;
    && (Listed(s, "9001") <==> s.faults.emergencyStop)
    && (Listed(s, "9002") <==> s.faults.guardDoorOpen)
    && (Listed(s, "1001") <==> n.toolUsed >= s.points.toolLimit)
    && (Listed(s, "2001") <==> n.finished > 0 && 4 * cfg.caps[1] <= 5 * n.finished)
    && (Listed(s, "9999") <==> s.faults.severeAlarm)
  }

  lemma ListedExactlyWhen(cfg: Config, s: State, i: nat)
    requires |cfg.caps| == 3 && RefreshDerived(cfg, s) == s && i < |ALARM_KINDS|
    ensures Listed(s, ALARM_KINDS[i].id) <==> Alarming(cfg, s, ALARM_KINDS[i].id)
  {
    var id := ALARM_KINDS[i].id;
    assert RefreshDerived(cfg, s).points.alarms == s.points.alarms;
    KindsAreDistinct();
    FindRefreshed(cfg, s, ALARM_KINDS, i);
    FindIsTheLast(s.points.alarms, id);
    assert Listed(s, id) <==> !Absent(s.points.alarms, id);
  }

  lemma AlarmsAreShown(cfg: Config, s: State)
    requires cfg.Valid() && Settled(cfg, s)
    ensures AlarmsShow(cfg, s)
  {
    ListedExactlyWhen(cfg, s, 0);
    ListedExactlyWhen(cfg, s, 1);
    ListedExactlyWhen(cfg, s, 2);
    ListedExactlyWhen(cfg, s, 3);
    ListedExactlyWhen(cfg, s, 4);
    assert ApplyFaultState(s).points == s.points;
  }

  /** What every state of a run shows to the agent: inputs, bins, alarms and the quality of the sample. */
  lemma EveryStateShows(cfg: Config, s: State)
    requires cfg.Valid() && Inv(cfg, s)
    ensures InputsShow(s.faults, s.points) && BinsShow(cfg, s) && AlarmsShow(cfg, s)
    ensures var shown := SnapshotOf(s);
            && shown == Snapshot("block-plc-private/v1", s.sessionId, s.sampleSequence, s.generatedAt, shown.quality, s.points)
            && shown.quality == if s.faults.forcedQuality.Some? then s.faults.forcedQuality.value
                                else if s.faults.plcDisconnected then Bad else Good
  {
    AlarmsAreShown(cfg, s);
    assert ApplyFaultState(s).points == s.points;
    assert RefreshDerived(cfg, s).points.bins == s.points.bins;
  }

  lemma ListedIsFound(s: State, id: string)
    ensures Listed(s, id) <==> Find(s.points.alarms, id).Some?
  {
    FindIsTheLast(s.points.alarms, id);
    assert Listed(s, id) <==> !Absent(s.points.alarms, id);
  }

  /** What is listed in a settled state is active and has not been cleared. */
  lemma ListedItemsAreActive(cfg: Config, s: State, i: nat)
    requires |cfg.caps| == 3 && RefreshDerived(cfg, s) == s && i < |ALARM_KINDS| && Listed(s, ALARM_KINDS[i].id)
    ensures var a := Find(s.points.alarms, ALARM_KINDS[i].id); a.Some? && a.value.active && a.value.clearedAt.None?
  {
    assert RefreshDerived(cfg, s).points.alarms == s.points.alarms;
    ListedIsFound(s, ALARM_KINDS[i].id);
    KindsAreDistinct();
    FindRefreshed(cfg, s, ALARM_KINDS, i);
  }

  /** An alarm that lasts over a tick keeps its item, acknowledgement and first instant included; a new one is dated by the tick. */
  lemma LastingAlarmsKeepTheirItems(cfg: Config, s: State, now: int, i: nat)
    requires cfg.Valid() && Inv(cfg, s) && !s.faults.freezeData && i < |ALARM_KINDS|
    requires Ticked(cfg, s, now, true).Ok? && Listed(Ticked(cfg, s, now, true).value, ALARM_KINDS[i].id)
    ensures var k, t := ALARM_KINDS[i], Ticked(cfg, s, now, true).value;
            Find(t.points.alarms, k.id) ==
            if Listed(s, k.id) then Find(s.points.alarms, k.id) else Some(Alarm(k.id, k.code, k.level, k.text, true, now, None, false))
  {
    var k, u := ALARM_KINDS[i], TickCandidate(cfg, s, now);
    SampledTick(cfg, s, now);
    TickKeeps(cfg, s, now);
    assert u.points.alarms == s.points.alarms && u.generatedAt == now;
    KindsAreDistinct();
    FindRefreshed(cfg, u, ALARM_KINDS, i);
    ListedIsFound(s, k.id);
    ListedIsFound(RefreshDerived(cfg, u), k.id);
    if Listed(s, k.id) {
      ListedItemsAreActive(cfg, s, i);
    }
  }

  // -------------------------------------------------------------- sessions

  /** A new session restarts the sample count and the cycle, and keeps the line. */
  lemma ARestartKeepsTheLine(cfg: Config, s: State, sessionId: string, now: int, persisted: bool)
    ensures Restarted(cfg, s, sessionId, now, persisted).Ok? <==> cfg.faultInjectionEnabled && persisted
    ensures Restarted(cfg, s, sessionId, now, persisted).Ok? ==>
      Restarted(cfg, s, sessionId, now, persisted).value ==
      s.(sessionId := sessionId, sampleSequence := 0, generatedAt := now,
         nextAt := if MayProduce(s.points) then Some(now + s.points.cycleSeconds * 1_000_000_000) else None)
  {
  }

  /** So does a start from the file of a reachable state, which goes on with its sample count. */
  lemma AStartUpKeepsTheLine(cfg: Config, s: State, sessionId: string, now: int, persisted: bool)
    requires cfg.Valid() && Inv(cfg, s) && Opened(cfg, Some(s), sessionId, now, persisted).Ok?
    ensures Opened(cfg, Some(s), sessionId, now, persisted).value ==
      s.(sessionId := sessionId, generatedAt := now,
         nextAt := if MayProduce(s.points) then Some(now + s.points.cycleSeconds * 1_000_000_000) else s.nextAt)
  {
    var t := s.(sessionId := sessionId, generatedAt := now,
                nextAt := if MayProduce(s.points) then Some(now + s.points.cycleSeconds * SECOND) else s.nextAt);
    RestartInv(cfg, s, t);
  }

  /** Whatever file a simulator starts from, its counters, quantities and settings are sound and its lists are current. */
  lemma WhateverFileStartsIsSound(cfg: Config, file: State, sessionId: string, now: int, persisted: bool)
    requires cfg.Valid() && Opened(cfg, Some(file), sessionId, now, persisted).Ok?
    ensures persisted
    ensures var t := Opened(cfg, Some(file), sessionId, now, persisted).value;
            && Settled(cfg, t) && t.sessionId == sessionId && t.generatedAt == now
            && ValidCounters(t.points.counts) && t.points.controlRevision >= 1 && t.schemaVersion == 2
            && t.points.cycleSeconds > 0 && t.points.target > 0 && t.points.toolLimit > 0 && t.points.inspectInterval > 0
            && (t.points.mode == "auto" || t.points.mode == "manual") && t.points.counts.toolUsed >= 0
            && 0 <= t.points.counts.blank <= cfg.caps[0] && 0 <= t.points.counts.finished <= cfg.caps[1] && 0 <= t.rejectBin <= cfg.caps[2]
            && t.processed == file.processed && t.faults == file.faults && t.points.counts == file.points.counts
  {
    var f := file.(sessionId := sessionId, generatedAt := now);
    var u := if CanProduce(f.points) then f.(nextAt := Some(now + f.points.cycleSeconds * SECOND)) else f;
    RefreshIsIdempotent(cfg, ApplyFaultState(u));
  }

  /** A first start: an idle safe line in automatic mode with a full bin of blanks. */
  lemma AFirstStart(cfg: Config, sessionId: string, now: int)
    requires cfg.Valid()
    ensures var s := StartState(cfg, sessionId, now);
            && Inv(cfg, s) && s.sessionId == sessionId && s.generatedAt == now && s.sampleSequence == 0 && s.nextAt.None?
            && s.points.controlRevision == 1 && s.processed == map[] && s.faults == NO_FAULTS
            && StockOf(s) == Stock(Counts(0, 0, 0, 0, 0, cfg.caps[0], 0, 0), 0)
            && !s.points.running && s.points.mode == "auto" && !s.points.singlePaused && !s.points.framePaused && s.points.safetyReady
            && s.points.target == cfg.initialTarget && s.points.cycleSeconds == cfg.initialCycleSeconds
            && s.points.toolLimit == cfg.initialToolLimit && s.points.inspectInterval == cfg.initialInspectInterval
  {
    StartInv(cfg, sessionId, now);
  }
}

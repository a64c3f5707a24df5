/**
  The PLC simulator: a production line that is sampled by ticks, steered by
  revision-guarded commands and disturbed by injected faults.

  A candidate state is a copy that an operation edits and then persists; the
  engine adopts it only once it is on disk. `persisted` is the environment's
  answer to that write.
*/
module PlcSim {
  import opened Wrappers
  import opened Contract

  const SECOND: int := 1_000_000_000
  const PERSISTENCE_SCHEMA_VERSION: int := 2
  const PERSIST_FAILED := "persist simulator state"

  // `passes` is the inspection verdict by inspection index (deterministicPass for one seed and pass rate).
  datatype Config = Config(
    caps: seq<int>, passes: int -> bool,
    initialTarget: int, initialCycleSeconds: int, initialToolLimit: int, initialInspectInterval: int,
    faultInjectionEnabled: bool)
  {
    // What LoadSimulator guarantees of every configuration it returns.
    ghost predicate Valid() {
      && |caps| == 3
      && (forall i :: 0 <= i < 3 ==> caps[i] >= 1)
      && initialTarget >= 1 && initialCycleSeconds >= 1 && initialToolLimit >= 1 && initialInspectInterval >= 1
    }
  }

  datatype Faults = Faults(
    plcDisconnected: bool, responseDelayMillis: int, freezeData: bool, forcedQuality: Option<Quality>,
    emergencyStop: bool, guardDoorOpen: bool, severeAlarm: bool,
    rejectCommands: bool, failCommands: bool, appliedResponseTimeout: bool)

  const NO_FAULTS := Faults(false, 0, false, None, false, false, false, false, false, false)

  datatype FaultRequest = FaultRequest(fault: string, enabled: Option<bool>, delayMillis: Option<int>, quality: string)

  datatype Processed = Processed(fingerprint: Fingerprint, result: CommandResult)

  datatype State = State(
    schemaVersion: int, sessionId: string, sampleSequence: nat, generatedAt: int, nextAt: Option<int>,
    rejectBin: int, points: Points, faults: Faults, processed: map<string, Processed>)

  // ---------------------------------------------------------------- pure rules

  predicate CanProduce(p: Points) {
    p.plcConnected && p.running && p.mode == "auto" && !p.singlePaused && !p.framePaused &&
    p.safetyReady && !p.emergencyStop && p.guardDoorClosed
  }

  predicate HasCapacity(cfg: Config, s: State)
    requires |cfg.caps| == 3
  {
    var n := s.points.counts;
    n.output < s.points.target && n.blank > 0 && n.finished < cfg.caps[1] && s.rejectBin < cfg.caps[2]
  }

  predicate ValidCounters(n: Counts) {
    && n.output >= 0 && n.inspected >= 0 && n.passed >= 0 && n.ng >= 0
    && n.inspected <= n.output
    && n.passed + n.ng == n.inspected
    && n.pending == n.output - n.inspected
  }

  function BinStatus(quantity: int, capacity: int): string {
    if quantity <= 0 then "empty"
    else if quantity >= capacity then "full"
    else if quantity * 100 >= capacity * 80 then "warning"
    else "normal"
  }

  predicate SimulationOnly(name: string) {
    ActionOf(name) in {ClearBins, UpdateSettings, AcknowledgeAlarm}
  }

  function SnapshotOf(s: State): Snapshot {
    var quality := if s.faults.forcedQuality.Some? then s.faults.forcedQuality.value
                   else if !s.points.plcConnected then Bad else Good;
    Snapshot(SCHEMA_VERSION, s.sessionId, s.sampleSequence, s.generatedAt, quality, s.points)
  }

  // ------------------------------------------------------- edits of a candidate

  // The part of a state that production and inspection move: the counters and the reject bin.
  datatype Stock = Stock(counts: Counts, rejectBin: int)

  function StockOf(s: State): Stock {
    Stock(s.points.counts, s.rejectBin)
  }

  function WithStock(s: State, k: Stock): State {
    s.(points := s.points.(counts := k.counts), rejectBin := k.rejectBin)
  }

  function InspectStock(cfg: Config, k: Stock, fromFinishedBin: bool): Stock {
    var n := k.counts;
    var m := n.(inspected := n.inspected + 1, pending := n.output - (n.inspected + 1));
    if cfg.passes(n.inspected + 1) then
      Stock(m.(passed := n.passed + 1, finished := if fromFinishedBin then n.finished else n.finished + 1), k.rejectBin)
    else
      Stock(m.(ng := n.ng + 1, finished := if fromFinishedBin && n.finished > 0 then n.finished - 1 else n.finished),
            k.rejectBin + 1)
  }

  predicate InspectionDue(output: int, interval: int) {
    interval > 0 && output % interval == 0
  }

  function ProduceStock(cfg: Config, k: Stock, interval: int): Stock {
    var n := k.counts.(output := k.counts.output + 1, toolUsed := k.counts.toolUsed + 1, blank := k.counts.blank - 1);
    if InspectionDue(n.output, interval) then InspectStock(cfg, Stock(n, k.rejectBin), false)
    else Stock(n.(finished := n.finished + 1, pending := n.output - n.inspected), k.rejectBin)
  }

  function InspectOne(cfg: Config, s: State, fromFinishedBin: bool): State {
    WithStock(s, InspectStock(cfg, StockOf(s), fromFinishedBin))
  }

  function ProduceOne(cfg: Config, s: State): State {
    WithStock(s, ProduceStock(cfg, StockOf(s), s.points.inspectInterval))
  }

  /** Produces every item that is due at `generatedAt`, one cycle apart. */
  function CatchUp(cfg: Config, s: State, cycle: int): (t: State)
    requires |cfg.caps| == 3
    ensures t.nextAt.Some? == s.nextAt.Some?
    decreases s.points.target - s.points.counts.output
  {
    if s.nextAt.Some? && s.generatedAt >= s.nextAt.value && CanProduce(s.points) && HasCapacity(cfg, s)
    then CatchUp(cfg, ProduceOne(cfg, s).(nextAt := Some(s.nextAt.value + cycle)), cycle)
    else s
  }

  function ApplyFaultState(s: State): State {
    var ready := !s.faults.plcDisconnected && !s.faults.emergencyStop && !s.faults.guardDoorOpen;
    s.(points := s.points.(
      plcConnected := !s.faults.plcDisconnected, emergencyStop := s.faults.emergencyStop,
      guardDoorClosed := !s.faults.guardDoorOpen, safetyReady := ready,
      running := s.points.running && ready))
  }

  function BinsOf(cfg: Config, s: State): seq<Bin>
    requires |cfg.caps| == 3
  {
    [Bin("BIN-01", s.points.counts.blank, cfg.caps[0], BinStatus(s.points.counts.blank, cfg.caps[0])),
     Bin("BIN-02", s.points.counts.finished, cfg.caps[1], BinStatus(s.points.counts.finished, cfg.caps[1])),
     Bin("BIN-03", s.rejectBin, cfg.caps[2],
         if s.faults.severeAlarm then "fault" else BinStatus(s.rejectBin, cfg.caps[2]))]
  }

  /** The last alarm of the list with this id: what a map filled front to back holds. */
  function Find(alarms: seq<Alarm>, id: string): (r: Option<Alarm>)
    ensures r.Some? ==> r.value in alarms && r.value.alarmId == id
  {
    if alarms == [] then None
    else if alarms[|alarms| - 1].alarmId == id then Some(alarms[|alarms| - 1])
    else Find(alarms[..|alarms| - 1], id)
  }

  datatype AlarmKind = AlarmKind(id: string, code: string, level: string, text: string)

  const ALARM_KINDS: seq<AlarmKind> := [
    AlarmKind("9001", "E_STOP", "danger", "急停已激活"),
    AlarmKind("9002", "GUARD_DOOR", "danger", "安全门已打开"),
    AlarmKind("1001", "TOOL_LIMIT", "warning", "刀具使用次数达到上限"),
    AlarmKind("2001", "FINISHED_BIN", "warning", "成品料仓接近或达到容量"),
    AlarmKind("9999", "SIM_SEVERE", "danger", "模拟严重报警")]

  /** Whether the condition behind an alarm id holds. */
  predicate Alarming(cfg: Config, s: State, id: string)
    requires |cfg.caps| == 3
  {
    (id == "9001" && s.points.emergencyStop) ||
    (id == "9002" && !s.points.guardDoorClosed) ||
    (id == "1001" && s.points.counts.toolUsed >= s.points.toolLimit) ||
    (id == "2001" && BinStatus(s.points.counts.finished, cfg.caps[1]) in {"warning", "full"}) ||
    (id == "9999" && s.faults.severeAlarm)
  }

  /** A condition that persists keeps its alarm, acknowledgement included. */
  function AlarmItem(previous: seq<Alarm>, kind: AlarmKind, at: int): (item: Alarm)
    ensures item.alarmId == kind.id && item.active
  {
    var known := Find(previous, kind.id);
    var item := if known.Some? then known.value
                else Alarm(kind.id, kind.code, kind.level, kind.text, true, at, None, false);
    item.(active := true, clearedAt := None)
  }

  function AddAlarms(cfg: Config, s: State, kinds: seq<AlarmKind>): seq<Alarm>
    requires |cfg.caps| == 3
  {
    if kinds == [] then []
    else
      var k := kinds[|kinds| - 1];
      AddAlarms(cfg, s, kinds[..|kinds| - 1]) +
      (if Alarming(cfg, s, k.id) then [AlarmItem(s.points.alarms, k, s.generatedAt)] else [])
  }

  function RefreshDerived(cfg: Config, s: State): State
    requires |cfg.caps| == 3
  {
    s.(points := s.points.(bins := BinsOf(cfg, s), alarms := AddAlarms(cfg, s, ALARM_KINDS)))
  }

  // ------------------------------------------------------------- operations

  function TickCandidate(cfg: Config, s: State, now: int): State
    requires |cfg.caps| == 3
  {
    var t := ApplyFaultState(s.(sampleSequence := s.sampleSequence + 1, generatedAt := now));
    var cycle := t.points.cycleSeconds * SECOND;
    if !CanProduce(t.points) || !HasCapacity(cfg, t) then t.(nextAt := None)
    else CatchUp(cfg, if t.nextAt.None? then t.(nextAt := Some(now + cycle)) else t, cycle)
  }

  /** One sample. Errors leave the state alone. */
  function Ticked(cfg: Config, s: State, now: int, persisted: bool): Result<State>
    requires |cfg.caps| == 3
  {
    if s.faults.freezeData then Ok(s)
    else
      var t := TickCandidate(cfg, s, now);
      if !ValidCounters(t.points.counts) then Err("invalid counters")
      else if !persisted then Err(PERSIST_FAILED)
      else Ok(RefreshDerived(cfg, t))
  }

  datatype Applying = Accepted(state: State) | Refused(code: string, reason: string)

  predicate Meant(a: Alarm, id: string) {
    a.alarmId == id && a.active
  }

  function Marked(a: Alarm, id: string): Alarm {
    if Meant(a, id) then a.(acknowledged := true) else a
  }

  function Acknowledged(alarms: seq<Alarm>, id: string): (r: seq<Alarm>)
    ensures |r| == |alarms|
    ensures forall i :: 0 <= i < |r| ==> r[i] == alarms[i].(acknowledged := r[i].acknowledged)
    ensures forall i :: 0 <= i < |r| ==> (r[i].acknowledged <==> alarms[i].acknowledged || Meant(alarms[i], id))
  {
    seq(|alarms|, i requires 0 <= i < |alarms| => Marked(alarms[i], id))
  }

  function ApplyNamed(cfg: Config, s: State, c: Command): Applying
    requires |cfg.caps| == 3
  {
    ApplyAction(cfg, s, ActionOf(c.name), c)
  }

  function ApplyAction(cfg: Config, s: State, action: Action, c: Command): Applying
    requires |cfg.caps| == 3
  {
    var p := s.points;
    match action
    case Start =>
      if p.emergencyStop || !p.guardDoorClosed || !p.safetyReady
      then Refused(SAFETY_INTERLOCK, "start rejected by safety interlock")
      else Accepted(s.(points := p.(running := true)))
    case Pause => Accepted(s.(points := p.(running := false)))
    case Reset =>
      Accepted(s.(rejectBin := 0, points := p.(
        running := false, singlePaused := false, framePaused := false,
        counts := Counts(0, 0, 0, 0, 0, cfg.caps[0], 0, 0))))
    case SetMode =>
      if c.mode != "auto" && c.mode != "manual" then Refused(COMMAND_REJECTED, "mode must be auto or manual")
      else Accepted(s.(points := p.(mode := c.mode)))
    case SetSinglePaused =>
      if c.paused.None? then Refused(COMMAND_REJECTED, "paused is required")
      else Accepted(s.(points := p.(singlePaused := c.paused.value)))
    case SetFramePaused =>
      if c.paused.None? then Refused(COMMAND_REJECTED, "paused is required")
      else Accepted(s.(points := p.(framePaused := c.paused.value)))
    case Inspect =>
      if p.counts.inspected >= p.counts.output then Refused(COMMAND_REJECTED, "no produced item is pending inspection")
      else Accepted(InspectOne(cfg, s, true))
    case ClearBins => Accepted(s.(rejectBin := 0, points := p.(counts := p.counts.(blank := 0, finished := 0))))
    case UpdateSettings =>
      if c.settings.None? || c.settings.value.target < 1 || c.settings.value.toolLimit < 1 || c.settings.value.inspectInterval < 1
      then Refused(COMMAND_REJECTED, "positive target, toolLimit and inspectInterval are required")
      else Accepted(s.(points := p.(target := c.settings.value.target, toolLimit := c.settings.value.toolLimit,
                                    inspectInterval := c.settings.value.inspectInterval)))
    case AcknowledgeAlarm =>
      if !exists i :: 0 <= i < |p.alarms| && p.alarms[i].alarmId == c.alarmId && p.alarms[i].active
      then Refused(ALARM_NOT_FOUND, "active alarm not found")
      else Accepted(s.(points := p.(alarms := Acknowledged(p.alarms, c.alarmId))))
    case Unsupported => Refused(COMMAND_REJECTED, "unsupported command \"" + c.name + "\"")
  }

  predicate Restarts(action: Action) {
    action in {Start, SetMode, SetSinglePaused, SetFramePaused}
  }

  /** The next revision, with production rescheduled when the command may restart the line. */
  function Rescheduled(s: State, c: Command, now: int): State {
    var t := ApplyFaultState(s.(generatedAt := now, points := s.points.(controlRevision := s.points.controlRevision + 1)));
    var nextAt :=
      if !CanProduce(t.points) then None
      else if Restarts(ActionOf(c.name)) || t.nextAt.None? then Some(now + t.points.cycleSeconds * SECOND)
      else t.nextAt;
    t.(nextAt := nextAt)
  }

  /** The state an accepted command leaves, before it is recorded. */
  function Settle(cfg: Config, s: State, c: Command, now: int): State
    requires |cfg.caps| == 3
  {
    RefreshDerived(cfg, Rescheduled(s, c, now))
  }

  function Recorded(s: State, c: Command, r: CommandResult): State {
    s.(processed := s.processed[c.id := Processed(FingerprintOf(c), r)])
  }

  datatype Decision = Decision(state: State, result: CommandResult)

  function Refusal(s: State, c: Command, status: Status, code: string, reason: string, simulationOnly: bool): Decision {
    var r := CommandResult(c.id, c.name, status, code, reason, simulationOnly, s.points.controlRevision, None);
    Decision(Recorded(s, c, r), r)
  }

  function Execution(t: State, c: Command): Decision {
    var r := CommandResult(c.id, c.name, Executed, "", "", SimulationOnly(c.name),
                           t.points.controlRevision, Some(SnapshotOf(t)));
    Decision(Recorded(t, c, r), r)
  }

  /** The refusals that do not depend on what the command asks for. */
  function Barred(s: State, c: Command): Option<Decision> {
    if c.expectedRevision.Some? && c.expectedRevision.value != s.points.controlRevision then
      Some(Refusal(s, c, Rejected, REVISION_CONFLICT, "control revision conflict", false))
    else if s.faults.rejectCommands then
      Some(Refusal(s, c, Rejected, COMMAND_REJECTED, "fault injection rejected command", false))
    else if s.faults.failCommands then
      Some(Refusal(s, c, Failed, COMMAND_FAILED, "fault injection failed command", false))
    else if !s.points.plcConnected then
      Some(Refusal(s, c, Rejected, DEVICE_UNAVAILABLE, "PLC is disconnected", false))
    else None
  }

  function Conclude(cfg: Config, s: State, c: Command, applying: Applying, now: int): Result<Decision>
    requires |cfg.caps| == 3
  {
    match applying
    case Refused(code, reason) => Ok(Refusal(s, c, Rejected, code, reason, SimulationOnly(c.name)))
    case Accepted(edited) =>
      var t := Settle(cfg, edited, c, now);
      if !ValidCounters(t.points.counts) then Err("invalid counters") else Ok(Execution(t, c))
  }

  /** What the engine decides for a command id it has not seen. */
  function Decide(cfg: Config, s: State, c: Command, now: int): Result<Decision>
    requires |cfg.caps| == 3
  {
    var barred := Barred(s, c);
    if barred.Some? then Ok(barred.value) else Conclude(cfg, s, c, ApplyNamed(cfg, s, c), now)
  }

  datatype Outcome = Outcome(state: State, reply: Result<CommandResult>)

  function Applied(cfg: Config, s: State, command: Command, now: int, persisted: bool): Outcome
    requires |cfg.caps| == 3
  {
    var c := NormalizeCommand(command);
    if !ValidCommandId(c.id) then Outcome(s, Err("commandId must contain 1 to 128 characters"))
    else if c.id in s.processed then
      if s.processed[c.id].fingerprint != FingerprintOf(c) then
        Outcome(s, Ok(CommandResult(c.id, c.name, Rejected, IDEMPOTENCY_CONFLICT,
          "commandId is already bound to different command content", false, s.points.controlRevision, None)))
      else Outcome(s, Ok(s.processed[c.id].result))
    else
      match Decide(cfg, s, c, now)
      case Err(e) => Outcome(s, Err(e))
      case Ok(d) => if persisted then Outcome(d.state, Ok(d.result)) else Outcome(s, Err(PERSIST_FAILED))
  }

  // The faults that can be injected; any other text is unsupported.
  datatype Fault = PlcDisconnected | FreezeData | EmergencyStop | GuardDoorOpen | SevereAlarm
                 | CommandReject | CommandFail | AppliedResponseTimeout | ResponseDelay | ForcedQuality | UnsupportedFault

  function FaultOf(name: string): Fault {
    match name
    case "plc_disconnected" => PlcDisconnected
    case "freeze_data" => FreezeData
    case "emergency_stop" => EmergencyStop
    case "guard_door_open" => GuardDoorOpen
    case "severe_alarm" => SevereAlarm
    case "command_reject" => CommandReject
    case "command_fail" => CommandFail
    case "applied_response_timeout" => AppliedResponseTimeout
    case "response_delay" => ResponseDelay
    case "quality" => ForcedQuality
    case _ => UnsupportedFault
  }

  function QualityOf(text: string): Result<Option<Quality>> {
    match text
    case "" => Ok(None)
    case "GOOD" => Ok(Some(Good))
    case "UNCERTAIN" => Ok(Some(Uncertain))
    case "BAD" => Ok(Some(Bad))
    case _ => Err("quality must be GOOD, UNCERTAIN, BAD or empty")
  }

  function WithFault(f: Faults, request: FaultRequest): Result<Faults> {
    Inject(f, FaultOf(request.fault), request)
  }

  function Inject(f: Faults, kind: Fault, request: FaultRequest): Result<Faults> {
    match kind
    case ResponseDelay =>
      if request.delayMillis.None? || request.delayMillis.value < 0 || request.delayMillis.value > 60000
      then Err("delayMillis must be between 0 and 60000")
      else Ok(f.(responseDelayMillis := request.delayMillis.value))
    case ForcedQuality =>
      (match QualityOf(request.quality)
       case Ok(q) => Ok(f.(forcedQuality := q))
       case Err(e) => Err(e))
    case UnsupportedFault => Err("unsupported fault \"" + request.fault + "\"")
    case _ => Ok(Switched(f, kind, request.enabled == Some(true)))
  }

  function Switched(f: Faults, kind: Fault, enabled: bool): Faults {
    match kind
    case PlcDisconnected => f.(plcDisconnected := enabled)
    case FreezeData => f.(freezeData := enabled)
    case EmergencyStop => f.(emergencyStop := enabled)
    case GuardDoorOpen => f.(guardDoorOpen := enabled)
    case SevereAlarm => f.(severeAlarm := enabled)
    case CommandReject => f.(rejectCommands := enabled)
    case CommandFail => f.(failCommands := enabled)
    case AppliedResponseTimeout => f.(appliedResponseTimeout := enabled)
    case _ => f
  }

  function FaultSet(cfg: Config, s: State, request: FaultRequest, now: int, persisted: bool): Result<State>
    requires |cfg.caps| == 3
  {
    if !cfg.faultInjectionEnabled then Err("fault injection is disabled")
    else
      match WithFault(s.faults, request)
      case Err(e) => Err(e)
      case Ok(f) =>
        if !persisted then Err(PERSIST_FAILED)
        else Ok(RefreshDerived(cfg, ApplyFaultState(s.(faults := f, generatedAt := now))))
  }

  function Restarted(cfg: Config, s: State, sessionId: string, now: int, persisted: bool): Result<State> {
    if !cfg.faultInjectionEnabled then Err("fault injection is disabled")
    else if !persisted then Err(PERSIST_FAILED)
    else Ok(s.(sessionId := sessionId, sampleSequence := 0, generatedAt := now,
               nextAt := if CanProduce(s.points) then Some(now + s.points.cycleSeconds * SECOND) else None))
  }

  function InitialState(cfg: Config, sessionId: string, now: int): State
    requires |cfg.caps| == 3
  {
    var p := Points(1, false, "auto", false, false, true, false, true, true,
                    cfg.initialTarget, cfg.initialCycleSeconds, cfg.initialToolLimit, cfg.initialInspectInterval,
                    Counts(0, 0, 0, 0, 0, cfg.caps[0], 0, 0), [], []);
    RefreshDerived(cfg, State(PERSISTENCE_SCHEMA_VERSION, sessionId, 0, now, None, 0, p, NO_FAULTS, map[]))
  }

  predicate ValidPersisted(cfg: Config, s: State) {
    && s.schemaVersion == PERSISTENCE_SCHEMA_VERSION
    && s.sessionId != "" && s.generatedAt != 0 && s.points.controlRevision != 0
    && s.points.cycleSeconds > 0
    && s.points.target > 0 && s.points.toolLimit > 0 && s.points.inspectInterval > 0
    && s.points.mode in {"auto", "manual"}
    && s.points.counts.toolUsed >= 0 && s.points.counts.blank >= 0 && s.points.counts.finished >= 0
    && |cfg.caps| == 3 && s.points.counts.blank <= cfg.caps[0] && s.points.counts.finished <= cfg.caps[1]
    && ValidCounters(s.points.counts)
    && 0 <= s.rejectBin <= cfg.caps[2]
  }

  /** Start-up: a fresh line when there is no state file, else the file under a new session. */
  function Opened(cfg: Config, file: Option<State>, sessionId: string, now: int, persisted: bool): Result<State>
    requires |cfg.caps| == 3
  {
    if file.Some? && !ValidPersisted(cfg, file.value) then Err("invalid simulator state")
    else
      var s := if file.None? then InitialState(cfg, sessionId, now)
               else
                 var f := file.value.(sessionId := sessionId, generatedAt := now);
                 if CanProduce(f.points) then f.(nextAt := Some(now + f.points.cycleSeconds * SECOND)) else f;
      if !persisted then Err("persist simulator startup state")
      else Ok(RefreshDerived(cfg, ApplyFaultState(s)))
  }

  // ---------------------------------------------------------------- the engine

  class Engine {
    const config: Config
    var state: State

    constructor (config: Config, state: State)
      ensures this.config == config && this.state == state
    {
      this.config := config;
      this.state := state;
    }

    static method Open(config: Config, file: Option<State>, sessionId: string, now: int, persisted: bool)
      returns (r: Result<Engine>)
      requires |config.caps| == 3
      ensures match Opened(config, file, sessionId, now, persisted)
              case Ok(t) => r.Ok? && fresh(r.value) && r.value.config == config && r.value.state == t
              case Err(e) => r == Err(e)
    {
      var candidate;
      if file.None? {
        candidate := InitialState(config, sessionId, now);
      } else {
        if !ValidPersisted(config, file.value) {
          return Err("invalid simulator state");
        }
        candidate := file.value.(sessionId := sessionId, generatedAt := now);
        if CanProduce(candidate.points) {
          candidate := candidate.(nextAt := Some(now + candidate.points.cycleSeconds * SECOND));
        }
      }
      candidate := RefreshDerived(config, ApplyFaultState(candidate));
      if !persisted {
        return Err("persist simulator startup state");
      }
      var engine := new Engine(config, candidate);
      r := Ok(engine);
    }

    method Snapshot() returns (r: Contract.Snapshot)
      ensures r == SnapshotOf(state)
    {
      r := SnapshotOf(state);
    }

    /** One periodic sample: the catch-up loop produces every item that became due. */
    method Tick(now: int, persisted: bool) returns (r: Result<Contract.Snapshot>)
      requires |config.caps| == 3
      modifies this
      ensures match Ticked(config, old(state), now, persisted)
              case Ok(t) => state == t && r == Ok(SnapshotOf(t))
              case Err(e) => state == old(state) && r == Err(e)
    {
      if state.faults.freezeData {
        return Ok(SnapshotOf(state));
      }
      var candidate := Advance(now);
      if !ValidCounters(candidate.points.counts) {
        return Err("invalid counters");
      }
      candidate := RefreshDerived(config, candidate);
      if !persisted {
        return Err(PERSIST_FAILED);
      }
      state := candidate;
      r := Ok(SnapshotOf(state));
    }

    /** The edits of one sample to a copy of the state. */
    method Advance(now: int) returns (candidate: State)
      requires |config.caps| == 3
      ensures candidate == TickCandidate(config, state, now)
    {
      candidate := ApplyFaultState(state.(sampleSequence := state.sampleSequence + 1, generatedAt := now));
      var cycle := candidate.points.cycleSeconds * SECOND;
      if !CanProduce(candidate.points) || !HasCapacity(config, candidate) {
        candidate := candidate.(nextAt := None);
      } else {
        if candidate.nextAt.None? {
          candidate := candidate.(nextAt := Some(candidate.generatedAt + cycle));
        }
        candidate := ProduceDue(candidate, cycle);
      }
    }

    /** The catch-up loop: one item per elapsed cycle while the line can run. */
    method ProduceDue(due: State, cycle: int) returns (candidate: State)
      requires |config.caps| == 3 && due.nextAt.Some?
      ensures candidate == CatchUp(config, due, cycle)
    {
      candidate := due;
      while candidate.generatedAt >= candidate.nextAt.value && CanProduce(candidate.points) && HasCapacity(config, candidate)
        invariant candidate.nextAt.Some?
        invariant CatchUp(config, candidate, cycle) == CatchUp(config, due, cycle)
        decreases candidate.points.target - candidate.points.counts.output
      {
        var at := candidate.nextAt.value;
        candidate := ProduceOne(config, candidate);
        candidate := candidate.(nextAt := Some(at + cycle));
      }
    }

    method ApplyCommand(command: Command, now: int, persisted: bool) returns (r: Result<CommandResult>)
      requires |config.caps| == 3
      modifies this
      ensures Outcome(state, r) == Applied(config, old(state), command, now, persisted)
    {
      var c := NormalizeCommand(command);
      CommandIdentity(command, command);
      if c.id == "" || Utf8Size(c.id) > 128 {
        return Err("commandId must contain 1 to 128 characters");
      }
      if c.id in state.processed {
        if state.processed[c.id].fingerprint != FingerprintOf(c) {
          return Ok(CommandResult(c.id, c.name, Rejected, IDEMPOTENCY_CONFLICT,
            "commandId is already bound to different command content", false, state.points.controlRevision, None));
        }
        return Ok(state.processed[c.id].result);
      }
      r := ApplyNew(c, now, persisted);
    }

    method ApplyNew(c: Command, now: int, persisted: bool) returns (r: Result<CommandResult>)
      requires |config.caps| == 3
      modifies this
      ensures match Decide(config, old(state), c, now)
              case Err(e) => state == old(state) && r == Err(e)
              case Ok(d) => if persisted then state == d.state && r == Ok(d.result)
                            else state == old(state) && r == Err(PERSIST_FAILED)
    {
      var result := CommandResult(c.id, c.name, Rejected, "", "", false, state.points.controlRevision, None);
      if c.expectedRevision.Some? && c.expectedRevision.value != state.points.controlRevision {
        r := RecordResult(c, result.(code := REVISION_CONFLICT, reason := "control revision conflict"), persisted);
        return;
      }
      if state.faults.rejectCommands {
        r := RecordResult(c, result.(code := COMMAND_REJECTED, reason := "fault injection rejected command"), persisted);
        return;
      }
      if state.faults.failCommands {
        r := RecordResult(c, result.(status := Failed, code := COMMAND_FAILED, reason := "fault injection failed command"), persisted);
        return;
      }
      if !state.points.plcConnected {
        r := RecordResult(c, result.(code := DEVICE_UNAVAILABLE, reason := "PLC is disconnected"), persisted);
        return;
      }
      result := result.(simulationOnly := SimulationOnly(c.name));
      var applying := Edit(c);
      if applying.Refused? {
        r := RecordResult(c, result.(code := applying.code, reason := applying.reason), persisted);
        return;
      }
      var candidate := Reschedule(applying.state, c, now);
      candidate := RefreshDerived(config, candidate);
      if !ValidCounters(candidate.points.counts) {
        return Err("invalid counters");
      }
      result := result.(status := Executed, controlRevision := candidate.points.controlRevision,
                        snapshot := Some(SnapshotOf(candidate)));
      candidate := candidate.(processed := candidate.processed[c.id := Processed(FingerprintOf(c), result)]);
      if !persisted {
        return Err(PERSIST_FAILED);
      }
      state := candidate;
      r := Ok(result);
    }

    /** applyCommand on a copy of the state. */
    method Edit(c: Command) returns (applying: Applying)
      requires |config.caps| == 3
      ensures applying == ApplyNamed(config, state, c)
    {
      if ActionOf(c.name) == AcknowledgeAlarm {
        var alarms, found := Acknowledge(state.points.alarms, c.alarmId);
        applying := if found then Accepted(state.(points := state.points.(alarms := alarms)))
                    else Refused(ALARM_NOT_FOUND, "active alarm not found");
      } else {
        applying := ApplyNamed(config, state, c);
      }
    }

    /** The loop of acknowledge_alarm: every active alarm of the id is marked, and none of them is an error. */
    static method Acknowledge(alarms: seq<Alarm>, id: string) returns (r: seq<Alarm>, found: bool)
      ensures r == Acknowledged(alarms, id)
      ensures found <==> exists i :: 0 <= i < |alarms| && Meant(alarms[i], id)
    {
      r, found := alarms, false;
      var index := 0;
      while index < |r|
        invariant 0 <= index <= |r| == |alarms|
        invariant forall i :: 0 <= i < index ==> r[i] == Marked(alarms[i], id)
        invariant forall i :: index <= i < |r| ==> r[i] == alarms[i]
        invariant found <==> exists i :: 0 <= i < index && Meant(alarms[i], id)
      {
        if r[index].alarmId == id && r[index].active {
          r := r[index := r[index].(acknowledged := true)];
          found := true;
        }
        index := index + 1;
      }
    }

    method Reschedule(edited: State, c: Command, now: int) returns (candidate: State)
      ensures candidate == Rescheduled(edited, c, now)
    {
      candidate := edited.(points := edited.points.(controlRevision := edited.points.controlRevision + 1));
      candidate := candidate.(generatedAt := now);
      candidate := ApplyFaultState(candidate);
      if CanProduce(candidate.points) {
        if Restarts(ActionOf(c.name)) || candidate.nextAt.None? {
          candidate := candidate.(nextAt := Some(candidate.generatedAt + candidate.points.cycleSeconds * SECOND));
        }
      } else {
        candidate := candidate.(nextAt := None);
      }
    }

    method RecordResult(c: Command, result: CommandResult, persisted: bool) returns (r: Result<CommandResult>)
      modifies this
      ensures persisted ==> state == Recorded(old(state), c, result) && r == Ok(result)
      ensures !persisted ==> state == old(state) && r == Err(PERSIST_FAILED)
    {
      var candidate := state.(processed := state.processed[c.id := Processed(FingerprintOf(c), result)]);
      if !persisted {
        return Err(PERSIST_FAILED);
      }
      state := candidate;
      r := Ok(result);
    }

    method SetFault(request: FaultRequest, now: int, persisted: bool) returns (r: Result<Contract.Snapshot>)
      requires |config.caps| == 3
      modifies this
      ensures match FaultSet(config, old(state), request, now, persisted)
              case Ok(t) => state == t && r == Ok(SnapshotOf(t))
              case Err(e) => state == old(state) && r == Err(e)
    {
      if !config.faultInjectionEnabled {
        return Err("fault injection is disabled");
      }
      var faults := WithFault(state.faults, request);
      if faults.Err? {
        return Err(faults.error);
      }
      var candidate := state.(faults := faults.value, generatedAt := now);
      candidate := ApplyFaultState(candidate);
      candidate := RefreshDerived(config, candidate);
      if !persisted {
        return Err(PERSIST_FAILED);
      }
      state := candidate;
      r := Ok(SnapshotOf(state));
    }

    method RestartSession(sessionId: string, now: int, persisted: bool) returns (r: Result<Contract.Snapshot>)
      modifies this
      ensures match Restarted(config, old(state), sessionId, now, persisted)
              case Ok(t) => state == t && r == Ok(SnapshotOf(t))
              case Err(e) => state == old(state) && r == Err(e)
    {
      if !config.faultInjectionEnabled {
        return Err("fault injection is disabled");
      }
      var candidate := state.(sessionId := sessionId, sampleSequence := 0, generatedAt := now);
      if CanProduce(candidate.points) {
        candidate := candidate.(nextAt := Some(now + candidate.points.cycleSeconds * SECOND));
      } else {
        candidate := candidate.(nextAt := None);
      }
      if !persisted {
        return Err(PERSIST_FAILED);
      }
      state := candidate;
      r := Ok(SnapshotOf(state));
    }
  }
}

/** The command and snapshot records shared by the agent and the PLC simulator. */
module Contract {
  import opened Wrappers

  const SCHEMA_VERSION := "block-plc-private/v1"

  // Result codes (plccontract) and source availability codes (storage).
  const REVISION_CONFLICT := "revision_conflict"
  const IDEMPOTENCY_CONFLICT := "idempotency_conflict"
  const SAFETY_INTERLOCK := "safety_interlock"
  const ALARM_NOT_FOUND := "alarm_not_found"
  const DEVICE_UNAVAILABLE := "device_unavailable"
  const COMMAND_REJECTED := "command_rejected"
  const COMMAND_FAILED := "command_failed"
  const OUTCOME_UNKNOWN := "command_outcome_unknown"
  const READBACK_FAILED := "readback_failed"
  const BACKEND_UNAVAILABLE := "backend_unavailable"
  const BAD_QUALITY := "bad_quality"
  const DATA_STALE := "data_stale"

  datatype Quality = Good | Uncertain | Bad

  datatype Bin = Bin(id: string, quantity: int, capacity: int, status: string)

  datatype Alarm = Alarm(
    alarmId: string, code: string, level: string, text: string,
    active: bool, occurredAt: int, clearedAt: Option<int>, acknowledged: bool)

  // The production counters of the points, kept together.
  datatype Counts = Counts(
    output: int, inspected: int, passed: int, ng: int, pending: int,
    blank: int, finished: int, toolUsed: int)

  datatype Points = Points(
    controlRevision: nat, running: bool, mode: string, singlePaused: bool, framePaused: bool,
    safetyReady: bool, emergencyStop: bool, guardDoorClosed: bool, plcConnected: bool,
    target: int, cycleSeconds: int, toolLimit: int, inspectInterval: int,
    counts: Counts, bins: seq<Bin>, alarms: seq<Alarm>)

  // Instants are nanoseconds; 0 stands for Go's zero time.
  datatype Snapshot = Snapshot(
    schemaVersion: string, sessionId: string, sampleSequence: nat,
    generatedAt: int, quality: Quality, points: Points)

  datatype Settings = Settings(target: int, toolLimit: int, inspectInterval: int)

  datatype Command = Command(
    id: string, name: string, expectedRevision: Option<nat>, mode: string,
    paused: Option<bool>, settings: Option<Settings>, alarmId: string)

  // A status is free text on the wire: Other is any text but the five known ones.
  datatype Status = Executed | Rejected | Failed | Unknown | Pending | Other(text: string)

  datatype CommandResult = CommandResult(
    commandId: string, name: string, status: Status, code: string, reason: string,
    simulationOnly: bool, controlRevision: nat, snapshot: Option<Snapshot>)

  // The ten command names a device understands; any other text is unsupported.
  datatype Action = Start | Pause | Reset | SetMode | SetSinglePaused | SetFramePaused
                  | Inspect | ClearBins | UpdateSettings | AcknowledgeAlarm | Unsupported

  function ActionOf(name: string): Action {
    match name
    case "start" => Start
    case "pause" => Pause
    case "reset" => Reset
    case "set_mode" => SetMode
    case "set_single_paused" => SetSinglePaused
    case "set_frame_paused" => SetFramePaused
    case "inspect" => Inspect
    case "clear_bins" => ClearBins
    case "update_settings" => UpdateSettings
    case "acknowledge_alarm" => AcknowledgeAlarm
    case _ => Unsupported
  }

  predicate Terminal(status: Status) {
    status.Executed? || status.Rejected? || status.Failed? || status.Unknown?
  }

  /** The fingerprint is the canonical tuple itself: everything but the id. */
  datatype Fingerprint = Fingerprint(
    name: string, expectedRevision: Option<nat>, mode: string,
    paused: Option<bool>, settings: Option<Settings>, alarmId: string)

  /** Unicode White_Space, as Go's strings.TrimSpace understands it. */
  predicate IsSpace(c: char) {
    '\t' <= c <= '\r' || c == ' ' || c == '\U{85}' || c == '\U{A0}' || c == '\U{1680}' ||
    '\U{2000}' <= c <= '\U{200A}' || c == '\U{2028}' || c == '\U{2029}' || c == '\U{202F}' ||
    c == '\U{205F}' || c == '\U{3000}'
  }

  function TrimSpace(s: string): (t: string)
    ensures t == [] || (!IsSpace(t[0]) && !IsSpace(t[|t| - 1]))
    ensures s == [] || (!IsSpace(s[0]) && !IsSpace(s[|s| - 1])) ==> t == s
  {
    if s == [] then []
    else if IsSpace(s[0]) then TrimSpace(s[1..])
    else if IsSpace(s[|s| - 1]) then TrimSpace(s[..|s| - 1])
    else s
  }

  /** Trimming takes spaces from both ends and nothing else: the text is s[i..j]. */
  lemma {:induction false} TrimSpaceTakesOnlySpaces(s: string) returns (i: nat, j: nat)
    ensures i <= j <= |s| && TrimSpace(s) == s[i..j]
    ensures forall k :: 0 <= k < |s| && !(i <= k < j) ==> IsSpace(s[k])
  {
    i, j := 0, |s|;
    if s != [] && IsSpace(s[0]) {
      i, j := TrimSpaceTakesOnlySpaces(s[1..]);
      assert s[1..][i..j] == s[i + 1..j + 1];
      assert forall k :: 1 <= k < |s| ==> s[k] == s[1..][k - 1];
      i, j := i + 1, j + 1;
    } else if s != [] && IsSpace(s[|s| - 1]) {
      i, j := TrimSpaceTakesOnlySpaces(s[..|s| - 1]);
      assert s[..|s| - 1][i..j] == s[i..j];
      assert forall k :: 0 <= k < |s| - 1 ==> s[k] == s[..|s| - 1][k];
    }
  }

  /** The length of a string in bytes, as Go counts it: UTF-8. */
  function Utf8Size(s: string): nat {
    if s == [] then 0
    else
      var c := s[0] as int;
      (if c < 0x80 then 1 else if c < 0x800 then 2 else if c < 0x1_0000 then 3 else 4) + Utf8Size(s[1..])
  }

  predicate ValidCommandId(id: string) {
    id != "" && Utf8Size(id) <= 128
  }

  function NormalizeCommand(c: Command): (n: Command)
    ensures n.(id := c.id, name := c.name, mode := c.mode, alarmId := c.alarmId) == c
  {
    c.(id := TrimSpace(c.id), name := TrimSpace(c.name), mode := TrimSpace(c.mode), alarmId := TrimSpace(c.alarmId))
  }

  function FingerprintOf(command: Command): Fingerprint {
    var c := NormalizeCommand(command);
    Fingerprint(c.name, c.expectedRevision, c.mode, c.paused, c.settings, c.alarmId)
  }

  /** Normalizing twice is normalizing once, and two normalized commands are the
      same command exactly when id and fingerprint agree. */
  lemma CommandIdentity(a: Command, b: Command)
    ensures NormalizeCommand(NormalizeCommand(a)) == NormalizeCommand(a)
    ensures NormalizeCommand(a) == NormalizeCommand(b) <==>
            TrimSpace(a.id) == TrimSpace(b.id) && FingerprintOf(a) == FingerprintOf(b)
  {
    var x, y := FingerprintOf(a), FingerprintOf(b);
    if x == y && TrimSpace(a.id) == TrimSpace(b.id) {
      assert NormalizeCommand(a) == NormalizeCommand(b);
    }
  }
}

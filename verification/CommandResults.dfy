/** How the agent judges a device's answer: validation, default codes, readback confirmation, messages. */
module CommandResults {
  import opened Wrappers
  import opened Contract

  function UnknownResult(c: Command, reason: string): CommandResult {
    CommandResult(c.id, c.name, Unknown, OUTCOME_UNKNOWN, reason, false, 0, None)
  }

  /** An answer counts only if it is for this command and terminal; anything else is an unknown outcome. */
  function ValidatedResult(c: Command, answer: Result<CommandResult>): (r: CommandResult)
    ensures r.commandId == c.id && r.name == c.name && Terminal(r.status)
    ensures answer == Ok(r) <==> answer.Ok? && answer.value.commandId == c.id && answer.value.name == c.name && Terminal(answer.value.status)
    ensures answer != Ok(r) ==> r.status.Unknown? && r.code == OUTCOME_UNKNOWN && r.controlRevision == 0 && r.snapshot.None?
  {
    match answer
    case Err(e) => UnknownResult(c, e)
    case Ok(a) =>
      if a.commandId != c.id then
        UnknownResult(c, "invalid command response: commandId \"" + a.commandId + "\" does not match request")
      else if a.name != c.name then
        UnknownResult(c, "invalid command response: name \"" + a.name + "\" does not match request")
      else if Terminal(a.status) then a
      else UnknownResult(c, "invalid command response: status is not terminal")
  }

  function EnsureResultCode(r: CommandResult): (t: CommandResult)
    ensures t == r.(code := t.code)
    ensures r.code != "" ==> t == r
    ensures t.code == "" <==> r.code == "" && (r.status.Executed? || r.status.Other?)
  {
    if r.code != "" then r
    else
      match r.status
      case Rejected => r.(code := COMMAND_REJECTED)
      case Failed => r.(code := COMMAND_FAILED)
      case Unknown => r.(code := OUTCOME_UNKNOWN)
      case Pending => r.(code := OUTCOME_UNKNOWN)
      case _ => r
  }

  predicate Zeroed(bins: seq<Bin>) {
    forall i :: 0 <= i < |bins| ==> bins[i].quantity == 0
  }

  predicate AlarmQuieted(alarms: seq<Alarm>, id: string) {
    exists i :: 0 <= i < |alarms| && alarms[i].alarmId == id && alarms[i].active && alarms[i].acknowledged
  }

  /** What the readback must show for the command to count as executed. */
  predicate Confirm(c: Command, r: CommandResult, readback: Snapshot) {
    var p := readback.points;
    && r.controlRevision != 0 && p.controlRevision == r.controlRevision
    && ConfirmAction(ActionOf(c.name), c, p)
  }

  predicate ConfirmAction(action: Action, c: Command, p: Points) {
    match action
    case Start => p.running
    case Pause => !p.running
    case Reset => !p.running && p.counts.output == 0 && p.counts.toolUsed == 0
    case SetMode => p.mode == c.mode
    case SetSinglePaused => c.paused == Some(p.singlePaused)
    case SetFramePaused => c.paused == Some(p.framePaused)
    case ClearBins => Zeroed(p.bins)
    case UpdateSettings => c.settings == Some(Settings(p.target, p.toolLimit, p.inspectInterval))
    case AcknowledgeAlarm => AlarmQuieted(p.alarms, c.alarmId)
    case Inspect => true
    case Unsupported => false
  }

  function StatusText(s: Status): string {
    match s
    case Executed => "EXECUTED"
    case Rejected => "REJECTED"
    case Failed => "FAILED"
    case Unknown => "UNKNOWN"
    case Pending => "PENDING"
    case Other(text) => text
  }

  function ResultMessage(r: CommandResult): (m: string)
    ensures r.status.Executed? ==> m != ""
  {
    if !r.status.Executed? then
      if r.reason != "" then StatusText(r.status) + ": " + r.reason else StatusText(r.status)
    else
      match ActionOf(r.name)
      case Start => "设备已启动"
      case Pause => "设备已暂停"
      case Reset => "设备复位完成"
      case SetMode => "设备模式已更新"
      case SetSinglePaused => "单件循环状态已更新"
      case SetFramePaused => "单框循环状态已更新"
      case Inspect => "抽检命令已执行"
      case ClearBins => "清空料仓命令已执行（仅模拟）"
      case UpdateSettings => "维护参数已保存（仅模拟）"
      case AcknowledgeAlarm => "报警已确认（仅模拟）"
      case Unsupported => "命令已执行"
  }

  function AvailabilityReason(code: string): string {
    if code == DEVICE_UNAVAILABLE then "device transport is unavailable"
    else if code == BAD_QUALITY then "device data quality is not GOOD"
    else if code == DATA_STALE then "device data is stale"
    else "Block persistence backend is unavailable"
  }

  /** What a reading must show for each command, by its name, besides the revision that was answered. */
  predicate Effective(c: Command, p: Points) {
    match c.name
    case "start" => p.running
    case "pause" => !p.running
    case "reset" => !p.running && p.counts.output == 0 && p.counts.toolUsed == 0
    case "set_mode" => p.mode == c.mode
    case "set_single_paused" => c.paused.Some? && p.singlePaused == c.paused.value
    case "set_frame_paused" => c.paused.Some? && p.framePaused == c.paused.value
    case "clear_bins" => forall i :: 0 <= i < |p.bins| ==> p.bins[i].quantity == 0
    case "update_settings" =>
      c.settings.Some? && p.target == c.settings.value.target && p.toolLimit == c.settings.value.toolLimit &&
      p.inspectInterval == c.settings.value.inspectInterval
    case "acknowledge_alarm" => exists i :: 0 <= i < |p.alarms| && p.alarms[i].alarmId == c.alarmId && p.alarms[i].active && p.alarms[i].acknowledged
    case "inspect" => true
    case _ => false
  }

  /** A reading confirms an answer exactly when it shows the answered revision, which is not 0, and the command's effect. */
  lemma ConfirmedExactlyWhenEffective(c: Command, r: CommandResult, readback: Snapshot)
    ensures Confirm(c, r, readback) <==>
            r.controlRevision >= 1 && readback.points.controlRevision == r.controlRevision && Effective(c, readback.points)
  {
  }

  /** The message of a command that was not executed: its status, and the reason if there is one. */
  lemma MessagesTellStatusAndReason(r: CommandResult)
    requires !r.status.Executed?
    ensures ResultMessage(r) == StatusText(r.status) + (if r.reason == "" then "" else ": " + r.reason)
    ensures StatusText(Rejected) == "REJECTED" && StatusText(Failed) == "FAILED" && StatusText(Unknown) == "UNKNOWN"
  {
  }
}

/** The simulator's main results, over every run from start-up. */
module PlcSimTheorems {
  import opened Counting
  import opened Wrappers
  import opened Contract
  import opened PlcSim
  import opened PlcSimAlarms
  import opened PlcSimRuns

  /** The state a fresh simulator starts in. */
  function StartState(cfg: Config, sessionId: string, now: int): State
    requires |cfg.caps| == 3
  {
    RefreshDerived(cfg, ApplyFaultState(InitialState(cfg, sessionId, now)))
  }

  lemma StartInv(cfg: Config, sessionId: string, now: int)
    requires cfg.Valid()
    ensures Opened(cfg, None, sessionId, now, true) == Ok(StartState(cfg, sessionId, now))
    ensures Inv(cfg, StartState(cfg, sessionId, now)) && Conserved(cfg, StartState(cfg, sessionId, now))
  {
    RefreshIsIdempotent(cfg, ApplyFaultState(InitialState(cfg, sessionId, now)));
    assert ExecutedIds(StartState(cfg, sessionId, now).processed) == {};
  }

  // ---- one step

  /** A command either changes nothing or leaves what the engine decided for a new id. */
  lemma AppliedCases(cfg: Config, s: State, command: Command, now: int, persisted: bool)
    requires |cfg.caps| == 3
    ensures var c := NormalizeCommand(command);
            var t := Applied(cfg, s, command, now, persisted).state;
            t == s || (c.id !in s.processed && Decide(cfg, s, c, now).Ok? && t == Decide(cfg, s, c, now).value.state)
    ensures NormalizeCommand(NormalizeCommand(command)) == NormalizeCommand(command)
  {
    CommandIdentity(command, command);
  }

  lemma CommandInv(cfg: Config, s: State, command: Command, now: int, persisted: bool)
    requires cfg.Valid() && Inv(cfg, s)
    ensures Inv(cfg, Applied(cfg, s, command, now, persisted).state)
  {
    AppliedCases(cfg, s, command, now, persisted);
    var c := NormalizeCommand(command);
    if c.id !in s.processed {
      DecisionInv(cfg, s, c, now);
    }
  }

  /** What was recorded under a command id stays recorded, unchanged. */
  lemma RecordsStay(cfg: Config, s: State, op: Op, id: string)
    requires cfg.Valid() && Inv(cfg, s) && id in s.processed
    ensures id in Step(cfg, s, op).processed && Step(cfg, s, op).processed[id] == s.processed[id]
  {
    if op.DoCommand? {
      AppliedCases(cfg, s, op.command, op.now, op.persisted);
      var c := NormalizeCommand(op.command);
      if c.id !in s.processed {
        DecisionKeepsRecords(cfg, s, c, op.now);
      }
    } else {
      OtherOpInv(cfg, s, op);
    }
  }

  lemma DecisionKeepsRecords(cfg: Config, s: State, c: Command, now: int)
    requires cfg.Valid() && Sound(cfg, s)
    ensures Decide(cfg, s, c, now).Ok?
    ensures var d := Decide(cfg, s, c, now).value;
            d.state.processed == s.processed[c.id := Processed(FingerprintOf(c), d.result)]
  {
    DecisionIs(cfg, s, c, now);
    if Decide(cfg, s, c, now).value.result.status.Executed? {
      ApplyActionKeeps(cfg, s, ActionOf(c.name), c);
      SettledCommand(cfg, ApplyNamed(cfg, s, c).state, c, now);
    }
  }

  /** A first execution: the decision taken is the one recorded. */
  lemma ExecutionIs(cfg: Config, s: State, op: Op)
    requires cfg.Valid() && Inv(cfg, s) && Executes(cfg, s, op).Some?
    ensures var c := Executes(cfg, s, op).value;
            && c == NormalizeCommand(op.command)
            && c.id !in s.processed && op.persisted
            && Decide(cfg, s, c, op.now).Ok?
            && Step(cfg, s, op) == Decide(cfg, s, c, op.now).value.state
            && Applied(cfg, s, op.command, op.now, op.persisted).reply == Ok(Decide(cfg, s, c, op.now).value.result)
            && ExecutedAs(cfg, s, c, op.now, Decide(cfg, s, c, op.now).value)
  {
    var c := NormalizeCommand(op.command);
    CommandIdentity(op.command, op.command);
    DecisionIs(cfg, s, c, op.now);
  }

  lemma OtherOpInv(cfg: Config, s: State, op: Op)
    requires cfg.Valid() && Inv(cfg, s) && !op.DoCommand?
    ensures Inv(cfg, Step(cfg, s, op))
    ensures Step(cfg, s, op).processed == s.processed
    ensures Conserved(cfg, s) ==> Conserved(cfg, Step(cfg, s, op))
    ensures s.rejectBin <= cfg.caps[2] ==> Step(cfg, s, op).rejectBin <= cfg.caps[2]
  {
    match op
    case DoTick(now, persisted) =>
      TickedInv(cfg, s, now);
      TickKeeps(cfg, s, now);
    case DoFault(request, now, persisted) => FaultInv(cfg, s, request, now, persisted);
    case DoRestart(sessionId, now, persisted) =>
      var t := Step(cfg, s, op);
      RestartInv(cfg, s, t);
    case DoReopen(sessionId, now, persisted) => ReopenInv(cfg, s, sessionId, now, persisted);
  }

  lemma FaultInv(cfg: Config, s: State, request: FaultRequest, now: int, persisted: bool)
    requires cfg.Valid() && Inv(cfg, s)
    ensures var t := Kept(s, FaultSet(cfg, s, request, now, persisted));
            Inv(cfg, t) && t.processed == s.processed && t.points.counts == s.points.counts && t.rejectBin == s.rejectBin
  {
    if FaultSet(cfg, s, request, now, persisted).Ok? {
      var f := WithFault(s.faults, request).value;
      SettlesAfter(cfg, s.(faults := f, generatedAt := now));
    }
  }

  lemma SettlesAfter(cfg: Config, s: State)
    requires |cfg.caps| == 3
    ensures Settled(cfg, RefreshDerived(cfg, ApplyFaultState(s)))
  {
    RefreshIsIdempotent(cfg, ApplyFaultState(s));
  }

  /** A settled state stays settled when only its session, time and schedule change. */
  lemma RestartInv(cfg: Config, s: State, t: State)
    requires cfg.Valid() && Inv(cfg, s)
    requires t == s.(sessionId := t.sessionId, sampleSequence := t.sampleSequence, generatedAt := t.generatedAt, nextAt := t.nextAt)
    ensures Inv(cfg, t)
  {
    TimeDoesNotRefresh(cfg, s, t, ALARM_KINDS);
    assert RefreshDerived(cfg, s).points == s.points;
    assert ApplyFaultState(s).points == s.points;
  }

  lemma {:induction false} TimeDoesNotRefresh(cfg: Config, s: State, t: State, kinds: seq<AlarmKind>)
    requires |cfg.caps| == 3 && Settled(cfg, s) && kinds <= ALARM_KINDS
    requires t.points == s.points && t.faults == s.faults
    ensures AddAlarms(cfg, t, kinds) == AddAlarms(cfg, s, kinds)
    decreases |kinds|
  {
    if kinds != [] {
      var n := |kinds| - 1;
      TimeDoesNotRefresh(cfg, s, t, kinds[..n]);
      assert kinds[n] == ALARM_KINDS[n];
      if Alarming(cfg, s, kinds[n].id) {
        KindsAreDistinct();
        FindRefreshed(cfg, s, ALARM_KINDS, n);
        assert RefreshDerived(cfg, s).points.alarms == s.points.alarms;
      }
    }
  }

  lemma ReopenInv(cfg: Config, s: State, sessionId: string, now: int, persisted: bool)
    requires cfg.Valid() && Inv(cfg, s)
    ensures var t := Kept(s, Opened(cfg, Some(s), sessionId, now, persisted));
            Inv(cfg, t) && t.processed == s.processed && t.points.counts == s.points.counts && t.rejectBin == s.rejectBin
  {
    var r := Opened(cfg, Some(s), sessionId, now, persisted);
    if r.Ok? {
      var next := if CanProduce(s.points) then Some(now + s.points.cycleSeconds * SECOND) else s.nextAt;
      var t := s.(sessionId := sessionId, generatedAt := now, nextAt := next);
      RestartInv(cfg, s, t);
      assert r.value == t;
    }
  }

  lemma StepInv(cfg: Config, s: State, op: Op)
    requires cfg.Valid() && Inv(cfg, s)
    ensures Inv(cfg, Step(cfg, s, op))
  {
    if op.DoCommand? {
      CommandInv(cfg, s, op.command, op.now, op.persisted);
    } else {
      OtherOpInv(cfg, s, op);
    }
  }

  lemma StepConserves(cfg: Config, s: State, op: Op)
    requires cfg.Valid() && Inv(cfg, s)
    ensures var executed := Executes(cfg, s, op);
            && (executed.Some? && ActionOf(executed.value.name) == Reset ==> Conserved(cfg, Step(cfg, s, op)))
            && (Conserved(cfg, s) && (executed.None? || ActionOf(executed.value.name) != ClearBins) ==>
                  Conserved(cfg, Step(cfg, s, op)))
  {
    var executed := Executes(cfg, s, op);
    if executed.Some? {
      var c := executed.value;
      ExecutionIs(cfg, s, op);
      ApplyActionKeeps(cfg, s, ActionOf(c.name), c);
      SettledCommand(cfg, ApplyNamed(cfg, s, c).state, c, op.now);
    } else if op.DoCommand? {
      NotExecuted(cfg, s, op);
    } else {
      OtherOpInv(cfg, s, op);
    }
  }

  /** A command that is refused, replayed or lost changes no quantity. */
  lemma NotExecuted(cfg: Config, s: State, op: Op)
    requires cfg.Valid() && Inv(cfg, s) && op.DoCommand? && Executes(cfg, s, op).None?
    ensures var t := Step(cfg, s, op); t == s.(processed := t.processed)
  {
    var c := NormalizeCommand(op.command);
    CommandIdentity(op.command, op.command);
    if c.id !in s.processed {
      DecisionIs(cfg, s, c, op.now);
    }
  }

  // ---- whole runs

  /**
    Conservation and consistency over every run: tools used always equal parts
    made, the counter guard holds, and while nobody has emptied the bins since
    the start or the last reset, every blank the line was given is still a blank,
    a finished part or a reject.
  */
  lemma {:induction false} EveryRunIsSound(cfg: Config, sessionId: string, now: int, ops: seq<Op>)
    requires cfg.Valid()
    ensures var s0 := StartState(cfg, sessionId, now);
            var s := Run(cfg, s0, ops);
            && Inv(cfg, s)
            && ValidCounters(s.points.counts) && s.points.counts.toolUsed == s.points.counts.output
            && (!Cleared(cfg, s0, ops) ==>
                  && s.points.counts.finished == s.points.counts.passed + s.points.counts.pending
                  && s.rejectBin == s.points.counts.ng
                  && s.points.counts.blank + s.points.counts.finished + s.rejectBin == cfg.caps[0])
    decreases |ops|
  {
    var s0 := StartState(cfg, sessionId, now);
    StartInv(cfg, sessionId, now);
    if ops != [] {
      var before := ops[..|ops| - 1];
      EveryRunIsSound(cfg, sessionId, now, before);
      StepInv(cfg, Run(cfg, s0, before), ops[|ops| - 1]);
      StepConserves(cfg, Run(cfg, s0, before), ops[|ops| - 1]);
    }
  }

  /** A tick of a reachable state fails only when its write fails: the counter guard never fires. */
  lemma TickGuardNeverFires(cfg: Config, s: State, now: int)
    requires cfg.Valid() && Inv(cfg, s)
    ensures Ticked(cfg, s, now, true).Ok?
  {
    TickedInv(cfg, s, now);
  }

  lemma CommandGuardNeverFires(cfg: Config, s: State, command: Command, now: int)
    requires cfg.Valid() && Inv(cfg, s) && ValidCommandId(NormalizeCommand(command).id)
    ensures Applied(cfg, s, command, now, true).reply.Ok?
  {
    DecisionIs(cfg, s, NormalizeCommand(command), now);
  }

  // ---- the revision ledger

  lemma {:induction false} ImageSize(m: map<string, Processed>, ids: set<string>)
    requires UniqueRevisions(m) && forall id :: id in ids ==> IsExecuted(m, id)
    ensures |set id | id in ids && id in m :: RevisionOf(m, id)| == |ids|
    decreases ids
  {
    if ids != {} {
      var x :| x in ids;
      var rest := ids - {x};
      ImageSize(m, rest);
      assert (set id | id in ids && id in m :: RevisionOf(m, id))
          == (set id | id in rest && id in m :: RevisionOf(m, id)) + {RevisionOf(m, x)};
    }
  }

  /**
    The control revision of a reachable state is one more than the number of
    commands executed so far, and the executed commands carry exactly the
    revisions 2, 3, ..., controlRevision, one each.
  */
  lemma RevisionsAreExact(cfg: Config, s: State, k: nat)
    requires |cfg.caps| == 3 && Inv(cfg, s)
    ensures s.points.controlRevision == 1 + |ExecutedIds(s.processed)|
    ensures 2 <= k <= s.points.controlRevision <==>
            exists id :: IsExecuted(s.processed, id) && RevisionOf(s.processed, id) == k
    ensures UniqueRevisions(s.processed)
  {
    var m, top := s.processed, s.points.controlRevision;
    var ids := ExecutedIds(m);
    var carried := set id | id in ids && id in m :: RevisionOf(m, id);
    ImageSize(m, ids);
    forall r | r in carried ensures r in Interval(2, top + 1) {
      var id :| id in ids && id in m && RevisionOf(m, id) == r;
      assert IsExecuted(m, id) && EntryFits(m[id], top);
    }
    SubsetOfSameSize(carried, Interval(2, top + 1));
    if 2 <= k <= top {
      assert k in carried;
      var id :| id in ids && id in m && RevisionOf(m, id) == k;
      assert IsExecuted(m, id);
    }
    if exists id :: IsExecuted(m, id) && RevisionOf(m, id) == k {
      var id :| IsExecuted(m, id) && RevisionOf(m, id) == k;
      assert EntryFits(m[id], top);
    }
  }

  lemma ExpectationPinsRevision(m: map<string, Processed>, revision: nat, id: string, r: nat)
    requires Ledger(m, revision) && IsExecuted(m, id) && m[id].fingerprint.expectedRevision == Some(r)
    ensures RevisionOf(m, id) == r + 1
  {
    assert EntryFits(m[id], revision);
  }

  /** Of all commands that expect one revision, at most one ever executes. */
  lemma OneExecutionPerExpectedRevision(cfg: Config, s: State, a: string, b: string, r: nat)
    requires |cfg.caps| == 3 && Inv(cfg, s) && IsExecuted(s.processed, a) && IsExecuted(s.processed, b)
    requires s.processed[a].fingerprint.expectedRevision == Some(r) == s.processed[b].fingerprint.expectedRevision
    ensures a == b
  {
    ExpectationPinsRevision(s.processed, s.points.controlRevision, a, r);
    ExpectationPinsRevision(s.processed, s.points.controlRevision, b, r);
  }

  lemma {:induction false} RecordsStayInRuns(cfg: Config, s: State, ops: seq<Op>, id: string)
    requires cfg.Valid() && Inv(cfg, s) && id in s.processed
    ensures Inv(cfg, Run(cfg, s, ops))
    ensures id in Run(cfg, s, ops).processed && Run(cfg, s, ops).processed[id] == s.processed[id]
    decreases |ops|
  {
    if ops != [] {
      var before := ops[..|ops| - 1];
      RecordsStayInRuns(cfg, s, before, id);
      StepInv(cfg, Run(cfg, s, before), ops[|ops| - 1]);
      RecordsStay(cfg, Run(cfg, s, before), ops[|ops| - 1], id);
    }
  }

  /**
    Replay: once a command has an answer, sending it again, after any run that
    may include restarts and lost writes, returns that answer and changes nothing.
  */
  lemma ReplayReturnsTheFirstAnswer(cfg: Config, s: State, command: Command, now: int, ops: seq<Op>, later: int, persisted: bool)
    requires cfg.Valid() && Inv(cfg, s)
    requires NormalizeCommand(command).id !in s.processed
    requires Applied(cfg, s, command, now, true).reply.Ok?
    ensures var first := Applied(cfg, s, command, now, true);
            var s' := Run(cfg, first.state, ops);
            Applied(cfg, s', command, later, persisted) == Outcome(s', first.reply)
  {
    var c := NormalizeCommand(command);
    AppliedCases(cfg, s, command, now, true);
    DecisionKeepsRecords(cfg, s, c, now);
    CommandInv(cfg, s, command, now, true);
    var first := Applied(cfg, s, command, now, true);
    RecordsStayInRuns(cfg, first.state, ops, c.id);
    assert FingerprintOf(c) == FingerprintOf(command);
  }

  // ---- restarting from the state file

  /** What every start-up and operation with a real clock and session id writes. */
  predicate Identified(s: State) {
    s.schemaVersion == PERSISTENCE_SCHEMA_VERSION && s.sessionId != "" && s.generatedAt != 0
  }

  /** The file of a state with the invariant is accepted at start-up exactly when the reject bin fits. */
  lemma FileIsAcceptedExactlyWhen(cfg: Config, s: State, sessionId: string, now: int, persisted: bool)
    requires cfg.Valid() && Inv(cfg, s) && Identified(s)
    ensures Opened(cfg, Some(s), sessionId, now, persisted).Ok? <==> persisted && s.rejectBin <= cfg.caps[2]
  {
    assert Sound(cfg, s);
  }

  lemma ActionOverflows(cfg: Config, s: State, a: Action, c: Command)
    requires cfg.Valid() && s.rejectBin <= cfg.caps[2] && ApplyAction(cfg, s, a, c).Accepted?
    ensures ApplyAction(cfg, s, a, c).state.rejectBin > cfg.caps[2] <==>
            a == Inspect && s.rejectBin == cfg.caps[2] && !cfg.passes(s.points.counts.inspected + 1)
  {
  }

  lemma ExecutionRejectBin(cfg: Config, s: State, op: Op)
    requires cfg.Valid() && Inv(cfg, s) && Executes(cfg, s, op).Some?
    ensures var c := Executes(cfg, s, op).value;
            && ApplyNamed(cfg, s, c).Accepted?
            && Step(cfg, s, op).rejectBin == ApplyNamed(cfg, s, c).state.rejectBin
  {
    var c := Executes(cfg, s, op).value;
    ExecutionIs(cfg, s, op);
    ApplyActionKeeps(cfg, s, ActionOf(c.name), c);
    SettledCommand(cfg, ApplyNamed(cfg, s, c).state, c, op.now);
  }

  predicate AsksToInspect(op: Op) {
    op.DoCommand? && ActionOf(NormalizeCommand(op.command).name) == Inspect
  }

  /** Nothing bars a command: its expectation holds, no fault is injected, and the PLC is connected. */
  predicate Unbarred(s: State, expected: Option<nat>) {
    Expects(expected, s.points.controlRevision) && !s.faults.rejectCommands && !s.faults.failCommands && s.points.plcConnected
  }

  /** An inspection that will execute: nothing here depends on the engine's answer. */
  predicate WillInspect(s: State, op: Op) {
    AsksToInspect(op) && op.persisted && IsNew(s, NormalizeCommand(op.command)) && s.points.counts.inspected < s.points.counts.output
  }

  predicate IsNew(s: State, c: Command) {
    ValidCommandId(c.id) && c.id !in s.processed && Unbarred(s, c.expectedRevision)
  }

  lemma DecisionExecutesExactlyWhen(cfg: Config, s: State, c: Command, now: int)
    requires cfg.Valid() && Inv(cfg, s)
    ensures Decide(cfg, s, c, now).Ok?
    ensures Decide(cfg, s, c, now).value.result.status.Executed? <==> Unbarred(s, c.expectedRevision) && ApplyNamed(cfg, s, c).Accepted?
  {
    DecisionIs(cfg, s, c, now);
  }

  /** A command executes exactly when it is new, nothing bars it, its action is accepted and it can be persisted. */
  lemma CommandExecutesExactlyWhen(cfg: Config, s: State, op: Op)
    requires cfg.Valid() && Inv(cfg, s) && op.DoCommand?
    ensures Executes(cfg, s, op).Some? <==>
            op.persisted && IsNew(s, NormalizeCommand(op.command)) && ApplyNamed(cfg, s, NormalizeCommand(op.command)).Accepted?
  {
    DecisionExecutesExactlyWhen(cfg, s, NormalizeCommand(op.command), op.now);
  }

  lemma InspectionIsAccepted(cfg: Config, s: State, c: Command)
    requires |cfg.caps| == 3 && ActionOf(c.name) == Inspect
    ensures ApplyNamed(cfg, s, c).Accepted? <==> s.points.counts.inspected < s.points.counts.output
  {
  }

  lemma InspectionExecutesExactlyWhen(cfg: Config, s: State, op: Op)
    requires cfg.Valid() && Inv(cfg, s) && AsksToInspect(op)
    ensures Executes(cfg, s, op).Some? <==> WillInspect(s, op)
  {
    CommandExecutesExactlyWhen(cfg, s, op);
    InspectionIsAccepted(cfg, s, NormalizeCommand(op.command));
  }

  /** The next part fails inspection and the reject bin is full. */
  predicate NoPlaceForAReject(cfg: Config, s: State)
    requires |cfg.caps| == 3
  {
    s.rejectBin == cfg.caps[2] && !cfg.passes(s.points.counts.inspected + 1)
  }

  predicate Overflowing(cfg: Config, s: State)
    requires |cfg.caps| == 3
  {
    s.rejectBin > cfg.caps[2]
  }

  /** A manual inspection of a failing part while the reject bin is full. */
  predicate Overfills(cfg: Config, s: State, op: Op)
    requires |cfg.caps| == 3
  {
    WillInspect(s, op) && NoPlaceForAReject(cfg, s)
  }

  lemma EditOverflows(cfg: Config, s: State, c: Command)
    requires cfg.Valid() && s.rejectBin <= cfg.caps[2] && ApplyNamed(cfg, s, c).Accepted?
    ensures Overflowing(cfg, ApplyNamed(cfg, s, c).state) <==> ActionOf(c.name) == Inspect && NoPlaceForAReject(cfg, s)
  {
    ActionOverflows(cfg, s, ActionOf(c.name), c);
  }

  lemma ExecutionOverflowsExactlyWhen(cfg: Config, s: State, op: Op)
    requires cfg.Valid() && Inv(cfg, s) && s.rejectBin <= cfg.caps[2] && Executes(cfg, s, op).Some?
    ensures Overflowing(cfg, Step(cfg, s, op)) <==>
            ActionOf(Executes(cfg, s, op).value.name) == Inspect && NoPlaceForAReject(cfg, s)
  {
    ExecutionRejectBin(cfg, s, op);
    EditOverflows(cfg, s, Executes(cfg, s, op).value);
  }

  lemma InspectionOverflowsIfItExecutes(cfg: Config, s: State, op: Op)
    requires cfg.Valid() && Inv(cfg, s) && s.rejectBin <= cfg.caps[2] && AsksToInspect(op)
    ensures Overflowing(cfg, Step(cfg, s, op)) <==> Executes(cfg, s, op).Some? && NoPlaceForAReject(cfg, s)
  {
    if Executes(cfg, s, op).Some? {
      ExecutionOverflowsExactlyWhen(cfg, s, op);
    } else {
      NotExecuted(cfg, s, op);
    }
  }

  lemma InspectionOverflowsExactlyWhen(cfg: Config, s: State, op: Op)
    requires cfg.Valid() && Inv(cfg, s) && s.rejectBin <= cfg.caps[2] && AsksToInspect(op)
    ensures Overflowing(cfg, Step(cfg, s, op)) <==> Overfills(cfg, s, op)
  {
    InspectionOverflowsIfItExecutes(cfg, s, op);
    InspectionExecutesExactlyWhen(cfg, s, op);
  }

  lemma OtherStepsFit(cfg: Config, s: State, op: Op)
    requires cfg.Valid() && Inv(cfg, s) && s.rejectBin <= cfg.caps[2]
    requires !AsksToInspect(op)
    ensures !Overflowing(cfg, Step(cfg, s, op))
  {
    if !op.DoCommand? {
      OtherOpInv(cfg, s, op);
    } else if Executes(cfg, s, op).Some? {
      ExecutionOverflowsExactlyWhen(cfg, s, op);
    } else {
      NotExecuted(cfg, s, op);
    }
  }

  /** The reject bin grows past its capacity in exactly one way, told from the state and the request alone. */
  lemma RejectBinOverflowsExactlyWhen(cfg: Config, s: State, op: Op)
    requires cfg.Valid() && Inv(cfg, s) && s.rejectBin <= cfg.caps[2]
    ensures Overflowing(cfg, Step(cfg, s, op)) <==> Overfills(cfg, s, op)
  {
    if AsksToInspect(op) {
      InspectionOverflowsExactlyWhen(cfg, s, op);
    } else {
      OtherStepsFit(cfg, s, op);
    }
  }

  ghost predicate NeverOverfilled(cfg: Config, s: State, ops: seq<Op>)
    requires |cfg.caps| == 3
  {
    forall k :: 0 <= k < |ops| ==> !Overfills(cfg, Run(cfg, s, ops[..k]), ops[k])
  }

  lemma OverfilledEarlier(cfg: Config, s: State, ops: seq<Op>)
    requires |cfg.caps| == 3 && ops != [] && NeverOverfilled(cfg, s, ops)
    ensures NeverOverfilled(cfg, s, ops[..|ops| - 1]) && !Overfills(cfg, Run(cfg, s, ops[..|ops| - 1]), ops[|ops| - 1])
  {
    var before := ops[..|ops| - 1];
    forall k | 0 <= k < |before| ensures !Overfills(cfg, Run(cfg, s, before[..k]), before[k]) {
      assert before[..k] == ops[..k];
    }
  }

  lemma {:induction false} RunKeepsInv(cfg: Config, s: State, ops: seq<Op>)
    requires cfg.Valid() && Inv(cfg, s)
    ensures Inv(cfg, Run(cfg, s, ops))
    decreases |ops|
  {
    if ops != [] {
      RunKeepsInv(cfg, s, ops[..|ops| - 1]);
      StepInv(cfg, Run(cfg, s, ops[..|ops| - 1]), ops[|ops| - 1]);
    }
  }

  /** On every run the reject bin stays within its capacity unless such an inspection happens. */
  lemma {:induction false} RejectBinFitsUnlessOverfilled(cfg: Config, s: State, ops: seq<Op>)
    requires cfg.Valid() && Inv(cfg, s) && !Overflowing(cfg, s) && NeverOverfilled(cfg, s, ops)
    ensures !Overflowing(cfg, Run(cfg, s, ops))
    decreases |ops|
  {
    if ops != [] {
      var before := ops[..|ops| - 1];
      OverfilledEarlier(cfg, s, ops);
      RejectBinFitsUnlessOverfilled(cfg, s, before);
      RunKeepsInv(cfg, s, before);
      RejectBinOverflowsExactlyWhen(cfg, Run(cfg, s, before), ops[|ops| - 1]);
    }
  }

  /** From a first start, in particular. */
  lemma RejectBinFitsFromStart(cfg: Config, sessionId: string, now: int, ops: seq<Op>)
    requires cfg.Valid() && NeverOverfilled(cfg, StartState(cfg, sessionId, now), ops)
    ensures Run(cfg, StartState(cfg, sessionId, now), ops).rejectBin <= cfg.caps[2]
  {
    StartInv(cfg, sessionId, now);
    RejectBinFitsUnlessOverfilled(cfg, StartState(cfg, sessionId, now), ops);
  }

  // ---- real clocks and sessions

  /** Operations at an instant other than Go's zero time, under session ids that are not empty. */
  predicate Real(op: Op) {
    op.now != 0 && (op.DoRestart? || op.DoReopen? ==> op.sessionId != "")
  }

  lemma StepStaysIdentified(cfg: Config, s: State, op: Op)
    requires cfg.Valid() && Inv(cfg, s) && Identified(s) && Real(op)
    ensures Identified(Step(cfg, s, op))
  {
    match op
    case DoTick(now, _) => TickKeeps(cfg, s, now);
    case DoCommand(command, now, persisted) =>
      if Executes(cfg, s, op).Some? {
        ExecutionIs(cfg, s, op);
        ExecutedStaysIdentified(cfg, s, Executes(cfg, s, op).value, now);
      } else {
        NotExecuted(cfg, s, op);
      }
    case _ =>
  }

  lemma ExecutedStaysIdentified(cfg: Config, s: State, c: Command, now: int)
    requires |cfg.caps| == 3 && Identified(s) && now != 0 && ApplyNamed(cfg, s, c).Accepted?
    ensures Identified(Settle(cfg, ApplyNamed(cfg, s, c).state, c, now))
  {
  }

  lemma {:induction false} RunStaysIdentified(cfg: Config, sessionId: string, now: int, ops: seq<Op>)
    requires cfg.Valid() && sessionId != "" && now != 0 && forall k :: 0 <= k < |ops| ==> Real(ops[k])
    ensures Identified(Run(cfg, StartState(cfg, sessionId, now), ops))
    decreases |ops|
  {
    if ops != [] {
      var before := ops[..|ops| - 1];
      RunStaysIdentified(cfg, sessionId, now, before);
      EveryRunIsSound(cfg, sessionId, now, before);
      StepStaysIdentified(cfg, Run(cfg, StartState(cfg, sessionId, now), before), ops[|ops| - 1]);
    }
  }

  /** The file of every run is accepted at the next start-up exactly when the reject bin is within its capacity. */
  lemma RestartsExactlyWhenRejectBinFits(cfg: Config, sessionId: string, now: int, ops: seq<Op>, next: string, later: int, persisted: bool)
    requires cfg.Valid() && sessionId != "" && now != 0 && forall k :: 0 <= k < |ops| ==> Real(ops[k])
    ensures var s := Run(cfg, StartState(cfg, sessionId, now), ops);
            Opened(cfg, Some(s), next, later, persisted).Ok? <==> persisted && s.rejectBin <= cfg.caps[2]
  {
    RunStaysIdentified(cfg, sessionId, now, ops);
    EveryRunIsSound(cfg, sessionId, now, ops);
    FileIsAcceptedExactlyWhen(cfg, Run(cfg, StartState(cfg, sessionId, now), ops), next, later, persisted);
  }
}

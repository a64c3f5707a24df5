/** A concrete run of the simulator that fills the reject bin past its capacity and cannot be restarted. */
module PlcSimWitness {
  import opened Wrappers
  import opened Contract
  import opened PlcSim
  import opened PlcSimRuns
  import opened PlcSimTheorems
  import opened PlcSimEffects

  predicate Asks(c: Command, a: Action) {
    NormalizeCommand(c) == c && ValidCommandId(c.id) && c.expectedRevision.None? && ActionOf(c.name) == a
  }

  predicate Fresh(s: State, c: Command, a: Action) {
    Asks(c, a) && c.id !in s.processed
  }

  predicate Healthy(s: State) {
    s.faults == NO_FAULTS && s.points.plcConnected && !s.points.emergencyStop && s.points.guardDoorClosed && s.points.safetyReady
  }

  lemma ExecutesNow(cfg: Config, s: State, c: Command, a: Action, now: int)
    requires cfg.Valid() && Inv(cfg, s) && Healthy(s) && Fresh(s, c, a) && ApplyAction(cfg, s, a, c).Accepted?
    ensures var t, e := Step(cfg, s, DoCommand(c, now, true)), ApplyAction(cfg, s, a, c).state;
            Inv(cfg, t) && t == Recorded(Settle(cfg, e, c, now), c, Execution(Settle(cfg, e, c, now), c).result)
  {
    var e := ApplyAction(cfg, s, a, c).state;
    ApplyActionKeeps(cfg, s, a, c);
    SettledCommand(cfg, e, c, now);
    assert Barred(s, c).None?;
    StepInv(cfg, s, DoCommand(c, now, true));
  }

  /** What a manual inspection of a failing part does to the stock. */
  lemma InspectFails(cfg: Config, s: State, c: Command, now: int)
    requires cfg.Valid() && Inv(cfg, s) && Healthy(s) && Fresh(s, c, Inspect) && s.points.counts.inspected < s.points.counts.output
    requires !cfg.passes(s.points.counts.inspected + 1)
    ensures var t := Step(cfg, s, DoCommand(c, now, true)); Inv(cfg, t) && Rejected(s, t, c.id, now)
  {
    var op := DoCommand(c, now, true);
    assert c.name == "inspect";
    CommandExecutesExactlyWhenGranted(cfg, s, op);
    ExecutedCommandsDo(cfg, s, op);
    StepInv(cfg, s, op);
    InspectionRejects(cfg, s, c, now, Step(cfg, s, op));
  }

  /** One more part was inspected, and it went to the reject bin. */
  predicate Rejected(s: State, t: State, id: string, now: int) {
    && Healthy(t) && t.rejectBin == s.rejectBin + 1
    && t.points.counts.inspected == s.points.counts.inspected + 1 && t.points.counts.output == s.points.counts.output
    && t.processed.Keys == s.processed.Keys + {id}
    && t.generatedAt == now && t.sessionId == s.sessionId && t.schemaVersion == s.schemaVersion
  }

  lemma InspectionRejects(cfg: Config, s: State, c: Command, now: int, t: State)
    requires |cfg.caps| == 3 && Healthy(s) && c.name == "inspect" && !cfg.passes(s.points.counts.inspected + 1)
    requires Did(cfg, s, c, now, t) && AnsweredIn(s, c, t)
    ensures Rejected(s, t, c.id, now)
  {
  }

  /** The line of the witness: two blanks, one place for rejects, and every part fails. */
  predicate Line(cfg: Config) {
    && cfg.caps == [2, 2, 1] && cfg.initialTarget == 2 && cfg.initialCycleSeconds == 1
    && cfg.initialToolLimit == 10 && cfg.initialInspectInterval == 5
  }

  /** A first start; PlcSimTheorems.StartInv gives its invariant. */
  lemma StartBegins(cfg: Config, sessionId: string)
    requires Line(cfg)
    ensures Begins(StartState(cfg, sessionId, 1), sessionId)
  {
  }

  predicate Begins(s: State, sessionId: string) {
    && Healthy(s) && s.points.mode == "auto" && !s.points.singlePaused && !s.points.framePaused
    && StockOf(s) == Stock(Counts(0, 0, 0, 0, 0, 2, 0, 0), 0) && s.processed == map[]
    && Paced(s) && s.sessionId == sessionId && s.schemaVersion == PERSISTENCE_SCHEMA_VERSION
  }

  predicate Paced(s: State) {
    s.points.target == 2 && s.points.cycleSeconds == 1 && s.points.inspectInterval == 5
  }

  lemma Starts(cfg: Config, s: State, c: Command)
    requires cfg.Valid() && Inv(cfg, s) && Healthy(s) && Fresh(s, c, Start) && Paced(s)
    requires s.points.mode == "auto" && !s.points.singlePaused && !s.points.framePaused
    ensures var t := Step(cfg, s, DoCommand(c, 1, true));
            && Inv(cfg, t) && Healthy(t) && CanProduce(t.points) && t.nextAt == Some(1 + SECOND)
            && StockOf(t) == StockOf(s) && t.processed.Keys == s.processed.Keys + {c.id}
            && Paced(t) && t.sessionId == s.sessionId && t.schemaVersion == s.schemaVersion
  {
    ExecutesNow(cfg, s, c, Start, 1);
  }

  /** The two parts of one late tick; none is inspected yet. */
  lemma CatchUpBoth(cfg: Config, t: State)
    requires Line(cfg) && CanProduce(t.points) && t.nextAt == Some(1 + SECOND) && t.generatedAt == 5 * SECOND && Paced(t)
    requires StockOf(t) == Stock(Counts(0, 0, 0, 0, 0, 2, 0, 0), 0)
    ensures CatchUp(cfg, t, SECOND) ==
            WithStock(t, Stock(CatchUp(cfg, t, SECOND).points.counts, 0)).(nextAt := Some(1 + 3 * SECOND))
    ensures var n := CatchUp(cfg, t, SECOND).points.counts; n.output == 2 && n.inspected == 0
  {
    var one := ProduceOne(cfg, t).(nextAt := Some(1 + 2 * SECOND));
    assert CatchUp(cfg, t, SECOND) == CatchUp(cfg, one, SECOND);
    var two := ProduceOne(cfg, one).(nextAt := Some(1 + 3 * SECOND));
    assert CatchUp(cfg, one, SECOND) == CatchUp(cfg, two, SECOND);
    assert CatchUp(cfg, two, SECOND) == two;
  }

  lemma TickProducesBoth(cfg: Config, s: State)
    requires Line(cfg) && cfg.Valid() && Inv(cfg, s) && Healthy(s) && CanProduce(s.points) && s.nextAt == Some(1 + SECOND) && Paced(s)
    requires StockOf(s) == Stock(Counts(0, 0, 0, 0, 0, 2, 0, 0), 0)
    ensures var t := Step(cfg, s, DoTick(5 * SECOND, true));
            && Inv(cfg, t) && Healthy(t) && t.rejectBin == 0 && t.points.counts.output == 2 && t.points.counts.inspected == 0
            && t.processed == s.processed && t.sessionId == s.sessionId && t.schemaVersion == s.schemaVersion
  {
    var t := ApplyFaultState(s.(sampleSequence := s.sampleSequence + 1, generatedAt := 5 * SECOND));
    assert t.points == s.points;
    CatchUpBoth(cfg, t);
    var u := CatchUp(cfg, t, SECOND);
    assert TickCandidate(cfg, s, 5 * SECOND) == u;
    TickGuardNeverFires(cfg, s, 5 * SECOND);
    StepInv(cfg, s, DoTick(5 * SECOND, true));
  }

  lemma TwoFailedInspections(cfg: Config, s: State, first: Command, second: Command)
    requires Line(cfg) && cfg.Valid() && Inv(cfg, s) && Healthy(s) && s.rejectBin == 0 && !cfg.passes(1) && !cfg.passes(2)
    requires s.points.counts.output == 2 && s.points.counts.inspected == 0
    requires Fresh(s, first, Inspect) && Fresh(s, second, Inspect) && first.id != second.id
    ensures var t := Step(cfg, Step(cfg, s, DoCommand(first, 6 * SECOND, true)), DoCommand(second, 7 * SECOND, true));
            && Inv(cfg, t) && t.rejectBin == 2 && t.generatedAt == 7 * SECOND && t.sessionId == s.sessionId && t.schemaVersion == s.schemaVersion
  {
    InspectFails(cfg, s, first, 6 * SECOND);
    InspectFails(cfg, Step(cfg, s, DoCommand(first, 6 * SECOND, true)), second, 7 * SECOND);
  }

  /** More parts than the reject bin has places, and a state file that is refused. */
  predicate Overflowed(cfg: Config, s: State, sessionId: string, now: int)
    requires |cfg.caps| == 3
  {
    s.rejectBin == 2 > cfg.caps[2] && Opened(cfg, Some(s), sessionId, now, true).Err?
  }

  predicate BothProduced(s: State, sessionId: string, ids: set<string>) {
    && Healthy(s) && s.rejectBin == 0 && s.points.counts.output == 2 && s.points.counts.inspected == 0
    && s.processed.Keys == ids && s.sessionId == sessionId && s.schemaVersion == PERSISTENCE_SCHEMA_VERSION
  }

  lemma StartAndWait(cfg: Config, sessionId: string, start: Command, s0: State, s: State)
    requires Line(cfg) && cfg.Valid() && Inv(cfg, s0) && Begins(s0, sessionId) && Asks(start, Start)
    requires s == Step(cfg, Step(cfg, s0, DoCommand(start, 1, true)), DoTick(5 * SECOND, true))
    ensures Inv(cfg, s) && BothProduced(s, sessionId, {start.id})
  {
    Starts(cfg, s0, start);
    TickProducesBoth(cfg, Step(cfg, s0, DoCommand(start, 1, true)));
  }

  lemma InspectTwice(cfg: Config, sessionId: string, s: State, first: Command, second: Command, ids: set<string>, end: State, now: int)
    requires Line(cfg) && cfg.Valid() && Inv(cfg, s) && BothProduced(s, sessionId, ids) && sessionId != "" && !cfg.passes(1) && !cfg.passes(2)
    requires Asks(first, Inspect) && Asks(second, Inspect) && first.id !in ids && second.id !in ids && first.id != second.id
    requires end == Step(cfg, Step(cfg, s, DoCommand(first, 6 * SECOND, true)), DoCommand(second, 7 * SECOND, true))
    ensures Overflowed(cfg, end, sessionId, now)
  {
    assert first.id !in s.processed.Keys && second.id !in s.processed.Keys;
    TwoFailedInspections(cfg, s, first, second);
    FileIsAcceptedExactlyWhen(cfg, end, sessionId, now, true);
  }

  lemma RunOfFour(cfg: Config, s: State, a: Op, b: Op, c: Op, d: Op)
    requires |cfg.caps| == 3
    ensures Run(cfg, s, [a, b, c, d]) == Step(cfg, Step(cfg, Step(cfg, Step(cfg, s, a), b), c), d)
  {
    assert [a, b, c, d][..3] == [a, b, c] && [a, b, c][..2] == [a, b] && [a, b][..1] == [a] && [a][..0] == [];
    assert Run(cfg, s, [a]) == Step(cfg, Run(cfg, s, []), a);
    assert Run(cfg, s, [a, b]) == Step(cfg, Run(cfg, s, [a]), b);
    assert Run(cfg, s, [a, b, c]) == Step(cfg, Run(cfg, s, [a, b]), c);
  }

  /** Start, one late tick, and two inspections by hand. */
  function Witness(start: Command, first: Command, second: Command): seq<Op> {
    [DoCommand(start, 1, true), DoTick(5 * SECOND, true), DoCommand(first, 6 * SECOND, true), DoCommand(second, 7 * SECOND, true)]
  }

  lemma WitnessFrom(cfg: Config, sessionId: string, start: Command, first: Command, second: Command, s0: State, end: State, now: int)
    requires Line(cfg) && cfg.Valid() && sessionId != "" && !cfg.passes(1) && !cfg.passes(2)
    requires Asks(start, Start) && Asks(first, Inspect) && Asks(second, Inspect)
    requires start.id != first.id && start.id != second.id && first.id != second.id
    requires Inv(cfg, s0) && Begins(s0, sessionId) && end == Run(cfg, s0, Witness(start, first, second))
    ensures Overflowed(cfg, end, sessionId, now)
  {
    RunOfFour(cfg, s0, DoCommand(start, 1, true), DoTick(5 * SECOND, true), DoCommand(first, 6 * SECOND, true), DoCommand(second, 7 * SECOND, true));
    var s2 := Step(cfg, Step(cfg, s0, DoCommand(start, 1, true)), DoTick(5 * SECOND, true));
    StartAndWait(cfg, sessionId, start, s0, s2);
    InspectTwice(cfg, sessionId, s2, first, second, {start.id}, end, now);
  }

  /**
    After the witness run from a first start the reject bin holds two parts in one
    place, and the state file is refused at the next start-up.
  */
  lemma ManualInspectionsOverflowTheRejectBin(cfg: Config, sessionId: string, start: Command, first: Command, second: Command, s0: State, end: State, now: int)
    requires Line(cfg) && cfg.Valid() && sessionId != "" && !cfg.passes(1) && !cfg.passes(2)
    requires Asks(start, Start) && Asks(first, Inspect) && Asks(second, Inspect)
    requires start.id != first.id && start.id != second.id && first.id != second.id
    requires s0 == StartState(cfg, sessionId, 1) && end == Run(cfg, s0, Witness(start, first, second))
    ensures Overflowed(cfg, end, sessionId, now)
  {
    StartInv(cfg, sessionId, 1);
    StartBegins(cfg, sessionId);
    WitnessFrom(cfg, sessionId, start, first, second, s0, end, now);
  }
}

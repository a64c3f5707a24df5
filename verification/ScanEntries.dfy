/** What a scan publishes of one point, field by field: value, quality, instant and alarm flag. */
module ScanEntries {
  import opened Wrappers
  import opened Bits
  import opened Octets
  import opened Float32
  import opened ScanPlan
  import opened PointValues
  import opened Scan
  import opened ScanTheorems
  import AlarmEdges

  // -------------------------------------------------------------- decoding

  /** The low and the high word of a 32-bit value. */
  predicate Halves(words: seq<uint16>, order: WordOrder, low: int, high: int) {
    && |words| == 2
    && match order
       case LowHigh => low == words[0] && high == words[1]
       case HighLow => low == words[1] && high == words[0]
       case NoOrder => false
  }

  /** `i` is the number of `width` values that `bits` stands for in two's complement. */
  predicate TwosComplement(i: int, bits: int, width: int)
    requires width > 0
  {
    -width <= 2 * i < width && (i == bits || i == bits - width)
  }

  /** What a span of registers says of a point of this type. */
  ghost predicate Says(d: Definition, words: seq<uint16>, v: Value) {
    match d.pointType
    case BoolPoint => |words| == 1 && v == VBool(BitOf(words[0], d.bit))
    case Int16Point => |words| == 1 && v.VInt16? && TwosComplement(v.i, words[0], 0x1_0000)
    case Uint16Point => |words| == 1 && v == VUint16(words[0])
    case Int32Point =>
      v.VInt32? && exists low: uint16, high: uint16 :: Halves(words, d.wordOrder, low, high) && TwosComplement(v.i, 0x1_0000 * high + low, 0x1_0000_0000)
    case Float32Point =>
      v.VFloat? && exists low: uint16, high: uint16 :: Halves(words, d.wordOrder, low, high) && v.bits == 0x1_0000 * high + low
    case OtherPoint(_) => false
  }

  /** A point decodes to what its registers say, in its own type and word order. */
  lemma DecodesToWhatTheRegistersSay(d: Definition, words: seq<uint16>)
    requires ValidLayout(d) && PlanAddress(d).Ok? && |words| == PlanAddress(d).value.count
    ensures Decode(PlanOf(d), words).Ok? && Says(d, words, Decode(PlanOf(d), words).value)
  {
    if |words| == 2 {
      DecodesTwoWords(d, words);
    } else {
      DecodesOneWord(d, words);
    }
  }

  lemma DecodesOneWord(d: Definition, words: seq<uint16>)
    requires ValidLayout(d) && PlanAddress(d).Ok? && |words| == PlanAddress(d).value.count != 2
    ensures Decode(PlanOf(d), words).Ok? && Says(d, words, Decode(PlanOf(d), words).value)
  {
  }

  lemma DecodesTwoWords(d: Definition, words: seq<uint16>)
    requires ValidLayout(d) && PlanAddress(d).Ok? && |words| == PlanAddress(d).value.count == 2
    ensures Decode(PlanOf(d), words).Ok? && Says(d, words, Decode(PlanOf(d), words).value)
  {
    var low, high := words[0], words[1];
    assert if d.wordOrder.LowHigh? then Halves(words, d.wordOrder, low, high) else Halves(words, d.wordOrder, high, low);
  }

  /** A value of the point's own type, in its range, finite. */
  predicate Writable(d: Definition, v: Value) {
    match d.pointType
    case Int16Point => v.VInt16? && -32768 <= v.i <= 32767
    case Uint16Point => v.VUint16? && 0 <= v.i <= 65535
    case Int32Point => v.VInt32? && -2147483648 <= v.i <= 2147483647
    case Float32Point => v.VFloat? && Finite(v.bits)
    case _ => false
  }

  /** Exactly such values are encoded, into registers that say them. */
  lemma WrittenRegistersSayTheValue(d: Definition, v: Value)
    requires ValidLayout(d) && PlanAddress(d).Ok?
    ensures NumericWords(d, v).Ok? <==> Writable(d, v)
    ensures NumericWords(d, v).Ok? ==> Says(d, NumericWords(d, v).value, v)
  {
    if NumericWords(d, v).Ok? {
      WrittenValuesReadBack(d, v);
      DecodesToWhatTheRegistersSay(d, NumericWords(d, v).value);
    }
  }

  // -------------------------------------------------------------- one entry

  /** The alarm flag is given exactly when an alarm is configured, and says whether the value is the configured one. */
  predicate Flags(active: Option<bool>, alarm: Option<Configured>, v: Value) {
    && (active.Some? <==> alarm.Some?)
    && (active.Some? ==>
          match alarm.value
          case Flag(b) => active.value == (v == VBool(b))
          case Number(x) => active.value == (v.VFloat? && Finite(v.bits) && Same(NumberOf(v.bits), x)))
  }

  /** A good entry of a point that was read as `v` at `now`. */
  predicate GoodEntry(item: PointValue, d: Definition, v: Value, now: int) {
    item.value == Some(v) && item.quality.GoodQuality? && item.updatedAt == now && Flags(item.alarmActive, d.alarmValue, v)
  }

  /** An entry of a failed read: the last value and alarm flag, dated by the failure. */
  predicate FailedEntry(item: PointValue, last: Option<PointValue>, disconnected: bool, now: int) {
    && item.value == (if last.Some? then last.value.value else None)
    && item.alarmActive == (if last.Some? then last.value.alarmActive else None)
    && item.quality == (if disconnected then StaleQuality else ErrorQuality) && item.updatedAt == now
  }

  lemma GoodItemsAreGood(p: PointPlan, v: Value, now: int)
    ensures GoodEntry(GoodItem(p, v, now), p.definition, v, now)
  {
  }

  function At(m: map<string, PointValue>, id: string): Option<PointValue> {
    if id in m then Some(m[id]) else None
  }

  predicate Full(b: Batch, answer: Answer) {
    answer.Registers? && |answer.words| == |b.words|
  }

  /** The batch asks for the point's first word. */
  predicate BeginsIn(b: Batch, a: Address) {
    b.start <= a.word < b.start + |b.words|
  }

  /** A good entry for what these registers decode to. */
  predicate EntryOf(item: PointValue, p: PointPlan, span: seq<uint16>, now: int) {
    Decode(p, span).Ok? && GoodEntry(item, p.definition, Decode(p, span).value, now)
  }

  /** What one answer does to the entry of one point. */
  ghost predicate Entered(s: ScanState, b: Batch, answer: Answer, now: int, p: PointPlan, t: ScanState)
    requires Legal(b)
  {
    var id := p.definition.pointId;
    if Full(b, answer) && Covers(b, p.address) then
      && id in t.known.values && id in t.known.last && t.known.values[id] == t.known.last[id]
      && EntryOf(t.known.values[id], p, answer.words[p.address.word - b.start..p.address.word - b.start + p.address.count], now)
    else if !Full(b, answer) && BeginsIn(b, p.address) then
      && id in t.known.values && id in t.known.last && t.known.values[id] == t.known.last[id]
      && FailedEntry(t.known.values[id], At(s.known.last, id), s.link.disconnected || answer.TransportLost?, now)
    else At(t.known.values, id) == At(s.known.values, id) && At(t.known.last, id) == At(s.known.last, id)
  }

  lemma GoodAnswerIs(s: ScanState, b: Batch, words: seq<uint16>, plans: seq<PointPlan>, now: int)
    requires Legal(b) && |words| == |b.words|
    ensures AfterAnswer(s, b, Registers(words), plans, now).known == GoodPoints(s.known, PointsOf(plans, b, |b.words|), GoodRead(b, words), now)
  {
  }

  /** The two entries of a point after its points were set. */
  predicate SetTo(k: Known, b: Batch, words: seq<uint16>, now: int, p: PointPlan, t: Known)
    requires |words| == |b.words|
  {
    var id := p.definition.pointId;
    if Covers(b, p.address) then
      && id in t.values && id in t.last && t.values[id] == t.last[id]
      && EntryOf(t.values[id], p, words[p.address.word - b.start..p.address.word - b.start + p.address.count], now)
    else At(t.values, id) == At(k.values, id) && At(t.last, id) == At(k.last, id)
  }

  lemma ReadItemIsEntry(p: PointPlan, b: Batch, words: seq<uint16>, now: int)
    requires Reads(GoodRead(b, words), p)
    ensures EntryOf(ReadItem(p, GoodRead(b, words), now), p, words[p.address.word - b.start..p.address.word - b.start + p.address.count], now)
  {
    GoodItemsAreGood(p, Decode(p, SpanOf(GoodRead(b, words), p.address)).value, now);
  }

  lemma PointIsSet(k: Known, points: seq<PointPlan>, b: Batch, words: seq<uint16>, now: int, p: PointPlan, t: Known)
    requires |words| == |b.words| && (Reads(GoodRead(b, words), p) <==> Covers(b, p.address)) && (Covers(b, p.address) ==> p in points)
    requires forall q :: q in points && q.definition.pointId == p.definition.pointId ==> q == p
    requires t == GoodPoints(k, points, GoodRead(b, words), now)
    ensures SetTo(k, b, words, now, p, t)
  {
    GoodPointsSet(k, points, GoodRead(b, words), now, p);
    if Covers(b, p.address) {
      ReadItemIsEntry(p, b, words, now);
    }
  }

  lemma PointsAreSet(k: Known, b: Batch, words: seq<uint16>, plans: seq<PointPlan>, now: int, p: PointPlan, t: Known)
    requires Scannable(plans) && p in plans && Legal(b) && |words| == |b.words|
    requires t == GoodPoints(k, PointsOf(plans, b, |b.words|), GoodRead(b, words), now)
    ensures SetTo(k, b, words, now, p, t)
  {
    ReadsWholly(b, words, plans, p);
    PointsOfAre(plans, b, |b.words|);
    PointIsSet(k, PointsOf(plans, b, |b.words|), b, words, now, p, t);
  }

  lemma GoodAnswerEnters(s: ScanState, b: Batch, answer: Answer, plans: seq<PointPlan>, now: int, p: PointPlan)
    requires Scannable(plans) && p in plans && Legal(b) && Full(b, answer)
    ensures Entered(s, b, answer, now, p, AfterAnswer(s, b, answer, plans, now))
  {
    GoodAnswerIs(s, b, answer.words, plans, now);
    PointsAreSet(s.known, b, answer.words, plans, now, p, AfterAnswer(s, b, answer, plans, now).known);
  }

  lemma FailedAnswerEnters(s: ScanState, b: Batch, answer: Answer, plans: seq<PointPlan>, now: int, p: PointPlan)
    requires Scannable(plans) && p in plans && Legal(b) && !Full(b, answer)
    ensures Entered(s, b, answer, now, p, AfterAnswer(s, b, answer, plans, now))
  {
    PointsOfAre(plans, b, |b.words|);
    var quality := if s.link.disconnected || answer.TransportLost? then StaleQuality else ErrorQuality;
    FailPointsMark(s.known, PointsOf(plans, b, |b.words|), quality, now, p);
  }

  /** A good answer gives good entries to the points it holds wholly, a failed one re-marks those it would have begun, and no other entry moves. */
  lemma AnAnswerEntersItsPoints(s: ScanState, b: Batch, answer: Answer, plans: seq<PointPlan>, now: int, p: PointPlan)
    requires Scannable(plans) && p in plans && Legal(b)
    ensures Entered(s, b, answer, now, p, AfterAnswer(s, b, answer, plans, now))
  {
    if Full(b, answer) {
      GoodAnswerEnters(s, b, answer, plans, now, p);
    } else {
      FailedAnswerEnters(s, b, answer, plans, now, p);
    }
  }

  predicate LinkAfter(l: Link, b: Batch, answer: Answer, m: Link) {
    && m.disconnected == (l.disconnected || answer.TransportLost?)
    && m.lost == (l.lost || answer.TransportLost?)
    && m.confirmed == (l.confirmed || (answer.TransportLost? && !l.disconnected))
    && (m.error.None? <==> l.error.None? && Full(b, answer))
    && (l.error.Some? ==> m.error == l.error)
  }

  lemma FullAnswersKeepTheLink(s: ScanState, b: Batch, answer: Answer, plans: seq<PointPlan>, now: int)
    requires Legal(b) && Full(b, answer)
    ensures AfterAnswer(s, b, answer, plans, now).link == s.link
  {
  }

  lemma FailedAnswersMoveTheLink(s: ScanState, b: Batch, answer: Answer, plans: seq<PointPlan>, now: int)
    requires Legal(b) && !Full(b, answer)
    ensures var l, m := s.link, AfterAnswer(s, b, answer, plans, now).link;
            && m.error.Some? && (l.error.Some? ==> m.error == l.error)
            && m == (if answer.TransportLost? then Link(true, true, l.confirmed || !l.disconnected, m.error) else l.(error := m.error))
  {
  }

  /** How an answer changes the link: only a lost connection disconnects, and the first error is kept. */
  lemma AnAnswerMovesTheLink(s: ScanState, b: Batch, answer: Answer, plans: seq<PointPlan>, now: int, m: Link)
    requires Legal(b) && m == AfterAnswer(s, b, answer, plans, now).link
    ensures LinkAfter(s.link, b, answer, m)
  {
    if Full(b, answer) {
      FullAnswersKeepTheLink(s, b, answer, plans, now);
    } else {
      FailedAnswersMoveTheLink(s, b, answer, plans, now);
    }
  }

  /** A disconnect confirmed from outside marks what is known of every readable point as stale, once, and leaves the running scan's values. */
  lemma AnInterruptMarksWhatIsKnown(s: ScanState, readable: set<string>, now: int, id: string)
    ensures var t := Interrupt(s, readable, now);
            && t.link == s.link.(disconnected := true) && t.known.values == s.known.values && t.log == s.log
            && if !s.link.disconnected && id in readable
               then id in t.known.last && FailedEntry(t.known.last[id], At(s.known.last, id), true, now)
               else At(t.known.last, id) == At(s.known.last, id)
  {
  }

  // -------------------------------------------------------------- a clean scan

  /** The entry is good and dated by a turn whose batch held the point. */
  ghost predicate Stamped(s: ScanState, batches: seq<Batch>, turns: seq<Turn>, n: nat, p: PointPlan)
    requires n <= |batches| && n <= |turns|
  {
    var id := p.definition.pointId;
    id in s.known.values ==> exists k :: 0 <= k < n && Covers(batches[k], p.address) && s.known.values[id].updatedAt == turns[k].now
  }

  lemma TurnStamps(s: ScanState, b: Batch, turn: Turn, plans: seq<PointPlan>, readable: set<string>, p: PointPlan)
    requires Scannable(plans) && p in plans && Legal(b) && !s.link.lost && Full(b, turn.answer)
    ensures var id, t := p.definition.pointId, AfterTurn(s, b, turn, plans, readable);
            if Covers(b, p.address) then id in t.known.values && t.known.values[id].updatedAt == turn.now
            else At(t.known.values, id) == At(s.known.values, id)
  {
    var u := if turn.interrupted then Interrupt(s, readable, turn.now) else s;
    GoodAnswerEnters(u, b, turn.answer, plans, turn.now, p);
  }

  lemma {:induction false} TurnsStamp(s: ScanState, batches: seq<Batch>, turns: seq<Turn>, n: nat, mem: RegisterFile,
                                      plans: seq<PointPlan>, readable: set<string>, p: PointPlan)
    requires Scannable(plans) && p in plans && AllLegal(batches) && |turns| == |batches| && n <= |batches|
    requires Clean(s.link) && s.known.values == map[] && AnsweredFrom(mem, batches, turns)
    ensures Stamped(AfterTurns(s, batches, turns, n, plans, readable), batches, turns, n, p)
  {
    if n > 0 {
      TurnsStamp(s, batches, turns, n - 1, mem, plans, readable, p);
      GoodTurnsStayClean(s, batches, turns, n - 1, mem, plans, readable);
      TurnStamps(AfterTurns(s, batches, turns, n - 1, plans, readable), batches[n - 1], turns[n - 1], plans, readable, p);
    }
  }

  /** The entry of a point says what its registers hold now, is good, and dates from a turn that read them. */
  ghost predicate ShowsMemory(item: PointValue, d: Definition, mem: RegisterFile, batches: seq<Batch>, turns: seq<Turn>)
    requires PlanAddress(d).Ok? && Spanned(PlanAddress(d).value) && |turns| == |batches|
  {
    var a := PlanAddress(d).value;
    && item.value.Some? && Says(d, ReadSpan(mem, d.word, a.count), item.value.value)
    && item.quality.GoodQuality?
    && (exists k :: 0 <= k < |batches| && Covers(batches[k], a) && item.updatedAt == turns[k].now)
    && Flags(item.alarmActive, d.alarmValue, item.value.value)
  }

  lemma EntryShowsMemory(item: PointValue, d: Definition, mem: RegisterFile, batches: seq<Batch>, turns: seq<Turn>, k: nat)
    requires ValidLayout(d) && PlanAddress(d).Ok? && |turns| == |batches|
    requires Spanned(PlanAddress(d).value)
    requires ReadPoint(mem, PlanOf(d)).Ok? && item == GoodItem(PlanOf(d), ReadPoint(mem, PlanOf(d)).value, item.updatedAt)
    requires k < |batches| && Covers(batches[k], PlanAddress(d).value) && item.updatedAt == turns[k].now
    ensures ShowsMemory(item, d, mem, batches, turns)
  {
    PlannedAddressesAreSpans(d);
    DecodesToWhatTheRegistersSay(d, ReadSpan(mem, d.word, PlanAddress(d).value.count));
    GoodItemsAreGood(PlanOf(d), ReadPoint(mem, PlanOf(d)).value, item.updatedAt);
  }

  lemma ResultIsStamped(last: map<string, PointValue>, disconnected: bool, log: seq<GoodRead>, batches: seq<Batch>, turns: seq<Turn>,
                        mem: RegisterFile, plans: seq<PointPlan>, now: int, p: PointPlan)
    requires Scannable(plans) && p in plans && AllLegal(batches) && |turns| == |batches| && AnsweredFrom(mem, batches, turns)
    ensures Stamped(ScanResult(last, disconnected, log, batches, turns, plans, Ids(plans), now), batches, turns, |turns|, p)
  {
    var s := Begun(last, disconnected, log);
    TurnsStamp(s, batches, turns, |turns|, mem, plans, Ids(plans), p);
    GoodTurnsStayClean(s, batches, turns, |turns|, mem, plans, Ids(plans));
  }

  /**
    A scan answered in full from unchanged memory publishes, for every readable point of
    the configuration, what its registers hold: of good quality, dated by a turn that read
    them, and with an alarm flag exactly if an alarm is configured.
  */
  lemma CleanScansPublishTheMemory(points: seq<Definition>, last: map<string, PointValue>, disconnected: bool, log: seq<GoodRead>,
                                   batches: seq<Batch>, turns: seq<Turn>, mem: RegisterFile, now: int, i: nat)
    requires Normalized(points) && AllPlanned(points) && i < |points| && points[i].access != WriteOnly
    requires Serves(batches, ReadPlans(points)) && |turns| == |batches| && AllLegal(batches) && AnsweredFrom(mem, batches, turns)
    ensures Spanned(PlanAddress(points[i]).value)
    ensures var plans := ReadPlans(points);
            var values := ScanResult(last, disconnected, log, batches, turns, plans, Ids(plans), now).known.values;
            points[i].pointId in values && ShowsMemory(values[points[i].pointId], points[i], mem, batches, turns)
  {
    var plans, d := ReadPlans(points), points[i];
    var values := ScanResult(last, disconnected, log, batches, turns, plans, Ids(plans), now).known.values;
    PlannedAddressesAreSpans(d);
    ReadPlansAre(points);
    BuiltPlansScan(points);
    assert PlanOf(d) in plans;
    var j :| 0 <= j < |plans| && plans[j] == PlanOf(d);
    ScanRefinesPointReads(last, disconnected, log, batches, turns, mem, plans, now);
    ResultIsStamped(last, disconnected, log, batches, turns, mem, plans, now, plans[j]);
    var k :| 0 <= k < |turns| && Covers(batches[k], plans[j].address) && values[d.pointId].updatedAt == turns[k].now;
    EntryShowsMemory(values[d.pointId], d, mem, batches, turns, k);
  }

  /** Such an entry is heard by the alarm detector exactly if an alarm is configured. */
  lemma GoodEntriesSpeakExactlyWhenConfigured(defs: AlarmEdges.Definitions, d: Definition, item: PointValue, v: Value)
    requires d.pointId in defs && defs[d.pointId] == d && item.quality.GoodQuality? && Flags(item.alarmActive, d.alarmValue, v)
    ensures AlarmEdges.Speaks(defs, AlarmEdges.Entry(d.pointId, item)) <==> d.alarmValue.Some?
  {
  }

  // -------------------------------------------------------------- the end of a scan

  /** A scan without an error reconnects and publishes what it read; one that ends disconnected publishes every point as stale. */
  lemma AScanEnds(s: ScanState, readable: set<string>, now: int)
    ensures var t := Ended(s, readable, now);
            && t.link == s.link.(disconnected := s.link.disconnected && s.link.error.Some?) && t.log == s.log
            && (!t.link.disconnected ==> t.known == s.known)
            && (t.link.disconnected ==>
                  && t.known.values.Keys == readable
                  && (forall id :: id in readable ==> id in t.known.last && t.known.last[id] == t.known.values[id])
                  && (forall id :: id in readable ==> FailedEntry(t.known.values[id], At(s.known.last, id), true, now)))
  {
  }
}

/** What a scan promises: its keys, its qualities, and agreement with point-by-point reads. */
module ScanTheorems {
  import opened Wrappers
  import opened Octets
  import opened ScanPlan
  import opened PointValues
  import opened Scan

  // -------------------------------------------------------------- keys

  ghost predicate OnlyReadable(s: ScanState, plans: seq<PointPlan>) {
    s.known.values.Keys <= Ids(plans)
  }

  lemma TurnOnlyReadable(s: ScanState, b: Batch, turn: Turn, plans: seq<PointPlan>, readable: set<string>)
    requires Legal(b) && OnlyReadable(s, plans)
    ensures OnlyReadable(AfterTurn(s, b, turn, plans, readable), plans)
  {
    if !s.link.lost {
      var t := if turn.interrupted then Interrupt(s, readable, turn.now) else s;
      var points := PointsOf(plans, b, |b.words|);
      PointsOfAre(plans, b, |b.words|);
      var link := AfterAnswer(t, b, turn.answer, plans, turn.now).link;
      var quality := if link.disconnected then StaleQuality else ErrorQuality;
      var r := GoodRead(b, if turn.answer.Registers? then turn.answer.words else []);
      OnlyTheirIds(t.known, points, r, quality, turn.now);
    }
  }

  lemma {:induction false} ScanOnlyReadable(s: ScanState, batches: seq<Batch>, turns: seq<Turn>, n: nat, plans: seq<PointPlan>, readable: set<string>)
    requires n <= |batches| && n <= |turns| && AllLegal(batches) && OnlyReadable(s, plans)
    ensures OnlyReadable(AfterTurns(s, batches, turns, n, plans, readable), plans)
  {
    if n > 0 {
      ScanOnlyReadable(s, batches, turns, n - 1, plans, readable);
      TurnOnlyReadable(AfterTurns(s, batches, turns, n - 1, plans, readable), batches[n - 1], turns[n - 1], plans, readable);
    }
  }

  /** The point has an entry, or the scan stopped early. */
  ghost predicate HasEntry(s: ScanState, id: string) {
    s.link.lost || id in s.known.values
  }

  lemma AnswerKeepsEntries(s: ScanState, b: Batch, answer: Answer, plans: seq<PointPlan>, now: int, p: PointPlan)
    requires Scannable(plans) && p in plans && Legal(b) && !s.link.lost
    requires HasEntry(s, p.definition.pointId) || Covers(b, p.address)
    ensures HasEntry(AfterAnswer(s, b, answer, plans, now), p.definition.pointId)
  {
    PointsOfAre(plans, b, |b.words|);
    if answer.Registers? && |answer.words| == |b.words| {
      ReadsWholly(b, answer.words, plans, p);
      GoodPointsSet(s.known, PointsOf(plans, b, |b.words|), GoodRead(b, answer.words), now, p);
    } else {
      var link := AfterAnswer(s, b, answer, plans, now).link;
      FailPointsMark(s.known, PointsOf(plans, b, |b.words|), if link.disconnected then StaleQuality else ErrorQuality, now, p);
    }
  }

  /** A batch that holds a point leaves it an entry, good or failed, and no later batch takes it away. */
  lemma TurnKeepsEntries(s: ScanState, b: Batch, turn: Turn, plans: seq<PointPlan>, readable: set<string>, p: PointPlan)
    requires Scannable(plans) && p in plans && Legal(b)
    requires HasEntry(s, p.definition.pointId) || Covers(b, p.address)
    ensures HasEntry(AfterTurn(s, b, turn, plans, readable), p.definition.pointId)
  {
    if !s.link.lost {
      AnswerKeepsEntries(if turn.interrupted then Interrupt(s, readable, turn.now) else s, b, turn.answer, plans, turn.now, p);
    }
  }

  lemma {:induction false} EveryReadPointHasAnEntry(s: ScanState, batches: seq<Batch>, turns: seq<Turn>, k: nat, n: nat, plans: seq<PointPlan>,
                                       readable: set<string>, p: PointPlan)
    requires k < n <= |batches| && n <= |turns| && AllLegal(batches) && Scannable(plans) && p in plans && Covers(batches[k], p.address)
    ensures HasEntry(AfterTurns(s, batches, turns, n, plans, readable), p.definition.pointId)
  {
    if k < n - 1 {
      EveryReadPointHasAnEntry(s, batches, turns, k, n - 1, plans, readable, p);
    }
    TurnKeepsEntries(AfterTurns(s, batches, turns, n - 1, plans, readable), batches[n - 1], turns[n - 1], plans, readable, p);
  }

  ghost predicate LossShows(link: Link) {
    link.lost ==> link.disconnected && link.error.Some?
  }

  lemma TurnShowsLoss(s: ScanState, b: Batch, turn: Turn, plans: seq<PointPlan>, readable: set<string>)
    requires Legal(b) && LossShows(s.link)
    ensures LossShows(AfterTurn(s, b, turn, plans, readable).link)
  {
  }

  /** A scan that stopped early is disconnected and has an error. */
  lemma {:induction false} LostMeansDisconnected(s: ScanState, batches: seq<Batch>, turns: seq<Turn>, n: nat, plans: seq<PointPlan>, readable: set<string>)
    requires n <= |batches| && n <= |turns| && AllLegal(batches) && !s.link.lost
    ensures LossShows(AfterTurns(s, batches, turns, n, plans, readable).link)
  {
    if n > 0 {
      LostMeansDisconnected(s, batches, turns, n - 1, plans, readable);
      TurnShowsLoss(AfterTurns(s, batches, turns, n - 1, plans, readable), batches[n - 1], turns[n - 1], plans, readable);
    }
  }

  /** A lost connection skips the remaining batches. */
  lemma {:induction false} LostStays(s: ScanState, batches: seq<Batch>, turns: seq<Turn>, k: nat, n: nat, plans: seq<PointPlan>, readable: set<string>)
    requires k <= n <= |batches| && n <= |turns| && AllLegal(batches) && AfterTurns(s, batches, turns, k, plans, readable).link.lost
    ensures AfterTurns(s, batches, turns, n, plans, readable) == AfterTurns(s, batches, turns, k, plans, readable)
  {
    if k < n {
      LostStays(s, batches, turns, k, n - 1, plans, readable);
    }
  }

  /** Every scan result has exactly the readable points as keys, whatever the PLC answered. */
  lemma ScanKeysAreTheReadablePoints(last: map<string, PointValue>, disconnected: bool, log: seq<GoodRead>, batches: seq<Batch>,
                                     turns: seq<Turn>, plans: seq<PointPlan>, now: int)
    requires Scannable(plans) && Serves(batches, plans) && |turns| == |batches|
    ensures AllLegal(batches)
    ensures ScanResult(last, disconnected, log, batches, turns, plans, Ids(plans), now).known.values.Keys == Ids(plans)
  {
    var s, readable, n := Begun(last, disconnected, log), Ids(plans), |batches|;
    var done := AfterTurns(s, batches, turns, n, plans, readable);
    ScanOnlyReadable(s, batches, turns, n, plans, readable);
    LostMeansDisconnected(s, batches, turns, n, plans, readable);
    forall id | !done.link.lost && id in readable ensures id in done.known.values {
      var p :| p in plans && p.definition.pointId == id;
      var i :| 0 <= i < |plans| && plans[i] == p;
      assert CoveredBy(batches, plans[i].address);
      var k :| 0 <= k < |batches| && Covers(batches[k], p.address);
      EveryReadPointHasAnEntry(s, batches, turns, k, n, plans, readable, p);
    }
  }

  /** A point whose whole span has not been read has no value; afterwards it has the latest decode. */
  lemma ResultTracks(before: ScanState, batches: seq<Batch>, turns: seq<Turn>, plans: seq<PointPlan>, readable: set<string>, now: int)
    requires Scannable(plans) && AllLegal(batches) && |turns| == |batches| && before.known.values == map[]
    requires forall p :: p in plans ==> ValueAt(before.known.last, p.definition.pointId) == LatestDecode(before.log, p)
    ensures var after := Ended(AfterTurns(before, batches, turns, |turns|, plans, readable), readable, now);
            forall p :: p in plans ==> Tracks(after, p)
  {
    forall p | p in plans ensures Tracks(Ended(AfterTurns(before, batches, turns, |turns|, plans, readable), readable, now), p) {
      ScanTracks(before, batches, turns, |turns|, plans, readable, p);
      EndTracks(AfterTurns(before, batches, turns, |turns|, plans, readable), readable, now, p);
    }
  }

  // -------------------------------------------------------------- qualities

  /** A scan that ends disconnected publishes stale entries and nothing else. */
  lemma DisconnectedMeansStale(s: ScanState, readable: set<string>, now: int)
    ensures var after := Ended(s, readable, now);
            after.link.disconnected ==>
              after.known.values.Keys == readable &&
              forall id :: id in readable ==> after.known.values[id].quality == StaleQuality && after.known.values[id].updatedAt == now
  {
  }

  // -------------------------------------------------------------- refinement of point-by-point reads

  type RegisterFile = uint16 -> uint16

  function ReadSpan(mem: RegisterFile, start: int, count: nat): (words: seq<uint16>)
    requires 0 <= start && start + count <= 0x1_0000
    ensures |words| == count && forall i :: 0 <= i < count ==> words[i] == mem(start + i)
  {
    seq(count, i requires 0 <= i < count => mem(start + i))
  }

  /** The simple form: one point read on its own. */
  function ReadPoint(mem: RegisterFile, p: PointPlan): Result<Value>
    requires Spanned(p.address)
  {
    Decode(p, ReadSpan(mem, p.address.word, p.address.count))
  }

  /** Every batch was answered from the same, unchanged memory. */
  ghost predicate AnsweredFrom(mem: RegisterFile, batches: seq<Batch>, turns: seq<Turn>)
    requires |turns| == |batches| && AllLegal(batches)
  {
    forall k :: 0 <= k < |turns| ==> turns[k].answer == Registers(ReadSpan(mem, batches[k].start, |batches[k].words|))
  }

  /** The entry of a point, if there is one, is the good decode of its own registers. */
  ghost predicate PointRead(s: ScanState, mem: RegisterFile, p: PointPlan)
    requires Spanned(p.address)
  {
    var id := p.definition.pointId;
    id in s.known.values ==>
      var item := s.known.values[id];
      ReadPoint(mem, p).Ok? && item == GoodItem(p, ReadPoint(mem, p).value, item.updatedAt)
  }

  lemma SpanFromMemory(mem: RegisterFile, b: Batch, p: PointPlan)
    requires Spanned(p.address) && Legal(b) && Covers(b, p.address)
    ensures SpanOf(GoodRead(b, ReadSpan(mem, b.start, |b.words|)), p.address) == ReadSpan(mem, p.address.word, p.address.count)
  {
  }

  lemma GoodBatchReadsPoint(s: ScanState, b: Batch, mem: RegisterFile, plans: seq<PointPlan>, now: int, p: PointPlan)
    requires Scannable(plans) && p in plans && Spanned(p.address) && Legal(b) && PointRead(s, mem, p)
    ensures PointRead(AfterAnswer(s, b, Registers(ReadSpan(mem, b.start, |b.words|)), plans, now), mem, p)
  {
    var words := ReadSpan(mem, b.start, |b.words|);
    ReadsWholly(b, words, plans, p);
    PointsOfAre(plans, b, |b.words|);
    GoodPointsSet(s.known, PointsOf(plans, b, |b.words|), GoodRead(b, words), now, p);
    if Covers(b, p.address) {
      SpanFromMemory(mem, b, p);
    }
  }

  ghost predicate Clean(link: Link) {
    !link.lost && link.error.None?
  }

  lemma {:induction false} GoodTurnsStayClean(s: ScanState, batches: seq<Batch>, turns: seq<Turn>, n: nat, mem: RegisterFile,
                                              plans: seq<PointPlan>, readable: set<string>)
    requires AllLegal(batches) && |turns| == |batches| && n <= |batches| && Clean(s.link) && AnsweredFrom(mem, batches, turns)
    ensures Clean(AfterTurns(s, batches, turns, n, plans, readable).link)
  {
    if n > 0 {
      GoodTurnsStayClean(s, batches, turns, n - 1, mem, plans, readable);
    }
  }

  ghost predicate Planned(plans: seq<PointPlan>, p: PointPlan) {
    Scannable(plans) && p in plans && Spanned(p.address)
  }

  ghost predicate CleanRead(s: ScanState, mem: RegisterFile, p: PointPlan)
    requires Spanned(p.address)
  {
    Clean(s.link) && PointRead(s, mem, p)
  }

  lemma TurnReadsPoint(s: ScanState, b: Batch, turn: Turn, mem: RegisterFile, plans: seq<PointPlan>, readable: set<string>, p: PointPlan)
    requires Planned(plans, p) && Legal(b) && CleanRead(s, mem, p) && turn.answer == Registers(ReadSpan(mem, b.start, |b.words|))
    ensures CleanRead(AfterTurn(s, b, turn, plans, readable), mem, p)
  {
    var t := if turn.interrupted then Interrupt(s, readable, turn.now) else s;
    assert PointRead(t, mem, p);
    GoodBatchReadsPoint(t, b, mem, plans, turn.now, p);
  }

  lemma {:induction false} TurnsReadPoint(s: ScanState, batches: seq<Batch>, turns: seq<Turn>, n: nat, mem: RegisterFile, plans: seq<PointPlan>,
                                          readable: set<string>, p: PointPlan)
    requires Planned(plans, p) && AllLegal(batches) && |turns| == |batches| && n <= |batches|
    requires CleanRead(s, mem, p) && AnsweredFrom(mem, batches, turns)
    ensures CleanRead(AfterTurns(s, batches, turns, n, plans, readable), mem, p)
  {
    if n > 0 {
      TurnsReadPoint(s, batches, turns, n - 1, mem, plans, readable, p);
      TurnReadsPoint(AfterTurns(s, batches, turns, n - 1, plans, readable), batches[n - 1], turns[n - 1], mem, plans, readable, p);
    }
  }

  /**
    The sorted, merged, batched scan refines reading every point on its own: on
    unchanged memory it returns one entry per readable point, each the good decode
    of that point's own registers, and it reconnects.
  */
  lemma ScanRefinesPointReads(last: map<string, PointValue>, disconnected: bool, log: seq<GoodRead>, batches: seq<Batch>,
                              turns: seq<Turn>, mem: RegisterFile, plans: seq<PointPlan>, now: int)
    requires Scannable(plans) && AllSpans(plans) && Serves(batches, plans) && |turns| == |batches|
    requires AllLegal(batches) && AnsweredFrom(mem, batches, turns)
    ensures var after := ScanResult(last, disconnected, log, batches, turns, plans, Ids(plans), now);
            && after.known.values.Keys == Ids(plans)
            && !after.link.disconnected
            && forall i :: 0 <= i < |plans| ==>
                 var p := plans[i];
                 ReadPoint(mem, p).Ok? && p.definition.pointId in after.known.values &&
                 after.known.values[p.definition.pointId] ==
                   GoodItem(p, ReadPoint(mem, p).value, after.known.values[p.definition.pointId].updatedAt)
  {
    var s, readable := Begun(last, disconnected, log), Ids(plans);
    var after := Ended(AfterTurns(s, batches, turns, |batches|, plans, readable), readable, now);
    ScanKeysAreTheReadablePoints(last, disconnected, log, batches, turns, plans, now);
    GoodTurnsStayClean(s, batches, turns, |batches|, mem, plans, readable);
    forall i | 0 <= i < |plans|
      ensures ReadPoint(mem, plans[i]).Ok? && plans[i].definition.pointId in after.known.values
      ensures PointRead(after, mem, plans[i])
    {
      var p := plans[i];
      TurnsReadPoint(s, batches, turns, |batches|, mem, plans, readable, p);
      assert p.definition.pointId in Ids(plans);
    }
  }

  /** A plan built from a normalized configuration can be scanned. */
  lemma BuiltPlansScan(points: seq<Definition>)
    requires Normalized(points) && AllPlanned(points)
    ensures Scannable(ReadPlans(points)) && AllSpans(ReadPlans(points)) && Ids(ReadPlans(points)) == ReadableIds(points)
  {
    var plans := ReadPlans(points);
    ReadPlansAre(points);
    ReadPlansAreSpans(points);
    forall i | 0 <= i < |plans| ensures DecodableAt(plans[i]) {
      assert plans[i] in plans;
      var j :| 0 <= j < |points| && points[j].access != WriteOnly && plans[i] == PlanOf(points[j]);
      forall words: seq<uint16> | |words| == plans[i].address.count ensures Decode(plans[i], words).Ok? {
        DecodesItsSpan(points[j], words);
      }
    }
    forall p, q | p in plans && q in plans && p.definition.pointId == q.definition.pointId ensures p == q {
      var i :| 0 <= i < |points| && points[i].access != WriteOnly && p == PlanOf(points[i]);
      var j :| 0 <= j < |points| && points[j].access != WriteOnly && q == PlanOf(points[j]);
      assert i == j;
    }
    forall id ensures id in Ids(plans) <==> id in ReadableIds(points) {
      if id in Ids(plans) {
        var p :| p in plans && p.definition.pointId == id;
        var i :| 0 <= i < |points| && points[i].access != WriteOnly && p == PlanOf(points[i]);
        assert points[i] in points;
      }
      if id in ReadableIds(points) {
        var d :| d in points && d.access != WriteOnly && d.pointId == id;
        var i :| 0 <= i < |points| && points[i] == d;
        assert PlanOf(points[i]) in plans;
      }
    }
  }
}

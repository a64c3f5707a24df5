/**
  One scan of the PLC as a function: batched reads, errors, the disconnect state,
  and what is known of every point afterwards. PlcWorker runs it.
*/
module Scan {
  import opened Wrappers
  import opened Octets
  import opened ScanPlan
  import opened PointValues

  // What the PLC connection answers to one FC03 request.
  datatype Answer = Registers(words: seq<uint16>) | TransportLost(error: string) | ReadFailed(error: string)

  /** One batch of a scan: whether a disconnect was confirmed from outside just before it,
      what the PLC answered, and the clock. */
  datatype Turn = Turn(interrupted: bool, answer: Answer, now: int)

  datatype GoodRead = GoodRead(batch: Batch, words: seq<uint16>)

  // The values of the running scan and the worker's own last values.
  datatype Known = Known(values: map<string, PointValue>, last: map<string, PointValue>)

  datatype Link = Link(disconnected: bool, lost: bool, confirmed: bool, error: Option<string>)

  // `lost` ends the batches early; `log` lists the reads that succeeded, over all scans.
  datatype ScanState = ScanState(known: Known, link: Link, log: seq<GoodRead>)

  // -------------------------------------------------------------- points of a batch

  /** The points that start in the first `n` words of a batch, in reading order. */
  function PointsOf(plans: seq<PointPlan>, b: Batch, n: nat): seq<PointPlan>
    requires b.start + n <= 0x1_0000
  {
    if n == 0 then [] else PointsOf(plans, b, n - 1) + StartingAt(plans, b.start + n - 1)
  }

  /** The registers of a span inside a read batch. */
  function SpanOf(r: GoodRead, a: Address): seq<uint16>
    requires Covers(r.batch, a) && |r.words| == |r.batch.words|
  {
    r.words[a.word - r.batch.start..a.word - r.batch.start + a.count]
  }

  predicate Reads(r: GoodRead, p: PointPlan) {
    Covers(r.batch, p.address) && |r.words| == |r.batch.words| && Decode(p, SpanOf(r, p.address)).Ok?
  }

  function ReadItem(p: PointPlan, r: GoodRead, now: int): PointValue
    requires Reads(r, p)
  {
    GoodItem(p, Decode(p, SpanOf(r, p.address)).value, now)
  }

  function GoodPoint(k: Known, p: PointPlan, r: GoodRead, now: int): Known {
    if !Reads(r, p) then k
    else
      var id, item := p.definition.pointId, ReadItem(p, r, now);
      Known(k.values[id := item], k.last[id := item])
  }

  function GoodPoints(k: Known, points: seq<PointPlan>, r: GoodRead, now: int): Known {
    if points == [] then k
    else GoodPoint(GoodPoints(k, points[..|points| - 1], r, now), points[|points| - 1], r, now)
  }

  /** The last value with a new quality. */
  function Marked(last: map<string, PointValue>, id: string, quality: PointQuality, now: int): PointValue {
    (if id in last then last[id] else NO_VALUE).(quality := quality, updatedAt := now)
  }

  function FailPoint(k: Known, p: PointPlan, quality: PointQuality, now: int): Known {
    var id := p.definition.pointId;
    var item := Marked(k.last, id, quality, now);
    Known(k.values[id := item], k.last[id := item])
  }

  function FailPoints(k: Known, points: seq<PointPlan>, quality: PointQuality, now: int): Known {
    if points == [] then k
    else FailPoint(FailPoints(k, points[..|points| - 1], quality, now), points[|points| - 1], quality, now)
  }

  /** Every readable point as stale. */
  function Stale(last: map<string, PointValue>, readable: set<string>, now: int): map<string, PointValue> {
    map id | id in readable :: Marked(last, id, StaleQuality, now)
  }

  // -------------------------------------------------------------- the scan

  /** ConfirmDisconnected, called by another goroutine. */
  function Interrupt(s: ScanState, readable: set<string>, now: int): ScanState {
    if s.link.disconnected then s
    else s.(known := s.known.(last := s.known.last + Stale(s.known.last, readable, now)),
            link := s.link.(disconnected := true))
  }

  function FirstError(e: Option<string>, text: string): Option<string> {
    if e.None? then Some(text) else e
  }

  function Failed(s: ScanState, b: Batch, plans: seq<PointPlan>, now: int): ScanState
    requires Legal(b)
  {
    var quality := if s.link.disconnected then StaleQuality else ErrorQuality;
    s.(known := FailPoints(s.known, PointsOf(plans, b, |b.words|), quality, now))
  }

  function AfterAnswer(s: ScanState, b: Batch, answer: Answer, plans: seq<PointPlan>, now: int): ScanState
    requires Legal(b)
  {
    match answer
    case Registers(words) =>
      if |words| == |b.words| then
        s.(known := GoodPoints(s.known, PointsOf(plans, b, |b.words|), GoodRead(b, words), now),
           log := s.log + [GoodRead(b, words)])
      else
        Failed(s.(link := s.link.(error := FirstError(s.link.error, "PLC returned an incomplete FC03 response"))), b, plans, now)
    case TransportLost(error) =>
      Failed(s.(link := Link(true, true, s.link.confirmed || !s.link.disconnected, FirstError(s.link.error, error))), b, plans, now)
    case ReadFailed(error) =>
      Failed(s.(link := s.link.(error := FirstError(s.link.error, error))), b, plans, now)
  }

  function AfterTurn(s: ScanState, b: Batch, turn: Turn, plans: seq<PointPlan>, readable: set<string>): ScanState
    requires Legal(b)
  {
    if s.link.lost then s
    else AfterAnswer(if turn.interrupted then Interrupt(s, readable, turn.now) else s, b, turn.answer, plans, turn.now)
  }

  ghost predicate AllLegal(batches: seq<Batch>) {
    forall k :: 0 <= k < |batches| ==> Legal(batches[k])
  }

  /** The state after the first `n` batches; a lost connection skips the rest. */
  function AfterTurns(s: ScanState, batches: seq<Batch>, turns: seq<Turn>, n: nat, plans: seq<PointPlan>, readable: set<string>): ScanState
    requires n <= |batches| && n <= |turns| && AllLegal(batches)
  {
    if n == 0 then s
    else AfterTurn(AfterTurns(s, batches, turns, n - 1, plans, readable), batches[n - 1], turns[n - 1], plans, readable)
  }

  /** The end of readAll: a clean scan reconnects, a failed one while disconnected publishes stale values only. */
  function Ended(s: ScanState, readable: set<string>, now: int): ScanState {
    if s.link.error.None? then s.(link := s.link.(disconnected := false))
    else if s.link.disconnected then
      var stale := Stale(s.known.last, readable, now);
      s.(known := Known(stale, s.known.last + stale))
    else s
  }

  function Begun(last: map<string, PointValue>, disconnected: bool, log: seq<GoodRead>): ScanState {
    ScanState(Known(map[], last), Link(disconnected, false, false, None), log)
  }

  /** One whole scan. */
  function ScanResult(last: map<string, PointValue>, disconnected: bool, log: seq<GoodRead>, batches: seq<Batch>, turns: seq<Turn>,
                      plans: seq<PointPlan>, readable: set<string>, now: int): ScanState
    requires AllLegal(batches) && |turns| == |batches|
  {
    Ended(AfterTurns(Begun(last, disconnected, log), batches, turns, |turns|, plans, readable), readable, now)
  }

  // -------------------------------------------------------------- points and ids

  ghost predicate DecodableAt(p: PointPlan) {
    forall words: seq<uint16> :: |words| == p.address.count ==> Decode(p, words).Ok?
  }

  /** A plan whose points have distinct ids and decode any span of their own length. */
  ghost predicate Scannable(plans: seq<PointPlan>) {
    && (forall i :: 0 <= i < |plans| ==> DecodableAt(plans[i]) && 1 <= plans[i].address.count)
    && (forall p, q :: p in plans && q in plans && p.definition.pointId == q.definition.pointId ==> p == q)
  }

  function Ids(plans: seq<PointPlan>): set<string> {
    set p | p in plans :: p.definition.pointId
  }

  lemma {:induction false} StartsAt(plans: seq<PointPlan>, w: uint16, p: PointPlan)
    ensures p in StartingAt(plans, w) <==> p in plans && p.address.word == w
    decreases |plans|
  {
    if plans != [] {
      var front, last := plans[..|plans| - 1], plans[|plans| - 1];
      StartsAt(front, w, p);
      assert plans == front + [last];
    }
  }

  lemma StartingAtAre(plans: seq<PointPlan>, w: uint16)
    ensures forall p :: p in StartingAt(plans, w) <==> p in plans && p.address.word == w
  {
    forall p ensures p in StartingAt(plans, w) <==> p in plans && p.address.word == w {
      StartsAt(plans, w, p);
    }
  }

  lemma {:induction false} StartsIn(plans: seq<PointPlan>, b: Batch, n: nat, p: PointPlan)
    requires b.start + n <= 0x1_0000
    ensures p in PointsOf(plans, b, n) <==> p in plans && b.start <= p.address.word < b.start + n
  {
    if n > 0 {
      StartsIn(plans, b, n - 1, p);
      StartsAt(plans, b.start + n - 1, p);
    }
  }

  lemma PointsOfAre(plans: seq<PointPlan>, b: Batch, n: nat)
    requires b.start + n <= 0x1_0000
    ensures forall p :: p in PointsOf(plans, b, n) <==> p in plans && b.start <= p.address.word < b.start + n
  {
    forall p ensures p in PointsOf(plans, b, n) <==> p in plans && b.start <= p.address.word < b.start + n {
      StartsIn(plans, b, n, p);
    }
  }

  /** A good batch sets exactly the points it holds wholly. */
  lemma {:induction false} GoodPointsSet(k: Known, points: seq<PointPlan>, r: GoodRead, now: int, p: PointPlan)
    requires forall q :: q in points && q.definition.pointId == p.definition.pointId ==> q == p
    ensures var after, id := GoodPoints(k, points, r, now), p.definition.pointId;
            if p in points && Reads(r, p)
            then id in after.values && id in after.last && after.values[id] == after.last[id] == ReadItem(p, r, now)
            else SameAt(k, after, id)
  {
    if points != [] {
      var front := points[..|points| - 1];
      assert points == front + [points[|points| - 1]];
      GoodPointsSet(k, front, r, now, p);
    }
  }

  ghost predicate SameAt(k: Known, after: Known, id: string) {
    && (id in k.values <==> id in after.values) && (id in k.values ==> after.values[id] == k.values[id])
    && (id in k.last <==> id in after.last) && (id in k.last ==> after.last[id] == k.last[id])
  }

  /** A failed batch re-marks the points that start in it and keeps their values. */
  lemma {:induction false} FailPointsMark(k: Known, points: seq<PointPlan>, quality: PointQuality, now: int, p: PointPlan)
    requires forall q :: q in points && q.definition.pointId == p.definition.pointId ==> q == p
    ensures var after, id := FailPoints(k, points, quality, now), p.definition.pointId;
            if p in points
            then id in after.values && id in after.last && after.values[id] == after.last[id] == Marked(k.last, id, quality, now)
            else SameAt(k, after, id)
  {
    if points != [] {
      var front := points[..|points| - 1];
      assert points == front + [points[|points| - 1]];
      FailPointsMark(k, front, quality, now, p);
    }
  }

  lemma {:induction false} OnlyTheirIds(k: Known, points: seq<PointPlan>, r: GoodRead, quality: PointQuality, now: int)
    ensures GoodPoints(k, points, r, now).values.Keys <= k.values.Keys + Ids(points)
    ensures FailPoints(k, points, quality, now).values.Keys <= k.values.Keys + Ids(points)
  {
    if points != [] {
      var front := points[..|points| - 1];
      assert points == front + [points[|points| - 1]];
      OnlyTheirIds(k, front, r, quality, now);
    }
  }

  // -------------------------------------------------------------- what is known of a point

  /** The decode of the latest successful read that held the point's whole span. */
  function LatestDecode(log: seq<GoodRead>, p: PointPlan): Option<Value> {
    if log == [] then None
    else
      var r := log[|log| - 1];
      if Reads(r, p) then Some(Decode(p, SpanOf(r, p.address)).value) else LatestDecode(log[..|log| - 1], p)
  }

  function ValueAt(m: map<string, PointValue>, id: string): Option<Value> {
    if id in m then m[id].value else None
  }

  /** Everything the worker knows of a point is the latest decode of its own registers. */
  ghost predicate Tracks(s: ScanState, p: PointPlan) {
    var id := p.definition.pointId;
    && ValueAt(s.known.last, id) == LatestDecode(s.log, p)
    && (id in s.known.values ==> ValueAt(s.known.values, id) == LatestDecode(s.log, p))
  }

  lemma InterruptTracks(s: ScanState, readable: set<string>, now: int, p: PointPlan)
    requires Tracks(s, p)
    ensures Tracks(Interrupt(s, readable, now), p)
  {
  }

  lemma ReadsWholly(b: Batch, words: seq<uint16>, plans: seq<PointPlan>, p: PointPlan)
    requires Scannable(plans) && p in plans && Legal(b) && |words| == |b.words|
    ensures Reads(GoodRead(b, words), p) <==> Covers(b, p.address)
    ensures Covers(b, p.address) ==> p in PointsOf(plans, b, |b.words|)
  {
    PointsOfAre(plans, b, |b.words|);
    var i :| 0 <= i < |plans| && plans[i] == p;
    assert DecodableAt(plans[i]);
  }

  lemma LatestDecodeAfter(log: seq<GoodRead>, r: GoodRead, p: PointPlan)
    ensures LatestDecode(log + [r], p) ==
            if Reads(r, p) then Some(Decode(p, SpanOf(r, p.address)).value) else LatestDecode(log, p)
  {
    assert (log + [r])[..|log|] == log;
  }

  lemma GoodBatchTracks(s: ScanState, b: Batch, words: seq<uint16>, plans: seq<PointPlan>, now: int, p: PointPlan)
    requires Scannable(plans) && p in plans && Legal(b) && |words| == |b.words| && Tracks(s, p)
    ensures Tracks(AfterAnswer(s, b, Registers(words), plans, now), p)
  {
    var r, points := GoodRead(b, words), PointsOf(plans, b, |b.words|);
    ReadsWholly(b, words, plans, p);
    PointsOfAre(plans, b, |b.words|);
    GoodPointsSet(s.known, points, r, now, p);
    LatestDecodeAfter(s.log, r, p);
  }

  lemma FailedBatchTracks(s: ScanState, b: Batch, plans: seq<PointPlan>, now: int, p: PointPlan)
    requires Scannable(plans) && p in plans && Legal(b) && Tracks(s, p)
    ensures Tracks(Failed(s, b, plans, now), p)
  {
    PointsOfAre(plans, b, |b.words|);
    FailPointsMark(s.known, PointsOf(plans, b, |b.words|), if s.link.disconnected then StaleQuality else ErrorQuality, now, p);
  }

  lemma TurnTracks(s: ScanState, b: Batch, turn: Turn, plans: seq<PointPlan>, readable: set<string>, p: PointPlan)
    requires Scannable(plans) && p in plans && Legal(b) && Tracks(s, p)
    ensures Tracks(AfterTurn(s, b, turn, plans, readable), p)
  {
    if !s.link.lost {
      InterruptTracks(s, readable, turn.now, p);
      var t := if turn.interrupted then Interrupt(s, readable, turn.now) else s;
      if turn.answer.Registers? && |turn.answer.words| == |b.words| {
        GoodBatchTracks(t, b, turn.answer.words, plans, turn.now, p);
      } else {
        var link := AfterAnswer(t, b, turn.answer, plans, turn.now).link;
        FailedBatchTracks(t.(link := link), b, plans, turn.now, p);
      }
    }
  }

  lemma EndTracks(s: ScanState, readable: set<string>, now: int, p: PointPlan)
    requires Tracks(s, p)
    ensures Tracks(Ended(s, readable, now), p)
  {
  }

  /** Through a whole scan, whatever the PLC answers, a point's value is the latest decode. */
  lemma {:induction false} ScanTracks(s: ScanState, batches: seq<Batch>, turns: seq<Turn>, n: nat, plans: seq<PointPlan>,
                                      readable: set<string>, p: PointPlan)
    requires n <= |batches| && n <= |turns| && AllLegal(batches) && Scannable(plans) && p in plans && Tracks(s, p)
    ensures Tracks(AfterTurns(s, batches, turns, n, plans, readable), p)
  {
    if n > 0 {
      var before := AfterTurns(s, batches, turns, n - 1, plans, readable);
      ScanTracks(s, batches, turns, n - 1, plans, readable, p);
      TurnTracks(before, batches[n - 1], turns[n - 1], plans, readable, p);
    }
  }
}

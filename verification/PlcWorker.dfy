/** The worker that scans the PLC: its loops compute the scan of module Scan. */
module PlcWorker {
  import opened Wrappers
  import opened Octets
  import opened ScanPlan
  import opened PointValues
  import opened Scan
  import opened ScanTheorems

  lemma {:induction false} GoodPointsOfBoth(k: Known, first: seq<PointPlan>, second: seq<PointPlan>, r: GoodRead, now: int)
    ensures GoodPoints(k, first + second, r, now) == GoodPoints(GoodPoints(k, first, r, now), second, r, now)
  {
    if second == [] {
      assert first + second == first;
    } else {
      var front := second[..|second| - 1];
      assert (first + second)[..|first + second| - 1] == first + front;
      GoodPointsOfBoth(k, first, front, r, now);
    }
  }

  lemma {:induction false} FailPointsOfBoth(k: Known, first: seq<PointPlan>, second: seq<PointPlan>, quality: PointQuality, now: int)
    ensures FailPoints(k, first + second, quality, now) == FailPoints(FailPoints(k, first, quality, now), second, quality, now)
  {
    if second == [] {
      assert first + second == first;
    } else {
      var front := second[..|second| - 1];
      assert (first + second)[..|first + second| - 1] == first + front;
      FailPointsOfBoth(k, first, front, quality, now);
    }
  }

  lemma GoodPointsNext(k: Known, plans: seq<PointPlan>, r: GoodRead, index: nat, now: int, points: seq<PointPlan>)
    requires Legal(r.batch) && index < |r.batch.words| && points == StartingAt(plans, r.batch.words[index])
    ensures GoodPoints(k, PointsOf(plans, r.batch, index + 1), r, now) ==
            GoodPoints(GoodPoints(k, PointsOf(plans, r.batch, index), r, now), points, r, now)
  {
    var before := PointsOf(plans, r.batch, index);
    assert PointsOf(plans, r.batch, index + 1) == before + points;
    GoodPointsOfBoth(k, before, points, r, now);
  }

  lemma FailPointsNext(k: Known, plans: seq<PointPlan>, b: Batch, index: nat, quality: PointQuality, now: int, points: seq<PointPlan>)
    requires Legal(b) && index < |b.words| && points == StartingAt(plans, b.words[index])
    ensures FailPoints(k, PointsOf(plans, b, index + 1), quality, now) ==
            FailPoints(FailPoints(k, PointsOf(plans, b, index), quality, now), points, quality, now)
  {
    var before := PointsOf(plans, b, index);
    assert PointsOf(plans, b, index + 1) == before + points;
    FailPointsOfBoth(k, before, points, quality, now);
  }

  ghost predicate StartAt(points: seq<PointPlan>, word: int) {
    forall p :: p in points ==> p.address.word == word
  }

  /** The points that start at one word of a good batch. */
  method ReadWord(k: Known, points: seq<PointPlan>, ghost batch: Batch, registers: seq<uint16>, index: nat, now: int) returns (after: Known)
    requires Legal(batch) && |registers| == |batch.words| && index < |registers|
    requires StartAt(points, batch.start + index)
    ensures after == GoodPoints(k, points, GoodRead(batch, registers), now)
  {
    after := k;
    var j := 0;
    while j < |points|
      invariant 0 <= j <= |points|
      invariant after == GoodPoints(k, points[..j], GoodRead(batch, registers), now)
    {
      var point := points[j];
      var end := index + point.address.count;
      assert points[..j + 1][..j] == points[..j];
      if end <= |registers| {
        var value := Decode(point, registers[index..end]);
        if value.Ok? {
          var item := GoodItem(point, value.value, now);
          var id := point.definition.pointId;
          after := Known(after.values[id := item], after.last[id := item]);
        }
      }
      j := j + 1;
    }
    assert points[..j] == points;
  }

  method FailWord(k: Known, points: seq<PointPlan>, quality: PointQuality, now: int) returns (after: Known)
    ensures after == FailPoints(k, points, quality, now)
  {
    after := k;
    var j := 0;
    while j < |points|
      invariant 0 <= j <= |points|
      invariant after == FailPoints(k, points[..j], quality, now)
    {
      var id := points[j].definition.pointId;
      assert points[..j + 1][..j] == points[..j];
      var item := (if id in after.last then after.last[id] else NO_VALUE).(quality := quality, updatedAt := now);
      after := Known(after.values[id := item], after.last[id := item]);
      j := j + 1;
    }
    assert points[..j] == points;
  }

  /** The loop of goodValues over the words of a batch. */
  method ReadWords(byWord: map<uint16, seq<PointPlan>>, ghost plans: seq<PointPlan>, k: Known, batch: Batch, registers: seq<uint16>, now: int)
    returns (after: Known)
    requires IndexesWords(byWord, plans) && Legal(batch) && |registers| == |batch.words|
    ensures after == GoodPoints(k, PointsOf(plans, batch, |batch.words|), GoodRead(batch, registers), now)
  {
    after := k;
    var index := 0;
    while index < |batch.words|
      invariant 0 <= index <= |batch.words|
      invariant after == GoodPoints(k, PointsOf(plans, batch, index), GoodRead(batch, registers), now)
    {
      var points := PointsAt(byWord, batch.words[index]);
      assert points == StartingAt(plans, batch.words[index]);
      assert StartAt(points, batch.start + index) by {
        StartingAtAre(plans, batch.words[index]);
      }
      GoodPointsNext(k, plans, GoodRead(batch, registers), index, now, points);
      after := ReadWord(after, points, batch, registers, index, now);
      index := index + 1;
    }
  }

  /** The loop of failureValues over the words of a batch. */
  method FailWords(byWord: map<uint16, seq<PointPlan>>, ghost plans: seq<PointPlan>, k: Known, batch: Batch, quality: PointQuality, now: int)
    returns (after: Known)
    requires IndexesWords(byWord, plans) && Legal(batch)
    ensures after == FailPoints(k, PointsOf(plans, batch, |batch.words|), quality, now)
  {
    after := k;
    var index := 0;
    while index < |batch.words|
      invariant 0 <= index <= |batch.words|
      invariant after == FailPoints(k, PointsOf(plans, batch, index), quality, now)
    {
      var points := PointsAt(byWord, batch.words[index]);
      FailPointsNext(k, plans, batch, index, quality, now, points);
      after := FailWord(after, points, quality, now);
      index := index + 1;
    }
  }

  class Worker {
    const plan: Plan
    ghost const plans: seq<PointPlan>
    var last: map<string, PointValue>
    var disconnected: bool
    ghost var log: seq<GoodRead>

    ghost predicate Planned() {
      && IndexesWords(plan.byWord, plans) && Serves(plan.batches, plans)
      && Scannable(plans) && plan.readable == Ids(plans)
    }

    /** What the worker knows of every readable point is the decode of the latest good read of its whole span. */
    ghost predicate Valid()
      reads this
    {
      Planned() && forall p :: p in plans ==> ValueAt(last, p.definition.pointId) == LatestDecode(log, p)
    }

    constructor (plan: Plan, ghost points: seq<Definition>)
      requires Normalized(points) && PlanFits(plan, points)
      ensures this.plan == plan && plans == ReadPlans(points)
      ensures last == map[] && !disconnected && log == [] && Valid()
    {
      this.plan := plan;
      this.plans := ReadPlans(points);
      last := map[];
      disconnected := false;
      log := [];
      BuiltPlansScan(points);
    }

    method GoodValues(values: map<string, PointValue>, batch: Batch, registers: seq<uint16>, now: int)
      returns (r: map<string, PointValue>)
      requires IndexesWords(plan.byWord, plans) && Legal(batch) && |registers| == |batch.words|
      modifies this`last
      ensures Known(r, last) ==
              GoodPoints(Known(values, old(last)), PointsOf(plans, batch, |batch.words|), GoodRead(batch, registers), now)
    {
      var k := ReadWords(plan.byWord, plans, Known(values, last), batch, registers, now);
      r, last := k.values, k.last;
    }

    method FailureValues(values: map<string, PointValue>, batch: Batch, now: int) returns (r: map<string, PointValue>)
      requires IndexesWords(plan.byWord, plans) && Legal(batch)
      modifies this`last
      ensures Known(r, last) ==
              FailPoints(Known(values, old(last)), PointsOf(plans, batch, |batch.words|), if disconnected then StaleQuality else ErrorQuality, now)
    {
      var k := FailWords(plan.byWord, plans, Known(values, last), batch, if disconnected then StaleQuality else ErrorQuality, now);
      r, last := k.values, k.last;
    }

    /** The loop over the readable points, in any order. */
    method StaleValuesLocked(now: int) returns (values: map<string, PointValue>)
      modifies this`last
      ensures values == Stale(old(last), plan.readable, now)
      ensures last == old(last) + Stale(old(last), plan.readable, now)
    {
      values := map[];
      var left := plan.readable;
      while left != {}
        invariant left <= plan.readable && values == Stale(old(last), plan.readable - left, now)
        invariant last == old(last) + values
      {
        var id :| id in left;
        var item := (if id in last then last[id] else NO_VALUE).(quality := StaleQuality, updatedAt := now);
        values, last := values[id := item], last[id := item];
        left := left - {id};
      }
    }

    method MarkDisconnected() returns (changed: bool)
      modifies this`disconnected
      ensures disconnected && changed == !old(disconnected)
    {
      changed := !disconnected;
      disconnected := true;
    }

    method MarkConnected() returns (changed: bool)
      modifies this`disconnected
      ensures !disconnected && changed == old(disconnected)
    {
      changed := disconnected;
      disconnected := false;
    }

    /** confirmDisconnected: a complete stale snapshot, once per disconnect. */
    method Disconnect(now: int) returns (published: Option<map<string, PointValue>>)
      modifies this`last, this`disconnected
      ensures disconnected
      ensures published == if old(disconnected) then None else Some(Stale(old(last), plan.readable, now))
      ensures last == if old(disconnected) then old(last) else old(last) + Stale(old(last), plan.readable, now)
    {
      if disconnected {
        return None;
      }
      disconnected := true;
      var values := StaleValuesLocked(now);
      published := Some(values);
    }

    /** ConfirmDisconnected between scans. */
    method ConfirmDisconnected(now: int) returns (published: Option<map<string, PointValue>>)
      requires Valid()
      modifies this`last, this`disconnected
      ensures Valid() && disconnected
      ensures published == if old(disconnected) then None else Some(Stale(old(last), plan.readable, now))
    {
      published := Disconnect(now);
    }

    /** The worker and a running scan, as the scan state of the specification. */
    ghost function State(values: map<string, PointValue>, lost: bool, confirmed: bool, error: Option<string>): ScanState
      reads this
    {
      ScanState(Known(values, last), Link(disconnected, lost, confirmed, error), log)
    }

    /** One answered batch of the loop in readAll; `stop` leaves the loop. */
    method TakeAnswer(values: map<string, PointValue>, batch: Batch, answer: Answer, now: int, confirmed: bool, readErr: Option<string>)
      returns (r: map<string, PointValue>, stop: bool, confirmed': bool, readErr': Option<string>)
      requires IndexesWords(plan.byWord, plans) && Legal(batch)
      modifies this
      ensures State(r, stop, confirmed', readErr') == AfterAnswer(old(State(values, false, confirmed, readErr)), batch, answer, plans, now)
    {
      stop, confirmed', readErr' := false, confirmed, readErr;
      match answer {
        case Registers(words) =>
          if |words| == |batch.words| {
            r := GoodValues(values, batch, words, now);
            log := log + [GoodRead(batch, words)];
          } else {
            readErr' := FirstError(readErr, "PLC returned an incomplete FC03 response");
            r := FailureValues(values, batch, now);
          }
        case TransportLost(error) =>
          readErr' := FirstError(readErr, error);
          var changed := MarkDisconnected();
          if changed {
            confirmed' := true;
          }
          r := FailureValues(values, batch, now);
          stop := true;
        case ReadFailed(error) =>
          readErr' := FirstError(readErr, error);
          r := FailureValues(values, batch, now);
      }
    }

    /** One iteration of the loop in readAll, and what other goroutines did just before it. */
    method ReadBatch(values: map<string, PointValue>, batch: Batch, turn: Turn, confirmed: bool, readErr: Option<string>)
      returns (r: map<string, PointValue>, stop: bool, confirmed': bool, readErr': Option<string>)
      requires IndexesWords(plan.byWord, plans) && Legal(batch)
      modifies this
      ensures State(r, stop, confirmed', readErr') ==
              AfterTurn(old(State(values, false, confirmed, readErr)), batch, turn, plans, plan.readable)
    {
      if turn.interrupted {
        var published := Disconnect(turn.now);
      }
      r, stop, confirmed', readErr' := TakeAnswer(values, batch, turn.answer, turn.now, confirmed, readErr);
    }

    /** The loop of readAll; `turns` are the PLC's answers and what other goroutines do before each. */
    method ReadBatches(turns: seq<Turn>) returns (values: map<string, PointValue>, stop: bool, confirmed: bool, readErr: Option<string>)
      requires IndexesWords(plan.byWord, plans) && AllLegal(plan.batches) && |turns| == |plan.batches|
      modifies this
      ensures State(values, stop, confirmed, readErr) ==
              AfterTurns(Begun(old(last), old(disconnected), old(log)), plan.batches, turns, |turns|, plans, plan.readable)
    {
      values, stop, confirmed, readErr := map[], false, false, None;
      ghost var start := Begun(last, disconnected, log);
      var k := 0;
      while k < |plan.batches|
        invariant 0 <= k <= |plan.batches| && !stop
        invariant State(values, stop, confirmed, readErr) == AfterTurns(start, plan.batches, turns, k, plans, plan.readable)
      {
        values, stop, confirmed, readErr := ReadBatch(values, plan.batches[k], turns[k], confirmed, readErr);
        k := k + 1;
        if stop {
          LostStays(start, plan.batches, turns, k, |turns|, plans, plan.readable);
          break;
        }
      }
    }

    ghost function Scanned(turns: seq<Turn>, endNow: int): ScanState
      requires AllLegal(plan.batches) && |turns| == |plan.batches|
      reads this
    {
      ScanResult(last, disconnected, log, plan.batches, turns, plans, plan.readable, endNow)
    }

    /** readAll: one scan over all batches; `publishError` is the outcome of publishing it. */
    method ReadAll(turns: seq<Turn>, endNow: int, publishError: Option<string>)
      returns (values: map<string, PointValue>, err: Option<string>, lost: bool, recovered: bool)
      requires Valid() && AllLegal(plan.batches) && |turns| == |plan.batches|
      modifies this
      ensures Valid()
      ensures values.Keys == plan.readable
      ensures disconnected ==> forall id :: id in values ==> values[id].quality == StaleQuality && values[id].updatedAt == endNow
      ensures forall p :: p in plans ==> ValueAt(values, p.definition.pointId) == LatestDecode(log, p)
      ensures var after := old(Scanned(turns, endNow));
              && State(values, after.link.lost, lost, after.link.error) == after
              && err == (if after.link.error.Some? then after.link.error else publishError)
              && recovered == (after.link.error.None? && AfterTurns(Begun(old(last), old(disconnected), old(log)), plan.batches, turns, |turns|, plans, plan.readable).link.disconnected)
    {
      ghost var before := Begun(last, disconnected, log);
      var stop: bool, readErr: Option<string>;
      values, stop, lost, readErr := ReadBatches(turns);
      recovered := false;
      if readErr.None? {
        recovered := MarkConnected();
      } else if disconnected {
        values := StaleValuesLocked(endNow);
      }
      err := if readErr.Some? then readErr else publishError;
      ScanKeysAreTheReadablePoints(before.known.last, before.link.disconnected, before.log, plan.batches, turns, plans, endNow);
      ResultTracks(before, plan.batches, turns, plans, plan.readable, endNow);
    }
  }
}

/** Whole sessions of the filter and the detector: filtering never changes the alarm history. */
module AlarmRuns {
  import opened Wrappers
  import opened Float32
  import opened Octets
  import opened ScanPlan
  import opened PointValues
  import opened AlarmEdges

  // -------------------------------------------------------------- one alarm's history

  function History(records: seq<Record>, id: string): seq<Record> {
    if records == [] then []
    else
      var r := records[|records| - 1];
      History(records[..|records| - 1], id) + (if r.alarmId == id then [r] else [])
  }

  function Active(alarms: map<string, bool>, id: string): bool {
    id in alarms && alarms[id]
  }

  ghost predicate AlikeAt(a: Detector, b: Detector, id: string) {
    History(a.records, id) == History(b.records, id) && Active(a.alarms, id) == Active(b.alarms, id)
  }

  /** Two detectors that decided the same records for every alarm and will go on doing so. */
  ghost predicate Alike(a: Detector, b: Detector) {
    forall id :: AlikeAt(a, b, id)
  }

  /** An observation the detector has not been told of. */
  predicate Pending(defs: Definitions, alarms: map<string, bool>, e: Entry) {
    Speaks(defs, e) && e.item.alarmActive.value != Active(alarms, e.id)
  }

  function RecordOf(e: Entry): Record
    requires e.item.alarmActive.Some?
  {
    Record(e.id, if e.item.alarmActive.value then RAISED else CLEARED, e.item.updatedAt, e.item.value)
  }

  /** What one observation does to one alarm: a record exactly when it is an edge. */
  lemma DetectAt(defs: Definitions, d: Detector, e: Entry, id: string)
    ensures History(Detect(defs, d, e).records, id) ==
            History(d.records, id) + (if e.id == id && Pending(defs, d.alarms, e) then [RecordOf(e)] else [])
    ensures Active(Detect(defs, d, e).alarms, id) ==
            if e.id == id && Speaks(defs, e) then e.item.alarmActive.value else Active(d.alarms, id)
  {
    var after := Detect(defs, d, e);
    if Pending(defs, d.alarms, e) {
      assert after.records[..|after.records| - 1] == d.records;
    }
  }

  lemma DetectKeepsAlike(defs: Definitions, a: Detector, b: Detector, e: Entry)
    requires Alike(a, b)
    ensures Alike(Detect(defs, a, e), Detect(defs, b, e))
  {
    forall id ensures AlikeAt(Detect(defs, a, e), Detect(defs, b, e), id) {
      assert AlikeAt(a, b, id) && AlikeAt(a, b, e.id);
      DetectAt(defs, a, e, id);
      DetectAt(defs, b, e, id);
    }
  }

  // -------------------------------------------------------------- alternation

  /** RAISED and CLEARED in turn, starting with RAISED. */
  ghost predicate Alternates(h: seq<Record>) {
    forall i :: 0 <= i < |h| ==> (h[i].kind == RAISED <==> i % 2 == 0)
  }

  ghost predicate Alternating(d: Detector) {
    forall id :: AlternatesAt(d, id)
  }

  ghost predicate AlternatesAt(d: Detector, id: string) {
    Alternates(History(d.records, id)) && (Active(d.alarms, id) <==> |History(d.records, id)| % 2 == 1)
  }

  lemma DetectAlternates(defs: Definitions, d: Detector, e: Entry)
    requires Alternating(d)
    ensures Alternating(Detect(defs, d, e))
  {
    forall id ensures AlternatesAt(Detect(defs, d, e), id) {
      assert AlternatesAt(d, id);
      DetectAt(defs, d, e, id);
    }
  }

  lemma {:induction false} DetectedAlternates(defs: Definitions, d: Detector, seen: seq<Entry>)
    requires Alternating(d)
    ensures Alternating(Detected(defs, d, seen))
  {
    if seen != [] {
      DetectedAlternates(defs, d, seen[..|seen| - 1]);
      DetectAlternates(defs, Detected(defs, d, seen[..|seen| - 1]), seen[|seen| - 1]);
    }
  }

  // -------------------------------------------------------------- order of a map's entries

  ghost predicate Distinct(batch: seq<Entry>) {
    forall i, j :: 0 <= i < j < |batch| ==> batch[i].id != batch[j].id
  }

  /** Visiting a map in any order decides the same for every alarm. */
  lemma {:induction false} DetectedAt(defs: Definitions, d: Detector, seen: seq<Entry>, e: Entry)
    requires Distinct(seen) && e in seen
    ensures var after := Detected(defs, d, seen);
            && History(after.records, e.id) == History(d.records, e.id) + (if Pending(defs, d.alarms, e) then [RecordOf(e)] else [])
            && Active(after.alarms, e.id) == if Speaks(defs, e) then e.item.alarmActive.value else Active(d.alarms, e.id)
  {
    var front, last := seen[..|seen| - 1], seen[|seen| - 1];
    DetectAt(defs, Detected(defs, d, front), last, e.id);
    if last == e {
      DetectedElsewhere(defs, d, front, e.id);
    } else {
      assert e in front;
      DetectedAt(defs, d, front, e);
    }
  }

  lemma {:induction false} DetectedElsewhere(defs: Definitions, d: Detector, seen: seq<Entry>, id: string)
    requires forall i :: 0 <= i < |seen| ==> seen[i].id != id
    ensures AlikeAt(Detected(defs, d, seen), d, id)
  {
    if seen != [] {
      DetectedElsewhere(defs, d, seen[..|seen| - 1], id);
      DetectAt(defs, Detected(defs, d, seen[..|seen| - 1]), seen[|seen| - 1], id);
    }
  }

  ghost predicate SameEntries(a: seq<Entry>, b: seq<Entry>) {
    Distinct(a) && Distinct(b) && forall e :: e in a <==> e in b
  }

  lemma AnyOrderIsAlike(defs: Definitions, d: Detector, a: seq<Entry>, b: seq<Entry>)
    requires SameEntries(a, b)
    ensures Alike(Detected(defs, d, a), Detected(defs, d, b))
  {
    forall id ensures AlikeAt(Detected(defs, d, a), Detected(defs, d, b), id) {
      if i :| 0 <= i < |a| && a[i].id == id {
        assert a[i] in b;
        DetectedAt(defs, d, a, a[i]);
        DetectedAt(defs, d, b, a[i]);
      } else {
        forall j | 0 <= j < |b| ensures b[j].id != id {
          assert b[j] in a;
        }
        DetectedElsewhere(defs, d, a, id);
        DetectedElsewhere(defs, d, b, id);
      }
    }
  }

  // -------------------------------------------------------------- filtering one batch

  /** An observation the detector never heard, and would not hear if it were made again. */
  predicate Hidden(defs: Definitions, alarms: map<string, bool>, e: Entry) {
    Pending(defs, alarms, e) && SameDisplayState(e.item, e.item)
  }

  /** Nothing the store hides is news to the detector. */
  ghost predicate Settled(defs: Definitions, values: Values, alarms: map<string, bool>) {
    forall id :: id in values ==> !Hidden(defs, alarms, Entry(id, values[id]))
  }

  ghost predicate AllAccepted(defs: Definitions, batch: seq<Entry>) {
    forall i :: 0 <= i < |batch| ==> Accepts(defs, batch[i])
  }

  lemma {:induction false} AcceptedBatchesSucceed(defs: Definitions, values: Values, batch: seq<Entry>)
    ensures Updated(defs, values, batch).failed <==> !AllAccepted(defs, batch)
  {
    if batch != [] {
      AcceptedBatchesSucceed(defs, values, batch[..|batch| - 1]);
      assert AllAccepted(defs, batch) <==> AllAccepted(defs, batch[..|batch| - 1]) && Accepts(defs, batch[|batch| - 1]);
    }
  }

  lemma ShownIsNotPending(defs: Definitions, values: Values, alarms: map<string, bool>, e: Entry)
    requires Settled(defs, values, alarms) && Shows(values, e)
    ensures !Pending(defs, alarms, e)
  {
    assert !Hidden(defs, alarms, Entry(e.id, values[e.id]));
  }

  lemma SettledMore(defs: Definitions, values: Values, d: Detector, e: Entry)
    requires Settled(defs, values, d.alarms)
    ensures Settled(defs, values[e.id := e.item], Detect(defs, d, e).alarms)
  {
    var after, alarms := values[e.id := e.item], Detect(defs, d, e).alarms;
    forall id | id in after ensures !Hidden(defs, alarms, Entry(id, after[id])) {
      DetectAt(defs, d, e, id);
      if id != e.id {
        assert !Hidden(defs, d.alarms, Entry(id, values[id]));
      }
    }
  }

  lemma UnheardIsAlike(defs: Definitions, d: Detector, e: Entry)
    requires !Pending(defs, d.alarms, e)
    ensures Alike(d, Detect(defs, d, e))
  {
    forall id ensures AlikeAt(d, Detect(defs, d, e), id) {
      DetectAt(defs, d, e, id);
    }
  }

  lemma AlikeSettles(defs: Definitions, values: Values, a: Detector, b: Detector)
    requires Alike(a, b) && Settled(defs, values, a.alarms)
    ensures Settled(defs, values, b.alarms)
  {
    forall id | id in values ensures !Hidden(defs, b.alarms, Entry(id, values[id])) {
      assert AlikeAt(a, b, id);
      assert !Hidden(defs, a.alarms, Entry(id, values[id]));
    }
  }

  /** The changes of a batch decide what the whole batch would have decided. */
  lemma {:induction false} ChangesSuffice(defs: Definitions, values: Values, d: Detector, batch: seq<Entry>)
    requires Settled(defs, values, d.alarms) && AllAccepted(defs, batch)
    ensures var u := Updated(defs, values, batch);
            && Alike(Detected(defs, d, u.changed), Detected(defs, d, batch))
            && Settled(defs, u.values, Detected(defs, d, u.changed).alarms)
  {
    if batch != [] {
      var front, e := batch[..|batch| - 1], batch[|batch| - 1];
      var before := Updated(defs, values, front);
      ChangesSuffice(defs, values, d, front);
      AcceptedBatchesSucceed(defs, values, front);
      ChangesSufficeStep(defs, before, d, front, e);
    }
  }

  lemma ChangesSufficeStep(defs: Definitions, before: Delta, d: Detector, front: seq<Entry>, e: Entry)
    requires Alike(Detected(defs, d, before.changed), Detected(defs, d, front))
    requires Settled(defs, before.values, Detected(defs, d, before.changed).alarms)
    ensures var changed := if Shows(before.values, e) then before.changed else before.changed + [e];
            && Alike(Detected(defs, d, changed), Detect(defs, Detected(defs, d, front), e))
            && Settled(defs, before.values[e.id := e.item], Detected(defs, d, changed).alarms)
  {
    var heard, full := Detected(defs, d, before.changed), Detected(defs, d, front);
    DetectKeepsAlike(defs, heard, full, e);
    SettledMore(defs, before.values, heard, e);
    if Shows(before.values, e) {
      ShownIsNotPending(defs, before.values, heard.alarms, e);
      UnheardIsAlike(defs, heard, e);
      AlikeChains(heard, Detect(defs, heard, e), Detect(defs, full, e));
      AlikeSettles(defs, before.values[e.id := e.item], Detect(defs, heard, e), heard);
    } else {
      assert (before.changed + [e])[..|before.changed|] == before.changed;
    }
  }

  // -------------------------------------------------------------- runs of a session

  /** One observation of the PLC with the order in which the changes are visited, or a reconnect. */
  datatype Event = Observe(batch: seq<Entry>, order: seq<Entry>) | ClearValues

  datatype Session = Session(values: Values, detector: Detector)

  const NEW_SESSION := Session(map[], Detector(map[], []))

  ghost predicate Permitted(defs: Definitions, s: Session, e: Event) {
    e.Observe? ==>
      && Distinct(e.batch) && AllAccepted(defs, e.batch)
      && SameEntries(e.order, Updated(defs, s.values, e.batch).changed)
  }

  /** applyValues: the store filters, the detector hears the changes; a refused batch is not heard at all. */
  function Filtered(defs: Definitions, s: Session, e: Event): Session {
    match e
    case Observe(batch, order) =>
      var u := Updated(defs, s.values, batch);
      Session(u.values, if u.failed then s.detector else Detected(defs, s.detector, order))
    case ClearValues => s.(values := map[])
  }

  function FilteredRun(defs: Definitions, s: Session, events: seq<Event>): Session {
    if events == [] then s else Filtered(defs, FilteredRun(defs, s, events[..|events| - 1]), events[|events| - 1])
  }

  ghost predicate PermittedRun(defs: Definitions, s: Session, events: seq<Event>) {
    events != [] ==>
      && PermittedRun(defs, s, events[..|events| - 1])
      && Permitted(defs, FilteredRun(defs, s, events[..|events| - 1]), events[|events| - 1])
  }

  /** The reference: every observation is heard, changed or not. */
  function UnfilteredRun(defs: Definitions, d: Detector, events: seq<Event>): Detector {
    if events == [] then d
    else
      var before := UnfilteredRun(defs, d, events[..|events| - 1]);
      match events[|events| - 1]
      case Observe(batch, _) => Detected(defs, before, batch)
      case ClearValues => before
  }

  lemma {:induction false} DetectedKeepsAlike(defs: Definitions, a: Detector, b: Detector, seen: seq<Entry>)
    requires Alike(a, b)
    ensures Alike(Detected(defs, a, seen), Detected(defs, b, seen))
  {
    if seen != [] {
      var front := seen[..|seen| - 1];
      DetectedKeepsAlike(defs, a, b, front);
      DetectKeepsAlike(defs, Detected(defs, a, front), Detected(defs, b, front), seen[|seen| - 1]);
    }
  }

  lemma AlikeChains(a: Detector, b: Detector, c: Detector)
    requires Alike(a, b) && Alike(b, c)
    ensures Alike(a, c)
  {
    forall id ensures AlikeAt(a, c, id) {
      assert AlikeAt(a, b, id) && AlikeAt(b, c, id);
    }
  }

  lemma ObservationAgrees(defs: Definitions, s: Session, full: Detector, e: Event)
    requires e.Observe? && Permitted(defs, s, e) && Settled(defs, s.values, s.detector.alarms) && Alike(s.detector, full)
    ensures var after := Filtered(defs, s, e);
            Settled(defs, after.values, after.detector.alarms) && Alike(after.detector, Detected(defs, full, e.batch))
  {
    var u := Updated(defs, s.values, e.batch);
    AcceptedBatchesSucceed(defs, s.values, e.batch);
    ChangesSuffice(defs, s.values, s.detector, e.batch);
    AnyOrderIsAlike(defs, s.detector, e.order, u.changed);
    AnyOrderIsAlike(defs, s.detector, u.changed, e.order);
    AlikeSettles(defs, u.values, Detected(defs, s.detector, u.changed), Detected(defs, s.detector, e.order));
    AlikeChains(Detected(defs, s.detector, e.order), Detected(defs, s.detector, u.changed), Detected(defs, s.detector, e.batch));
    DetectedKeepsAlike(defs, s.detector, full, e.batch);
    AlikeChains(Detected(defs, s.detector, e.order), Detected(defs, s.detector, e.batch), Detected(defs, full, e.batch));
  }

  /** From any settled state, every run of valid observations and reconnects decides the unfiltered records. */
  lemma {:induction false} SettledRunsAgree(defs: Definitions, s: Session, events: seq<Event>)
    requires Settled(defs, s.values, s.detector.alarms) && PermittedRun(defs, s, events)
    ensures var after := FilteredRun(defs, s, events);
            Settled(defs, after.values, after.detector.alarms) && Alike(after.detector, UnfilteredRun(defs, s.detector, events))
  {
    if events != [] {
      var front, e := events[..|events| - 1], events[|events| - 1];
      SettledRunsAgree(defs, s, front);
      if e.Observe? {
        ObservationAgrees(defs, FilteredRun(defs, s, front), UnfilteredRun(defs, s.detector, front), e);
      }
    }
  }

  lemma {:induction false} RunsAlternate(defs: Definitions, s: Session, events: seq<Event>)
    requires Alternating(s.detector)
    ensures Alternating(FilteredRun(defs, s, events).detector)
  {
    if events != [] {
      var front, e := events[..|events| - 1], events[|events| - 1];
      RunsAlternate(defs, s, front);
      if e.Observe? {
        DetectedAlternates(defs, FilteredRun(defs, s, front).detector, e.order);
      }
    }
  }

  /**
    In every session each alarm's records alternate RAISED, CLEARED, starting with
    RAISED, and they are the records every single observation would have produced.
  */
  lemma FilteringKeepsTheAlarmHistory(defs: Definitions, events: seq<Event>, id: string)
    requires PermittedRun(defs, NEW_SESSION, events)
    ensures var history := History(FilteredRun(defs, NEW_SESSION, events).detector.records, id);
            && Alternates(history)
            && history == History(UnfilteredRun(defs, NEW_SESSION.detector, events).records, id)
  {
    SettledRunsAgree(defs, NEW_SESSION, events);
    assert AlikeAt(FilteredRun(defs, NEW_SESSION, events).detector, UnfilteredRun(defs, NEW_SESSION.detector, events), id);
    forall other ensures AlternatesAt(NEW_SESSION.detector, other) {
    }
    RunsAlternate(defs, NEW_SESSION, events);
    assert AlternatesAt(FilteredRun(defs, NEW_SESSION, events).detector, id);
  }

  // -------------------------------------------------------------- refused batches

  ghost predicate AllStoredAccepted(defs: Definitions, values: Values) {
    forall id :: id in values ==> Accepts(defs, Entry(id, values[id]))
  }

  /** Every later run decides the unfiltered records. */
  ghost predicate KeepsHistory(defs: Definitions, s: Session) {
    forall events: seq<Event>, id :: PermittedRun(defs, s, events) ==>
      History(FilteredRun(defs, s, events).detector.records, id) == History(UnfilteredRun(defs, s.detector, events).records, id)
  }

  /** Seeing again what the store already holds is filtered out. */
  lemma PendingIsLost(defs: Definitions, s: Session, id: string)
    requires AllStoredAccepted(defs, s.values) && id in s.values && Hidden(defs, s.detector.alarms, Entry(id, s.values[id]))
    ensures !KeepsHistory(defs, s)
  {
    var e := Entry(id, s.values[id]);
    var again := Observe([e], []);
    var events := [again];
    assert events[..0] == [] && [e][..0] == [];
    assert FilteredRun(defs, s, []) == s && UnfilteredRun(defs, s.detector, []) == s.detector;
    assert Updated(defs, s.values, [e]) == Delta(s.values[id := e.item], [], false) by {
      assert Updated(defs, s.values, []) == Delta(s.values, [], false);
    }
    assert PermittedRun(defs, s, []);
    assert PermittedRun(defs, s, events);
    assert FilteredRun(defs, s, events).detector == s.detector;
    assert UnfilteredRun(defs, s.detector, events) == Detect(defs, s.detector, e);
    DetectAt(defs, s.detector, e, id);
    assert History(FilteredRun(defs, s, events).detector.records, id) != History(UnfilteredRun(defs, s.detector, events).records, id);
  }

  /** A state keeps the alarm history exactly when it holds no observation the detector never heard. */
  lemma KeepsHistoryExactlyWhenSettled(defs: Definitions, s: Session)
    requires AllStoredAccepted(defs, s.values)
    ensures KeepsHistory(defs, s) <==> Settled(defs, s.values, s.detector.alarms)
  {
    if Settled(defs, s.values, s.detector.alarms) {
      forall events: seq<Event>, id | PermittedRun(defs, s, events)
        ensures History(FilteredRun(defs, s, events).detector.records, id) == History(UnfilteredRun(defs, s.detector, events).records, id)
      {
        SettledRunsAgree(defs, s, events);
        assert AlikeAt(FilteredRun(defs, s, events).detector, UnfilteredRun(defs, s.detector, events), id);
      }
    } else {
      var id :| id in s.values && Hidden(defs, s.detector.alarms, Entry(id, s.values[id]));
      PendingIsLost(defs, s, id);
    }
  }

  /** The part of a batch that Update stores before it meets an entry it refuses. */
  function StoredPart(defs: Definitions, batch: seq<Entry>): seq<Entry> {
    if batch == [] then []
    else
      var part := StoredPart(defs, batch[..|batch| - 1]);
      if |part| == |batch| - 1 && Accepts(defs, batch[|batch| - 1]) then batch else part
  }

  lemma {:induction false} StoredPartIsAPrefix(defs: Definitions, values: Values, batch: seq<Entry>)
    ensures StoredPart(defs, batch) <= batch
    ensures |StoredPart(defs, batch)| == |batch| <==> !Updated(defs, values, batch).failed
  {
    if batch != [] {
      StoredPartIsAPrefix(defs, values, batch[..|batch| - 1]);
    }
  }

  /** `after` is `before` with the entries of `part` stored. */
  ghost predicate Holds(before: Values, part: seq<Entry>, after: Values) {
    && (forall e :: e in part ==> e.id in after && after[e.id] == e.item)
    && (forall id :: id in after && (forall e :: e in part ==> e.id != id) ==> id in before && after[id] == before[id])
  }

  lemma HoldsMore(before: Values, part: seq<Entry>, after: Values, e: Entry)
    requires Holds(before, part, after) && forall o :: o in part ==> o.id != e.id
    ensures Holds(before, part + [e], after[e.id := e.item])
  {
    var more, next := part + [e], after[e.id := e.item];
    forall id | id in next && (forall o :: o in more ==> o.id != id) ensures id in before && next[id] == before[id] {
      assert e in more;
      forall o | o in part ensures o.id != id {
        assert o in more;
      }
    }
  }

  lemma {:induction false} StoredPartIsStored(defs: Definitions, values: Values, batch: seq<Entry>)
    requires Distinct(batch)
    ensures Holds(values, StoredPart(defs, batch), Updated(defs, values, batch).values)
  {
    if batch != [] {
      var front, e := batch[..|batch| - 1], batch[|batch| - 1];
      assert batch == front + [e];
      StoredPartIsStored(defs, values, front);
      StoredPartIsAPrefix(defs, values, front);
      if |StoredPart(defs, front)| == |front| && Accepts(defs, e) {
        assert StoredPart(defs, front) == front;
        HoldsMore(values, front, Updated(defs, values, front).values, e);
      }
    }
  }

  lemma {:induction false} StoresOnlyAccepted(defs: Definitions, values: Values, batch: seq<Entry>)
    requires AllStoredAccepted(defs, values)
    ensures AllStoredAccepted(defs, Updated(defs, values, batch).values)
  {
    if batch != [] {
      var front, e := batch[..|batch| - 1], batch[|batch| - 1];
      StoresOnlyAccepted(defs, values, front);
      assert Entry(e.id, e.item) == e;
    }
  }

  /**
    A batch with an entry Update refuses loses no alarm edge exactly when none of the
    entries it had already stored was an edge.
  */
  lemma RefusedBatchLosesAnEdgeExactlyWhen(defs: Definitions, s: Session, batch: seq<Entry>, order: seq<Entry>)
    requires Settled(defs, s.values, s.detector.alarms) && Distinct(batch) && !AllAccepted(defs, batch)
    requires AllStoredAccepted(defs, s.values)
    ensures KeepsHistory(defs, Filtered(defs, s, Observe(batch, order))) <==>
            forall e :: e in StoredPart(defs, batch) ==> !Hidden(defs, s.detector.alarms, e)
  {
    var after := Filtered(defs, s, Observe(batch, order));
    AcceptedBatchesSucceed(defs, s.values, batch);
    StoredPartIsStored(defs, s.values, batch);
    StoresOnlyAccepted(defs, s.values, batch);
    KeepsHistoryExactlyWhenSettled(defs, after);
    var part := StoredPart(defs, batch);
    if forall e :: e in part ==> !Hidden(defs, s.detector.alarms, e) {
      forall id | id in after.values ensures !Hidden(defs, after.detector.alarms, Entry(id, after.values[id])) {
        if e :| e in part && e.id == id {
          assert Entry(id, after.values[id]) == e;
        } else {
          assert !Hidden(defs, s.detector.alarms, Entry(id, s.values[id]));
        }
      }
    } else {
      var e :| e in part && Hidden(defs, s.detector.alarms, e);
      assert Entry(e.id, after.values[e.id]) == e;
    }
  }

  /** A decoded value is refused exactly when it is an infinite or undefined float. */
  lemma DecodedValuesAreAcceptedUnlessNotFinite(d: Definition, words: seq<uint16>)
    requires ValidLayout(d) && PlanAddress(d).Ok? && Decode(PlanOf(d), words).Ok?
    ensures var v := Decode(PlanOf(d), words).value;
            ValidValue(d.pointType, v) <==> (v.VFloat? ==> Finite(v.bits))
  {
  }

  // -------------------------------------------------------------- a hidden observation stays hidden

  lemma DisplaysAgree(a: PointValue, b: PointValue, c: PointValue)
    requires SameDisplayState(a, b) && SameDisplayState(a, c)
    ensures SameDisplayState(b, c)
  {
    if a.value.Some? && a.value.value.VFloat? {
      var x, y, z := a.value.value.bits, b.value.value.bits, c.value.value.bits;
      if Finite(x) && Finite(y) && Finite(z) {
        SameExactlyWhenOddsAgree(NumberOf(x), NumberOf(y));
        SameExactlyWhenOddsAgree(NumberOf(x), NumberOf(z));
        SameExactlyWhenOddsAgree(NumberOf(y), NumberOf(z));
      }
    }
  }

  /** Every entry of this point shows what is already stored. */
  ghost predicate OnlyShows(batch: seq<Entry>, id: string, shown: PointValue) {
    forall i :: 0 <= i < |batch| && batch[i].id == id ==> SameDisplayState(shown, batch[i].item)
  }

  ghost predicate Stores(values: Values, id: string, shown: PointValue) {
    id in values && SameDisplayState(shown, values[id])
  }

  lemma {:induction false} ShownIsFiltered(defs: Definitions, values: Values, batch: seq<Entry>, id: string, shown: PointValue)
    requires Stores(values, id, shown) && OnlyShows(batch, id, shown)
    ensures var u := Updated(defs, values, batch);
            Stores(u.values, id, shown) && forall i :: 0 <= i < |u.changed| ==> u.changed[i].id != id
  {
    if batch != [] {
      var front, e := batch[..|batch| - 1], batch[|batch| - 1];
      ShownIsFiltered(defs, values, front, id, shown);
      if e.id == id {
        DisplaysAgree(shown, Updated(defs, values, front).values[id], e.item);
      }
    }
  }

  /** Any scan, accepted or refused; the changes of an accepted one are visited in some order. */
  ghost predicate Scans(defs: Definitions, s: Session, e: Event) {
    e.Observe? && Distinct(e.batch) && (AllAccepted(defs, e.batch) ==> SameEntries(e.order, Updated(defs, s.values, e.batch).changed))
  }

  ghost predicate ScansOnly(defs: Definitions, s: Session, events: seq<Event>, id: string, shown: PointValue) {
    events != [] ==>
      var front, e := events[..|events| - 1], events[|events| - 1];
      ScansOnly(defs, s, front, id, shown) && Scans(defs, FilteredRun(defs, s, front), e) && OnlyShows(e.batch, id, shown)
  }

  /** As long as every scan shows of a point what is stored of it, nothing is decided about its alarm. */
  lemma {:induction false} UnchangedPointsAreNotHeard(defs: Definitions, s: Session, events: seq<Event>, id: string, shown: PointValue)
    requires Stores(s.values, id, shown) && ScansOnly(defs, s, events, id, shown)
    ensures var after := FilteredRun(defs, s, events);
            Stores(after.values, id, shown) && History(after.detector.records, id) == History(s.detector.records, id)
  {
    if events != [] {
      var front, e := events[..|events| - 1], events[|events| - 1];
      var before := FilteredRun(defs, s, front);
      UnchangedPointsAreNotHeard(defs, s, front, id, shown);
      ShownIsFiltered(defs, before.values, e.batch, id, shown);
      AcceptedBatchesSucceed(defs, before.values, e.batch);
      if AllAccepted(defs, e.batch) {
        forall i | 0 <= i < |e.order| ensures e.order[i].id != id {
          assert e.order[i] in Updated(defs, before.values, e.batch).changed;
        }
        DetectedElsewhere(defs, before.detector, e.order, id);
      }
    }
  }

  /**
    A raised alarm beside a NaN: the scan is refused, no record is made, none is made
    by any number of later scans that still show the alarm raised, with or without the
    NaN, and the history differs from the unfiltered one.
  */
  lemma NaNInAScanHidesAnAlarm(defs: Definitions, alarm: Definition, level: Definition, later: seq<Event>)
    requires alarm.pointType.BoolPoint? && alarm.alarmValue == Some(Flag(true)) && level.pointType.Float32Point?
    requires alarm.pointId != level.pointId
    requires defs == map[alarm.pointId := alarm, level.pointId := level]
    ensures var raised := PointValue(Some(VBool(true)), GoodQuality, 1, Some(true));
            var nan := PointValue(Some(VFloat(0x7FC0_0000)), GoodQuality, 1, None);
            var after := Filtered(defs, NEW_SESSION, Observe([Entry(alarm.pointId, raised), Entry(level.pointId, nan)], []));
            && !KeepsHistory(defs, after)
            && (ScansOnly(defs, after, later, alarm.pointId, raised) ==>
                  History(FilteredRun(defs, after, later).detector.records, alarm.pointId) == [])
  {
    var raised := PointValue(Some(VBool(true)), GoodQuality, 1, Some(true));
    var nan := PointValue(Some(VFloat(0x7FC0_0000)), GoodQuality, 1, None);
    var batch := [Entry(alarm.pointId, raised), Entry(level.pointId, nan)];
    var after := Filtered(defs, NEW_SESSION, Observe(batch, []));
    assert !Accepts(defs, batch[1]) && Accepts(defs, batch[0]);
    assert batch[..1] == [batch[0]] && [batch[0]][..0] == [];
    assert StoredPart(defs, []) == [] && StoredPart(defs, [batch[0]]) == [batch[0]];
    assert StoredPart(defs, batch) == [batch[0]];
    RefusedBatchLosesAnEdgeExactlyWhen(defs, NEW_SESSION, batch, []);
    assert batch[0] in StoredPart(defs, batch) && Hidden(defs, NEW_SESSION.detector.alarms, batch[0]);
    AcceptedBatchesSucceed(defs, NEW_SESSION.values, batch);
    StoredPartIsStored(defs, NEW_SESSION.values, batch);
    assert after.values[alarm.pointId] == raised;
    if ScansOnly(defs, after, later, alarm.pointId, raised) {
      UnchangedPointsAreNotHeard(defs, after, later, alarm.pointId, raised);
    }
  }
}

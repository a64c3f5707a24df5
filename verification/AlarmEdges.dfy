/**
  The session's point store, a delta filter, feeding the alarm edge detector.
  A batch is a map of values; it is taken as the sequence of its entries in the
  order the loop happens to visit them.
*/
module AlarmEdges {
  import opened Wrappers
  import opened ScanPlan
  import opened Float32
  import opened PointValues

  datatype Entry = Entry(id: string, item: PointValue)

  datatype EventKind = RAISED | CLEARED

  datatype Record = Record(alarmId: string, kind: EventKind, occurredAt: int, value: Option<Value>)

  type Definitions = map<string, Definition>

  type Values = map<string, PointValue>

  // -------------------------------------------------------------- the filter

  predicate IsWhole(bits: nat) {
    Finite(bits) && Odd(NumberOf(bits)).e >= 0
  }

  /** An integer of any type, or a float equal to its own truncation: infinities are. */
  predicate IsInteger(v: Value) {
    if v.VFloat? then IsWhole(v.bits) || (ExponentOf(v.bits) == 0xFF && !IsNaN(v.bits)) else !v.VBool?
  }

  predicate InRange(v: Value, low: int, high: int) {
    match v
    case VBool(_) => false
    case VFloat(bits) =>
      IsWhole(bits) && var n := Odd(NumberOf(bits)); low <= Shift(n.m, n.e) <= high
    case _ => low <= v.i <= high
  }

  /** ValidateValue. */
  predicate ValidValue(pointType: PointType, v: Value) {
    match pointType
    case BoolPoint => v.VBool?
    case Int16Point => InRange(v, -0x8000, 0x7FFF)
    case Int32Point => InRange(v, -0x8000_0000, 0x7FFF_FFFF)
    case Uint16Point => InRange(v, 0, 0xFFFF)
    case Float32Point => if v.VFloat? then Finite(v.bits) else !v.VBool?
    case OtherPoint(name) => (name == "int" && IsInteger(v)) || (name == "float" && !v.VBool?)
  }

  /** The checks of Update on one entry. */
  predicate Accepts(defs: Definitions, e: Entry) {
    && e.id in defs
    && !e.item.quality.OtherQuality?
    && (e.item.value.None? ==> !e.item.quality.GoodQuality?)
    && (e.item.value.Some? ==> ValidValue(defs[e.id].pointType, e.item.value.value))
    && e.item.updatedAt != 0
  }

  predicate SameDisplayState(left: PointValue, right: PointValue) {
    && left.quality == right.quality && left.alarmActive == right.alarmActive
    && left.value.Some? == right.value.Some?
    && (left.value.Some? ==> ValuesEqual(left.value.value, right.value.value))
  }

  predicate Shows(values: Values, e: Entry) {
    e.id in values && SameDisplayState(values[e.id], e.item)
  }

  // Update stops at the first entry it refuses; what it stored before stays stored.
  datatype Delta = Delta(values: Values, changed: seq<Entry>, failed: bool)

  function Updated(defs: Definitions, values: Values, batch: seq<Entry>): Delta {
    if batch == [] then Delta(values, [], false)
    else
      var u, e := Updated(defs, values, batch[..|batch| - 1]), batch[|batch| - 1];
      if u.failed then u
      else if !Accepts(defs, e) then u.(failed := true)
      else Delta(u.values[e.id := e.item], if Shows(u.values, e) then u.changed else u.changed + [e], false)
  }

  // -------------------------------------------------------------- the detector

  datatype Detector = Detector(alarms: map<string, bool>, records: seq<Record>)

  /** Whether an observation speaks about a configured alarm. */
  predicate Speaks(defs: Definitions, e: Entry) {
    e.item.quality.GoodQuality? && e.item.alarmActive.Some? && e.id in defs && defs[e.id].alarmValue.Some?
  }

  function Detect(defs: Definitions, d: Detector, e: Entry): Detector {
    if !Speaks(defs, e) then d
    else
      var active := e.item.alarmActive.value;
      var known := e.id in d.alarms;
      if (!known && !active) || (known && d.alarms[e.id] == active) then d.(alarms := d.alarms[e.id := active])
      else
        Detector(d.alarms[e.id := active],
                 d.records + [Record(e.id, if active then RAISED else CLEARED, e.item.updatedAt, e.item.value)])
  }

  function Detected(defs: Definitions, d: Detector, seen: seq<Entry>): Detector {
    if seen == [] then d else Detect(defs, Detected(defs, d, seen[..|seen| - 1]), seen[|seen| - 1])
  }

  // -------------------------------------------------------------- the code

  class Store {
    var definitions: Definitions
    var values: Values

    constructor ()
      ensures definitions == map[] && values == map[]
    {
      definitions, values := map[], map[];
    }

    /** A new session's plan, given what normalizing the configuration answers: no value survives. */
    method Replace(normalized: Result<seq<Definition>>) returns (ok: bool)
      requires normalized.Ok? ==> Normalized(normalized.value)
      modifies this
      ensures ok == normalized.Ok?
      ensures !ok ==> definitions == old(definitions) && values == old(values)
      ensures ok ==> values == map[]
      ensures ok ==> forall i :: 0 <= i < |normalized.value| ==>
        normalized.value[i].pointId in definitions && definitions[normalized.value[i].pointId] == normalized.value[i]
      ensures ok ==> forall id :: id in definitions ==> exists i :: 0 <= i < |normalized.value| && normalized.value[i].pointId == id
    {
      if normalized.Err? {
        return false;
      }
      var points := normalized.value;
      var table: Definitions := map[];
      var i := 0;
      while i < |points|
        invariant 0 <= i <= |points|
        invariant forall j :: 0 <= j < i ==> points[j].pointId in table && table[points[j].pointId] == points[j]
        invariant forall id :: id in table ==> exists j :: 0 <= j < |points| && points[j].pointId == id
      {
        table := table[points[i].pointId := points[i]];
        i := i + 1;
      }
      definitions, values := table, map[];
      ok := true;
    }

    method Clear()
      modifies this
      ensures definitions == map[] && values == map[]
    {
      definitions, values := map[], map[];
    }

    method ClearValues()
      modifies this`values
      ensures values == map[]
    {
      values := map[];
    }

    /** Update: stores confirmed values and returns those whose displayed state changed. */
    method Update(batch: seq<Entry>) returns (r: Result<seq<Entry>>)
      modifies this`values
      ensures values == Updated(definitions, old(values), batch).values
      ensures r.Err? <==> Updated(definitions, old(values), batch).failed
      ensures r.Ok? ==> r.value == Updated(definitions, old(values), batch).changed
    {
      var changed: seq<Entry> := [];
      var i := 0;
      while i < |batch|
        invariant 0 <= i <= |batch|
        invariant Updated(definitions, old(values), batch[..i]) == Delta(values, changed, false)
      {
        var e := batch[i];
        assert batch[..i + 1][..i] == batch[..i];
        if !Accepts(definitions, e) {
          FailureStays(definitions, old(values), batch, i + 1);
          return Err("point value is not acceptable");
        }
        var hadPrevious := e.id in values;
        var same := hadPrevious && SameDisplayState(values[e.id], e.item);
        values := values[e.id := e.item];
        if !same {
          changed := changed + [e];
        }
        i := i + 1;
      }
      assert batch[..i] == batch;
      r := Ok(changed);
    }
  }

  lemma {:induction false} FailureStays(defs: Definitions, values: Values, batch: seq<Entry>, n: nat)
    requires n <= |batch| && Updated(defs, values, batch[..n]).failed
    ensures Updated(defs, values, batch) == Updated(defs, values, batch[..n])
    decreases |batch|
  {
    if n < |batch| {
      var front := batch[..|batch| - 1];
      assert front[..n] == batch[..n];
      FailureStays(defs, values, front, n);
    } else {
      assert batch[..n] == batch;
    }
  }

  /** The alarm state of a runtime session. */
  class AlarmSession {
    var alarms: map<string, bool>

    constructor ()
      ensures alarms == map[]
    {
      alarms := map[];
    }

    /** recordAlarmChanges: the records it decides on, in the order it visits the changes. */
    method RecordAlarmChanges(store: Store, changed: seq<Entry>) returns (records: seq<Record>)
      modifies this
      ensures Detector(alarms, records) == Detected(store.definitions, Detector(old(alarms), []), changed)
    {
      records := [];
      var i := 0;
      while i < |changed|
        invariant 0 <= i <= |changed|
        invariant Detector(alarms, records) == Detected(store.definitions, Detector(old(alarms), []), changed[..i])
      {
        var id, item := changed[i].id, changed[i].item;
        assert changed[..i + 1][..i] == changed[..i];
        i := i + 1;
        if item.quality != GoodQuality || item.alarmActive.None? {
          continue;
        }
        if id !in store.definitions || store.definitions[id].alarmValue.None? {
          continue;
        }
        var active := item.alarmActive.value;
        var known := id in alarms;
        var previous := known && alarms[id];
        alarms := alarms[id := active];
        if (!known && !active) || (known && previous == active) {
          continue;
        }
        records := records + [Record(id, if active then RAISED else CLEARED, item.updatedAt, item.value)];
      }
      assert changed[..i] == changed;
    }
  }
}

/** What the point store takes, stores and reports of one batch, and when one observation makes an alarm record. */
module AlarmChanges {
  import opened Wrappers
  import opened Float32
  import opened ScanPlan
  import opened PointValues
  import opened AlarmEdges
  import opened AlarmRuns

  // -------------------------------------------------------------- which values a point takes

  /** The float denotes this integer. */
  predicate Denotes(bits: nat, n: int) {
    Finite(bits) && Same(NumberOf(bits), Dyadic(n, 0))
  }

  predicate IsInt(v: Value, n: int) {
    match v
    case VBool(_) => false
    case VFloat(bits) => Denotes(bits, n)
    case _ => v.i == n
  }

  lemma OddTwice(d: Dyadic)
    ensures Odd(Odd(d)) == Odd(d)
  {
  }

  /** A float is whole exactly when it denotes an integer, and then the one of its normal form. */
  lemma WholeExactlyWhen(bits: nat, n: int)
    requires Finite(bits)
    ensures Denotes(bits, n) <==> IsWhole(bits) && n == Shift(Odd(NumberOf(bits)).m, Odd(NumberOf(bits)).e)
  {
    var d, whole := NumberOf(bits), Dyadic(n, 0);
    var o := Odd(d);
    SameExactlyWhenOddsAgree(d, whole);
    if IsWhole(bits) && n == Shift(o.m, o.e) {
      OddOfShifted(o.m, 0, o.e);
      OddTwice(d);
    }
    if Denotes(bits, n) && n != 0 {
      OddIsTheSame(whole);
    }
  }

  ghost predicate IsSomeInt(v: Value) {
    exists n :: IsInt(v, n)
  }

  ghost predicate IntBetween(v: Value, low: int, high: int) {
    exists n :: low <= n <= high && IsInt(v, n)
  }

  predicate IsInfinite(v: Value) {
    v.VFloat? && ExponentOf(v.bits) == 0xFF && FractionOf(v.bits) == 0
  }

  /** The values a point of this type takes: truth values, integers of its range however they are held, finite numbers. */
  ghost predicate Takes(pointType: PointType, v: Value) {
    match pointType
    case BoolPoint => v.VBool?
    case Int16Point => IntBetween(v, -32768, 32767)
    case Uint16Point => IntBetween(v, 0, 65535)
    case Int32Point => IntBetween(v, -2147483648, 2147483647)
    case Float32Point => !v.VBool? && (v.VFloat? ==> Finite(v.bits))
    case OtherPoint(name) => (name == "int" && (IsSomeInt(v) || IsInfinite(v))) || (name == "float" && !v.VBool?)
  }

  lemma InRangeExactlyWhen(v: Value, low: int, high: int)
    ensures InRange(v, low, high) <==> IntBetween(v, low, high)
  {
    match v
    case VBool(_) =>
    case VFloat(bits) =>
      if Finite(bits) {
        var o := Odd(NumberOf(bits));
        if InRange(v, low, high) {
          WholeExactlyWhen(bits, Shift(o.m, o.e));
          assert IsInt(v, Shift(o.m, o.e));
        }
        if n :| low <= n <= high && IsInt(v, n) {
          WholeExactlyWhen(bits, n);
        }
      }
    case _ => assert IsInt(v, v.i);
  }

  lemma IsIntegerExactlyWhen(v: Value)
    requires v.VFloat? ==> IsPattern(v.bits)
    ensures IsInteger(v) <==> IsSomeInt(v) || IsInfinite(v)
  {
    match v
    case VBool(_) =>
    case VFloat(bits) =>
      if Finite(bits) {
        var o := Odd(NumberOf(bits));
        if IsWhole(bits) {
          WholeExactlyWhen(bits, Shift(o.m, o.e));
          assert IsInt(v, Shift(o.m, o.e));
        }
        if n :| IsInt(v, n) {
          WholeExactlyWhen(bits, n);
        }
      }
    case _ => assert IsInt(v, v.i);
  }

  lemma TakesExactlyWhen(pointType: PointType, v: Value)
    requires v.VFloat? ==> IsPattern(v.bits)
    ensures ValidValue(pointType, v) <==> Takes(pointType, v)
  {
    match pointType
    case BoolPoint =>
    case Int16Point => InRangeExactlyWhen(v, -0x8000, 0x7FFF);
    case Int32Point => InRangeExactlyWhen(v, -0x8000_0000, 0x7FFF_FFFF);
    case Uint16Point => InRangeExactlyWhen(v, 0, 0xFFFF);
    case Float32Point =>
    case OtherPoint(_) => IsIntegerExactlyWhen(v);
  }

  /** An entry of a configured point, with a quality of the interface, dated, and with a value of the point's type unless it is not good. */
  ghost predicate Acceptable(defs: Definitions, e: Entry) {
    && e.id in defs && e.item.updatedAt != 0
    && (e.item.quality.GoodQuality? || e.item.quality.StaleQuality? || e.item.quality.ErrorQuality?)
    && (if e.item.value.Some? then Takes(defs[e.id].pointType, e.item.value.value) else !e.item.quality.GoodQuality?)
  }

  ghost predicate AllPatterns(batch: seq<Entry>) {
    forall i :: 0 <= i < |batch| ==> HoldsPattern(batch[i].item.value)
  }

  predicate HoldsPattern(v: Option<Value>) {
    v.Some? && v.value.VFloat? ==> IsPattern(v.value.bits)
  }

  lemma AcceptsExactlyWhen(defs: Definitions, e: Entry)
    requires HoldsPattern(e.item.value)
    ensures Accepts(defs, e) <==> Acceptable(defs, e)
  {
    if e.id in defs && e.item.value.Some? {
      TakesExactlyWhen(defs[e.id].pointType, e.item.value.value);
    }
  }

  /** A batch succeeds exactly when every entry is acceptable. */
  lemma ABatchSucceedsExactlyWhen(defs: Definitions, values: Values, batch: seq<Entry>)
    requires AllPatterns(batch)
    ensures !Updated(defs, values, batch).failed <==> forall i :: 0 <= i < |batch| ==> Acceptable(defs, batch[i])
  {
    AcceptedBatchesSucceed(defs, values, batch);
    forall i | 0 <= i < |batch| ensures Accepts(defs, batch[i]) <==> Acceptable(defs, batch[i]) {
      assert HoldsPattern(batch[i].item.value);
      AcceptsExactlyWhen(defs, batch[i]);
    }
  }

  // -------------------------------------------------------------- what is reported

  /** The values differ: by presence, by type, or as numbers; a NaN differs from everything. */
  predicate ValuesDiffer(a: Option<Value>, b: Option<Value>) {
    match (a, b)
    case (None, None) => false
    case (Some(VFloat(x)), Some(VFloat(y))) =>
      IsNaN(x) || IsNaN(y) || (x != y && !(Finite(x) && Finite(y) && Same(NumberOf(x), NumberOf(y))))
    case _ => a != b
  }

  /** The entry is new, or shows another quality, value or alarm flag than what is stored. */
  predicate Differs(values: Values, e: Entry) {
    e.id !in values || values[e.id].quality != e.item.quality || values[e.id].alarmActive != e.item.alarmActive ||
    ValuesDiffer(values[e.id].value, e.item.value)
  }

  lemma ShowsExactlyUnlessDiffers(values: Values, e: Entry)
    ensures Shows(values, e) <==> !Differs(values, e)
  {
  }

  /** The entries that differ from what was stored before the batch, in its order. */
  function Changes(values: Values, batch: seq<Entry>): seq<Entry> {
    if batch == [] then []
    else
      var e := batch[|batch| - 1];
      Changes(values, batch[..|batch| - 1]) + (if Differs(values, e) then [e] else [])
  }

  lemma {:induction false} ChangesAre(values: Values, batch: seq<Entry>, e: Entry)
    ensures e in Changes(values, batch) <==> e in batch && Differs(values, e)
  {
    if batch != [] {
      var front := batch[..|batch| - 1];
      ChangesAre(values, front, e);
      assert batch == front + [batch[|batch| - 1]];
    }
  }

  lemma {:induction false} OthersAreUntouched(defs: Definitions, values: Values, batch: seq<Entry>, id: string)
    requires forall i :: 0 <= i < |batch| ==> batch[i].id != id
    ensures var u := Updated(defs, values, batch).values; (id in u <==> id in values) && (id in values ==> u[id] == values[id])
  {
    if batch != [] {
      OthersAreUntouched(defs, values, batch[..|batch| - 1], id);
    }
  }

  lemma DiffersAlike(values: Values, before: Values, e: Entry)
    requires e.id in before <==> e.id in values
    requires e.id in values ==> before[e.id] == values[e.id]
    ensures Shows(before, e) <==> !Differs(values, e)
  {
    ShowsExactlyUnlessDiffers(before, e);
  }

  /** One more entry of a batch, whose id none of the others has. */
  lemma OneMoreIsReported(defs: Definitions, values: Values, front: seq<Entry>, e: Entry, batch: seq<Entry>)
    requires batch == front + [e] && !Updated(defs, values, batch).failed && forall i :: 0 <= i < |front| ==> front[i].id != e.id
    ensures !Updated(defs, values, front).failed
    ensures Updated(defs, values, batch).values == Updated(defs, values, front).values[e.id := e.item]
    ensures Updated(defs, values, batch).changed == Updated(defs, values, front).changed + (if Differs(values, e) then [e] else [])
  {
    assert batch[..|batch| - 1] == front;
    OthersAreUntouched(defs, values, front, e.id);
    DiffersAlike(values, Updated(defs, values, front).values, e);
  }

  lemma ReportedNext(defs: Definitions, values: Values, front: seq<Entry>, e: Entry, batch: seq<Entry>)
    requires batch == front + [e] && !Updated(defs, values, batch).failed && forall i :: 0 <= i < |front| ==> front[i].id != e.id
    requires Updated(defs, values, front).changed == Changes(values, front)
    ensures Updated(defs, values, batch).changed == Changes(values, batch)
  {
    OneMoreIsReported(defs, values, front, e, batch);
    assert batch[..|batch| - 1] == front;
  }

  lemma FrontSucceeds(defs: Definitions, values: Values, batch: seq<Entry>)
    requires batch != [] && Distinct(batch) && !Updated(defs, values, batch).failed
    ensures !Updated(defs, values, batch[..|batch| - 1]).failed && Distinct(batch[..|batch| - 1])
  {
  }

  lemma {:induction false} ReportedAreTheChanges(defs: Definitions, values: Values, batch: seq<Entry>)
    requires Distinct(batch) && !Updated(defs, values, batch).failed
    ensures Updated(defs, values, batch).changed == Changes(values, batch)
  {
    if batch != [] {
      var front, e := batch[..|batch| - 1], batch[|batch| - 1];
      FrontSucceeds(defs, values, batch);
      ReportedAreTheChanges(defs, values, front);
      ReportedNext(defs, values, front, e, batch);
    }
  }

  /** A batch that succeeds reports exactly the entries that differ from what was stored, in its order, and stores them all. */
  lemma UpdateReportsExactlyTheChanges(defs: Definitions, values: Values, batch: seq<Entry>)
    requires Distinct(batch) && !Updated(defs, values, batch).failed
    ensures Updated(defs, values, batch).changed == Changes(values, batch)
    ensures forall e :: e in Changes(values, batch) <==> e in batch && Differs(values, e)
    ensures Holds(values, batch, Updated(defs, values, batch).values)
  {
    ReportedAreTheChanges(defs, values, batch);
    forall e ensures e in Changes(values, batch) <==> e in batch && Differs(values, e) {
      ChangesAre(values, batch, e);
    }
    StoredPartIsStored(defs, values, batch);
    StoredPartIsAPrefix(defs, values, batch);
    assert StoredPart(defs, batch) == batch;
  }

  // -------------------------------------------------------------- what is recorded

  /** A record is made exactly when a good observation of a configured alarm says other than the last one heard; none heard counts as cleared. */
  lemma ARecordIsMadeExactlyAtAnEdge(defs: Definitions, d: Detector, e: Entry)
    ensures var after := Detect(defs, d, e);
            var told := e.item.quality.GoodQuality? && e.item.alarmActive.Some? && e.id in defs && defs[e.id].alarmValue.Some?;
            var was := e.id in d.alarms && d.alarms[e.id];
            && after.alarms == (if told then d.alarms[e.id := e.item.alarmActive.value] else d.alarms)
            && after.records == d.records +
                 (if told && e.item.alarmActive.value && !was then [Record(e.id, RAISED, e.item.updatedAt, e.item.value)]
                  else if told && !e.item.alarmActive.value && was then [Record(e.id, CLEARED, e.item.updatedAt, e.item.value)]
                  else [])
  {
  }
}

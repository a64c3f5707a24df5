/** Point values: decoding registers, encoding writes, and comparing with configured alarm values. */
module PointValues {
  import opened Wrappers
  import opened Bits
  import opened Float32
  import opened Octets
  import opened ScanPlan

  // Integers keep their width: Go compares dynamic types before values. A float32
  // is its 32-bit pattern.
  datatype Value = VBool(b: bool) | VInt16(i: int) | VUint16(i: int) | VInt32(i: int) | VFloat(bits: nat)

  datatype PointQuality = GoodQuality | StaleQuality | ErrorQuality | OtherQuality(text: string)

  datatype PointValue = PointValue(value: Option<Value>, quality: PointQuality, updatedAt: int, alarmActive: Option<bool>)

  const NO_VALUE := PointValue(None, OtherQuality(""), 0, None)

  /** Two's complement reading of `bits` in a word of 2 * half values. */
  function Signed(bits: nat, half: nat): int {
    if bits < half then bits else bits - 2 * half
  }

  /** The two words of a 32-bit value as one pattern. */
  function Joined(words: seq<uint16>, order: WordOrder): nat
    requires |words| == 2
  {
    var first: int, second: int := words[0], words[1];
    if order.LowHigh? then second * 0x1_0000 + first else first * 0x1_0000 + second
  }

  function Decode(p: PointPlan, words: seq<uint16>): Result<Value> {
    if |words| != p.address.count then Err("PLC returned an incomplete register span")
    else if p.address.bitIO then
      if |words| == 0 then Err("PLC returned an incomplete register span") else Ok(VBool(BitOf(words[0], p.address.bit)))
    else
      match p.definition.pointType
      case Int16Point => if |words| == 0 then Err("empty") else Ok(VInt16(Signed(words[0], 0x8000)))
      case Uint16Point => if |words| == 0 then Err("empty") else Ok(VUint16(words[0]))
      case Int32Point =>
        if |words| != 2 || p.definition.wordOrder.NoOrder? then Err("unsupported int32 word order")
        else Ok(VInt32(Signed(Joined(words, p.definition.wordOrder), 0x8000_0000)))
      case Float32Point =>
        if |words| != 2 || p.definition.wordOrder.NoOrder? then Err("unsupported float32 word order")
        else Ok(VFloat(Joined(words, p.definition.wordOrder)))
      case _ => Err("unsupported numeric point type")
  }

  /** A planned point of a valid layout decodes any span of its own length. */
  lemma DecodesItsSpan(d: Definition, words: seq<uint16>)
    requires ValidLayout(d) && PlanAddress(d).Ok? && |words| == PlanAddress(d).value.count
    ensures Decode(PlanOf(d), words).Ok?
  {
  }

  // -------------------------------------------------------------- writing

  function Split(bits: nat, order: WordOrder): seq<uint16>
    requires bits < 0x1_0000_0000
  {
    var low, high := bits % 0x1_0000, bits / 0x1_0000;
    if order.LowHigh? then [low, high] else [high, low]
  }

  /** The two's complement pattern of an integer in its range. */
  function Pattern(i: int, half: int): nat
    requires -half <= i < half
  {
    if i >= 0 then i else i + 2 * half
  }

  /** numericWords for a value of the point's own type. */
  function NumericWords(d: Definition, v: Value): Result<seq<uint16>> {
    match d.pointType
    case Int16Point => if v.VInt16? && -0x8000 <= v.i < 0x8000 then Ok([Pattern(v.i, 0x8000)]) else Err("must match point type")
    case Uint16Point => if v.VUint16? && 0 <= v.i < 0x1_0000 then Ok([v.i]) else Err("must match point type")
    case Int32Point =>
      if !(v.VInt32? && -0x8000_0000 <= v.i < 0x8000_0000) then Err("must match point type")
      else if d.wordOrder.NoOrder? then Err("unsupported int32 word order")
      else Ok(Split(Pattern(v.i, 0x8000_0000), d.wordOrder))
    case Float32Point =>
      if !(v.VFloat? && Finite(v.bits)) then Err("must match point type")
      else if d.wordOrder.NoOrder? then Err("unsupported float32 word order")
      else Ok(Split(v.bits, d.wordOrder))
    case _ => Err("unsupported numeric point type")
  }

  lemma SplitJoins(bits: nat, order: WordOrder)
    requires bits < 0x1_0000_0000
    ensures Joined(Split(bits, order), order) == bits
  {
  }

  /** What is written to a numeric point is what reading it back decodes, in either word order. */
  lemma WrittenValuesReadBack(d: Definition, v: Value)
    requires ValidLayout(d) && PlanAddress(d).Ok? && NumericWords(d, v).Ok?
    ensures Decode(PlanOf(d), NumericWords(d, v).value) == Ok(v)
  {
    if d.pointType.Int32Point? {
      SplitJoins(Pattern(v.i, 0x8000_0000), d.wordOrder);
    } else if d.pointType.Float32Point? {
      SplitJoins(v.bits, d.wordOrder);
    }
  }

  // -------------------------------------------------------------- alarms

  /** reflect.DeepEqual of two decoded values: a NaN equals nothing, and the two zeros are equal. */
  predicate ValuesEqual(a: Value, b: Value) {
    if a.VFloat? && b.VFloat? then FloatsEqual(a.bits, b.bits) else a == b
  }

  /** reflect.DeepEqual of a decoded value and a value decoded from JSON: a float64, never an integer type. */
  predicate EqualsConfigured(v: Value, c: Configured) {
    match c
    case Flag(b) => v == VBool(b)
    case Number(value) => v.VFloat? && Finite(v.bits) && Same(NumberOf(v.bits), value)
  }

  function GoodItem(p: PointPlan, v: Value, now: int): PointValue {
    PointValue(Some(v), GoodQuality, now,
               if p.definition.alarmValue.Some? then Some(EqualsConfigured(v, p.definition.alarmValue.value)) else None)
  }

  ghost predicate CanActivate(d: Definition)
    requires PlanAddress(d).Ok?
  {
    exists words: seq<uint16>, v: Value :: Decode(PlanOf(d), words) == Ok(v) && GoodItem(PlanOf(d), v, 1).alarmActive == Some(true)
  }

  lemma FloatActivates(d: Definition, bits: nat)
    requires ValidLayout(d) && PlanAddress(d).Ok? && d.pointType.Float32Point? && d.alarmValue.Some? && d.alarmValue.value.Number?
    requires Finite(bits) && Same(NumberOf(bits), d.alarmValue.value.value)
    ensures CanActivate(d)
  {
    var words := Split(bits, d.wordOrder);
    SplitJoins(bits, d.wordOrder);
    assert Decode(PlanOf(d), words) == Ok(VFloat(bits)) && GoodItem(PlanOf(d), VFloat(bits), 1).alarmActive == Some(true);
  }

  lemma BoolActivates(d: Definition)
    requires ValidLayout(d) && PlanAddress(d).Ok? && d.pointType.BoolPoint? && d.alarmValue.Some? && d.alarmValue.value.Flag?
    requires d.bit <= 15
    ensures CanActivate(d)
  {
    var b := d.alarmValue.value.b;
    var w: uint16 := if b then Mask(d.bit) else 0;
    BitOfPow2(d.bit, d.bit);
    ZeroHasNoBits(d.bit);
    assert Decode(PlanOf(d), [w]) == Ok(VBool(b)) && GoodItem(PlanOf(d), VBool(b), 1).alarmActive == Some(true);
  }

  /**
    Some reading activates a configured alarm exactly on a bool point, and on a
    float32 point whose alarm value is exactly a float32. On an integer point none
    does: a decoded integer has an integer type, a configured number is a float64.
  */
  lemma AlarmCanActivateExactlyWhen(d: Definition, c: Configured)
    requires ValidLayout(d) && PlanAddress(d).Ok? && d.alarmValue == Some(c) && d.bit <= 15
    requires d.pointType.BoolPoint? <==> c.Flag?
    ensures CanActivate(d) <==> d.pointType.BoolPoint? || (d.pointType.Float32Point? && FitsFloat32(c.value))
  {
    if d.pointType.BoolPoint? {
      BoolActivates(d);
    } else if d.pointType.Float32Point? {
      IsAFloat32ExactlyWhenItFits(c.value);
      if FitsFloat32(c.value) {
        var bits :| Finite(bits) && Same(NumberOf(bits), c.value);
        FloatActivates(d, bits);
      }
    }
  }

  /** An alarm configured at 0.1 never activates, whatever the PLC sends. */
  lemma AnAlarmAtATenthNeverActivates(d: Definition, words: seq<uint16>, now: int)
    requires ValidLayout(d) && PlanAddress(d).Ok? && d.pointType.Float32Point? && d.alarmValue == Some(Number(TENTH))
    requires Decode(PlanOf(d), words).Ok?
    ensures GoodItem(PlanOf(d), Decode(PlanOf(d), words).value, now).alarmActive == Some(false)
  {
    var v := Decode(PlanOf(d), words).value;
    if Finite(v.bits) {
      ATenthIsNoFloat32(v.bits);
    }
  }
}

/** Writes seen through the next scan: a written point reads back, and no other point moves. */
module WriteReadBack {
  import opened Bits
  import opened Modbus
  import opened ModbusClient
  import opened Octets
  import opened PointValues
  import opened Scan
  import opened ScanPlan
  import opened ScanTheorems
  import opened Wrappers

  /** The simple point read, on the registers of a device. */
  function PointIn(mem: Memory, p: PointPlan): Result<Value>
    requires |mem| == REGISTERS && p.address.word + p.address.count <= REGISTERS
  {
    Decode(p, mem[p.address.word..p.address.word + p.address.count])
  }

  /** It is the point read that a whole scan refines. */
  lemma PointInIsReadPoint(mem: Memory, file: RegisterFile, p: PointPlan)
    requires |mem| == REGISTERS && Spanned(p.address) && forall w: uint16 :: file(w) == mem[w]
    ensures ReadPoint(file, p) == PointIn(mem, p)
  {
    assert ReadSpan(file, p.address.word, p.address.count) == mem[p.address.word..p.address.word + p.address.count];
  }

  ghost predicate IsBit(p: PointPlan) {
    p.address.bitIO && p.address.count == 1 && p.address.bit <= 15 && Spanned(p.address)
  }

  lemma BitIn(mem: Memory, p: PointPlan)
    requires |mem| == REGISTERS && IsBit(p)
    ensures PointIn(mem, p) == Ok(VBool(BitOf(mem[p.address.word], p.address.bit)))
  {
    assert mem[p.address.word..p.address.word + 1][0] == mem[p.address.word];
  }

  lemma SameSpan(a: Memory, b: Memory, q: PointPlan)
    requires |a| == |b| == REGISTERS && q.address.word + q.address.count <= REGISTERS
    requires forall i :: q.address.word <= i < q.address.word + q.address.count ==> a[i] == b[i]
    ensures PointIn(a, q) == PointIn(b, q)
  {
    assert a[q.address.word..q.address.word + q.address.count] == b[q.address.word..q.address.word + q.address.count];
  }

  predicate Touches(a: Address, word: uint16) {
    a.word <= word < a.word + a.count
  }

  /** A written bit reads back, and every point that is not this bit keeps its value:
      points on other words, and the other bits of the same word. */
  lemma BitWriteReadsBackAndNothingElseMoves(mem: Memory, p: PointPlan, target: bool, q: PointPlan)
    requires |mem| == REGISTERS && IsBit(p) && Spanned(q.address)
    ensures var after := WithBit(mem, p.address.word, p.address.bit, target);
            && PointIn(after, p) == Ok(VBool(target))
            && (!Touches(q.address, p.address.word) || (IsBit(q) && q.address.bit != p.address.bit) ==>
                  PointIn(after, q) == PointIn(mem, q))
  {
    var after := WithBit(mem, p.address.word, p.address.bit, target);
    BitIn(after, p);
    SetBitSetsOnlyThatBit(mem[p.address.word], p.address.bit, target, p.address.bit);
    if !Touches(q.address, p.address.word) {
      SameSpan(after, mem, q);
    } else if IsBit(q) {
      BitIn(after, q);
      BitIn(mem, q);
      SetBitSetsOnlyThatBit(mem[p.address.word], p.address.bit, target, q.address.bit);
    }
  }

  predicate Separate(a: Address, b: Address) {
    a.word + a.count <= b.word || b.word + b.count <= a.word
  }

  /** A written number reads back in the configured word order, and points elsewhere keep their values. */
  lemma NumberWriteReadsBackAndNothingElseMoves(mem: Memory, d: Definition, v: Value, q: PointPlan)
    requires |mem| == REGISTERS && ValidLayout(d) && PlanAddress(d).Ok? && NumericWords(d, v).Ok? && Spanned(q.address)
    ensures var words := NumericWords(d, v).value;
            && Spanned(PlanOf(d).address) && |words| == PlanOf(d).address.count
            && PointIn(Written(mem, d.word, words), PlanOf(d)) == Ok(v)
            && (Separate(PlanOf(d).address, q.address) ==> PointIn(Written(mem, d.word, words), q) == PointIn(mem, q))
  {
    var words, p := NumericWords(d, v).value, PlanOf(d);
    PlannedAddressesAreSpans(d);
    WrittenValuesReadBack(d, v);
    var after := Written(mem, d.word, words);
    assert after[d.word..d.word + |words|] == words;
    if Separate(p.address, q.address) {
      SameSpan(after, mem, q);
    }
  }

  // -------------------------------------------------------------- a write and the next scan

  /** The entry of a point in the result of a scan is the good decode `v`. */
  ghost predicate Shows(result: ScanState, p: PointPlan, v: Value) {
    var id := p.definition.pointId;
    id in result.known.values && result.known.values[id] == GoodItem(p, v, result.known.values[id].updatedAt)
  }

  /** Scanning a device's registers shows every point as read on its own. */
  lemma ScanShowsThePoint(mem: Memory, file: RegisterFile, last: map<string, PointValue>, disconnected: bool, log: seq<GoodRead>,
                          batches: seq<Batch>, turns: seq<Turn>, plans: seq<PointPlan>, now: int, i: nat)
    requires |mem| == REGISTERS && forall w: uint16 :: file(w) == mem[w]
    requires Scannable(plans) && AllSpans(plans) && Serves(batches, plans) && |turns| == |batches|
    requires AllLegal(batches) && AnsweredFrom(file, batches, turns) && i < |plans|
    ensures Spanned(plans[i].address) && PointIn(mem, plans[i]).Ok?
    ensures Shows(ScanResult(last, disconnected, log, batches, turns, plans, Ids(plans), now), plans[i], PointIn(mem, plans[i]).value)
  {
    ScanRefinesPointReads(last, disconnected, log, batches, turns, file, plans, now);
    PointInIsReadPoint(mem, file, plans[i]);
  }

  /**
    After a successful bit write the next undisturbed scan shows the written value,
    and shows every other point as it was before the write.
  */
  lemma TheNextScanShowsTheWrite(mem: Memory, target: bool, file: RegisterFile, last: map<string, PointValue>, disconnected: bool,
                                 log: seq<GoodRead>, batches: seq<Batch>, turns: seq<Turn>, plans: seq<PointPlan>, now: int, i: nat, j: nat)
    requires Scannable(plans) && AllSpans(plans) && Serves(batches, plans) && |turns| == |batches|
    requires i < |plans| && j < |plans| && IsBit(plans[i]) && |mem| == REGISTERS
    requires forall w: uint16 :: file(w) == WithBit(mem, plans[i].address.word, plans[i].address.bit, target)[w]
    requires AllLegal(batches) && AnsweredFrom(file, batches, turns)
    ensures var result := ScanResult(last, disconnected, log, batches, turns, plans, Ids(plans), now);
            var p, q := plans[i], plans[j];
            && Shows(result, p, VBool(target))
            && (!Touches(q.address, p.address.word) || (IsBit(q) && q.address.bit != p.address.bit) ==>
                  Spanned(q.address) && PointIn(mem, q).Ok? && Shows(result, q, PointIn(mem, q).value))
  {
    var after := WithBit(mem, plans[i].address.word, plans[i].address.bit, target);
    ScanShowsThePoint(after, file, last, disconnected, log, batches, turns, plans, now, i);
    ScanShowsThePoint(after, file, last, disconnected, log, batches, turns, plans, now, j);
    BitWriteReadsBackAndNothingElseMoves(mem, plans[i], target, plans[j]);
  }
}

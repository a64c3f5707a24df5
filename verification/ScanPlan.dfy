/**
  The scan plan: readable points are packed greedily into FC03 batches.
  Addresses are taken as parsed (a D word, and a bit for a bit point).
*/
module ScanPlan {
  import opened Wrappers
  import opened Counting
  import opened Float32
  import opened Octets

  const MAX_BATCH := 125

  datatype PointType = BoolPoint | Int16Point | Uint16Point | Int32Point | Float32Point | OtherPoint(name: string)

  datatype WordOrder = LowHigh | HighLow | NoOrder

  datatype Access = ReadOnly | WriteOnly | ReadWrite

  datatype WriteMethod = MaskWrite | Fc06 | Fc10 | NoWrite

  // A configured value as JSON delivers it: a truth value, or a float64.
  datatype Configured = Flag(b: bool) | Number(value: Dyadic)

  datatype Definition = Definition(
    pointId: string, pointType: PointType, access: Access, word: uint16, bit: nat,
    registerCount: int, wordOrder: WordOrder, writePoint: string, writeMethod: WriteMethod,
    alarmValue: Option<Configured>)

  datatype Address = Address(word: uint16, bit: nat, count: uint16, bitIO: bool)

  datatype PointPlan = PointPlan(definition: Definition, address: Address)

  datatype Batch = Batch(start: uint16, words: seq<uint16>)

  // -------------------------------------------------------------- configuration

  /** validateRegisterLayout: the only register counts and word orders a configuration may have. */
  predicate ValidLayout(d: Definition) {
    match d.pointType
    case Float32Point => d.registerCount == 2 && d.wordOrder != NoOrder
    case Int32Point => d.registerCount == 2 && d.wordOrder != NoOrder
    case Int16Point => d.registerCount == 1 && d.wordOrder == NoOrder
    case Uint16Point => d.registerCount == 1 && d.wordOrder == NoOrder
    case _ => d.registerCount == 0 && d.wordOrder == NoOrder
  }

  /** What a normalized configuration guarantees about its points. */
  ghost predicate Normalized(points: seq<Definition>) {
    && (forall i :: 0 <= i < |points| ==> ValidLayout(points[i]) && points[i].bit <= 15)
    && (forall i, j :: 0 <= i < j < |points| ==> points[i].pointId != points[j].pointId)
  }

  function PlanAddress(d: Definition): Result<Address> {
    match d.pointType
    case BoolPoint =>
      if d.access != ReadOnly && d.writeMethod != MaskWrite then Err("Easy521 bit writes require writeMethod maskWrite")
      else Ok(Address(d.word, d.bit, 1, true))
    case OtherPoint(name) => Err("Easy521 FC03 numeric path does not support type \"" + name + "\"")
    case _ =>
      if d.registerCount < 0 || d.word + d.registerCount > 0x1_0000 then Err("register span is outside the PLC address range")
      else if d.access != ReadOnly && d.writeMethod != Fc06 && d.writeMethod != Fc10 then Err("numeric writes require writeMethod fc06 or fc10")
      else Ok(Address(d.word, 0, d.registerCount % 0x1_0000, false))
  }

  /** A span of one or two words inside the 65536-word space. */
  ghost predicate Spanned(a: Address) {
    1 <= a.count <= 2 && a.word + a.count <= 0x1_0000
  }

  lemma PlannedAddressesAreSpans(d: Definition)
    requires ValidLayout(d) && PlanAddress(d).Ok?
    ensures Spanned(PlanAddress(d).value) && PlanAddress(d).value.word == d.word
  {
  }

  /** Which points the PLC path can address: bits that are written by mask writes, numbers inside the address space that are written by FC06 or FC10. */
  predicate Addressable(d: Definition) {
    match d.pointType
    case BoolPoint => d.access == ReadOnly || d.writeMethod == MaskWrite
    case OtherPoint(_) => false
    case _ => 0 <= d.registerCount <= 65536 - d.word && (d.access == ReadOnly || d.writeMethod == Fc06 || d.writeMethod == Fc10)
  }

  /** They are planned, at their own word, bit and length. */
  lemma PlannedExactlyWhenAddressable(d: Definition)
    requires ValidLayout(d)
    ensures PlanAddress(d).Ok? <==> Addressable(d)
    ensures PlanAddress(d).Ok? ==>
      PlanAddress(d).value == if d.pointType.BoolPoint? then Address(d.word, d.bit, 1, true)
                              else Address(d.word, 0, if d.pointType.Int32Point? || d.pointType.Float32Point? then 2 else 1, false)
  {
  }

  // -------------------------------------------------------------- batches

  /** The last word of a span, in uint16 arithmetic. */
  function AddressEnd(a: Address): uint16 {
    (a.word + a.count - 1) % 0x1_0000
  }

  function MaxWord(a: uint16, b: uint16): uint16 {
    if a > b then a else b
  }

  function NewReadBatch(start: uint16, end: uint16): (b: Batch)
    ensures b.start == start && |b.words| == (end - start) % 0x1_0000 + 1
    ensures forall i :: 0 <= i < |b.words| ==> b.words[i] == (start + i) % 0x1_0000
  {
    Batch(start, seq((end - start) % 0x1_0000 + 1, i requires 0 <= i => (start + i) % 0x1_0000))
  }

  /** A request FC03 allows: 1 to 125 consecutive words inside the address space. */
  ghost predicate Legal(b: Batch) {
    && 1 <= |b.words| <= 125
    && b.start + |b.words| <= 0x1_0000
    && forall i :: 0 <= i < |b.words| ==> b.words[i] == b.start + i
  }

  predicate Covers(b: Batch, a: Address) {
    b.start <= a.word && a.word + a.count <= b.start + |b.words|
  }

  ghost predicate Used(w: int, plans: seq<PointPlan>) {
    exists i :: 0 <= i < |plans| && plans[i].address.word <= w < plans[i].address.word + plans[i].address.count
  }

  /** A batch that asks for no word outside the points' own. */
  ghost predicate Frugal(b: Batch, plans: seq<PointPlan>) {
    forall w :: b.start <= w < b.start + |b.words| ==> Used(w, plans)
  }

  ghost predicate CoversAll(batches: seq<Batch>, plans: seq<PointPlan>) {
    forall i :: 0 <= i < |plans| ==> CoveredBy(batches, plans[i].address)
  }

  ghost predicate CoveredBy(batches: seq<Batch>, a: Address) {
    exists k :: 0 <= k < |batches| && Covers(batches[k], a)
  }

  /** Any set of requests that could serve as a plan for these points. */
  ghost predicate Serves(batches: seq<Batch>, plans: seq<PointPlan>) {
    && (forall k :: 0 <= k < |batches| ==> Legal(batches[k]) && Frugal(batches[k], plans))
    && CoversAll(batches, plans)
  }

  /** Starts and ends strictly increase, and neighbours share at most one word. */
  ghost predicate Ordered(batches: seq<Batch>) {
    forall k :: 0 <= k < |batches| - 1 ==> Follows(batches[k], batches[k + 1])
  }

  ghost predicate Follows(b: Batch, next: Batch) {
    && b.start < next.start
    && b.start + |b.words| < next.start + |next.words|
    && b.start + |b.words| - 1 <= next.start
  }

  ghost predicate Minimal(batches: seq<Batch>, plans: seq<PointPlan>) {
    forall other: seq<Batch> :: Serves(other, plans) ==> |batches| <= |other|
  }

  // -------------------------------------------------------------- sorting

  predicate KeyBefore(a: Address, b: Address) {
    a.word < b.word || (a.word == b.word && a.count <= b.count)
  }

  ghost predicate SortedPlans(s: seq<PointPlan>) {
    forall i, j :: 0 <= i < j < |s| ==> KeyBefore(s[i].address, s[j].address)
  }

  function Insert(p: PointPlan, s: seq<PointPlan>): seq<PointPlan>
    decreases |s|
  {
    if s == [] || KeyBefore(p.address, s[0].address) then [p] + s
    else [s[0]] + Insert(p, s[1..])
  }

  lemma {:induction false} InsertKeepsAll(p: PointPlan, s: seq<PointPlan>)
    ensures multiset(Insert(p, s)) == multiset(s) + multiset{p}
    ensures forall q :: q in Insert(p, s) <==> q == p || q in s
    decreases |s|
  {
    if s != [] && !KeyBefore(p.address, s[0].address) {
      InsertKeepsAll(p, s[1..]);
      assert s == [s[0]] + s[1..];
    }
  }

  lemma FirstStaysFirst(first: PointPlan, rest: seq<PointPlan>)
    requires SortedPlans(rest) && forall q :: q in rest ==> KeyBefore(first.address, q.address)
    ensures SortedPlans([first] + rest)
  {
    var all := [first] + rest;
    forall i, j | 0 <= i < j < |all| ensures KeyBefore(all[i].address, all[j].address) {
      if i == 0 {
        assert all[j] in rest;
      } else {
        assert all[i] == rest[i - 1] && all[j] == rest[j - 1];
      }
    }
  }

  lemma SortedTail(s: seq<PointPlan>)
    requires SortedPlans(s) && s != []
    ensures SortedPlans(s[1..]) && forall q :: q in s[1..] ==> KeyBefore(s[0].address, q.address)
  {
  }

  lemma {:induction false} InsertSorts(p: PointPlan, s: seq<PointPlan>)
    requires SortedPlans(s)
    ensures SortedPlans(Insert(p, s))
    decreases |s|
  {
    if s != [] {
      SortedTail(s);
      if KeyBefore(p.address, s[0].address) {
        FirstStaysFirst(p, s);
      } else {
        InsertSorts(p, s[1..]);
        InsertKeepsAll(p, s[1..]);
        FirstStaysFirst(s[0], Insert(p, s[1..]));
      }
    }
  }

  /** The readable points by (word, count). Points with equal keys span the same words. */
  function Sorted(s: seq<PointPlan>): seq<PointPlan>
    decreases |s|
  {
    if s == [] then [] else Insert(s[|s| - 1], Sorted(s[..|s| - 1]))
  }

  lemma {:induction false} SortedSorts(s: seq<PointPlan>)
    ensures SortedPlans(Sorted(s)) && multiset(Sorted(s)) == multiset(s)
    decreases |s|
  {
    if s != [] {
      SortedSorts(s[..|s| - 1]);
      InsertSorts(s[|s| - 1], Sorted(s[..|s| - 1]));
      InsertKeepsAll(s[|s| - 1], Sorted(s[..|s| - 1]));
      assert s == s[..|s| - 1] + [s[|s| - 1]];
    }
  }

  // -------------------------------------------------------------- greedy packing

  ghost predicate AllSpans(plans: seq<PointPlan>) {
    forall i :: 0 <= i < |plans| ==> Spanned(plans[i].address)
  }

  /** No batch that could serve holds both points. */
  ghost predicate Apart(plans: seq<PointPlan>, x: nat, y: nat)
    requires x < |plans| && y < |plans|
  {
    forall b: Batch :: Legal(b) && Frugal(b, plans) ==> !(Covers(b, plans[x].address) && Covers(b, plans[y].address))
  }

  function OpenBatch(start: uint16, end: uint16): Batch {
    NewReadBatch(start, end)
  }

  /** The first `i` points are packed: `batches` are closed, start..end is still open,
      and each batch began at the point `firsts` names. */
  ghost predicate Packed(plans: seq<PointPlan>, i: nat, batches: seq<Batch>, start: uint16, end: uint16, firsts: seq<nat>) {
    && i <= |plans| && |firsts| == |batches| + 1
    && start <= end && end - start + 1 <= MAX_BATCH
    && (forall j :: 0 <= j < i ==> plans[j].address.word + plans[j].address.count - 1 <= end)
    && (forall j :: 0 <= j < i ==> CoveredBy(batches, plans[j].address) || start <= plans[j].address.word)
    && (forall w :: start <= w <= end ==> Used(w, plans))
    && (forall k :: 0 <= k < |batches| ==> Legal(batches[k]) && Frugal(batches[k], plans))
    && Ordered(batches + [OpenBatch(start, end)])
    && (forall k :: 0 <= k < |firsts| ==> firsts[k] < i && plans[firsts[k]].address.word <= start)
    && PairwiseApart(plans, firsts)
  }

  ghost predicate PairwiseApart(plans: seq<PointPlan>, firsts: seq<nat>) {
    && (forall k :: 0 <= k < |firsts| ==> firsts[k] < |plans|)
    && (forall x, y :: 0 <= x < y < |firsts| ==> Apart(plans, firsts[x], firsts[y]))
  }

  lemma StartPacking(plans: seq<PointPlan>)
    requires AllSpans(plans) && plans != []
    ensures var a := plans[0].address; Packed(plans, 1, [], a.word, AddressEnd(a), [0])
  {
    var a := plans[0].address;
    forall w | a.word <= w <= AddressEnd(a) ensures Used(w, plans) {
      assert plans[0].address.word <= w < plans[0].address.word + plans[0].address.count;
    }
  }

  lemma UsedBy(plans: seq<PointPlan>, i: nat, w: int)
    requires i < |plans| && plans[i].address.word <= w < plans[i].address.word + plans[i].address.count
    ensures Used(w, plans)
  {
  }

  /** The next point joins the open batch. */
  lemma Joins(plans: seq<PointPlan>, i: nat, batches: seq<Batch>, start: uint16, end: uint16, firsts: seq<nat>)
    requires AllSpans(plans) && SortedPlans(plans) && i < |plans| && Packed(plans, i, batches, start, end, firsts)
    requires forall j :: 0 <= j < i ==> plans[j].address.word <= plans[i].address.word
    requires start <= plans[i].address.word <= end + 1
    requires MaxWord(end, AddressEnd(plans[i].address)) - start + 1 <= MAX_BATCH
    ensures Packed(plans, i + 1, batches, start, MaxWord(end, AddressEnd(plans[i].address)), firsts)
  {
    var a := plans[i].address;
    var next := MaxWord(end, AddressEnd(a));
    forall w | start <= w <= next ensures Used(w, plans) {
      if w > end {
        UsedBy(plans, i, w);
      }
    }
    var shorter, longer := batches + [OpenBatch(start, end)], batches + [OpenBatch(start, next)];
    forall k | 0 <= k < |longer| - 1 ensures Follows(longer[k], longer[k + 1]) {
      assert Follows(shorter[k], shorter[k + 1]);
    }
  }

  /** When the next point starts beyond the word after `end`, no point uses that word. */
  lemma WordBetween(plans: seq<PointPlan>, i: nat, end: uint16)
    requires SortedPlans(plans) && i < |plans| && plans[i].address.word > end + 1
    requires forall j :: 0 <= j < i ==> plans[j].address.word + plans[j].address.count - 1 <= end
    ensures !Used(end + 1, plans)
  {
    forall j | 0 <= j < |plans|
      ensures !(plans[j].address.word <= end + 1 < plans[j].address.word + plans[j].address.count)
    {
      assert j > i ==> KeyBefore(plans[i].address, plans[j].address);
    }
  }

  /** A point that cannot join is apart from every point a batch began with. */
  lemma SplitsApart(plans: seq<PointPlan>, i: nat, start: uint16, end: uint16, f: nat)
    requires AllSpans(plans) && SortedPlans(plans) && f < i < |plans|
    requires forall j :: 0 <= j < i ==> plans[j].address.word + plans[j].address.count - 1 <= end
    requires plans[f].address.word <= start <= end
    requires plans[i].address.word > end + 1 || plans[i].address.word + plans[i].address.count - start > MAX_BATCH
    ensures Apart(plans, f, i)
  {
    forall b: Batch | Legal(b) && Frugal(b, plans)
      ensures !(Covers(b, plans[f].address) && Covers(b, plans[i].address))
    {
      if plans[i].address.word > end + 1 {
        WordBetween(plans, i, end);
        assert b.start <= end + 1 < b.start + |b.words| ==> Used(end + 1, plans);
      }
    }
  }

  /** The open batch closes and the next point begins a new one. */
  lemma Closes(plans: seq<PointPlan>, i: nat, batches: seq<Batch>, start: uint16, end: uint16, firsts: seq<nat>)
    requires AllSpans(plans) && SortedPlans(plans) && i < |plans| && Packed(plans, i, batches, start, end, firsts)
    requires plans[i].address.word >= start
    requires plans[i].address.word > end + 1 || MaxWord(end, AddressEnd(plans[i].address)) - start + 1 > MAX_BATCH
    ensures var a := plans[i].address;
            Packed(plans, i + 1, batches + [NewReadBatch(start, end)], a.word, AddressEnd(a), firsts + [i])
  {
    var a := plans[i].address;
    var closed := NewReadBatch(start, end);
    var after := batches + [closed];
    assert AddressEnd(a) == a.word + a.count - 1;
    forall j | 0 <= j < i + 1 ensures CoveredBy(after, plans[j].address) || a.word <= plans[j].address.word {
      if j < i {
        if CoveredBy(batches, plans[j].address) {
          var k :| 0 <= k < |batches| && Covers(batches[k], plans[j].address);
          assert Covers(after[k], plans[j].address);
        } else {
          assert Covers(after[|batches|], plans[j].address);
        }
      }
    }
    forall w | a.word <= w <= AddressEnd(a) ensures Used(w, plans) {
      UsedBy(plans, i, w);
    }
    assert Legal(closed) && Frugal(closed, plans);
    var chain, longer := batches + [closed], after + [OpenBatch(a.word, AddressEnd(a))];
    forall k | 0 <= k < |longer| - 1 ensures Follows(longer[k], longer[k + 1]) {
      if k < |batches| {
        assert Follows(chain[k], chain[k + 1]);
      }
    }
    var more := firsts + [i];
    forall x, y | 0 <= x < y < |more| ensures Apart(plans, more[x], more[y]) {
      if y == |firsts| {
        SplitsApart(plans, i, start, end, firsts[x]);
      }
    }
  }

  /** Every point is covered once the last batch is closed. */
  lemma Finishes(plans: seq<PointPlan>, batches: seq<Batch>, start: uint16, end: uint16, firsts: seq<nat>)
    requires AllSpans(plans) && Packed(plans, |plans|, batches, start, end, firsts)
    ensures Serves(batches + [NewReadBatch(start, end)], plans) && Ordered(batches + [NewReadBatch(start, end)])
  {
    var after := batches + [NewReadBatch(start, end)];
    assert Legal(NewReadBatch(start, end)) && Frugal(NewReadBatch(start, end), plans);
    forall j | 0 <= j < |plans| ensures CoveredBy(after, plans[j].address) {
      if CoveredBy(batches, plans[j].address) {
        var k :| 0 <= k < |batches| && Covers(batches[k], plans[j].address);
        assert Covers(after[k], plans[j].address);
      } else {
        assert Covers(after[|batches|], plans[j].address);
      }
    }
  }

  /** Points that are pairwise apart need one batch each. */
  lemma ApartPointsNeedOwnBatches(plans: seq<PointPlan>, firsts: seq<nat>, other: seq<Batch>)
    requires PairwiseApart(plans, firsts) && Serves(other, plans)
    ensures |firsts| <= |other|
  {
    var home: seq<nat> := [];
    while |home| < |firsts|
      invariant |home| <= |firsts|
      invariant forall k :: 0 <= k < |home| ==> home[k] < |other| && Covers(other[home[k]], plans[firsts[k]].address)
    {
      var f := firsts[|home|];
      assert CoveredBy(other, plans[f].address);
      var k :| 0 <= k < |other| && Covers(other[k], plans[f].address);
      home := home + [k];
    }
    forall x, y | 0 <= x < y < |home| ensures home[x] != home[y] {
      assert Apart(plans, firsts[x], firsts[y]);
    }
    DistinctBelow(home, |other|);
  }

  lemma AsManyAsFirsts(plans: seq<PointPlan>, batches: seq<Batch>, firsts: seq<nat>)
    requires PairwiseApart(plans, firsts) && |batches| <= |firsts|
    ensures Minimal(batches, plans)
  {
    forall other: seq<Batch> | Serves(other, plans) ensures |batches| <= |other| {
      ApartPointsNeedOwnBatches(plans, firsts, other);
    }
  }

  /**
    buildPlan's loop. Its batches are legal requests that ask only for used words,
    cover every point, advance strictly with at most one shared word, and are as
    few as any such plan can have.
  */
  method PackBatches(plans: seq<PointPlan>) returns (batches: seq<Batch>)
    requires SortedPlans(plans) && AllSpans(plans)
    ensures Serves(batches, plans)
    ensures Ordered(batches)
    ensures Minimal(batches, plans)
  {
    batches := [];
    if |plans| == 0 {
      return;
    }
    var batchStart: uint16, batchEnd: uint16 := plans[0].address.word, AddressEnd(plans[0].address);
    ghost var firsts: seq<nat> := [0];
    StartPacking(plans);
    var i := 1;
    while i < |plans|
      invariant 1 <= i <= |plans|
      invariant Packed(plans, i, batches, batchStart, batchEnd, firsts)
      invariant batchStart <= plans[i - 1].address.word
    {
      var pointStart, pointEnd := plans[i].address.word, AddressEnd(plans[i].address);
      var adjacent: int := batchEnd + 1;
      var contiguous := pointStart <= adjacent;
      var fits := MaxWord(batchEnd, pointEnd) - batchStart + 1 <= MAX_BATCH;
      assert KeyBefore(plans[i - 1].address, plans[i].address);
      if !contiguous || !fits {
        Closes(plans, i, batches, batchStart, batchEnd, firsts);
        batches := batches + [NewReadBatch(batchStart, batchEnd)];
        batchStart, batchEnd := pointStart, pointEnd;
        firsts := firsts + [i];
      } else {
        Joins(plans, i, batches, batchStart, batchEnd, firsts);
        batchEnd := MaxWord(batchEnd, pointEnd);
      }
      i := i + 1;
    }
    Finishes(plans, batches, batchStart, batchEnd, firsts);
    batches := batches + [NewReadBatch(batchStart, batchEnd)];
    AsManyAsFirsts(plans, batches, firsts);
  }

  // -------------------------------------------------------------- the whole plan

  datatype Plan = Plan(
    points: map<string, PointPlan>, byWord: map<uint16, seq<PointPlan>>, readable: set<string>, batches: seq<Batch>)

  predicate AllPlanned(points: seq<Definition>) {
    forall i :: 0 <= i < |points| ==> PlanAddress(points[i]).Ok?
  }

  function PlanOf(d: Definition): PointPlan
    requires PlanAddress(d).Ok?
  {
    PointPlan(d, PlanAddress(d).value)
  }

  /** The readable points, in configuration order. */
  function ReadPlans(points: seq<Definition>): seq<PointPlan>
    requires AllPlanned(points)
    decreases |points|
  {
    if points == [] then []
    else
      var d := points[|points| - 1];
      ReadPlans(points[..|points| - 1]) + (if d.access != WriteOnly then [PlanOf(d)] else [])
  }

  /** The readable points whose span starts at a word, in configuration order. */
  function StartingAt(plans: seq<PointPlan>, w: uint16): seq<PointPlan>
    decreases |plans|
  {
    if plans == [] then []
    else
      var p := plans[|plans| - 1];
      StartingAt(plans[..|plans| - 1], w) + (if p.address.word == w then [p] else [])
  }

  predicate WritePointFits(points: map<string, PointPlan>, p: PointPlan) {
    p.definition.access != ReadOnly ==>
      && p.definition.writePoint in points
      && points[p.definition.writePoint].definition.pointType == p.definition.pointType
      && points[p.definition.writePoint].address.bitIO == p.address.bitIO
  }

  /** The table of points by id. */
  ghost predicate Tabulates(table: map<string, PointPlan>, points: seq<Definition>)
    requires AllPlanned(points)
  {
    && (forall i :: 0 <= i < |points| ==> points[i].pointId in table && table[points[i].pointId] == PlanOf(points[i]))
    && (forall id :: id in table ==> exists i :: 0 <= i < |points| && points[i].pointId == id)
  }

  function PointsAt(byWord: map<uint16, seq<PointPlan>>, word: uint16): seq<PointPlan> {
    if word in byWord then byWord[word] else []
  }

  ghost predicate IndexesWords(byWord: map<uint16, seq<PointPlan>>, plans: seq<PointPlan>) {
    forall w: uint16 {:trigger PointsAt(byWord, w)} :: PointsAt(byWord, w) == StartingAt(plans, w)
  }

  /** What a plan must be for these points. */
  ghost predicate PlanFits(plan: Plan, points: seq<Definition>) {
    && AllPlanned(points)
    && Tabulates(plan.points, points)
    && IndexesWords(plan.byWord, ReadPlans(points))
    && plan.readable == ReadableIds(points)
    && Serves(plan.batches, ReadPlans(points)) && Ordered(plan.batches) && Minimal(plan.batches, ReadPlans(points))
  }

  lemma {:induction false} ReadPlansAre(points: seq<Definition>)
    requires AllPlanned(points)
    ensures forall p :: p in ReadPlans(points) <==> exists i :: 0 <= i < |points| && points[i].access != WriteOnly && p == PlanOf(points[i])
    decreases |points|
  {
    if points != [] {
      var n := |points| - 1;
      ReadPlansAre(points[..n]);
      forall p ensures p in ReadPlans(points) <==> exists i :: 0 <= i < |points| && points[i].access != WriteOnly && p == PlanOf(points[i]) {
        if p in ReadPlans(points[..n]) {
          var i :| 0 <= i < n && points[..n][i].access != WriteOnly && p == PlanOf(points[..n][i]);
          assert points[i] == points[..n][i];
        }
        if i :| 0 <= i < |points| && points[i].access != WriteOnly && p == PlanOf(points[i]) {
          if i < n {
            assert points[..n][i] == points[i];
          }
        }
      }
    }
  }

  /** Serving depends on which points there are, not on their order. */
  lemma ServesInAnyOrder(batches: seq<Batch>, s: seq<PointPlan>, t: seq<PointPlan>)
    requires multiset(s) == multiset(t)
    ensures Serves(batches, s) ==> Serves(batches, t)
  {
    if Serves(batches, s) {
      forall k | 0 <= k < |batches| ensures Frugal(batches[k], t) {
        forall w | batches[k].start <= w < batches[k].start + |batches[k].words| ensures Used(w, t) {
          assert Used(w, s);
          var i :| 0 <= i < |s| && s[i].address.word <= w < s[i].address.word + s[i].address.count;
          assert s[i] in multiset(t);
          var j :| 0 <= j < |t| && t[j] == s[i];
        }
      }
      forall i | 0 <= i < |t| ensures CoveredBy(batches, t[i].address) {
        assert t[i] in multiset(s);
        var j :| 0 <= j < |s| && s[j] == t[i];
        assert CoveredBy(batches, s[j].address);
      }
    }
  }

  lemma AppendStartingAt(plans: seq<PointPlan>, p: PointPlan, w: uint16)
    ensures StartingAt(plans + [p], w) == StartingAt(plans, w) + (if p.address.word == w then [p] else [])
  {
    assert (plans + [p])[..|plans|] == plans;
  }

  /** A writable point names a configured point of its own type to write to. */
  ghost predicate WritesLike(points: seq<Definition>, d: Definition) {
    d.access != ReadOnly ==> exists j :: 0 <= j < |points| && points[j].pointId == d.writePoint && points[j].pointType == d.pointType
  }

  lemma PlannedBits(d: Definition)
    requires PlanAddress(d).Ok?
    ensures PlanOf(d).address.bitIO == d.pointType.BoolPoint? && PlanOf(d).definition == d
  {
  }

  lemma LookupIsThePoint(table: map<string, PointPlan>, points: seq<Definition>, id: string)
    requires AllPlanned(points) && Tabulates(table, points)
    ensures id in table ==> exists j :: 0 <= j < |points| && points[j].pointId == id && table[id] == PlanOf(points[j])
    ensures forall j :: 0 <= j < |points| && points[j].pointId == id ==> id in table && table[id] == PlanOf(points[j])
  {
    if id in table {
      var j :| 0 <= j < |points| && points[j].pointId == id;
      assert table[points[j].pointId] == PlanOf(points[j]);
    }
  }

  lemma WritePointLookup(table: map<string, PointPlan>, points: seq<Definition>, i: nat)
    requires AllPlanned(points) && Tabulates(table, points) && i < |points|
    ensures WritePointFits(table, PlanOf(points[i])) <==> WritesLike(points, points[i])
  {
    var d := points[i];
    PlannedBits(d);
    LookupIsThePoint(table, points, d.writePoint);
    if d.access != ReadOnly && d.writePoint in table {
      var j :| 0 <= j < |points| && points[j].pointId == d.writePoint && table[d.writePoint] == PlanOf(points[j]);
      PlannedBits(points[j]);
    }
  }

  lemma {:induction false} ReadPlansAreSpans(points: seq<Definition>)
    requires Normalized(points) && AllPlanned(points)
    ensures AllSpans(ReadPlans(points))
    decreases |points|
  {
    if points != [] {
      ReadPlansAreSpans(points[..|points| - 1]);
      PlannedAddressesAreSpans(points[|points| - 1]);
    }
  }

  lemma SpansInAnyOrder(s: seq<PointPlan>, t: seq<PointPlan>)
    requires AllSpans(s) && multiset(s) == multiset(t)
    ensures AllSpans(t)
  {
    forall i | 0 <= i < |t| ensures Spanned(t[i].address) {
      assert t[i] in multiset(s);
    }
  }

  lemma MinimalInAnyOrder(batches: seq<Batch>, s: seq<PointPlan>, t: seq<PointPlan>)
    requires Minimal(batches, s) && multiset(s) == multiset(t)
    ensures Minimal(batches, t)
  {
    forall other: seq<Batch> | Serves(other, t) ensures |batches| <= |other| {
      ServesInAnyOrder(other, t, s);
    }
  }

  /** Sorting the readable points and packing them. */
  method PlanBatches(readPlans: seq<PointPlan>) returns (batches: seq<Batch>)
    requires AllSpans(readPlans)
    ensures Serves(batches, readPlans) && Ordered(batches) && Minimal(batches, readPlans)
  {
    var plans := Sorted(readPlans);
    SortedSorts(readPlans);
    SpansInAnyOrder(readPlans, plans);
    batches := PackBatches(plans);
    ServesInAnyOrder(batches, plans, readPlans);
    MinimalInAnyOrder(batches, plans, readPlans);
  }

  function ReadableIds(points: seq<Definition>): set<string> {
    set d | d in points && d.access != WriteOnly :: d.pointId
  }

  lemma IndexMore(byWord: map<uint16, seq<PointPlan>>, plans: seq<PointPlan>, p: PointPlan)
    requires IndexesWords(byWord, plans)
    ensures var w := p.address.word;
            IndexesWords(byWord[w := PointsAt(byWord, w) + [p]], plans + [p])
  {
    var w := p.address.word;
    var after := byWord[w := PointsAt(byWord, w) + [p]];
    forall x: uint16 ensures PointsAt(after, x) == StartingAt(plans + [p], x) {
      AppendStartingAt(plans, p, x);
      assert PointsAt(byWord, x) == StartingAt(plans, x);
    }
  }

  lemma TabulateMore(table: map<string, PointPlan>, points: seq<Definition>, d: Definition)
    requires AllPlanned(points) && PlanAddress(d).Ok? && Tabulates(table, points) && Normalized(points + [d])
    ensures AllPlanned(points + [d]) && Tabulates(table[d.pointId := PlanOf(d)], points + [d])
  {
    var more, after := points + [d], table[d.pointId := PlanOf(d)];
    forall i | 0 <= i < |more| ensures more[i].pointId in after && after[more[i].pointId] == PlanOf(more[i]) {
      if i < |points| {
        assert more[i] == points[i] && more[i].pointId != more[|points|].pointId;
      }
    }
    forall id | id in after ensures exists i :: 0 <= i < |more| && more[i].pointId == id {
      if id == d.pointId {
        assert more[|points|].pointId == id;
      } else {
        var i :| 0 <= i < |points| && points[i].pointId == id;
        assert more[i].pointId == id;
      }
    }
  }

  /** One more configured point. */
  lemma NextPrefix(points: seq<Definition>, i: nat)
    requires Normalized(points) && i < |points| && AllPlanned(points[..i])
    ensures points[..i + 1] == points[..i] + [points[i]] && Normalized(points[..i + 1])
    ensures AllPlanned(points[..i + 1]) <==> PlanAddress(points[i]).Ok?
    ensures PlanAddress(points[i]).Ok? ==>
      ReadPlans(points[..i + 1]) == ReadPlans(points[..i]) + (if points[i].access != WriteOnly then [PlanOf(points[i])] else [])
    ensures ReadableIds(points[..i + 1]) == ReadableIds(points[..i]) + (if points[i].access != WriteOnly then {points[i].pointId} else {})
  {
    var more := points[..i + 1];
    assert more[..i] == points[..i] && more[i] == points[i];
  }

  ghost predicate Indexed(points: seq<Definition>, table: map<string, PointPlan>, byWord: map<uint16, seq<PointPlan>>,
                          readable: set<string>, readPlans: seq<PointPlan>) {
    && AllPlanned(points) && readPlans == ReadPlans(points) && readable == ReadableIds(points)
    && Tabulates(table, points) && IndexesWords(byWord, readPlans)
  }

  lemma IndexedNext(points: seq<Definition>, i: nat, table: map<string, PointPlan>, byWord: map<uint16, seq<PointPlan>>,
                    readable: set<string>, readPlans: seq<PointPlan>)
    requires Normalized(points) && i < |points| && Indexed(points[..i], table, byWord, readable, readPlans) && PlanAddress(points[i]).Ok?
    ensures var d, p := points[i], PlanOf(points[i]);
            if d.access == WriteOnly then Indexed(points[..i + 1], table[d.pointId := p], byWord, readable, readPlans)
            else Indexed(points[..i + 1], table[d.pointId := p], byWord[p.address.word := PointsAt(byWord, p.address.word) + [p]],
                         readable + {d.pointId}, readPlans + [p])
  {
    NextPrefix(points, i);
    TabulateMore(table, points[..i], points[i]);
    IndexMore(byWord, readPlans, PlanOf(points[i]));
  }

  /** The tables of the first loop of buildPlan; an error stops at the first unplannable address. */
  method IndexPoints(points: seq<Definition>)
    returns (failed: bool, table: map<string, PointPlan>, byWord: map<uint16, seq<PointPlan>>, readable: set<string>, readPlans: seq<PointPlan>)
    requires Normalized(points)
    ensures failed <==> !AllPlanned(points)
    ensures !failed ==> Indexed(points, table, byWord, readable, readPlans)
  {
    failed, table, byWord, readable, readPlans := false, map[], map[], {}, [];
    var i := 0;
    while i < |points|
      invariant 0 <= i <= |points|
      invariant Indexed(points[..i], table, byWord, readable, readPlans)
    {
      var d := points[i];
      var address := PlanAddress(d);
      if address.Err? {
        NextPrefix(points, i);
        failed := true;
        return;
      }
      var point := PointPlan(d, address.value);
      IndexedNext(points, i, table, byWord, readable, readPlans);
      table := table[d.pointId := point];
      if d.access != WriteOnly {
        var w := address.value.word;
        byWord := byWord[w := PointsAt(byWord, w) + [point]];
        readable := readable + {d.pointId};
        readPlans := readPlans + [point];
      }
      i := i + 1;
    }
    assert points[..|points|] == points;
  }

  /** buildPlan on a normalized configuration: it succeeds exactly when every address
      is plannable and every writable point writes to a point like itself. */
  method BuildPlan(points: seq<Definition>) returns (r: Result<Plan>)
    requires Normalized(points)
    ensures r.Ok? <==> AllPlanned(points) && forall i :: 0 <= i < |points| ==> WritesLike(points, points[i])
    ensures r.Ok? ==> PlanFits(r.value, points)
  {
    var failed, table, byWord, readable, readPlans := IndexPoints(points);
    if failed {
      return Err("a point's address cannot be planned");
    }
    var k := 0;
    while k < |points|
      invariant 0 <= k <= |points|
      invariant forall j :: 0 <= j < k ==> WritesLike(points, points[j])
    {
      WritePointLookup(table, points, k);
      if !WritePointFits(table, PlanOf(points[k])) {
        return Err("writePoint is not a supported Easy521 point");
      }
      k := k + 1;
    }
    ReadPlansAreSpans(points);
    var batches := PlanBatches(readPlans);
    r := Ok(Plan(table, byWord, readable, batches));
  }
}

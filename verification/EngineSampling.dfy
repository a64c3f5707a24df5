/** Production does not depend on when, or how often, the line is sampled. */
module PlcSimSampling {
  import opened Wrappers
  import opened Contract
  import opened PlcSim
  import opened PlcSimRuns
  import opened PlcSimTheorems

  function Ticks(cfg: Config, s: State, times: seq<int>): State
    requires |cfg.caps| == 3
    decreases |times|
  {
    if times == [] then s
    else
      var before := Ticks(cfg, s, times[..|times| - 1]);
      Kept(before, Ticked(cfg, before, times[|times| - 1], true))
  }

  /** A state without its sampling bookkeeping and the lists derived from the rest. */
  function Core(s: State): State {
    s.(sampleSequence := 0, points := s.points.(bins := [], alarms := []))
  }

  /** All production counters, bins, settings, faults and records: all but the
      sequence number, the schedule and the alarm list (whose entries carry the
      sampling time at which they were first seen). */
  function Production(s: State): State {
    s.(sampleSequence := 0, nextAt := None, points := s.points.(alarms := []))
  }

  lemma ProduceCore(cfg: Config, s: State)
    ensures Core(ProduceOne(cfg, s)) == ProduceOne(cfg, Core(s))
  {
    assert StockOf(Core(s)) == StockOf(s) && Core(s).points.inspectInterval == s.points.inspectInterval;
    CoreOfStock(s, ProduceStock(cfg, StockOf(s), s.points.inspectInterval));
  }

  lemma CoreOfStock(s: State, k: Stock)
    ensures Core(WithStock(s, k)) == WithStock(Core(s), k)
  {
  }

  lemma ProduceFrames(cfg: Config, s: State, t: State)
    requires Core(s) == Core(t)
    ensures Core(ProduceOne(cfg, s)) == Core(ProduceOne(cfg, t))
  {
    ProduceCore(cfg, s);
    ProduceCore(cfg, t);
  }

  lemma {:induction false} CatchUpFrames(cfg: Config, s: State, t: State, cycle: int)
    requires |cfg.caps| == 3 && Core(s) == Core(t)
    ensures Core(CatchUp(cfg, s, cycle)) == Core(CatchUp(cfg, t, cycle))
    decreases s.points.target - s.points.counts.output
  {
    assert Core(s).points == s.points.(bins := [], alarms := []) && Core(t).points == t.points.(bins := [], alarms := []);
    assert Core(s).nextAt == s.nextAt == t.nextAt && Core(s).generatedAt == s.generatedAt == t.generatedAt;
    assert CanProduce(s.points) == CanProduce(Core(s).points) == CanProduce(t.points);
    assert HasCapacity(cfg, s) == HasCapacity(cfg, Core(s)) == HasCapacity(cfg, t);
    if s.nextAt.Some? && s.generatedAt >= s.nextAt.value && CanProduce(s.points) && HasCapacity(cfg, s) {
      ProduceFrames(cfg, s, t);
      var at := Some(s.nextAt.value + cycle);
      assert Core(ProduceOne(cfg, s).(nextAt := at)) == Core(ProduceOne(cfg, s)).(nextAt := at);
      assert Core(ProduceOne(cfg, t).(nextAt := at)) == Core(ProduceOne(cfg, t)).(nextAt := at);
      CatchUpFrames(cfg, ProduceOne(cfg, s).(nextAt := at), ProduceOne(cfg, t).(nextAt := at), cycle);
    }
  }

  /** Catching up to t1 and then to t2 is catching up to t2. */
  lemma {:induction false} CatchUpInTwo(cfg: Config, s: State, t1: int, t2: int, cycle: int)
    requires |cfg.caps| == 3 && t1 <= t2
    ensures CatchUp(cfg, CatchUp(cfg, s.(generatedAt := t1), cycle).(generatedAt := t2), cycle)
         == CatchUp(cfg, s.(generatedAt := t2), cycle)
    decreases s.points.target - s.points.counts.output
  {
    if s.nextAt.Some? && t1 >= s.nextAt.value && CanProduce(s.points) && HasCapacity(cfg, s) {
      var u := ProduceOne(cfg, s).(nextAt := Some(s.nextAt.value + cycle));
      assert ProduceOne(cfg, s.(generatedAt := t1)) == ProduceOne(cfg, s).(generatedAt := t1);
      assert ProduceOne(cfg, s.(generatedAt := t2)) == ProduceOne(cfg, s).(generatedAt := t2);
      CatchUpInTwo(cfg, u, t1, t2, cycle);
    }
  }

  /** `t` is where catching up from `s` to `now` leads, as far as production goes. */
  ghost predicate CaughtUp(cfg: Config, s: State, t: State, now: int)
    requires |cfg.caps| == 3
  {
    var goal := CatchUp(cfg, s.(generatedAt := now), s.points.cycleSeconds * SECOND);
    && Inv(cfg, t)
    && Core(t).(nextAt := None) == Core(goal).(nextAt := None)
    && (CanProduce(t.points) && HasCapacity(cfg, t) ==> t.nextAt == goal.nextAt)
  }

  lemma OneTick(cfg: Config, s: State, now: int)
    requires cfg.Valid() && Inv(cfg, s) && !s.faults.freezeData && s.nextAt.Some?
    ensures Ticked(cfg, s, now, true).Ok? && CaughtUp(cfg, s, Ticked(cfg, s, now, true).value, now)
  {
    var u := s.(sampleSequence := s.sampleSequence + 1, generatedAt := now);
    var cycle := s.points.cycleSeconds * SECOND;
    TickIsCatchUp(cfg, s, now);
    TickedInv(cfg, s, now);
    CatchUpFrames(cfg, u, s.(generatedAt := now), cycle);
  }

  lemma AnotherTick(cfg: Config, s: State, t: State, now: int, later: int)
    requires cfg.Valid() && Inv(cfg, s) && s.nextAt.Some? && !t.faults.freezeData && now <= later && CaughtUp(cfg, s, t, now)
    requires t.points.cycleSeconds == s.points.cycleSeconds && t.generatedAt == now
    ensures Ticked(cfg, t, later, true).Ok? && CaughtUp(cfg, s, Ticked(cfg, t, later, true).value, later)
  {
    var cycle := s.points.cycleSeconds * SECOND;
    var goal := CatchUp(cfg, s.(generatedAt := now), cycle);
    var goal' := CatchUp(cfg, s.(generatedAt := later), cycle);
    CatchUpInTwo(cfg, s, now, later, cycle);
    assert CatchUp(cfg, goal.(generatedAt := later), cycle) == goal';
    TickIsCatchUp(cfg, t, later);
    TickedInv(cfg, t, later);
    SameLineOfCore(cfg, t, goal);
    if CanProduce(t.points) && HasCapacity(cfg, t) {
      RunningTick(cfg, s, t, goal, later);
    } else {
      assert goal' == goal.(generatedAt := later);
      assert Core(goal').(nextAt := None) == Core(goal).(nextAt := None).(generatedAt := later);
    }
  }

  lemma SameLineOfCore(cfg: Config, s: State, t: State)
    requires |cfg.caps| == 3 && Core(s).(nextAt := None) == Core(t).(nextAt := None)
    ensures CanProduce(s.points) == CanProduce(t.points) && HasCapacity(cfg, s) == HasCapacity(cfg, t)
  {
    var c, d := Core(s).(nextAt := None), Core(t).(nextAt := None);
    assert CanProduce(s.points) == CanProduce(c.points) && CanProduce(t.points) == CanProduce(d.points);
    assert HasCapacity(cfg, s) == HasCapacity(cfg, c) && HasCapacity(cfg, t) == HasCapacity(cfg, d);
  }

  lemma RunningTick(cfg: Config, s: State, t: State, goal: State, later: int)
    requires cfg.Valid() && Inv(cfg, t) && CanProduce(t.points) && HasCapacity(cfg, t)
    requires Core(t).(nextAt := None) == Core(goal).(nextAt := None) && t.nextAt == goal.nextAt && t.nextAt.Some?
    requires t.points.cycleSeconds == s.points.cycleSeconds
    ensures var cycle := s.points.cycleSeconds * SECOND;
            Core(TickCandidate(cfg, t, later)) == Core(CatchUp(cfg, goal.(generatedAt := later), cycle))
  {
    var u := t.(sampleSequence := t.sampleSequence + 1, generatedAt := later);
    var v := goal.(generatedAt := later);
    TickIsCatchUp(cfg, t, later);
    assert Core(u) == Core(t).(nextAt := None).(generatedAt := later, nextAt := t.nextAt);
    assert Core(v) == Core(goal).(nextAt := None).(generatedAt := later, nextAt := goal.nextAt);
    CatchUpFrames(cfg, u, v, s.points.cycleSeconds * SECOND);
  }

  ghost predicate Nondecreasing(times: seq<int>) {
    forall i, j :: 0 <= i < j < |times| ==> times[i] <= times[j]
  }

  /** Ticked to `now`, with faults and settings as they were. */
  ghost predicate Reached(cfg: Config, s: State, t: State, now: int)
    requires |cfg.caps| == 3
  {
    CaughtUp(cfg, s, t, now) && t.faults == s.faults && t.points.cycleSeconds == s.points.cycleSeconds && t.generatedAt == now
  }

  lemma FirstReached(cfg: Config, s: State, now: int)
    requires cfg.Valid() && Inv(cfg, s) && !s.faults.freezeData && s.nextAt.Some?
    ensures Reached(cfg, s, Kept(s, Ticked(cfg, s, now, true)), now)
  {
    OneTick(cfg, s, now);
    TickKeeps(cfg, s, now);
  }

  lemma NextReached(cfg: Config, s: State, t: State, now: int, later: int)
    requires cfg.Valid() && Inv(cfg, s) && !s.faults.freezeData && s.nextAt.Some? && now <= later && Reached(cfg, s, t, now)
    ensures Reached(cfg, s, Kept(t, Ticked(cfg, t, later, true)), later)
  {
    AnotherTick(cfg, s, t, now, later);
    TickKeeps(cfg, t, later);
  }

  lemma {:induction false} ManyTicks(cfg: Config, s: State, times: seq<int>)
    requires cfg.Valid() && Inv(cfg, s) && !s.faults.freezeData && s.nextAt.Some?
    requires times != [] && Nondecreasing(times)
    ensures Reached(cfg, s, Ticks(cfg, s, times), times[|times| - 1])
    decreases |times|
  {
    var n := |times| - 1;
    if n == 0 {
      FirstReached(cfg, s, times[0]);
    } else {
      ManyTicks(cfg, s, times[..n]);
      assert times[..n][n - 1] == times[n - 1] <= times[n];
      NextReached(cfg, s, Ticks(cfg, s, times[..n]), times[n - 1], times[n]);
    }
  }

  /**
    Sampling independence: with the schedule set, ticks at any nondecreasing times
    leave the production, bins and schedule-free state that one tick at the last
    of these times leaves.
  */
  lemma SamplingIndependence(cfg: Config, s: State, times: seq<int>)
    requires cfg.Valid() && Inv(cfg, s) && !s.faults.freezeData && s.nextAt.Some?
    requires times != [] && Nondecreasing(times)
    ensures Production(Ticks(cfg, s, times)) == Production(Ticks(cfg, s, [times[|times| - 1]]))
  {
    var last := times[|times| - 1];
    ManyTicks(cfg, s, times);
    ManyTicks(cfg, s, [last]);
    SameBins(cfg, Ticks(cfg, s, times), Ticks(cfg, s, [last]));
  }

  lemma SameBins(cfg: Config, s: State, t: State)
    requires |cfg.caps| == 3 && Settled(cfg, s) && Settled(cfg, t)
    requires Core(s).(nextAt := None) == Core(t).(nextAt := None)
    ensures Production(s) == Production(t)
  {
    var c, d := Core(s).(nextAt := None), Core(t).(nextAt := None);
    assert c.points.counts == s.points.counts && d.points.counts == t.points.counts;
    assert c.rejectBin == s.rejectBin && d.rejectBin == t.rejectBin && c.faults == s.faults && d.faults == t.faults;
    assert BinsOf(cfg, s) == BinsOf(cfg, t);
    assert RefreshDerived(cfg, s).points.bins == s.points.bins && RefreshDerived(cfg, t).points.bins == t.points.bins;
    assert Production(s) == c.(points := c.points.(bins := s.points.bins));
    assert Production(t) == d.(points := d.points.(bins := t.points.bins));
  }
}

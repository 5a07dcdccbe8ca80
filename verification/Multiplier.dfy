/** internal/surge/multiplier.go: ratio to multiplier, and how the price moves with demand, supply and time. */
module Multiplying {
  import opened Sets
  import opened StoreSpec
  import opened Surge

  datatype Step = Step(ratio: real, multiplier: real)

  datatype MultiplierConfig = MultiplierConfig(steps: seq<Step>, min: real, max: real)

  const DEFAULT_MULTIPLIERS := MultiplierConfig(
    [Step(0.0, 1.0), Step(1.5, 1.2), Step(3.0, 1.75), Step(5.0, 2.5), Step(8.0, 3.0)], 1.0, 3.0)

  predicate Reaches(r: Ratio, threshold: real) {
    r.Infinite? || r.value >= threshold
  }

  function Clamp(x: real, min: real, max: real): real {
    var low := if x < min then min else x;
    if low > max then max else low
  }

  /** The multiplier of the last step reached, or `min` if none is. */
  function Level(steps: seq<Step>, r: Ratio, min: real): (m: real)
    ensures (forall i :: 0 <= i < |steps| ==> !Reaches(r, steps[i].ratio)) ==> m == min
    ensures forall i ::
              0 <= i < |steps| && Reaches(r, steps[i].ratio)
                && (forall j :: i < j < |steps| ==> !Reaches(r, steps[j].ratio))
              ==> m == steps[i].multiplier
  {
    if steps == [] then min
    else if Reaches(r, steps[|steps| - 1].ratio) then steps[|steps| - 1].multiplier
    else Level(steps[..|steps| - 1], r, min)
  }

  function MultiplierAt(cfg: MultiplierConfig, r: Ratio): real {
    Clamp(Level(cfg.steps, r, cfg.min), cfg.min, cfg.max)
  }

  lemma LevelOfPrefix(steps: seq<Step>, r: Ratio, min: real, i: nat)
    requires i < |steps|
    ensures Level(steps[..i + 1], r, min)
            == if Reaches(r, steps[i].ratio) then steps[i].multiplier else Level(steps[..i], r, min)
  {
    assert steps[..i + 1][..i] == steps[..i];
  }

  /** Multiplier. */
  method ComputeMultiplier(cfg: MultiplierConfig, r: Ratio) returns (m: real)
    ensures m == MultiplierAt(cfg, r)
  {
    m := cfg.min;
    for i := 0 to |cfg.steps|
      invariant m == Level(cfg.steps[..i], r, cfg.min)
    {
      LevelOfPrefix(cfg.steps, r, cfg.min, i);
      if Reaches(r, cfg.steps[i].ratio) {
        m := cfg.steps[i].multiplier;
      }
    }
    assert cfg.steps[..|cfg.steps|] == cfg.steps;
    if m < cfg.min {
      m := cfg.min;
    }
    if m > cfg.max {
      m := cfg.max;
    }
  }

  /** Thresholds ascend and multipliers do not fall. */
  predicate Rising(steps: seq<Step>) {
    forall i, j :: 0 <= i < j < |steps|
      ==> steps[i].ratio < steps[j].ratio && steps[i].multiplier <= steps[j].multiplier
  }

  predicate AtMost(a: Ratio, b: Ratio) {
    b.Infinite? || (a.Finite? && a.value <= b.value)
  }

  /** With ascending thresholds the last step reached is the highest one. */
  lemma LevelIsHighestReached(steps: seq<Step>, r: Ratio, min: real, i: nat)
    requires Rising(steps) && i < |steps| && Reaches(r, steps[i].ratio)
    requires i + 1 < |steps| ==> !Reaches(r, steps[i + 1].ratio)
    ensures Level(steps, r, min) == steps[i].multiplier
  {
    forall j | i < j < |steps|
      ensures !Reaches(r, steps[j].ratio)
    {
      assert j > i + 1 ==> steps[i + 1].ratio < steps[j].ratio;
    }
  }

  /** The price at every finite ratio: that of the step whose threshold the ratio meets, exactly or beyond, without
      meeting the next; the floor below the first; and never outside the bounds. */
  lemma PriceAt(cfg: MultiplierConfig, x: real, i: nat)
    requires Rising(cfg.steps) && cfg.min <= cfg.max && i <= |cfg.steps|
    requires i > 0 ==> cfg.steps[i - 1].ratio <= x
    requires i < |cfg.steps| ==> x < cfg.steps[i].ratio
    ensures var price := if i == 0 then cfg.min else cfg.steps[i - 1].multiplier;
            MultiplierAt(cfg, Finite(x))
            == if price < cfg.min then cfg.min else if price > cfg.max then cfg.max else price
  {
    if i > 0 {
      LevelIsHighestReached(cfg.steps, Finite(x), cfg.min, i - 1);
    }
  }

  /** The default curve: 1, 1.2 from a ratio of 1.5, 1.75 from 3, 2.5 from 5, 3 from 8 and with no supply at all. */
  lemma DefaultPrices(x: real)
    ensures MultiplierAt(DEFAULT_MULTIPLIERS, Finite(x))
            == if x < 1.5 then 1.0 else if x < 3.0 then 1.2 else if x < 5.0 then 1.75 else if x < 8.0 then 2.5 else 3.0
    ensures MultiplierAt(DEFAULT_MULTIPLIERS, Infinite) == 3.0
  {
    var steps := DEFAULT_MULTIPLIERS.steps;
    var i := if x < 0.0 then 0 else if x < 1.5 then 1 else if x < 3.0 then 2 else if x < 5.0 then 3
             else if x < 8.0 then 4 else 5;
    assert Rising(steps);
    PriceAt(DEFAULT_MULTIPLIERS, x, i);
  }

  lemma {:induction false} LevelRises(steps: seq<Step>, a: Ratio, b: Ratio, min: real, max: real)
    requires Rising(steps) && AtMost(a, b)
    ensures Clamp(Level(steps, a, min), min, max) <= Clamp(Level(steps, b, min), min, max)
    ensures Level(steps, a, min) == min || exists i :: 0 <= i < |steps| && Level(steps, a, min) == steps[i].multiplier
  {
    if steps != [] {
      var n := |steps| - 1;
      var rest := steps[..n];
      LevelRises(rest, a, b, min, max);
      assert forall i :: 0 <= i < n ==> rest[i] == steps[i];
      if !Reaches(a, steps[n].ratio) && Reaches(b, steps[n].ratio) {
        if Level(rest, a, min) != min {
          var i :| 0 <= i < |rest| && Level(rest, a, min) == rest[i].multiplier;
          assert steps[i].multiplier <= steps[n].multiplier;
        }
      }
    }
  }

  /** The price is between its bounds and rises with the ratio. */
  lemma MultiplierIsBoundedAndRises(cfg: MultiplierConfig, a: Ratio, b: Ratio)
    requires cfg.min <= cfg.max && Rising(cfg.steps) && AtMost(a, b)
    ensures cfg.min <= MultiplierAt(cfg, a) <= MultiplierAt(cfg, b) <= cfg.max
  {
    LevelRises(cfg.steps, a, b, cfg.min, cfg.max);
  }

  /** An infinite ratio does not by itself hit the ceiling: it does exactly when the last step, or the floor, is as
      high. */
  lemma InfinityHitsCeilingIff(cfg: MultiplierConfig)
    ensures MultiplierAt(cfg, Infinite) == cfg.max
            <==> cfg.min >= cfg.max || (cfg.steps != [] && cfg.steps[|cfg.steps| - 1].multiplier >= cfg.max)
    ensures MultiplierAt(DEFAULT_MULTIPLIERS, Infinite) == DEFAULT_MULTIPLIERS.max
  {
  }

  /** The default curve without its top step: a price of 2.5 under demand with no supply at all, with a ceiling of 3. */
  lemma InfinityMayMissCeiling()
    ensures var cfg := DEFAULT_MULTIPLIERS.(steps := DEFAULT_MULTIPLIERS.steps[..4]);
            Rising(cfg.steps) && cfg.min < cfg.max && MultiplierAt(cfg, Infinite) == 2.5 < cfg.max
  {
  }

  lemma RatioRises(open: nat, available: nat, open': nat, available': nat)
    requires open <= open' && available >= available'
    ensures AtMost(RatioOf(open, available), RatioOf(open', available'))
  {
    if open > 0 && available' > 0 {
      var o, a, o', a' := open as real, available as real, open' as real, available' as real;
      var q := o / a;
      assert q >= 0.0 && q * a == o;
      assert q * a' <= q * a;
      AtMostQuotient(q, o', a');
    }
  }

  lemma AtMostQuotient(q: real, x: real, d: real)
    requires d > 0.0 && q * d <= x
    ensures q <= x / d
  {
    var r := x / d;
    assert r * d == x;
    if q > r {
      assert (q - r) * d > 0.0;
    }
  }

  /** The price never falls as trips open, and never rises as drivers become available. */
  lemma MultiplierFollowsDemandAndSupply(
    cfg: MultiplierConfig, open: nat, available: nat, open': nat, available': nat)
    requires cfg.min <= cfg.max && Rising(cfg.steps)
    requires open <= open' && available >= available'
    ensures MultiplierAt(cfg, RatioOf(open, available)) <= MultiplierAt(cfg, RatioOf(open', available'))
  {
    RatioRises(open, available, open', available');
    MultiplierIsBoundedAndRises(cfg, RatioOf(open, available), RatioOf(open', available'));
  }

  // ---- decay ---------------------------------------------------------------

  /** No trip is opened, or opened again, in the cell. */
  ghost predicate NoOpening(events: seq<Event>, cell: Cell) {
    forall k :: 0 <= k < |events| && events[k].Trip? && events[k].cell == cell ==> !Opens(events[k].state)
  }

  /** Without openings a trip can only close. */
  lemma {:induction false} OpenOnlyCloses(h: seq<Event>, more: seq<Event>, cell: Cell, id: string)
    requires NoOpening(more, cell)
    ensures LastOpen(h + more, cell, id).Some? ==> LastOpen(h + more, cell, id) == LastOpen(h, cell, id)
  {
    if more == [] {
      assert h + more == h;
    } else {
      var n := |more| - 1;
      OpenOnlyCloses(h, more[..n], cell, id);
      assert h + more == h + more[..n] + [more[n]];
      LastAppends(h + more[..n], more[n], cell, id);
    }
  }

  lemma DemandDecays(h: seq<Event>, more: seq<Event>, cell: Cell, now: Time, later: Time, window: int)
    requires NoOpening(more, cell) && now <= later
    ensures OpenTrips(h + more, cell, later, window) <= OpenTrips(h, cell, now, window)
  {
    forall id | id in OpenTrips(h + more, cell, later, window)
      ensures id in OpenTrips(h, cell, now, window)
    {
      OpenOnlyCloses(h, more, cell, id);
      SeenIsAnId(h, cell, id);
    }
  }

  /** While no trip opens and supply does not shrink, the price does not rise. */
  lemma SurgeDecays(
    cfg: MultiplierConfig, h: seq<Event>, more: seq<Event>, cell: Cell, now: Time, later: Time, window: int)
    requires cfg.min <= cfg.max && Rising(cfg.steps)
    requires NoOpening(more, cell) && now <= later
    requires |AvailableDrivers(h, cell, now, window)| <= |AvailableDrivers(h + more, cell, later, window)|
    ensures MultiplierAt(cfg, FullRatio(h + more, cell, later, window))
            <= MultiplierAt(cfg, FullRatio(h, cell, now, window))
  {
    DemandDecays(h, more, cell, now, later, window);
    SubsetSize(OpenTrips(h + more, cell, later, window), OpenTrips(h, cell, now, window));
    MultiplierFollowsDemandAndSupply(
      cfg,
      |OpenTrips(h + more, cell, later, window)|, |AvailableDrivers(h + more, cell, later, window)|,
      |OpenTrips(h, cell, now, window)|, |AvailableDrivers(h, cell, now, window)|);
  }

  /** Once the window has passed since every opening, the price is the one of no demand. */
  lemma SurgeEnds(cfg: MultiplierConfig, h: seq<Event>, cell: Cell, now: Time, window: int)
    requires forall k :: 0 <= k < |h| && h[k].Trip? && h[k].cell == cell && Opens(h[k].state) ==> h[k].at + window < now
    ensures FullRatio(h, cell, now, window) == Finite(0.0)
    ensures MultiplierAt(cfg, FullRatio(h, cell, now, window)) == MultiplierAt(cfg, Finite(0.0))
  {
    forall id | id in OpenTrips(h, cell, now, window)
      ensures false
    {
      OpenedSomewhere(h, cell, id);
    }
    assert OpenTrips(h, cell, now, window) == {};
  }

  lemma {:induction false} OpenedSomewhere(h: seq<Event>, cell: Cell, id: string)
    requires LastOpen(h, cell, id).Some?
    ensures exists k :: 0 <= k < |h| && h[k].Trip? && h[k].cell == cell && Opens(h[k].state)
                        && h[k].at == LastOpen(h, cell, id).value
  {
    var n := |h| - 1;
    var e := h[n];
    if !(e.Trip? && e.cell == cell && e.id == id && Opens(e.state)) {
      OpenedSomewhere(h[..n], cell, id);
      var k :| 0 <= k < n && h[..n][k].Trip? && h[..n][k].cell == cell && Opens(h[..n][k].state)
               && h[..n][k].at == LastOpen(h[..n], cell, id).value;
      assert h[k] == h[..n][k];
    }
  }
}

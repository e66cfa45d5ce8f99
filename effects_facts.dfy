/** What the explosion rules guarantee: the easing curve, when an explosion ends, and
    how a claim uses the pool. */
module EffectFacts {
  import opened Pools
  import opened Geometry
  import opened Effects

  /** `simpleEaseIn` maps `[0, 1]` into `[0, 1]`. */
  lemma EaseInRange(t: real)
    requires 0.0 <= t <= 1.0
    ensures 0.0 <= EaseIn(t) <= 1.0
  {
    PowNonNegative(t, 4);
    PowAtMostOne(t, 4);
  }

  /** Progress never exceeds 1, and lies in `[0, 1]` once the ratio is non-negative. */
  lemma ProgressRange(r: real)
    ensures Progress(r) <= 1.0
    ensures 0.0 <= r ==> 0.0 <= Progress(r)
  {
    PowNonNegative(1.0 - Min(r, 1.0), 4);
    if 0.0 <= r {
      EaseInRange(1.0 - Min(r, 1.0));
    }
  }

  /** Progress is non-decreasing in the elapsed ratio. */
  lemma ProgressMonotone(r1: real, r2: real)
    requires r1 <= r2
    ensures Progress(r1) <= Progress(r2)
  {
    PowMonotone(1.0 - Min(r2, 1.0), 1.0 - Min(r1, 1.0), 4);
  }

  /** Progress reaches 1 exactly when the ratio does. */
  lemma ProgressDone(r: real)
    ensures Progress(r) >= 1.0 <==> r >= 1.0
  {
    if r < 1.0 {
      PowPositive(1.0 - r, 4);
    } else {
      assert Pow(0.0, 4) == 0.0;
    }
  }

  /** The particles start at full size and have vanished once the ratio reaches 1. */
  lemma ShrinkEnds(r: real)
    ensures Shrink(0.0) == 1.0
    ensures r >= 1.0 ==> Shrink(r) == 0.0
  {
    assert Pow(1.0, 4) == 1.0;
    assert Pow(0.0, 4) == 0.0;
  }

  lemma RatioAtLeastOne(a: real, t: real)
    requires 0.0 < t
    ensures a / t >= 1.0 <==> a >= t
  {
    var q := a / t;
    assert q * t == a;
    if q >= 1.0 {
      MulNonNegative(q - 1.0, t);
    } else {
      MulPositive(1.0 - q, t);
    }
  }

  /** For a non-negative duration, an explosion started at `start` is over at `now`
      exactly when some time has passed and at least `timeRange` seconds have. */
  lemma SpentIff(timeRange: real, start: real, now: real)
    requires 0.0 <= timeRange
    ensures Spent(timeRange, start, now) <==> 0.0 < now - start && 1000.0 * timeRange <= now - start
  {
    var elapsed := (now - start) / 1000.0;
    if timeRange != 0.0 {
      ProgressDone(elapsed / timeRange);
      RatioAtLeastOne(elapsed, timeRange);
    }
  }

  /** `update` changes nothing but `life`, and only clears it. */
  lemma TickedOnlyClears(e: Explosion, now: real)
    ensures Ticked(e, now) == e || Ticked(e, now) == e.(life := 0)
    ensures e.life <= 0 ==> Ticked(e, now) == e
  {}

  /** A running explosion is cleared by `update` exactly when its time is up. */
  lemma TickedClears(e: Explosion, now: real)
    requires Running(e) && 0.0 <= e.timeRange
    ensures Ticked(e, now).life == 0 <==>
              0.0 < now - e.startTime.value && 1000.0 * e.timeRange <= now - e.startTime.value
    ensures Ticked(e, now).life != 0 ==> Ticked(e, now) == e
  {
    SpentIff(e.timeRange, e.startTime.value, now);
  }

  /** An explosion set at time `t0` lives on through every update before `t0 +
      1000 * timeRange` and is cleared by the first update at or after it (for a
      positive duration). */
  lemma IgnitedLifecycle(e: Explosion, at: Vec, t0: real, sparks: int -> Spark, host: Host, now: real)
    requires t0 != 0.0 && 0.0 < e.timeRange
    ensures Ticked(Ignited(e, at, t0, sparks, host), now).life == 0 <==> t0 + 1000.0 * e.timeRange <= now
    ensures now < t0 + 1000.0 * e.timeRange ==> Ticked(Ignited(e, at, t0, sparks, host), now) == Ignited(e, at, t0, sparks, host)
  {
    TickedClears(Ignited(e, at, t0, sparks, host), now);
  }

  /** An explosion claim sets the lowest free slot, and only that one; with every slot
      busy the pool is unchanged. */
  lemma ExplodedClaimsFirstFree(booms: seq<Explosion>, at: Vec, now: real, sparks: int -> Spark, host: Host)
    ensures |Exploded(booms, at, now, sparks, host)| == |booms|
    ensures FirstInactive(BoomLives(booms)).None? ==> Exploded(booms, at, now, sparks, host) == booms
    ensures FirstInactive(BoomLives(booms)).Some? ==>
              var k := FirstInactive(BoomLives(booms)).value;
              booms[k].life <= 0
              && (forall j :: 0 <= j < k ==> booms[j].life > 0)
              && Exploded(booms, at, now, sparks, host)[k] == Ignited(booms[k], at, now, sparks, host)
              && (forall j :: 0 <= j < |booms| && j != k ==> Exploded(booms, at, now, sparks, host)[j] == booms[j])
  {}

  /** A claim that finds a free slot makes exactly one more explosion active. */
  lemma {:induction false} ExplodedCounts(booms: seq<Explosion>, at: Vec, now: real, sparks: int -> Spark, host: Host)
    ensures ActiveCount(BoomLives(Exploded(booms, at, now, sparks, host)))
         == if FirstInactive(BoomLives(booms)).Some? then ActiveCount(BoomLives(booms)) + 1
            else ActiveCount(BoomLives(booms))
  {
    match FirstInactive(BoomLives(booms))
    case None =>
    case Some(k) =>
      assert BoomLives(Exploded(booms, at, now, sparks, host)) == BoomLives(booms)[k := 1];
      ActivateFirstCounts(BoomLives(booms), k, 1);
  }
}

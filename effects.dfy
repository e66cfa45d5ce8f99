/** Explosions (`Explosion` in class.ts): a burst of `count` particles that flies out from
    a point and shrinks over `timeRange` seconds with the ease-in curve `t ** 4`. */
module Effects {
  import opened Pools
  import opened Geometry

  /** The three `Math.random()` draws made for one particle: its heading as a fraction
      of a full turn, its reach, and the share of `size` it is drawn with. */
  datatype Spark = Spark(turn: real, reach: real, scale: real)

  /** The state of one explosion slot. `startTime` is `Date.now()` at the last `set`
      (absent before the first). The particle arrays grow by index assignment. */
  datatype Explosion = Explosion(
    range: real, size: real, count: nat, timeRange: real,
    life: int, startTime: Option<real>,
    position: seq<Vec>, vector: seq<Vec>, fireSizes: seq<real>)

  /** A freshly constructed explosion: inactive, never set, no particles. */
  function NewExplosion(range: real, size: real, count: nat, timeRange: real): (e: Explosion)
    ensures e.life == 0 && e.startTime == None
    ensures e.position == [] && e.vector == [] && e.fireSizes == []
    ensures e.range == range && e.size == size && e.count == count && e.timeRange == timeRange
  {
    Explosion(range, size, count, timeRange, 0, None, [], [], [])
  }

  /** Direction and reach of one particle: `(cos r * rm, sin r * rm)` with `r = turn * 2 PI`. */
  function SparkVector(sp: Spark, host: Host): Vec
  {
    var r := sp.turn * host.pi * 2.0;
    Vec(host.cos(r) * sp.reach, host.sin(r) * sp.reach)
  }

  /** Size of one particle: `size * (rnd * 0.5 + 0.5)`. */
  function SparkSize(size: real, sp: Spark): real
  {
    size * (sp.scale * 0.5 + 0.5)
  }

  /** With `rnd` in `[0, 1)` a particle is at least half and less than all of `size`. */
  lemma SparkSizeRange(size: real, sp: Spark)
    requires 0.0 < size && 0.0 <= sp.scale < 1.0
    ensures size / 2.0 <= SparkSize(size, sp) < size
  {
    MulNonNegative(size, sp.scale);
    MulPositive(size, 1.0 - sp.scale);
    assert SparkSize(size, sp) == 0.5 * (size * sp.scale) + 0.5 * size;
    assert size * (1.0 - sp.scale) == size - size * sp.scale;
  }

  /** JavaScript `a[i] = v` on an array without holes: overwrite, or append at the end. */
  function Put<T>(s: seq<T>, i: nat, v: T): (r: seq<T>)
    requires i <= |s|
    ensures |r| == if i < |s| then |s| else |s| + 1
    ensures r[i] == v
    ensures forall j :: 0 <= j < |s| && j != i ==> r[j] == s[j]
  {
    if i < |s| then s[i := v] else s + [v]
  }

  /** `front` written over the front of `old`: what remains of an array after its first
      `|front|` entries are assigned in order. */
  function Overlay<T>(prev: seq<T>, front: seq<T>): (r: seq<T>)
    ensures |r| == if |prev| <= |front| then |front| else |prev|
    ensures forall j :: 0 <= j < |front| ==> r[j] == front[j]
    ensures forall j :: |front| <= j < |prev| ==> r[j] == prev[j]
  {
    if |prev| <= |front| then front else front + prev[|front|..]
  }

  lemma PutOverlay<T>(prev: seq<T>, front: seq<T>, v: T)
    ensures Put(Overlay(prev, front), |front|, v) == Overlay(prev, front + [v])
  {
    var l, r := Put(Overlay(prev, front), |front|, v), Overlay(prev, front + [v]);
    assert |l| == |r|;
    forall j | 0 <= j < |l|
      ensures l[j] == r[j]
    {
      if j < |front| {
      } else if j == |front| {
      } else {
      }
    }
  }

  /** `Explosion.set(x, y)` at time `now`, with the particle draws `sparks`. */
  function Ignited(e: Explosion, at: Vec, now: real, sparks: int -> Spark, host: Host): (r: Explosion)
    ensures r.life == 1 && r.startTime == Some(now)
    ensures r.range == e.range && r.size == e.size && r.count == e.count && r.timeRange == e.timeRange
    ensures |r.position| >= e.count && |r.vector| >= e.count && |r.fireSizes| >= e.count
    ensures |r.position| >= |e.position| && |r.vector| >= |e.vector| && |r.fireSizes| >= |e.fireSizes|
    ensures forall i :: 0 <= i < e.count ==>
              r.position[i] == at && r.vector[i] == SparkVector(sparks(i), host)
              && r.fireSizes[i] == SparkSize(e.size, sparks(i))
    ensures forall i :: e.count <= i < |e.position| ==> r.position[i] == e.position[i]
    ensures forall i :: e.count <= i < |e.vector| ==> r.vector[i] == e.vector[i]
    ensures forall i :: e.count <= i < |e.fireSizes| ==> r.fireSizes[i] == e.fireSizes[i]
  {
    e.(life := 1, startTime := Some(now),
       position := Overlay(e.position, seq(e.count, i => at)),
       vector := Overlay(e.vector, seq(e.count, i => SparkVector(sparks(i), host))),
       fireSizes := Overlay(e.fireSizes, seq(e.count, i => SparkSize(e.size, sparks(i)))))
  }

  /** `Explosion.set` as the source writes it: one particle per loop turn. */
  method Ignite(e: Explosion, at: Vec, now: real, sparks: int -> Spark, host: Host) returns (r: Explosion)
    ensures r == Ignited(e, at, now, sparks, host)
    ensures r.life == 1 && r.startTime == Some(now)
    ensures forall i :: 0 <= i < e.count ==>
              r.position[i] == at && r.vector[i] == SparkVector(sparks(i), host)
              && r.fireSizes[i] == SparkSize(e.size, sparks(i))
  {
    r := e.(life := 1, startTime := Some(now));
    var i := 0;
    while i < e.count
      invariant 0 <= i <= e.count
      invariant r == e.(life := 1, startTime := Some(now),
                        position := Overlay(e.position, seq(i, j => at)),
                        vector := Overlay(e.vector, seq(i, j => SparkVector(sparks(j), host))),
                        fireSizes := Overlay(e.fireSizes, seq(i, j => SparkSize(e.size, sparks(j)))))
    {
      PutOverlay(e.position, seq(i, j => at), at);
      PutOverlay(e.vector, seq(i, j => SparkVector(sparks(j), host)), SparkVector(sparks(i), host));
      PutOverlay(e.fireSizes, seq(i, j => SparkSize(e.size, sparks(j))), SparkSize(e.size, sparks(i)));
      assert seq(i, j => at) + [at] == seq(i + 1, j => at);
      assert seq(i, j => SparkVector(sparks(j), host)) + [SparkVector(sparks(i), host)]
          == seq(i + 1, j => SparkVector(sparks(j), host));
      assert seq(i, j => SparkSize(e.size, sparks(j))) + [SparkSize(e.size, sparks(i))]
          == seq(i + 1, j => SparkSize(e.size, sparks(j)));
      r := r.(position := Put(r.position, i, at),
              vector := Put(r.vector, i, SparkVector(sparks(i), host)),
              fireSizes := Put(r.fireSizes, i, SparkSize(e.size, sparks(i))));
      i := i + 1;
    }
  }

  /** `simpleEaseIn(t) = t ** 4`. */
  function EaseIn(t: real): real
  {
    Pow(t, 4)
  }

  function Min(a: real, b: real): real { if a <= b then a else b }

  /** Eased progress for the elapsed ratio `r`: `1 - simpleEaseIn(1 - min(r, 1))`. */
  function Progress(r: real): real
  {
    1.0 - EaseIn(1.0 - Min(r, 1.0))
  }

  /** Shrink factor of the particles: `1 - progress`. */
  function Shrink(r: real): real
  {
    1.0 - Progress(r)
  }

  /** Whether the explosion is over at time `now` (milliseconds): eased progress has
      reached 1. A zero `timeRange` makes the ratio infinite (over as soon as any time
      has passed) or NaN (not over) in the source. */
  predicate Spent(timeRange: real, start: real, now: real)
  {
    var elapsed := (now - start) / 1000.0;
    if timeRange == 0.0 then elapsed > 0.0 else Progress(elapsed / timeRange) >= 1.0
  }

  /** Whether `update` does anything: a live slot that has been set. The source's
      `!this.startTime` also treats a start time of 0 as unset. */
  predicate Running(e: Explosion)
  {
    e.life > 0 && e.startTime.Some? && e.startTime.value != 0.0
  }

  /** `Explosion.update` at time `now`, apart from drawing: clears `life` once done. */
  function Ticked(e: Explosion, now: real): (r: Explosion)
    ensures r == e.(life := r.life)
    ensures r.life == e.life || (Running(e) && r.life == 0)
  {
    if Running(e) && Spent(e.timeRange, e.startTime.value, now) then e.(life := 0) else e
  }

  /** Lives of the explosion pool, in slot order. */
  function BoomLives(booms: seq<Explosion>): (lives: seq<int>)
    ensures |lives| == |booms|
    ensures forall i :: 0 <= i < |booms| ==> lives[i] == booms[i].life
  {
    seq(|booms|, i requires 0 <= i < |booms| => booms[i].life)
  }

  /** The claim loop of the collision code: the first explosion with `life <= 0` is set
      at `at`; when none is free nothing happens. */
  function Exploded(booms: seq<Explosion>, at: Vec, now: real, sparks: int -> Spark, host: Host): seq<Explosion>
  {
    match FirstInactive(BoomLives(booms))
    case None => booms
    case Some(k) => booms[k := Ignited(booms[k], at, now, sparks, host)]
  }

  /** Every explosion of the pool updated in slot order. */
  function TickedAll(booms: seq<Explosion>, now: real): (r: seq<Explosion>)
    ensures |r| == |booms|
    ensures forall i :: 0 <= i < |booms| ==> r[i] == Ticked(booms[i], now)
  {
    seq(|booms|, i requires 0 <= i < |booms| => Ticked(booms[i], now))
  }

  /** A star of the scrolling background (`BackgroundStar`). */
  class BackgroundStar {
    const size: real
    const speed: real
    const canvasHeight: real
    var position: Option<Vec>

    /** Stars move down and never sit below the wrap line. */
    ghost predicate Valid()
      reads this
    {
      0.0 <= size && 0.0 < canvasHeight
      && (position.Some? ==> position.value.y < canvasHeight + size)
    }

    constructor (size: real, speed: real, canvasHeight: real)
      requires 0.0 <= size && 0.0 < canvasHeight
      ensures this.size == size && this.speed == speed && this.canvasHeight == canvasHeight
      ensures position == None
      ensures Valid()
    {
      this.size := size;
      this.speed := speed;
      this.canvasHeight := canvasHeight;
      position := None;
    }

    /** `set(x, y)`. */
    method Set(x: real, y: real)
      requires Valid() && y < canvasHeight + size
      modifies this
      ensures position == Some(Vec(x, y))
      ensures Valid()
    {
      position := Some(Vec(x, y));
    }

    /** `update()`, apart from drawing. */
    method Update()
      requires Valid()
      modifies this
      ensures position == StarMoved(old(position), speed, size, canvasHeight)
      ensures Valid()
    {
      if position.Some? {
        var p := position.value;
        var y := p.y + speed;
        if y >= canvasHeight + size {
          y := -size;
        }
        position := Some(Vec(p.x, y));
      }
    }
  }

  /** A star's position after `update`: unset stays unset, otherwise only `y` moves. */
  function StarMoved(p: Option<Vec>, speed: real, size: real, height: real): (r: Option<Vec>)
    ensures r.Some? <==> p.Some?
    ensures p.Some? ==> r.value == Vec(p.value.x, Scrolled(p.value.y, speed, size, height))
  {
    match p
    case None => None
    case Some(v) => Some(Vec(v.x, Scrolled(v.y, speed, size, height)))
  }

  /** The new height of a star: one step down, back to just above the top once it has
      reached `height + size`. */
  function Scrolled(y: real, speed: real, size: real, height: real): (r: real)
    ensures 0.0 <= size && 0.0 < height ==> r < height + size
    ensures y + speed < height + size ==> r == y + speed
    ensures y + speed >= height + size ==> r == -size
  {
    if y + speed >= height + size then -size else y + speed
  }
}

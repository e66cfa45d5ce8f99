/** The characters of the game (character.ts) as records in one arena: the player's
    ship (`Viper`), plain shots (`Shot`), enemies (`Enemy`), the boss (`Boss`) and the
    boss's homing shots (`Homing`). Each `update` of the source is a function on the
    whole arena, because collisions and shots rewrite other characters in place. */
module Characters {
  import opened Pools
  import opened Geometry
  import opened Effects

  /** Which class a slot of the arena belongs to (`instanceof`). */
  datatype Kind = ViperKind | ShotKind | EnemyKind | BossKind | HomingKind

  /** `EnemyType`. */
  datatype EnemyType = Default | Wave | Large

  /** The keys the Viper reads from `isKeydown`: the arrows and `z`. */
  datatype Keys = Keys(left: bool, right: bool, up: bool, down: bool, fire: bool)

  /** The mutable state of one character. Fields a class does not have keep the value
      they were built with and are never read for that class. */
  datatype Character = Character(
    pos: Vec, width: real, height: real, life: int,
    vector: Vec, speed: real, power: int, frame: int, etype: EnemyType,
    isComing: bool, startPosition: Option<Vec>, comingFrame: int, shotCounter: int)

  /** The Viper's `shotCoolTime`. */
  const ShotCoolTime := 10

  /** How the slots are connected, fixed at start-up: the canvas size, the class of
      each slot, its target list and the shot pool it fires into (lists of slots). */
  datatype Wiring = Wiring(width: real, height: real, kinds: seq<Kind>,
                           targets: seq<seq<nat>>, shots: seq<seq<nat>>)

  /** Every slot named by the wiring exists, no character is its own target or its own
      shot, and the classes that aim at `target[0]` have a first target. */
  predicate Wired(net: Wiring, n: nat)
  {
    |net.kinds| == n && |net.targets| == n && |net.shots| == n
    && (forall i, j :: 0 <= i < n && 0 <= j < |net.targets[i]| ==> net.targets[i][j] < n && net.targets[i][j] != i)
    && (forall i, j :: 0 <= i < n && 0 <= j < |net.shots[i]| ==> net.shots[i][j] < n && net.shots[i][j] != i)
    && (forall i :: 0 <= i < n && net.kinds[i] != ViperKind && net.kinds[i] != ShotKind ==> |net.targets[i]| > 0)
  }

  /** Everything an update reads besides the arena: the held keys, `Date.now()`, the
      host's mathematics and the particle draws of an explosion. */
  datatype Env = Env(keys: Keys, now: real, host: Host, sparks: int -> Spark)

  /** The characters and the shared explosion pool. */
  datatype World = World(ents: seq<Character>, booms: seq<Explosion>)

  /** A call that (re)starts a pooled character. The game calls `setEnemy` only with
      `y = -enemy.height` (just above the canvas), which `SetEnemy` builds in. */
  datatype Order =
    | SetShot(at: Vec, power: int)                               // Shot.setShot
    | FireShot(at: Vec, dir: Vec, speed: real)                   // setVector, setShot(.., 1), setSpeed
    | SetEnemy(x: real, life: int, etype: EnemyType, speed: real) // Enemy.setEnemy(x, -height, ..)
    | SetBoss(at: Vec)                                           // Boss.set
    | SetIsComing(start: Vec)                                    // Viper.setIsComing

  /** The record after the call `o`. No call changes a character's size or the Viper's
      shot counter, and every shot call makes its slot live. */
  function Apply(c: Character, o: Order): (r: Character)
    ensures r.width == c.width && r.height == c.height && r.shotCounter == c.shotCounter
    ensures o.SetShot? || o.FireShot? || o.SetIsComing? ==> r.life == 1
    ensures o.SetBoss? ==> r.life == 80
    ensures o.SetEnemy? ==> r.life == o.life
  {
    match o
    case SetShot(at, power) => c.(life := 1, pos := at, power := power)
    case FireShot(at, dir, speed) => c.(vector := dir, life := 1, pos := at, power := 1, speed := speed)
    case SetEnemy(x, life, etype, speed) =>
      c.(pos := Vec(x, 0.0 - c.height), life := life, frame := 0, etype := etype, speed := speed)
    case SetBoss(at) => c.(pos := at, life := 80, frame := 0)
    case SetIsComing(start) =>
      c.(isComing := true, startPosition := Some(start), pos := start, comingFrame := 0, life := 1)
  }

  predicate InRange(pool: seq<nat>, n: nat)
  {
    forall j :: 0 <= j < |pool| ==> pool[j] < n
  }

  /** No slot is listed twice. */
  predicate Distinct(pool: seq<nat>)
  {
    forall i, j :: 0 <= i < j < |pool| ==> pool[i] != pool[j]
  }

  /** Lives of the slots of a pool, in pool order. */
  function PoolLives(ents: seq<Character>, pool: seq<nat>): (lives: seq<int>)
    requires InRange(pool, |ents|)
    ensures |lives| == |pool|
    ensures forall j :: 0 <= j < |pool| ==> lives[j] == ents[pool[j]].life
  {
    seq(|pool|, j requires 0 <= j < |pool| => ents[pool[j]].life)
  }

  /** A claim: the first slot of `pool` with `life <= 0` receives the call `o`; with no
      free slot nothing changes (`for ... of` with `break`). */
  function Claimed(ents: seq<Character>, pool: seq<nat>, o: Order): (r: seq<Character>)
    requires InRange(pool, |ents|)
    ensures |r| == |ents|
    ensures !Claims(ents, pool) ==> r == ents
    ensures Claims(ents, pool) ==>
              var k := FirstInactive(PoolLives(ents, pool)).value;
              k < |pool| && ents[pool[k]].life <= 0 && (forall j :: 0 <= j < k ==> ents[pool[j]].life > 0)
              && r[pool[k]] == Apply(ents[pool[k]], o)
              && (forall i :: 0 <= i < |ents| && i != pool[k] ==> r[i] == ents[i])
    ensures forall i :: 0 <= i < |ents| && i !in pool ==> r[i] == ents[i]
  {
    match FirstInactive(PoolLives(ents, pool))
    case None => ents
    case Some(j) => ents[pool[j] := Apply(ents[pool[j]], o)]
  }

  /** `pool.forEach((c) => (c.life = 0))`: every slot of the pool is inactive
      afterwards and nothing else about any record changes. */
  function Cleared(ents: seq<Character>, pool: seq<nat>): (r: seq<Character>)
    requires InRange(pool, |ents|)
    ensures |r| == |ents|
    ensures forall j :: 0 <= j < |pool| ==> r[pool[j]].life == 0
    ensures forall i :: 0 <= i < |ents| ==> r[i] == ents[i].(life := r[i].life)
    ensures forall i :: 0 <= i < |ents| && i !in pool ==> r[i] == ents[i]
    decreases |pool|
  {
    if |pool| == 0 then ents
    else
      var first := ents[pool[0] := ents[pool[0]].(life := 0)];
      Cleared(first, pool[1..])
  }

  /** Whether a claim finds a free slot: some slot of the pool has `life <= 0`. */
  predicate Claims(ents: seq<Character>, pool: seq<nat>)
    requires InRange(pool, |ents|)
  {
    exists j :: 0 <= j < |pool| && ents[pool[j]].life <= 0
  }

  /** One step of the Viper's body-contact loop over target `t`: a live target closer
      than a third of the two widths loses 1 life and so does the Viper; each such
      contact that leaves the Viper at `life <= 0` claims an explosion at the Viper. */
  function ContactStep(w: World, v: nat, t: nat, env: Env): (r: World)
    requires v < |w.ents| && t < |w.ents|
    ensures |r.ents| == |w.ents|
    ensures forall i :: 0 <= i < |w.ents| ==> r.ents[i] == w.ents[i].(life := r.ents[i].life)
    ensures forall i :: 0 <= i < |w.ents| && i != v && i != t ==> r.ents[i] == w.ents[i]
  {
    var me, it := w.ents[v], w.ents[t];
    if it.life <= 0 || !Touching(me.pos, it.pos, me.width + it.width, 3.0) then w
    else
      var e1 := w.ents[t := it.(life := it.life - 1)];
      var e2 := e1[v := e1[v].(life := e1[v].life - 1)];
      var booms := if e2[v].life <= 0 then Exploded(w.booms, e2[v].pos, env.now, env.sparks, env.host) else w.booms;
      World(e2, booms)
  }

  /** The body-contact loop over the target list `ts` (no `break`). */
  function Contacts(w: World, v: nat, ts: seq<nat>, env: Env): (r: World)
    requires v < |w.ents| && InRange(ts, |w.ents|)
    ensures |r.ents| == |w.ents|
    ensures forall i :: 0 <= i < |w.ents| ==> r.ents[i] == w.ents[i].(life := r.ents[i].life)
    ensures forall i :: 0 <= i < |w.ents| && i != v && i !in ts ==> r.ents[i] == w.ents[i]
    decreases |ts|
  {
    if |ts| == 0 then w else Contacts(ContactStep(w, v, ts[0], env), v, ts[1..], env)
  }

  /** One step of a projectile's collision loop over target `t`. `None` is the `break`
      taken for a Viper that is still coming in. */
  function StrikeStep(w: World, net: Wiring, s: nat, t: nat, env: Env): (r: Option<World>)
    requires Wired(net, |w.ents|) && s < |w.ents| && t < |w.ents|
    ensures r.Some? ==> |r.value.ents| == |w.ents|
    ensures r.Some? ==> forall i :: 0 <= i < |w.ents| ==> r.value.ents[i] == w.ents[i].(life := r.value.ents[i].life)
    ensures r.Some? ==> forall i :: 0 <= i < |w.ents| && i != s && i != t ==> r.value.ents[i] == w.ents[i]
  {
    var me, it := w.ents[s], w.ents[t];
    if it.life <= 0 || !Touching(me.pos, it.pos, me.width + it.width, 4.0) then Some(w)
    else if net.kinds[t] == ViperKind && it.isComing then None
    else
      var e1 := w.ents[t := it.(life := it.life - me.power)];
      var booms := if e1[t].life <= 0 then Exploded(w.booms, e1[t].pos, env.now, env.sparks, env.host) else w.booms;
      var e2 := e1[s := e1[s].(life := 0)];
      Some(World(e2, booms))
  }

  /** A projectile's collision loop over the target list `ts`: no `break` after a hit,
      `break` at a coming Viper. */
  function Strike(w: World, net: Wiring, s: nat, ts: seq<nat>, env: Env): (r: World)
    requires Wired(net, |w.ents|) && s < |w.ents| && InRange(ts, |w.ents|)
    ensures |r.ents| == |w.ents|
    ensures forall i :: 0 <= i < |w.ents| ==> r.ents[i] == w.ents[i].(life := r.ents[i].life)
    ensures forall i :: 0 <= i < |w.ents| && i != s && i !in ts ==> r.ents[i] == w.ents[i]
    decreases |ts|
  {
    if |ts| == 0 then w
    else match StrikeStep(w, net, s, ts[0], env)
      case None => w
      case Some(w1) => Strike(w1, net, s, ts[1..], env)
  }

  /** The coming-in branch of `Viper.update`: `y = startY - 2 * comingFrame`, pinned to
      `H - 100` (and coming over) once it gets there; `comingFrame` counts up. */
  function Coming(c: Character, canvasHeight: real): (r: Character)
    requires c.startPosition.Some?
    ensures r.comingFrame == c.comingFrame + 1 && r.pos.x == c.pos.x
    ensures var y := c.startPosition.value.y - (c.comingFrame * 2) as real;
            (r.isComing <==> c.isComing && canvasHeight - 100.0 < y)
            && r.pos.y == Max(y, canvasHeight - 100.0)
    ensures r == c.(pos := r.pos, isComing := r.isComing, comingFrame := r.comingFrame)
  {
    var y := c.startPosition.value.y - (c.comingFrame * 2) as real;
    var c1 := if y <= canvasHeight - 100.0
              then c.(pos := Vec(c.pos.x, canvasHeight - 100.0), isComing := false)
              else c.(pos := Vec(c.pos.x, y));
    c1.(comingFrame := c1.comingFrame + 1)
  }

  /** The arrow keys move the Viper by `speed` (`x` first, then `y`). */
  function Steered(c: Character, keys: Keys): (r: Character)
    ensures r == c.(pos := r.pos)
    ensures keys.left == keys.right ==> r.pos.x == c.pos.x
    ensures keys.up == keys.down ==> r.pos.y == c.pos.y
  {
    var x := c.pos.x - (if keys.left then c.speed else 0.0) + (if keys.right then c.speed else 0.0);
    var y := c.pos.y - (if keys.up then c.speed else 0.0) + (if keys.down then c.speed else 0.0);
    c.(pos := Vec(x, y))
  }

  function Max(a: real, b: real): real { if a >= b then a else b }

  /** `Math.min(Math.max(v, 0), limit)`: within `[0, limit]`, and `v` itself when it is
      already there. */
  function ClampTo(v: real, limit: real): (r: real)
    ensures 0.0 <= limit ==> 0.0 <= r <= limit
    ensures 0.0 <= v <= limit ==> r == v
  {
    Min(Max(v, 0.0), limit)
  }

  /** `0 <= x <= W` and `0 <= y <= H`. */
  predicate OnCanvas(p: Vec, width: real, height: real)
  {
    0.0 <= p.x <= width && 0.0 <= p.y <= height
  }

  /** The Viper held on the canvas. */
  function Clamped(c: Character, width: real, height: real): (r: Character)
    ensures 0.0 <= width && 0.0 <= height ==> OnCanvas(r.pos, width, height)
    ensures OnCanvas(c.pos, width, height) ==> r == c
    ensures r == c.(pos := r.pos)
  {
    c.(pos := Vec(ClampTo(c.pos.x, width), ClampTo(c.pos.y, height)))
  }

  /** The `z` key: with the counter at 0 or more, a shot is claimed at the Viper's
      position and, if one was free, the counter drops to `-shotCoolTime`. Then the
      counter rises by one whatever happened. */
  function ViperShoots(ents: seq<Character>, v: nat, pool: seq<nat>, keys: Keys): (r: seq<Character>)
    requires v < |ents| && InRange(pool, |ents|)
    ensures |r| == |ents|
    ensures r[v].shotCounter ==
              if keys.fire && ents[v].shotCounter >= 0 && Claims(ents, pool) then 1 - ShotCoolTime
              else ents[v].shotCounter + 1
    ensures !(keys.fire && ents[v].shotCounter >= 0) ==>
              r == ents[v := ents[v].(shotCounter := ents[v].shotCounter + 1)]
    ensures keys.fire && ents[v].shotCounter >= 0 ==>
              forall i :: 0 <= i < |ents| && i != v ==> r[i] == Claimed(ents, pool, SetShot(ents[v].pos, 1))[i]
    ensures v !in pool ==> r[v] == ents[v].(shotCounter := r[v].shotCounter)
  {
    var me := ents[v];
    var e1 := if keys.fire && me.shotCounter >= 0 then Claimed(ents, pool, SetShot(me.pos, 1)) else ents;
    var counter := if keys.fire && me.shotCounter >= 0 && Claims(ents, pool) then -ShotCoolTime else e1[v].shotCounter;
    e1[v := e1[v].(shotCounter := counter + 1)]
  }

  /** `Viper.update`, apart from drawing. */
  function ViperUpdated(w: World, net: Wiring, v: nat, env: Env): (r: World)
    requires Wired(net, |w.ents|) && v < |w.ents|
    ensures |r.ents| == |w.ents|
    ensures w.ents[v].life <= 0 || w.ents[v].startPosition.None? ==> r == w
    ensures w.ents[v].life > 0 && w.ents[v].startPosition.Some? && 0.0 <= net.width && 0.0 <= net.height ==>
              OnCanvas(r.ents[v].pos, net.width, net.height)
    ensures forall i :: 0 <= i < |w.ents| && i != v && i !in net.targets[v] && i !in net.shots[v] ==>
              r.ents[i] == w.ents[i]
  {
    var c := w.ents[v];
    if c.life <= 0 || c.startPosition.None? then w
    else
      var w1 := Contacts(w, v, net.targets[v], env);
      var me := w1.ents[v];
      var ents :=
        if me.isComing then w1.ents[v := Coming(me, net.height)]
        else ViperShoots(w1.ents[v := Steered(me, env.keys)], v, net.shots[v], env.keys);
      World(ents[v := Clamped(ents[v], net.width, net.height)], w1.booms)
  }

  /** One step along the heading: `position += vector * speed`. */
  function Advanced(c: Character): Character
  {
    c.(pos := Vec(c.pos.x + c.vector.x * c.speed, c.pos.y + c.vector.y * c.speed))
  }

  /** Strictly outside `[-w, W + w] x [-h, H + h]`. */
  predicate Outside(c: Character, width: real, height: real)
  {
    c.pos.x < 0.0 - c.width || c.pos.x > width + c.width
    || c.pos.y < 0.0 - c.height || c.pos.y > height + c.height
  }

  /** A shot or homing shot that left the field loses its life. */
  function ShotDespawned(c: Character, net: Wiring): (r: Character)
    ensures r == c.(life := r.life)
    ensures r.life > 0 ==> !Outside(r, net.width, net.height)
    ensures !Outside(c, net.width, net.height) ==> r == c
  {
    if Outside(c, net.width, net.height) then c.(life := 0) else c
  }

  /** An enemy or the boss that left the field loses its life and its frame count. */
  function EnemyDespawned(c: Character, net: Wiring): (r: Character)
    ensures r == c.(life := r.life, frame := r.frame)
    ensures Outside(c, net.width, net.height) ==> r.life == 0 && r.frame + 1 == 0
    ensures !Outside(c, net.width, net.height) ==> r == c
  {
    if Outside(c, net.width, net.height) then c.(life := 0, frame := -1) else c
  }

  /** `Shot.update`, apart from drawing. */
  function ShotUpdated(w: World, net: Wiring, s: nat, env: Env): (r: World)
    requires Wired(net, |w.ents|) && s < |w.ents|
    ensures |r.ents| == |w.ents|
    ensures w.ents[s].life <= 0 ==> r == w
    ensures w.ents[s].life > 0 ==> r.ents[s] == Advanced(w.ents[s]).(life := r.ents[s].life)
    ensures r.ents[s].life > 0 ==> !Outside(r.ents[s], net.width, net.height)
    ensures forall i :: 0 <= i < |w.ents| && i != s ==> r.ents[i] == w.ents[i].(life := r.ents[i].life)
    ensures forall i :: 0 <= i < |w.ents| && i != s && i !in net.targets[s] ==> r.ents[i] == w.ents[i]
  {
    var c := w.ents[s];
    if c.life <= 0 then w
    else
      var w1 := Strike(w.(ents := w.ents[s := Advanced(c)]), net, s, net.targets[s], env);
      w1.(ents := w1.ents[s := ShotDespawned(w1.ents[s], net)])
  }

  /** The heading of a homing shot after its turn decision: its own direction made unit
      length, turned by one degree towards the target when the cross product says so. */
  function Homed(c: Character, target: Vec, host: Host): (r: Character)
    ensures r == c.(vector := r.vector)
  {
    var toTarget := Normalize(c.pos, target, host);
    var heading := Unit(c.vector, host);
    var turn := TurnDegrees(Cross(heading, toTarget));
    c.(vector := if turn == 0 then heading else Rotate(heading, turn as real * host.pi / 180.0, host))
  }

  /** `Homing.update`, apart from drawing and the sprite angle: the turn, then the
      movement, collisions and despawn it shares with `Shot.update`, then the frame. */
  function HomingUpdated(w: World, net: Wiring, h: nat, env: Env): (r: World)
    requires Wired(net, |w.ents|) && h < |w.ents| && |net.targets[h]| > 0
    ensures |r.ents| == |w.ents|
    ensures w.ents[h].life <= 0 ==> r == w
    ensures w.ents[h].life > 0 ==>
              r.ents[h] == Advanced(Homed(w.ents[h], w.ents[net.targets[h][0]].pos, env.host))
                             .(life := r.ents[h].life, frame := w.ents[h].frame + 1)
    ensures r.ents[h].life > 0 ==> !Outside(r.ents[h], net.width, net.height)
    ensures forall i :: 0 <= i < |w.ents| && i != h ==> r.ents[i] == w.ents[i].(life := r.ents[i].life)
    ensures forall i :: 0 <= i < |w.ents| && i != h && i !in net.targets[h] ==> r.ents[i] == w.ents[i]
  {
    var c := w.ents[h];
    if c.life <= 0 then w
    else
      var target := w.ents[net.targets[h][0]].pos;
      var w1 := ShotUpdated(w.(ents := w.ents[h := Homed(c, target, env.host)]), net, h, env);
      w1.(ents := w1.ents[h := w1.ents[h].(frame := w1.ents[h].frame + 1)])
  }

  /** `Homing.update` as written: `Position` has no `normalize`, `cross` or `rotate`
      method, so the call on `this.vector` throws a `TypeError` (`None`) for every live
      homing shot, before any field is written. */
  function HomingUpdatedAsWritten(w: World, h: nat): (r: Option<World>)
    requires h < |w.ents|
    ensures r.Some? <==> w.ents[h].life <= 0
    ensures r.Some? ==> r.value == w
  {
    if w.ents[h].life <= 0 then Some(w) else None
  }

  /** `Enemy.fire(x, y, speed)`: claim a shot of the pool from the enemy's position. */
  function Fired(ents: seq<Character>, e: nat, pool: seq<nat>, dir: Vec, speed: real): (r: seq<Character>)
    requires e < |ents| && InRange(pool, |ents|)
    ensures |r| == |ents|
    ensures forall i :: 0 <= i < |ents| && i !in pool ==> r[i] == ents[i]
  {
    Claimed(ents, pool, FireShot(ents[e].pos, dir, speed))
  }

  /** An aimed shot at speed 5 along the normalised direction to `target[0]`. */
  function Aimed(ents: seq<Character>, net: Wiring, e: nat, host: Host): (r: seq<Character>)
    requires Wired(net, |ents|) && e < |ents| && |net.targets[e]| > 0
    ensures |r| == |ents|
    ensures forall i :: 0 <= i < |ents| && i !in net.shots[e] ==> r[i] == ents[i]
  {
    var dir := Normalize(ents[e].pos, ents[net.targets[e][0]].pos, host);
    Fired(ents, e, net.shots[e], dir, 5.0)
  }

  /** The angles, in degrees, still to come in the volley loop of a large enemy
      `for (let i = deg; i <= 360; i += 45)`. */
  function AnglesFrom(deg: int): seq<int>
    decreases 360 - deg
  {
    if deg > 360 then [] else [deg] + AnglesFrom(deg + 45)
  }

  /** The whole volley, from 0 degrees. */
  function VolleyAngles(): seq<int>
  {
    AnglesFrom(0)
  }

  /** Direction of the volley shot at `deg` degrees. */
  function VolleyDirection(deg: int, host: Host): Vec
  {
    var radian := (deg as real) * host.pi / 180.0;
    Vec(host.cos(radian), host.sin(radian))
  }

  /** The volley shots at the angles `degs`, in order, each at speed 5. */
  function Volley(ents: seq<Character>, e: nat, pool: seq<nat>, degs: seq<int>, host: Host): (r: seq<Character>)
    requires e < |ents| && InRange(pool, |ents|)
    ensures |r| == |ents|
    ensures forall i :: 0 <= i < |ents| && i !in pool ==> r[i] == ents[i]
    decreases |degs|
  {
    if |degs| == 0 then ents
    else Volley(Fired(ents, e, pool, VolleyDirection(degs[0], host), 5.0), e, pool, degs[1..], host)
  }

  /** The loop of a volley from `deg`: one shot at `deg`, then the rest. */
  lemma VolleyFrom(ents: seq<Character>, e: nat, pool: seq<nat>, deg: int, host: Host)
    requires e < |ents| && InRange(pool, |ents|) && deg <= 360
    ensures Volley(ents, e, pool, AnglesFrom(deg), host)
         == Volley(Fired(ents, e, pool, VolleyDirection(deg, host), 5.0), e, pool, AnglesFrom(deg + 45), host)
  {
    assert AnglesFrom(deg)[0] == deg && AnglesFrom(deg)[1..] == AnglesFrom(deg + 45);
  }

  /** The movement of an enemy of type `etype` (the type read when `update` began). */
  function EnemyMoved(c: Character, etype: EnemyType, host: Host): (r: Character)
    ensures r == c.(pos := r.pos)
    ensures etype == Large && c.pos.y >= 100.0 ==> r.pos.y == c.pos.y
    ensures etype != Large || c.pos.y < 100.0 ==> r.pos.y == c.pos.y + c.vector.y * c.speed
    ensures etype == Default ==> r == Advanced(c)
  {
    match etype
    case Wave =>
      c.(pos := Vec(c.pos.x + host.sin(c.frame as real / 10.0) * 6.0, c.pos.y + c.vector.y * c.speed))
    case Large =>
      c.(pos := Vec(c.pos.x + host.sin((c.frame + 80) as real / 50.0) * 2.0,
                    if c.pos.y < 100.0 then c.pos.y + c.vector.y * c.speed else c.pos.y))
    case Default => Advanced(c)
  }

  /** Whether an enemy of this type fires on this frame. */
  predicate EnemyFires(etype: EnemyType, frame: int)
  {
    match etype
    case Wave => frame % 60 == 0
    case Large => frame % 60 == 0
    case Default => frame % 70 == 0
  }

  /** `Enemy.update`, apart from drawing: fire, move, despawn, count the frame. */
  function EnemyUpdated(w: World, net: Wiring, e: nat, env: Env): (r: World)
    requires Wired(net, |w.ents|) && e < |w.ents| && |net.targets[e]| > 0
    ensures |r.ents| == |w.ents|
    ensures w.ents[e].life <= 0 ==> r == w
    ensures r.ents[e].life > 0 ==> !Outside(r.ents[e], net.width, net.height)
    ensures w.ents[e].life > 0 ==>
              var c := EnemyMoved(w.ents[e], w.ents[e].etype, env.host);
              if Outside(c, net.width, net.height) then r.ents[e] == c.(life := 0, frame := 0)
              else r.ents[e] == c.(frame := c.frame + 1)
    ensures w.ents[e].life > 0 && !EnemyFires(w.ents[e].etype, w.ents[e].frame) ==>
              forall i :: 0 <= i < |w.ents| && i != e ==> r.ents[i] == w.ents[i]
    ensures forall i :: 0 <= i < |w.ents| && i != e && i !in net.shots[e] ==> r.ents[i] == w.ents[i]
    ensures r.booms == w.booms
  {
    var c := w.ents[e];
    if c.life <= 0 then w
    else
      NotOwnShot(net, |w.ents|, e);
      var e1 := EnemyShot(w.ents, net, e, env.host);
      var done := EnemyDespawned(EnemyMoved(e1[e], c.etype, env.host), net);
      w.(ents := e1[e := done.(frame := done.frame + 1)])
  }

  /** The firing part of `Enemy.update`: a volley for a large enemy, an aimed shot for
      the others, on the frames its type fires. */
  function EnemyShot(ents: seq<Character>, net: Wiring, e: nat, host: Host): (r: seq<Character>)
    requires Wired(net, |ents|) && e < |ents| && |net.targets[e]| > 0
    ensures |r| == |ents|
    ensures !EnemyFires(ents[e].etype, ents[e].frame) ==> r == ents
    ensures forall i :: 0 <= i < |ents| && i !in net.shots[e] ==> r[i] == ents[i]
  {
    var c := ents[e];
    if !EnemyFires(c.etype, c.frame) then ents
    else if c.etype == Large then Volley(ents, e, net.shots[e], VolleyAngles(), host)
    else Aimed(ents, net, e, host)
  }

  /** The wiring never lists a character in its own shot pool. */
  lemma NotOwnShot(net: Wiring, n: nat, e: nat)
    requires Wired(net, n) && e < n
    ensures e !in net.shots[e]
  {
  }

  /** The boss's movement: a cosine sway, and down at `speed` while `y <= 100`. */
  function BossMoved(c: Character, host: Host): (r: Character)
    ensures r == c.(pos := r.pos)
    ensures c.pos.y > 100.0 ==> r.pos.y == c.pos.y
    ensures c.pos.y <= 100.0 ==> r.pos.y == c.pos.y + c.speed
  {
    c.(pos := Vec(c.pos.x + host.cos(c.frame as real / 80.0) * 2.0,
                  if c.pos.y <= 100.0 then c.pos.y + c.speed else c.pos.y))
  }

  /** `Boss.update`, apart from drawing: move, fire a homing shot every 50 frames from
      the new position, despawn, count the frame. */
  function BossUpdated(w: World, net: Wiring, b: nat, env: Env): (r: World)
    requires Wired(net, |w.ents|) && b < |w.ents| && |net.targets[b]| > 0
    ensures |r.ents| == |w.ents|
    ensures w.ents[b].life <= 0 ==> r == w
    ensures r.ents[b].life > 0 ==> !Outside(r.ents[b], net.width, net.height)
    ensures w.ents[b].life > 0 ==>
              var c := BossMoved(w.ents[b], env.host);
              if Outside(c, net.width, net.height) then r.ents[b] == c.(life := 0, frame := 0)
              else r.ents[b] == c.(frame := c.frame + 1)
    ensures w.ents[b].life > 0 && w.ents[b].frame % 50 != 0 ==>
              forall i :: 0 <= i < |w.ents| && i != b ==> r.ents[i] == w.ents[i]
    ensures forall i :: 0 <= i < |w.ents| && i != b && i !in net.shots[b] ==> r.ents[i] == w.ents[i]
    ensures r.booms == w.booms
  {
    var c := w.ents[b];
    if c.life <= 0 then w
    else
      var e1 := w.ents[b := BossMoved(c, env.host)];
      var e2 := if c.frame % 50 == 0 then Aimed(e1, net, b, env.host) else e1;
      var done := EnemyDespawned(e2[b], net);
      w.(ents := e2[b := done.(frame := done.frame + 1)])
  }

  /** Slot `j` is none of the slots of `order`, none of their targets and none of
      their shots: nothing their updates do can reach it. */
  predicate Untouched(net: Wiring, order: seq<nat>, j: nat)
    requires forall k :: 0 <= k < |order| ==> order[k] < |net.targets| && order[k] < |net.shots|
  {
    forall k :: 0 <= k < |order| ==>
      j != order[k] && j !in net.targets[order[k]] && j !in net.shots[order[k]]
  }

  /** The `update` of slot `i`, chosen by its class. */
  function Updated(w: World, net: Wiring, i: nat, env: Env): (r: World)
    requires Wired(net, |w.ents|) && i < |w.ents|
    ensures |r.ents| == |w.ents|
    ensures w.ents[i].life <= 0 ==> r == w
    ensures forall j :: 0 <= j < |w.ents| && j != i && j !in net.targets[i] && j !in net.shots[i] ==>
              r.ents[j] == w.ents[j]
  {
    match net.kinds[i]
    case ViperKind => ViperUpdated(w, net, i, env)
    case ShotKind => ShotUpdated(w, net, i, env)
    case EnemyKind => EnemyUpdated(w, net, i, env)
    case BossKind => BossUpdated(w, net, i, env)
    case HomingKind => HomingUpdated(w, net, i, env)
  }

  /** The slots of `order` updated one after the other (`forEach`). */
  function UpdatedEach(w: World, net: Wiring, order: seq<nat>, env: Env): (r: World)
    requires Wired(net, |w.ents|) && InRange(order, |w.ents|)
    ensures |r.ents| == |w.ents|
    ensures forall j :: 0 <= j < |w.ents| && Untouched(net, order, j) ==> r.ents[j] == w.ents[j]
    decreases |order|
  {
    if |order| == 0 then w else UpdatedEach(Updated(w, net, order[0], env), net, order[1..], env)
  }
}

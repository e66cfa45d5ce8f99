/** What the character rules guarantee over whole loops and over several frames: how
    many slots a claim or a volley activates, how much life a contact or a shot takes,
    that a Viper coming in cannot be shot, the scripted entry, the shot cooldown and
    the homing turn. */
module CharacterFacts {
  import opened Pools
  import opened Geometry
  import opened Effects
  import opened Characters

  /** Calls that leave the claimed slot live. */
  predicate Activates(o: Order)
  {
    o.SetEnemy? ==> o.life > 0
  }

  /** A successful claim makes exactly one more slot of the pool live; a failed one
      changes nothing. */
  lemma {:induction false} ClaimedCounts(ents: seq<Character>, pool: seq<nat>, o: Order)
    requires InRange(pool, |ents|) && Distinct(pool) && Activates(o)
    ensures ActiveCount(PoolLives(Claimed(ents, pool, o), pool))
         == if Claims(ents, pool) then ActiveCount(PoolLives(ents, pool)) + 1 else ActiveCount(PoolLives(ents, pool))
  {
    if Claims(ents, pool) {
      var lives := PoolLives(ents, pool);
      var k := FirstInactive(lives).value;
      var r := Claimed(ents, pool, o);
      assert PoolLives(r, pool) == lives[k := r[pool[k]].life];
      ActivateFirstCounts(lives, k, r[pool[k]].life);
    }
  }

  /** A claim finds a free slot exactly when the pool is not full. */
  lemma ClaimsIffNotFull(ents: seq<Character>, pool: seq<nat>)
    requires InRange(pool, |ents|)
    ensures Claims(ents, pool) <==> ActiveCount(PoolLives(ents, pool)) < |pool|
  {
    var lives := PoolLives(ents, pool);
    FullIffNoneFree(lives);
    if Claims(ents, pool) {
      var j :| 0 <= j < |pool| && ents[pool[j]].life <= 0;
      assert lives[j] <= 0;
    } else {
      assert forall j :: 0 <= j < |lives| ==> lives[j] > 0;
    }
  }

  /** A `fire` activates one more slot of its pool, unless the pool is full. */
  lemma FiredCounts(ents: seq<Character>, e: nat, pool: seq<nat>, dir: Vec, speed: real)
    requires e < |ents| && InRange(pool, |ents|) && Distinct(pool)
    ensures ActiveCount(PoolLives(Fired(ents, e, pool, dir, speed), pool))
         == MinInt(ActiveCount(PoolLives(ents, pool)) + 1, |pool|)
  {
    ClaimedCounts(ents, pool, FireShot(ents[e].pos, dir, speed));
    ClaimsIffNotFull(ents, pool);
  }

  /** The first shot of a volley, counted on its pool. */
  lemma VolleyStep(ents: seq<Character>, e: nat, pool: seq<nat>, degs: seq<int>, host: Host)
    requires e < |ents| && InRange(pool, |ents|) && Distinct(pool) && |degs| > 0
    ensures var next := Fired(ents, e, pool, VolleyDirection(degs[0], host), 5.0);
            Volley(ents, e, pool, degs, host) == Volley(next, e, pool, degs[1..], host)
            && ActiveCount(PoolLives(next, pool)) == MinInt(ActiveCount(PoolLives(ents, pool)) + 1, |pool|)
  {
    FiredCounts(ents, e, pool, VolleyDirection(degs[0], host), 5.0);
  }

  /** A volley of `|degs|` shots activates `|degs|` more pool slots, or as many as are free. */
  lemma {:induction false} VolleyCounts(ents: seq<Character>, e: nat, pool: seq<nat>, degs: seq<int>, host: Host)
    requires e < |ents| && InRange(pool, |ents|) && Distinct(pool)
    ensures ActiveCount(PoolLives(Volley(ents, e, pool, degs, host), pool))
         == MinInt(ActiveCount(PoolLives(ents, pool)) + |degs|, |pool|)
    decreases |degs|
  {
    if |degs| > 0 {
      var next := Fired(ents, e, pool, VolleyDirection(degs[0], host), 5.0);
      VolleyStep(ents, e, pool, degs, host);
      VolleyCounts(next, e, pool, degs[1..], host);
      MinStep(ActiveCount(PoolLives(ents, pool)), |pool|, |degs|);
    }
  }

  /** The volley loop `for (let i = 0; i <= 360; i += 45)` fires nine shots, the first
      and the last in the same direction. */
  lemma VolleyHasNine()
    ensures VolleyAngles() == [0, 45, 90, 135, 180, 225, 270, 315, 360]
  {
    assert AnglesFrom(405) == [];
    assert AnglesFrom(360) == [360];
    assert AnglesFrom(315) == [315, 360];
    assert AnglesFrom(270) == [270, 315, 360];
    assert AnglesFrom(225) == [225, 270, 315, 360];
    assert AnglesFrom(180) == [180, 225, 270, 315, 360];
    assert AnglesFrom(135) == [135, 180, 225, 270, 315, 360];
    assert AnglesFrom(90) == [90, 135, 180, 225, 270, 315, 360];
    assert AnglesFrom(45) == [45, 90, 135, 180, 225, 270, 315, 360];
  }

  /** A large enemy with room in its pool fires nine shots per volley. */
  lemma LargeVolleyCounts(ents: seq<Character>, e: nat, pool: seq<nat>, host: Host)
    requires e < |ents| && InRange(pool, |ents|) && Distinct(pool)
    ensures ActiveCount(PoolLives(Volley(ents, e, pool, VolleyAngles(), host), pool))
         == MinInt(ActiveCount(PoolLives(ents, pool)) + 9, |pool|)
  {
    VolleyHasNine();
    VolleyCounts(ents, e, pool, VolleyAngles(), host);
  }

  // ----- body contact -----

  /** Target `t` is live and closer to the Viper `v` than a third of their widths. */
  predicate BodyHit(w: World, v: nat, t: nat)
    requires v < |w.ents| && t < |w.ents|
  {
    var me, it := w.ents[v], w.ents[t];
    it.life > 0 && Touching(me.pos, it.pos, me.width + it.width, 3.0)
  }

  /** How many of the targets `ts` the Viper touches. */
  function BodyHits(w: World, v: nat, ts: seq<nat>): nat
    requires v < |w.ents| && InRange(ts, |w.ents|)
    decreases |ts|
  {
    if |ts| == 0 then 0 else (if BodyHit(w, v, ts[0]) then 1 else 0) + BodyHits(w, v, ts[1..])
  }

  lemma {:induction false} BodyHitsSame(w: World, w1: World, v: nat, ts: seq<nat>)
    requires |w1.ents| == |w.ents| && v < |w.ents| && InRange(ts, |w.ents|)
    requires forall j :: 0 <= j < |ts| ==> BodyHit(w1, v, ts[j]) == BodyHit(w, v, ts[j])
    ensures BodyHits(w1, v, ts) == BodyHits(w, v, ts)
    decreases |ts|
  {
    if |ts| > 0 {
      BodyHitsSame(w, w1, v, ts[1..]);
    }
  }

  /** After the first contact of the loop, the rest of the loop sees the same hits. */
  lemma ContactRest(w: World, v: nat, ts: seq<nat>, env: Env)
    requires v < |w.ents| && InRange(ts, |w.ents|) && Distinct(ts) && v !in ts && |ts| > 0
    ensures var w1, rest := ContactStep(w, v, ts[0], env), ts[1..];
            Distinct(rest) && v !in rest && ts[0] !in rest
            && (forall j :: 0 <= j < |rest| ==> w1.ents[rest[j]] == w.ents[rest[j]])
            && (forall j :: 0 <= j < |rest| ==> BodyHit(w1, v, rest[j]) == BodyHit(w, v, rest[j]))
            && BodyHits(w1, v, rest) == BodyHits(w, v, rest)
  {
    var t, rest := ts[0], ts[1..];
    var w1 := ContactStep(w, v, t, env);
    assert forall j :: 0 <= j < |rest| ==> rest[j] != t && rest[j] != v;
    assert w1.ents[v] == w.ents[v].(life := w1.ents[v].life);
    BodyHitsSame(w, w1, v, rest);
  }

  /** The Viper loses one life per target it touches, whether or not it is coming in. */
  lemma {:induction false} ContactsViperDamage(w: World, v: nat, ts: seq<nat>, env: Env)
    requires v < |w.ents| && InRange(ts, |w.ents|) && Distinct(ts) && v !in ts
    ensures Contacts(w, v, ts, env).ents[v].life == w.ents[v].life - BodyHits(w, v, ts)
    decreases |ts|
  {
    if |ts| > 0 {
      ContactRest(w, v, ts, env);
      ContactsViperDamage(ContactStep(w, v, ts[0], env), v, ts[1..], env);
    }
  }

  /** Each touched target loses one life. */
  lemma {:induction false} ContactsTargetDamage(w: World, v: nat, ts: seq<nat>, env: Env)
    requires v < |w.ents| && InRange(ts, |w.ents|) && Distinct(ts) && v !in ts
    ensures forall j :: 0 <= j < |ts| ==>
              Contacts(w, v, ts, env).ents[ts[j]].life == w.ents[ts[j]].life - (if BodyHit(w, v, ts[j]) then 1 else 0)
    decreases |ts|
  {
    if |ts| > 0 {
      var w1, rest := ContactStep(w, v, ts[0], env), ts[1..];
      ContactRest(w, v, ts, env);
      ContactsTargetDamage(w1, v, rest, env);
      forall j | 0 <= j < |ts|
        ensures Contacts(w, v, ts, env).ents[ts[j]].life == w.ents[ts[j]].life - (if BodyHit(w, v, ts[j]) then 1 else 0)
      {
        if j > 0 {
          assert ts[j] == rest[j - 1];
        }
      }
    }
  }

  /** The body-contact loop over distinct targets: the Viper loses one life per target
      it touches, whether or not it is coming in, and each touched target loses one. */
  lemma ContactsDamage(w: World, v: nat, ts: seq<nat>, env: Env)
    requires v < |w.ents| && InRange(ts, |w.ents|) && Distinct(ts) && v !in ts
    ensures Contacts(w, v, ts, env).ents[v].life == w.ents[v].life - BodyHits(w, v, ts)
    ensures forall j :: 0 <= j < |ts| ==>
              Contacts(w, v, ts, env).ents[ts[j]].life == w.ents[ts[j]].life - (if BodyHit(w, v, ts[j]) then 1 else 0)
  {
    ContactsViperDamage(w, v, ts, env);
    ContactsTargetDamage(w, v, ts, env);
  }

  /** One contact: a touched live target and the Viper each lose one life, and an
      explosion is claimed at the Viper exactly when that leaves it at `life <= 0`. */
  lemma ContactStepEffect(w: World, v: nat, t: nat, env: Env)
    requires v < |w.ents| && t < |w.ents| && v != t
    ensures !BodyHit(w, v, t) ==> ContactStep(w, v, t, env) == w
    ensures BodyHit(w, v, t) ==>
              var r := ContactStep(w, v, t, env);
              r.ents[t].life == w.ents[t].life - 1 && r.ents[v].life == w.ents[v].life - 1
              && r.booms == if w.ents[v].life - 1 <= 0 then Exploded(w.booms, w.ents[v].pos, env.now, env.sparks, env.host)
                            else w.booms
  {}

  // ----- projectiles -----

  /** Target `t` is live and closer to the projectile `s` than a quarter of their widths. */
  predicate ShotHit(w: World, s: nat, t: nat)
    requires s < |w.ents| && t < |w.ents|
  {
    var me, it := w.ents[s], w.ents[t];
    it.life > 0 && Touching(me.pos, it.pos, me.width + it.width, 4.0)
  }

  function ShotHits(w: World, s: nat, ts: seq<nat>): nat
    requires s < |w.ents| && InRange(ts, |w.ents|)
    decreases |ts|
  {
    if |ts| == 0 then 0 else (if ShotHit(w, s, ts[0]) then 1 else 0) + ShotHits(w, s, ts[1..])
  }

  lemma {:induction false} ShotHitsSame(w: World, w1: World, s: nat, ts: seq<nat>)
    requires |w1.ents| == |w.ents| && s < |w.ents| && InRange(ts, |w.ents|)
    requires forall j :: 0 <= j < |ts| ==> ShotHit(w1, s, ts[j]) == ShotHit(w, s, ts[j])
    ensures ShotHits(w1, s, ts) == ShotHits(w, s, ts)
    decreases |ts|
  {
    if |ts| > 0 {
      ShotHitsSame(w, w1, s, ts[1..]);
    }
  }

  /** No target in `ts` is a Viper that is coming in. */
  predicate NoComingViper(w: World, net: Wiring, ts: seq<nat>)
    requires |net.kinds| == |w.ents| && InRange(ts, |w.ents|)
  {
    forall j :: 0 <= j < |ts| ==> !(net.kinds[ts[j]] == ViperKind && w.ents[ts[j]].isComing)
  }

  /** After the first step of the collision loop, the rest of the loop sees the same
      hits and still meets no coming Viper. */
  lemma StrikeRest(w: World, net: Wiring, s: nat, ts: seq<nat>, env: Env)
    requires Wired(net, |w.ents|) && s < |w.ents| && InRange(ts, |w.ents|) && |ts| > 0
    requires Distinct(ts) && s !in ts && NoComingViper(w, net, ts)
    ensures StrikeStep(w, net, s, ts[0], env).Some?
    ensures var w1, rest := StrikeStep(w, net, s, ts[0], env).value, ts[1..];
            Distinct(rest) && s !in rest && ts[0] !in rest && NoComingViper(w1, net, rest)
            && w1.ents[s].power == w.ents[s].power
            && (forall j :: 0 <= j < |rest| ==> w1.ents[rest[j]] == w.ents[rest[j]])
            && (forall j :: 0 <= j < |rest| ==> ShotHit(w1, s, rest[j]) == ShotHit(w, s, rest[j]))
            && ShotHits(w1, s, rest) == ShotHits(w, s, rest)
  {
    var t, rest := ts[0], ts[1..];
    assert !(net.kinds[ts[0]] == ViperKind && w.ents[ts[0]].isComing);
    var w1 := StrikeStep(w, net, s, t, env).value;
    assert forall j :: 0 <= j < |rest| ==> rest[j] != t && rest[j] != s;
    assert w1.ents[s] == w.ents[s].(life := w1.ents[s].life);
    ShotHitsSame(w, w1, s, rest);
  }

  /** The projectile ends with life 0 if it touched any target, and unchanged if not. */
  lemma {:induction false} StrikeShotLife(w: World, net: Wiring, s: nat, ts: seq<nat>, env: Env)
    requires Wired(net, |w.ents|) && s < |w.ents| && InRange(ts, |w.ents|)
    requires Distinct(ts) && s !in ts && NoComingViper(w, net, ts)
    ensures Strike(w, net, s, ts, env).ents[s].life == if ShotHits(w, s, ts) > 0 then 0 else w.ents[s].life
    decreases |ts|
  {
    if |ts| > 0 {
      StrikeRest(w, net, s, ts, env);
      StrikeShotLife(StrikeStep(w, net, s, ts[0], env).value, net, s, ts[1..], env);
    }
  }

  /** Every touched live target loses the projectile's `power`. */
  lemma {:induction false} StrikeTargetDamage(w: World, net: Wiring, s: nat, ts: seq<nat>, env: Env)
    requires Wired(net, |w.ents|) && s < |w.ents| && InRange(ts, |w.ents|)
    requires Distinct(ts) && s !in ts && NoComingViper(w, net, ts)
    ensures forall j :: 0 <= j < |ts| ==>
              Strike(w, net, s, ts, env).ents[ts[j]].life
              == w.ents[ts[j]].life - (if ShotHit(w, s, ts[j]) then w.ents[s].power else 0)
    decreases |ts|
  {
    if |ts| > 0 {
      var w1, rest := StrikeStep(w, net, s, ts[0], env).value, ts[1..];
      StrikeRest(w, net, s, ts, env);
      StrikeTargetDamage(w1, net, s, rest, env);
      forall j | 0 <= j < |ts|
        ensures Strike(w, net, s, ts, env).ents[ts[j]].life
                == w.ents[ts[j]].life - (if ShotHit(w, s, ts[j]) then w.ents[s].power else 0)
      {
        if j > 0 {
          assert ts[j] == rest[j - 1];
        }
      }
    }
  }

  /** The collision loop of a projectile does not stop after a hit: every touched live
      target loses `power`, and the projectile ends with life 0 if it touched any. */
  lemma StrikeDamage(w: World, net: Wiring, s: nat, ts: seq<nat>, env: Env)
    requires Wired(net, |w.ents|) && s < |w.ents| && InRange(ts, |w.ents|)
    requires Distinct(ts) && s !in ts && NoComingViper(w, net, ts)
    ensures forall j :: 0 <= j < |ts| ==>
              Strike(w, net, s, ts, env).ents[ts[j]].life
              == w.ents[ts[j]].life - (if ShotHit(w, s, ts[j]) then w.ents[s].power else 0)
    ensures Strike(w, net, s, ts, env).ents[s].life == if ShotHits(w, s, ts) > 0 then 0 else w.ents[s].life
  {
    StrikeTargetDamage(w, net, s, ts, env);
    StrikeShotLife(w, net, s, ts, env);
  }

  /** A projectile never changes a Viper that is coming in: it either misses it or
      stops its collision loop there. */
  lemma {:induction false} ComingViperShielded(w: World, net: Wiring, s: nat, ts: seq<nat>, t: nat, env: Env)
    requires Wired(net, |w.ents|) && s < |w.ents| && InRange(ts, |w.ents|)
    requires t < |w.ents| && t != s && net.kinds[t] == ViperKind && w.ents[t].isComing
    ensures Strike(w, net, s, ts, env).ents[t] == w.ents[t]
    decreases |ts|
  {
    if |ts| > 0 {
      match StrikeStep(w, net, s, ts[0], env)
      case None =>
      case Some(w1) =>
        assert w1.ents[t] == w.ents[t];
        ComingViperShielded(w1, net, s, ts[1..], t, env);
    }
  }

  /** The same for a whole `Shot.update` and `Homing.update`. */
  lemma ShotsSpareComingViper(w: World, net: Wiring, s: nat, t: nat, env: Env)
    requires Wired(net, |w.ents|) && s < |w.ents| && t < |w.ents| && t != s
    requires net.kinds[t] == ViperKind && w.ents[t].isComing
    ensures ShotUpdated(w, net, s, env).ents[t] == w.ents[t]
    ensures |net.targets[s]| > 0 ==> HomingUpdated(w, net, s, env).ents[t] == w.ents[t]
  {
    if w.ents[s].life > 0 {
      ComingViperShielded(w.(ents := w.ents[s := Advanced(w.ents[s])]), net, s, net.targets[s], t, env);
      if |net.targets[s]| > 0 {
        var w0 := w.(ents := w.ents[s := Homed(w.ents[s], w.ents[net.targets[s][0]].pos, env.host)]);
        ComingViperShielded(w0.(ents := w0.ents[s := Advanced(w0.ents[s])]), net, s, net.targets[s], t, env);
      }
    }
  }

  /** The world a projectile's collision loop runs on: slot `s` holds `c` after its step. */
  function Flown(w: World, s: nat, c: Character): (r: World)
    requires s < |w.ents|
    ensures |r.ents| == |w.ents| && r.booms == w.booms
    ensures r.ents[s] == Advanced(c)
    ensures forall i :: 0 <= i < |w.ents| && i != s ==> r.ents[i] == w.ents[i]
  {
    w.(ents := w.ents[s := Advanced(c)])
  }

  /** A whole `Shot.update` of a live shot whose targets are distinct and include no
      coming Viper: the shot dies exactly when, after its step, it touches a target or
      is out of the field, and keeps its life otherwise; every target it touches after
      the step loses `power` and the others lose nothing. */
  lemma ShotOutcome(w: World, net: Wiring, s: nat, env: Env)
    requires Wired(net, |w.ents|) && s < |w.ents| && w.ents[s].life > 0
    requires Distinct(net.targets[s]) && NoComingViper(w, net, net.targets[s])
    ensures var r, m, ts := ShotUpdated(w, net, s, env), Flown(w, s, w.ents[s]), net.targets[s];
            r.ents[s].life
              == (if ShotHits(m, s, ts) > 0 || Outside(Advanced(w.ents[s]), net.width, net.height) then 0
                  else w.ents[s].life)
            && forall j :: 0 <= j < |ts| ==>
                 r.ents[ts[j]].life == w.ents[ts[j]].life - (if ShotHit(m, s, ts[j]) then w.ents[s].power else 0)
  {
    var c, ts := w.ents[s], net.targets[s];
    var m := Flown(w, s, c);
    assert s !in ts by {
      forall j | 0 <= j < |ts| ensures ts[j] != s { }
    }
    assert InRange(ts, |w.ents|);
    assert NoComingViper(m, net, ts) by {
      forall j | 0 <= j < |ts| ensures m.ents[ts[j]] == w.ents[ts[j]] { }
    }
    StrikeDamage(m, net, s, ts, env);
    var w1 := Strike(m, net, s, ts, env);
    assert w1.ents[s] == Advanced(c).(life := w1.ents[s].life);
    assert ShotUpdated(w, net, s, env) == w1.(ents := w1.ents[s := ShotDespawned(w1.ents[s], net)]);
  }

  /** The same for `Homing.update`, on the heading its turn decision chose; it also
      counts its frame. */
  lemma HomingOutcome(w: World, net: Wiring, h: nat, env: Env)
    requires Wired(net, |w.ents|) && h < |w.ents| && |net.targets[h]| > 0 && w.ents[h].life > 0
    requires Distinct(net.targets[h]) && NoComingViper(w, net, net.targets[h])
    ensures var r, ts := HomingUpdated(w, net, h, env), net.targets[h];
            var turned := Homed(w.ents[h], w.ents[ts[0]].pos, env.host);
            var m := Flown(w, h, turned);
            r.ents[h].life
              == (if ShotHits(m, h, ts) > 0 || Outside(Advanced(turned), net.width, net.height) then 0
                  else w.ents[h].life)
            && r.ents[h].frame == w.ents[h].frame + 1
            && forall j :: 0 <= j < |ts| ==>
                 r.ents[ts[j]].life == w.ents[ts[j]].life - (if ShotHit(m, h, ts[j]) then w.ents[h].power else 0)
  {
    var ts := net.targets[h];
    var turned := Homed(w.ents[h], w.ents[ts[0]].pos, env.host);
    var w0 := w.(ents := w.ents[h := turned]);
    assert NoComingViper(w0, net, ts) by {
      forall j | 0 <= j < |ts| ensures w0.ents[ts[j]] == w.ents[ts[j]] {
        assert ts[j] != h;
      }
    }
    ShotOutcome(w0, net, h, env);
    assert Flown(w0, h, w0.ents[h]) == Flown(w, h, turned);
  }

  /** One strike on a target: a coming Viper stops the loop with nothing changed;
      otherwise a touched live target loses `power`, the projectile's life becomes 0,
      and an explosion is claimed at the target if its life is now `<= 0`. */
  lemma StrikeStepEffect(w: World, net: Wiring, s: nat, t: nat, env: Env)
    requires Wired(net, |w.ents|) && s < |w.ents| && t < |w.ents| && s != t
    ensures !ShotHit(w, s, t) ==> StrikeStep(w, net, s, t, env) == Some(w)
    ensures ShotHit(w, s, t) && net.kinds[t] == ViperKind && w.ents[t].isComing ==> StrikeStep(w, net, s, t, env) == None
    ensures ShotHit(w, s, t) && !(net.kinds[t] == ViperKind && w.ents[t].isComing) ==>
              var r := StrikeStep(w, net, s, t, env).value;
              var left := w.ents[t].life - w.ents[s].power;
              r.ents[t].life == left && r.ents[s].life == 0
              && r.booms == if left <= 0 then Exploded(w.booms, w.ents[t].pos, env.now, env.sparks, env.host) else w.booms
  {}

  // ----- the Viper -----

  /** The Viper's update while coming in: the coming branch, then the clamp. */
  function ComingStep(c: Character, width: real, height: real): (r: Character)
    requires c.startPosition.Some?
    ensures r.startPosition == c.startPosition
  {
    Clamped(Coming(c, height), width, height)
  }

  /** `n` updates of a Viper coming in, with nothing touching it. */
  function ComingFor(c: Character, n: nat, width: real, height: real): (r: Character)
    requires c.startPosition.Some?
    ensures r.startPosition == c.startPosition
  {
    if n == 0 then c else ComingStep(ComingFor(c, n - 1, width, height), width, height)
  }

  /** The entry after `setIsComing(x, H, ..)`: the Viper rises 2 per update from
      `y = H`, and the 51st update (at `comingFrame == 50`) pins it to `H - 100` and ends
      the entry. */
  lemma {:induction false} ComingTrajectory(c: Character, n: nat, width: real, height: real)
    requires c.isComing && c.startPosition == Some(c.pos) && c.comingFrame == 0
    requires 0.0 <= c.pos.x <= width && c.pos.y == height && 100.0 <= height
    requires 1 <= n <= 51
    ensures n <= 50 ==>
              ComingFor(c, n, width, height)
              == c.(pos := Vec(c.pos.x, height - (2 * (n - 1)) as real), comingFrame := n)
    ensures n == 51 ==>
              ComingFor(c, n, width, height)
              == c.(pos := Vec(c.pos.x, height - 100.0), isComing := false, comingFrame := 51)
  {
    if n > 1 {
      ComingTrajectory(c, n - 1, width, height);
    }
  }

  /** With the canvas of the game (`H = 480`), the entry ends when the Viper has
      reached `y = 380`, after 51 updates. */
  lemma ComingEndsAt380(c: Character)
    requires c.isComing && c.startPosition == Some(c.pos) && c.comingFrame == 0
    requires c.pos == Vec(300.0, 480.0)
    ensures ComingFor(c, 50, 600.0, 480.0).isComing
    ensures ComingFor(c, 51, 600.0, 480.0) == c.(pos := Vec(300.0, 380.0), isComing := false, comingFrame := 51)
  {
    ComingTrajectory(c, 50, 600.0, 480.0);
    ComingTrajectory(c, 51, 600.0, 480.0);
  }

  /** The shooting part of `n` non-coming updates of the Viper, with the keys held in
      each. */
  function Shooting(ents: seq<Character>, v: nat, pool: seq<nat>, ks: seq<Keys>): (r: seq<Character>)
    requires v < |ents| && InRange(pool, |ents|)
    ensures |r| == |ents|
    decreases |ks|
  {
    if |ks| == 0 then ents else Shooting(ViperShoots(ents, v, pool, ks[0]), v, pool, ks[1..])
  }

  /** While the counter is below zero nothing is fired, whatever the keys, and the
      counter rises by exactly one per update. */
  lemma {:induction false} CooldownHolds(ents: seq<Character>, v: nat, pool: seq<nat>, ks: seq<Keys>)
    requires v < |ents| && InRange(pool, |ents|)
    requires ents[v].shotCounter + |ks| <= 0
    ensures Shooting(ents, v, pool, ks) == ents[v := ents[v].(shotCounter := ents[v].shotCounter + |ks|)]
    decreases |ks|
  {
    if |ks| > 0 {
      var next := ViperShoots(ents, v, pool, ks[0]);
      assert next == ents[v := ents[v].(shotCounter := ents[v].shotCounter + 1)];
      CooldownHolds(next, v, pool, ks[1..]);
      assert next[v := next[v].(shotCounter := next[v].shotCounter + |ks[1..]|)]
          == ents[v := ents[v].(shotCounter := ents[v].shotCounter + |ks|)];
    }
  }

  /** After a shot is fired (the counter then reads `1 - shotCoolTime`), the next nine
      updates fire nothing, so two shots are at least ten updates apart. */
  lemma ShotSpacing(ents: seq<Character>, v: nat, pool: seq<nat>, ks: seq<Keys>)
    requires v < |ents| && InRange(pool, |ents|)
    requires ents[v].shotCounter == 1 - ShotCoolTime && |ks| < ShotCoolTime
    ensures forall i :: 0 <= i < |ents| && i != v ==> Shooting(ents, v, pool, ks)[i] == ents[i]
    ensures Shooting(ents, v, pool, ks)[v].shotCounter == 1 - ShotCoolTime + |ks|
  {
    CooldownHolds(ents, v, pool, ks);
  }

  /** A whole `Viper.update` of a live Viper with an entry, whose targets are distinct
      and apart from its shot pool: it first loses one life per target it touches;
      coming in, it then takes one step of the entry and the clamp; otherwise it steers,
      is clamped, and its counter drops to `1 - shotCoolTime` exactly when `z` is held,
      the counter is at 0 or more and a shot was free, and rises by one otherwise. */
  lemma ViperOutcome(w: World, net: Wiring, v: nat, env: Env)
    requires Wired(net, |w.ents|) && v < |w.ents| && w.ents[v].life > 0 && w.ents[v].startPosition.Some?
    requires Distinct(net.targets[v])
    requires forall j :: 0 <= j < |net.shots[v]| ==> net.shots[v][j] !in net.targets[v]
    ensures var r, c := ViperUpdated(w, net, v, env), w.ents[v];
            var hit := c.(life := c.life - BodyHits(w, v, net.targets[v]));
            (c.isComing ==> r.ents[v] == ComingStep(hit, net.width, net.height))
            && (!c.isComing ==>
                  r.ents[v] == Clamped(Steered(hit, env.keys), net.width, net.height).(shotCounter :=
                    if env.keys.fire && c.shotCounter >= 0 && Claims(w.ents, net.shots[v]) then 1 - ShotCoolTime
                    else c.shotCounter + 1))
  {
    var c, ts, pool := w.ents[v], net.targets[v], net.shots[v];
    assert v !in ts by {
      forall j | 0 <= j < |ts| ensures ts[j] != v { }
    }
    ContactsViperDamage(w, v, ts, env);
    var w1 := Contacts(w, v, ts, env);
    var hit := c.(life := c.life - BodyHits(w, v, ts));
    assert w1.ents[v] == hit;
    if !c.isComing {
      assert v !in pool by {
        forall j | 0 <= j < |pool| ensures pool[j] != v { }
      }
      SteeredShoots(w1.ents, w.ents, v, pool, hit, env.keys);
    }
  }

  /** The steering and shooting part of a Viper update, on characters whose shot pool
      agrees with `ents`: only the counter of the steered Viper changes, and it follows
      the free shots of `ents`. */
  lemma SteeredShoots(e: seq<Character>, ents: seq<Character>, v: nat, pool: seq<nat>, hit: Character, keys: Keys)
    requires v < |e| == |ents| && InRange(pool, |e|) && v !in pool
    requires forall j :: 0 <= j < |pool| ==> e[pool[j]] == ents[pool[j]]
    ensures ViperShoots(e[v := Steered(hit, keys)], v, pool, keys)[v]
         == Steered(hit, keys).(shotCounter :=
              if keys.fire && hit.shotCounter >= 0 && Claims(ents, pool) then 1 - ShotCoolTime
              else hit.shotCounter + 1)
  {
    var e1 := e[v := Steered(hit, keys)];
    assert Claims(e1, pool) == Claims(ents, pool) by {
      forall j | 0 <= j < |pool| ensures e1[pool[j]] == ents[pool[j]] {
        assert pool[j] != v;
      }
    }
  }

  // ----- homing -----

  /** Every live homing shot makes the update as written throw, while the intended
      update turns and moves it and counts its frame. */
  lemma HomingAsWrittenThrows(w: World, net: Wiring, h: nat, env: Env)
    requires Wired(net, |w.ents|) && h < |w.ents| && |net.targets[h]| > 0 && w.ents[h].life > 0
    ensures HomingUpdatedAsWritten(w, h).None?
    ensures HomingUpdated(w, net, h, env).ents[h].frame == w.ents[h].frame + 1
    ensures HomingUpdated(w, net, h, env).ents[h].vector
         == Homed(w.ents[h], w.ents[net.targets[h][0]].pos, env.host).vector
  {
  }

  /** A homing shot turns its unit heading by one degree towards the side of the raw
      cross product of its heading and the direction to the target, or not at all. */
  lemma HomingTurn(c: Character, target: Vec, host: Host)
    requires ValidSqrt(host) && c.vector != Vec(0.0, 0.0) && c.pos != target
    ensures var d := TurnDegrees(Cross(c.vector, Sub(target, c.pos)));
            var heading := Unit(c.vector, host);
            Homed(c, target, host).vector
            == if d == 0 then heading else Rotate(heading, d as real * host.pi / 180.0, host)
  {
    TurnOnUnitVectors(c.vector, c.pos, target, host);
  }
}

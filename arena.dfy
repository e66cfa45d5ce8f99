/** The objects of the game as the source keeps them: every character is a record in
    one array and every explosion a record in another, and each `update` rewrites them
    in place. Each method is proved to leave the arena in the state the matching
    function of `Characters` describes. */
module Arenas {
  import opened Pools
  import opened Geometry
  import opened Effects
  import opened Characters

  class Arena {
    const net: Wiring
    const ents: array<Character>
    const booms: array<Explosion>

    /** The wiring names slots of this arena. */
    predicate Valid()
    {
      Wired(net, ents.Length)
    }

    /** The current contents of the two arrays. */
    function State(): World
      reads ents, booms
    {
      World(ents[..], booms[..])
    }

    constructor (net: Wiring, chars: seq<Character>, explosions: seq<Explosion>)
      requires Wired(net, |chars|)
      ensures this.net == net && Valid()
      ensures State() == World(chars, explosions)
      ensures fresh(ents) && fresh(booms)
    {
      this.net := net;
      ents := new Character[|chars|](i requires 0 <= i < |chars| => chars[i]);
      booms := new Explosion[|explosions|](i requires 0 <= i < |explosions| => explosions[i]);
      new;
      assert ents[..] == chars;
      assert booms[..] == explosions;
    }

    /** The explosion claim: scan the pool for the first slot with `life <= 0` and set it. */
    method Explode(at: Vec, now: real, sparks: int -> Spark, host: Host)
      modifies booms
      ensures booms[..] == Exploded(old(booms[..]), at, now, sparks, host)
    {
      var k := 0;
      while k < booms.Length && booms[k].life > 0
        invariant 0 <= k <= booms.Length
        invariant forall j :: 0 <= j < k ==> booms[j].life > 0
      {
        k := k + 1;
      }
      if k < booms.Length {
        FirstInactiveAt(BoomLives(booms[..]), k);
        var e := Ignite(booms[k], at, now, sparks, host);
        booms[k] := e;
      }
    }

    /** A pooled claim: the first slot of `pool` with `life <= 0` receives the call `o`. */
    method Claim(pool: seq<nat>, o: Order) returns (claimed: bool)
      requires InRange(pool, ents.Length)
      modifies ents
      ensures ents[..] == Claimed(old(ents[..]), pool, o)
      ensures claimed == Claims(old(ents[..]), pool)
    {
      var k := 0;
      while k < |pool| && ents[pool[k]].life > 0
        invariant 0 <= k <= |pool|
        invariant forall j :: 0 <= j < k ==> ents[pool[j]].life > 0
      {
        k := k + 1;
      }
      claimed := k < |pool|;
      if claimed {
        FirstInactiveAt(PoolLives(ents[..], pool), k);
        ents[pool[k]] := Apply(ents[pool[k]], o);
      }
    }

    /** Sets `life = 0` on every slot of `pool`, in pool order. */
    method ClearLives(pool: seq<nat>)
      requires InRange(pool, ents.Length)
      modifies ents
      ensures ents[..] == Cleared(old(ents[..]), pool)
    {
      var i := 0;
      while i < |pool|
        invariant 0 <= i <= |pool|
        invariant Cleared(ents[..], pool[i..]) == Cleared(old(ents[..]), pool)
      {
        assert pool[i..][0] == pool[i] && pool[i..][1..] == pool[i + 1..];
        ents[pool[i]] := ents[pool[i]].(life := 0);
        i := i + 1;
      }
    }

    /** A direct call on slot `i`, such as `viper.setIsComing(..)`. */
    method Call(i: nat, o: Order)
      requires i < ents.Length
      modifies ents
      ensures ents[..] == old(ents[..])[i := Apply(old(ents[i]), o)]
    {
      ents[i] := Apply(ents[i], o);
    }

    /** One turn of the Viper's body-contact loop. */
    method ContactOne(v: nat, t: nat, env: Env)
      requires v < ents.Length && t < ents.Length
      modifies ents, booms
      ensures State() == ContactStep(old(State()), v, t, env)
    {
      var me, it := ents[v], ents[t];
      if it.life > 0 && Touching(me.pos, it.pos, me.width + it.width, 3.0) {
        ghost var e1 := ents[..][t := it.(life := it.life - 1)];
        ents[t] := it.(life := it.life - 1);
        assert ents[..] == e1;
        ghost var e2 := e1[v := e1[v].(life := e1[v].life - 1)];
        ents[v] := ents[v].(life := ents[v].life - 1);
        assert ents[..] == e2;
        if ents[v].life <= 0 {
          Explode(ents[v].pos, env.now, env.sparks, env.host);
        }
      }
    }

    /** The Viper's body-contact loop over its target list. */
    method ContactAll(v: nat, env: Env)
      requires Valid() && v < ents.Length
      modifies ents, booms
      ensures State() == Contacts(old(State()), v, net.targets[v], env)
    {
      var ts := net.targets[v];
      var i := 0;
      while i < |ts|
        invariant 0 <= i <= |ts|
        invariant Contacts(State(), v, ts[i..], env) == Contacts(old(State()), v, ts, env)
      {
        assert ts[i..][0] == ts[i] && ts[i..][1..] == ts[i + 1..];
        ContactOne(v, ts[i], env);
        i := i + 1;
      }
    }

    /** One turn of a projectile's collision loop; `stop` is the `break` at a Viper
        that is still coming in. */
    method StrikeOne(s: nat, t: nat, env: Env) returns (stop: bool)
      requires Valid() && s < ents.Length && t < ents.Length
      modifies ents, booms
      ensures stop <==> StrikeStep(old(State()), net, s, t, env).None?
      ensures !stop ==> State() == StrikeStep(old(State()), net, s, t, env).value
      ensures stop ==> State() == old(State())
    {
      var me, it := ents[s], ents[t];
      stop := false;
      if it.life > 0 && Touching(me.pos, it.pos, me.width + it.width, 4.0) {
        if net.kinds[t] == ViperKind && it.isComing {
          stop := true;
          return;
        }
        ents[t] := it.(life := it.life - me.power);
        if ents[t].life <= 0 {
          Explode(ents[t].pos, env.now, env.sparks, env.host);
        }
        ents[s] := ents[s].(life := 0);
      }
    }

    /** A projectile's collision loop over its target list. */
    method StrikeAll(s: nat, env: Env)
      requires Valid() && s < ents.Length
      modifies ents, booms
      ensures State() == Strike(old(State()), net, s, net.targets[s], env)
    {
      var ts := net.targets[s];
      var i := 0;
      while i < |ts|
        invariant 0 <= i <= |ts|
        invariant Strike(State(), net, s, ts[i..], env) == Strike(old(State()), net, s, ts, env)
      {
        assert ts[i..][0] == ts[i] && ts[i..][1..] == ts[i + 1..];
        var stop := StrikeOne(s, ts[i], env);
        if stop {
          break;
        }
        i := i + 1;
      }
    }

    /** `Viper.update`. */
    method UpdateViper(v: nat, env: Env)
      requires Valid() && v < ents.Length
      modifies ents, booms
      ensures State() == ViperUpdated(old(State()), net, v, env)
    {
      if ents[v].life <= 0 || ents[v].startPosition.None? {
        return;
      }
      ContactAll(v, env);
      var me := ents[v];
      if me.isComing {
        ents[v] := Coming(me, net.height);
      } else {
        ents[v] := Steered(me, env.keys);
        Shoot(v, env.keys);
      }
      ents[v] := Clamped(ents[v], net.width, net.height);
    }

    /** The `z` key and the shot counter of `Viper.update`. */
    method Shoot(v: nat, keys: Keys)
      requires Valid() && v < ents.Length
      modifies ents
      ensures ents[..] == ViperShoots(old(ents[..]), v, net.shots[v], keys)
    {
      if keys.fire && ents[v].shotCounter >= 0 {
        var claimed := Claim(net.shots[v], SetShot(ents[v].pos, 1));
        if claimed {
          ents[v] := ents[v].(shotCounter := -ShotCoolTime);
        }
      }
      ents[v] := ents[v].(shotCounter := ents[v].shotCounter + 1);
    }

    /** `Shot.update`. */
    method UpdateShot(s: nat, env: Env)
      requires Valid() && s < ents.Length
      modifies ents, booms
      ensures State() == ShotUpdated(old(State()), net, s, env)
    {
      if ents[s].life <= 0 {
        return;
      }
      ents[s] := Advanced(ents[s]);
      StrikeAll(s, env);
      ents[s] := ShotDespawned(ents[s], net);
    }

    /** `Homing.update`. */
    method UpdateHoming(h: nat, env: Env)
      requires Valid() && h < ents.Length && |net.targets[h]| > 0
      modifies ents, booms
      ensures State() == HomingUpdated(old(State()), net, h, env)
    {
      if ents[h].life <= 0 {
        return;
      }
      var target := ents[net.targets[h][0]].pos;
      ents[h] := Homed(ents[h], target, env.host);
      UpdateShot(h, env);
      ents[h] := ents[h].(frame := ents[h].frame + 1);
    }

    /** `Enemy.fire`. */
    method Fire(e: nat, pool: seq<nat>, dir: Vec, speed: real)
      requires e < ents.Length && InRange(pool, ents.Length)
      modifies ents
      ensures ents[..] == Fired(old(ents[..]), e, pool, dir, speed)
    {
      var _ := Claim(pool, FireShot(ents[e].pos, dir, speed));
    }

    /** An aimed shot at `target[0]`. */
    method Aim(e: nat, host: Host)
      requires Valid() && e < ents.Length && |net.targets[e]| > 0
      modifies ents
      ensures ents[..] == Aimed(old(ents[..]), net, e, host)
    {
      var dir := Normalize(ents[e].pos, ents[net.targets[e][0]].pos, host);
      Fire(e, net.shots[e], dir, 5.0);
    }

    /** The volley loop of a large enemy: `for (let i = 0; i <= 360; i += 45)`. */
    method FireVolley(e: nat, host: Host)
      requires Valid() && e < ents.Length
      modifies ents
      ensures ents[..] == Volley(old(ents[..]), e, net.shots[e], VolleyAngles(), host)
    {
      var i := 0;
      while i <= 360
        invariant 0 <= i <= 405
        invariant Volley(ents[..], e, net.shots[e], AnglesFrom(i), host)
               == Volley(old(ents[..]), e, net.shots[e], VolleyAngles(), host)
        decreases 360 - i
      {
        VolleyFrom(ents[..], e, net.shots[e], i, host);
        Fire(e, net.shots[e], VolleyDirection(i, host), 5.0);
        i := i + 45;
      }
    }

    /** `Enemy.update`. */
    method UpdateEnemy(e: nat, env: Env)
      requires Valid() && e < ents.Length && |net.targets[e]| > 0
      modifies ents
      ensures State() == EnemyUpdated(old(State()), net, e, env)
    {
      var c := ents[e];
      if c.life <= 0 {
        return;
      }
      EnemyShoot(e, env.host);
      var done := EnemyDespawned(EnemyMoved(ents[e], c.etype, env.host), net);
      ents[e] := done.(frame := done.frame + 1);
    }

    /** The firing part of `Enemy.update`. */
    method EnemyShoot(e: nat, host: Host)
      requires Valid() && e < ents.Length && |net.targets[e]| > 0
      modifies ents
      ensures ents[..] == EnemyShot(old(ents[..]), net, e, host)
    {
      var c := ents[e];
      if EnemyFires(c.etype, c.frame) {
        if c.etype == Large {
          FireVolley(e, host);
        } else {
          Aim(e, host);
        }
      }
    }

    /** `Boss.update`. */
    method UpdateBoss(b: nat, env: Env)
      requires Valid() && b < ents.Length && |net.targets[b]| > 0
      modifies ents
      ensures State() == BossUpdated(old(State()), net, b, env)
    {
      var c := ents[b];
      if c.life <= 0 {
        return;
      }
      ents[b] := BossMoved(c, env.host);
      if c.frame % 50 == 0 {
        Aim(b, env.host);
      }
      var done := EnemyDespawned(ents[b], net);
      ents[b] := done.(frame := done.frame + 1);
    }

    /** The `update` of slot `i`, by its class. */
    method Update(i: nat, env: Env)
      requires Valid() && i < ents.Length
      modifies ents, booms
      ensures State() == Updated(old(State()), net, i, env)
    {
      match net.kinds[i]
      case ViperKind => UpdateViper(i, env);
      case ShotKind => UpdateShot(i, env);
      case EnemyKind => UpdateEnemy(i, env);
      case BossKind => UpdateBoss(i, env);
      case HomingKind => UpdateHoming(i, env);
    }

    /** `forEach((c) => c.update())` over the slots of `order`. */
    method UpdateEach(order: seq<nat>, env: Env)
      requires Valid() && InRange(order, ents.Length)
      modifies ents, booms
      ensures State() == UpdatedEach(old(State()), net, order, env)
    {
      var i := 0;
      while i < |order|
        invariant 0 <= i <= |order|
        invariant UpdatedEach(State(), net, order[i..], env) == UpdatedEach(old(State()), net, order, env)
      {
        assert order[i..][0] == order[i] && order[i..][1..] == order[i + 1..];
        Update(order[i], env);
        i := i + 1;
      }
    }

    /** `explosion.forEach((e) => e.update())`. */
    method TickAll(now: real)
      modifies booms
      ensures booms[..] == TickedAll(old(booms[..]), now)
    {
      var i := 0;
      while i < booms.Length
        invariant 0 <= i <= booms.Length
        invariant forall j :: 0 <= j < i ==> booms[j] == Ticked(old(booms[j]), now)
        invariant forall j :: i <= j < booms.Length ==> booms[j] == old(booms[j])
      {
        booms[i] := Ticked(booms[i], now);
        i := i + 1;
      }
    }
  }
}

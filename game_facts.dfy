/** What the phase table, `render` and the Enter handler guarantee over whole phases and
    frames: the frames each phase step is called with and the frames at which it claims,
    the boss respawn, the scene never throwing, the game-over trigger and the restart. */
module GameFacts {
  import opened Pools
  import opened Geometry
  import opened Characters
  import opened CharacterFacts
  import opened Scenes
  import opened Games

  // ----- the slot ranges -----

  /** A slot range holds exactly the slots between its bounds. */
  lemma SlotsHold(lo: nat, count: nat, i: nat)
    ensures i in Slots(lo, count) <==> lo <= i < lo + count
  {
    if lo <= i < lo + count {
      assert Slots(lo, count)[i - lo] == i;
    }
  }

  /** The pools the phase steps and the Enter handler touch are in range and distinct. */
  lemma PoolsFormed()
    ensures InRange(Enemies, SlotCount) && Distinct(Enemies)
    ensures InRange(EnemyShots, SlotCount) && InRange(Larges, SlotCount) && Distinct(Larges)
    ensures InRange([BossSlot], SlotCount) && Distinct([BossSlot])
  {
    LayoutWired();
  }

  /** The game's wiring meets what `ViperOutcome` and `ShotOutcome` ask: the Viper and its
      shots aim at the foes, which are distinct, apart from the Viper's shot pool and
      never the Viper. */
  lemma ViperReach()
    ensures Layout().targets[ViperSlot] == Foes && Layout().shots[ViperSlot] == ViperShots
    ensures Distinct(Foes)
    ensures forall j :: 0 <= j < |ViperShots| ==> ViperShots[j] !in Foes
    ensures forall i :: ViperShotsFrom <= i < EnemiesFrom ==> Layout().targets[i] == Foes
    ensures forall j :: 0 <= j < |Foes| ==> Foes[j] < SlotCount && Layout().kinds[Foes[j]] != ViperKind
  {
    LayoutWired();
    forall j | 0 <= j < |ViperShots| ensures ViperShots[j] !in Foes {
      forall k | 0 <= k < |Foes| ensures Foes[k] != ViperShots[j] {
        assert Foes[k] >= EnemiesFrom;
      }
    }
    forall j | 0 <= j < |Foes| ensures Foes[j] < SlotCount && Layout().kinds[Foes[j]] != ViperKind {
      assert EnemiesFrom <= Foes[j] < SlotCount;
    }
  }

  /** `sequence(a, c)` is `sequence(a, b)` followed by `sequence(b, c)`. */
  lemma {:induction false} SequenceSplit(a: int, b: int, c: int)
    requires a <= b <= c
    ensures Sequence(a, c) == Sequence(a, b) + Sequence(b, c)
    decreases b - a
  {
    if a < b {
      SequenceSplit(a + 1, b, c);
    }
  }

  // ----- the frames of a phase -----

  /** The frames with which the next `n` calls of step `p` run, from `frame` on, up to
      and including the call that activates another scene. */
  function Calls(p: Phase, frame: int, n: nat): (r: seq<int>)
    ensures |r| <= n
    ensures forall i :: 0 <= i < |r| ==> r[i] == frame + i
    decreases n
  {
    if n == 0 then []
    else if Next(p, frame).Some? then [frame]
    else [frame] + Calls(p, frame + 1, n - 1)
  }

  /** A step that first activates at frame `last` is called with every frame from
      `frame` to `last`, and with no other. */
  lemma {:induction false} CallsUntil(p: Phase, frame: int, last: int, n: nat)
    requires frame <= last && n > last - frame
    requires forall g :: frame <= g < last ==> Next(p, g).None?
    requires Next(p, last).Some?
    ensures Calls(p, frame, n) == Sequence(frame, last + 1)
    decreases last - frame
  {
    if frame < last {
      CallsUntil(p, frame + 1, last, n - 1);
    }
  }

  /** The frames among `frames` at which step `p` attempts a claim. */
  function SpawnFrames(p: Phase, frames: seq<int>, ents: seq<Character>, rnd: real): (r: seq<int>)
    requires |ents| == SlotCount
    ensures |r| <= |frames|
  {
    if |frames| == 0 then []
    else (if Spawn(p, frames[0], ents, rnd).Some? then [frames[0]] else []) + SpawnFrames(p, frames[1..], ents, rnd)
  }

  lemma {:induction false} SpawnFramesConcat(p: Phase, x: seq<int>, y: seq<int>, ents: seq<Character>, rnd: real)
    requires |ents| == SlotCount
    ensures SpawnFrames(p, x + y, ents, rnd) == SpawnFrames(p, x, ents, rnd) + SpawnFrames(p, y, ents, rnd)
    decreases |x|
  {
    if |x| > 0 {
      assert (x + y)[0] == x[0] && (x + y)[1..] == x[1..] + y;
      SpawnFramesConcat(p, x[1..], y, ents, rnd);
    } else {
      assert x + y == y;
    }
  }

  /** A run of frames without a claim contributes nothing. */
  lemma {:induction false} NoSpawnIn(p: Phase, a: int, b: int, ents: seq<Character>, rnd: real)
    requires a <= b && |ents| == SlotCount
    requires forall g :: a <= g < b ==> Spawn(p, g, ents, rnd).None?
    ensures SpawnFrames(p, Sequence(a, b), ents, rnd) == []
    decreases b - a
  {
    if a < b {
      NoSpawnIn(p, a + 1, b, ents, rnd);
    }
  }

  /** A run of frames whose only claim is at its last frame `g`. */
  lemma SpawnAtEnd(p: Phase, a: int, g: int, ents: seq<Character>, rnd: real)
    requires a <= g && |ents| == SlotCount
    requires forall f :: a <= f < g ==> Spawn(p, f, ents, rnd).None?
    requires Spawn(p, g, ents, rnd).Some?
    ensures SpawnFrames(p, Sequence(a, g + 1), ents, rnd) == [g]
  {
    SequenceSplit(a, g, g + 1);
    NoSpawnIn(p, a, g, ents, rnd);
    SpawnFramesConcat(p, Sequence(a, g), Sequence(g, g + 1), ents, rnd);
    assert Sequence(g, g + 1) == [g];
  }

  /** "isComing", entered with frame 0 (it is only activated outside `update`), is
      called with frames 0 to 51, changes no character, and hands over to "boss". */
  lemma IsComingRun(ents: seq<Character>, rnd: real, n: nat)
    requires |ents| == SlotCount && n >= 52
    ensures Calls(IsComing, 0, n) == Sequence(0, 52) && Next(IsComing, 51) == Some("boss")
    ensures SpawnFrames(IsComing, Sequence(0, 52), ents, rnd) == []
    ensures forall f :: PhaseStep(IsComing, f, ents, rnd).ents == ents
  {
    CallsUntil(IsComing, 0, 51, n);
    NoSpawnIn(IsComing, 0, 52, ents, rnd);
  }

  /** "invade", entered from another step, is called with frames 1 to 200, attempts a
      claim at 50, 100, 150 and 200 only, and hands over to "wave". */
  lemma InvadeRun(ents: seq<Character>, rnd: real, n: nat)
    requires |ents| == SlotCount && n >= 200
    ensures Calls(Invade, 1, n) == Sequence(1, 201) && Next(Invade, 200) == Some("wave")
    ensures SpawnFrames(Invade, Sequence(1, 201), ents, rnd) == [50, 100, 150, 200]
  {
    CallsUntil(Invade, 1, 200, n);
    SequenceSplit(1, 51, 201);
    SequenceSplit(51, 101, 201);
    SequenceSplit(101, 151, 201);
    SpawnAtEnd(Invade, 1, 50, ents, rnd);
    SpawnAtEnd(Invade, 51, 100, ents, rnd);
    SpawnAtEnd(Invade, 101, 150, ents, rnd);
    SpawnAtEnd(Invade, 151, 200, ents, rnd);
    SpawnFramesConcat(Invade, Sequence(101, 151), Sequence(151, 201), ents, rnd);
    SpawnFramesConcat(Invade, Sequence(51, 101), Sequence(101, 201), ents, rnd);
    SpawnFramesConcat(Invade, Sequence(1, 51), Sequence(51, 201), ents, rnd);
  }

  /** "wave" is called with frames 1 to 400, attempts a claim at 60, 120, 180, 240 and
      300 only, and hands over to "invade_large". */
  lemma WaveRun(ents: seq<Character>, rnd: real, n: nat)
    requires |ents| == SlotCount && n >= 400
    ensures Calls(WaveIn, 1, n) == Sequence(1, 401) && Next(WaveIn, 400) == Some("invade_large")
    ensures SpawnFrames(WaveIn, Sequence(1, 401), ents, rnd) == [60, 120, 180, 240, 300]
  {
    CallsUntil(WaveIn, 1, 400, n);
    SequenceSplit(1, 181, 401);
    WaveEarly(ents, rnd);
    WaveLate(ents, rnd);
    SpawnFramesConcat(WaveIn, Sequence(1, 181), Sequence(181, 401), ents, rnd);
  }

  lemma WaveEarly(ents: seq<Character>, rnd: real)
    requires |ents| == SlotCount
    ensures SpawnFrames(WaveIn, Sequence(1, 181), ents, rnd) == [60, 120, 180]
  {
    SequenceSplit(1, 61, 181);
    SequenceSplit(61, 121, 181);
    SpawnAtEnd(WaveIn, 1, 60, ents, rnd);
    SpawnAtEnd(WaveIn, 61, 120, ents, rnd);
    SpawnAtEnd(WaveIn, 121, 180, ents, rnd);
    SpawnFramesConcat(WaveIn, Sequence(61, 121), Sequence(121, 181), ents, rnd);
    SpawnFramesConcat(WaveIn, Sequence(1, 61), Sequence(61, 181), ents, rnd);
  }

  lemma WaveLate(ents: seq<Character>, rnd: real)
    requires |ents| == SlotCount
    ensures SpawnFrames(WaveIn, Sequence(181, 401), ents, rnd) == [240, 300]
  {
    SequenceSplit(181, 241, 401);
    SequenceSplit(241, 301, 401);
    SpawnAtEnd(WaveIn, 181, 240, ents, rnd);
    SpawnAtEnd(WaveIn, 241, 300, ents, rnd);
    NoSpawnIn(WaveIn, 301, 401, ents, rnd);
    SpawnFramesConcat(WaveIn, Sequence(241, 301), Sequence(301, 401), ents, rnd);
    SpawnFramesConcat(WaveIn, Sequence(181, 241), Sequence(241, 401), ents, rnd);
  }

  /** "invade_large" is called with frames 1 to 501, attempts a single claim at 50, and
      hands over to "invade". */
  lemma InvadeLargeRun(ents: seq<Character>, rnd: real, n: nat)
    requires |ents| == SlotCount && n >= 501
    ensures Calls(InvadeLarge, 1, n) == Sequence(1, 502) && Next(InvadeLarge, 501) == Some("invade")
    ensures SpawnFrames(InvadeLarge, Sequence(1, 502), ents, rnd) == [50]
  {
    CallsUntil(InvadeLarge, 1, 501, n);
    SequenceSplit(1, 51, 502);
    SpawnAtEnd(InvadeLarge, 1, 50, ents, rnd);
    NoSpawnIn(InvadeLarge, 51, 502, ents, rnd);
    SpawnFramesConcat(InvadeLarge, Sequence(1, 51), Sequence(51, 502), ents, rnd);
  }

  /** "boss" is called with frames 1 to 501 and hands over to "invade". */
  lemma BossRun(n: nat)
    requires n >= 501
    ensures Calls(BossFight, 1, n) == Sequence(1, 502) && Next(BossFight, 501) == Some("invade")
  {
    CallsUntil(BossFight, 1, 501, n);
  }

  /** "gameover" never activates another scene and changes no character. */
  lemma {:induction false} GameOverRun(frame: int, n: nat, ents: seq<Character>, rnd: real)
    requires |ents| == SlotCount
    ensures Calls(GameOver, frame, n) == Sequence(frame, frame + n)
    ensures forall f :: PhaseStep(GameOver, f, ents, rnd).ents == ents
    decreases n
  {
    if n > 0 {
      GameOverRun(frame + 1, n - 1, ents, rnd);
    }
  }

  // ----- what one step does to the characters -----

  /** A phase's claim activates one more slot of its pool unless the pool is full, and
      no slot outside the pool changes. */
  lemma PhaseSpawnCounts(p: Phase, f: int, ents: seq<Character>, rnd: real, pool: seq<nat>, o: Order)
    requires |ents| == SlotCount && Spawn(p, f, ents, rnd) == Some((pool, o))
    ensures InRange(pool, SlotCount)
    ensures var r := PhaseStep(p, f, ents, rnd).ents;
            ActiveCount(PoolLives(r, pool)) == MinInt(ActiveCount(PoolLives(ents, pool)) + 1, |pool|)
            && (forall i :: 0 <= i < SlotCount && i !in pool ==> r[i] == ents[i])
  {
    PoolsFormed();
    assert pool == Enemies || pool == Larges || pool == [BossSlot];
    assert Activates(o);
    assert PhaseStep(p, f, ents, rnd).ents == Claimed(ents, pool, o);
    ClaimCounts(ents, pool, o);
  }

  /** A claim on a distinct pool with a call that leaves its slot live. */
  lemma ClaimCounts(ents: seq<Character>, pool: seq<nat>, o: Order)
    requires InRange(pool, |ents|) && Distinct(pool) && Activates(o)
    ensures ActiveCount(PoolLives(Claimed(ents, pool, o), pool)) == MinInt(ActiveCount(PoolLives(ents, pool)) + 1, |pool|)
  {
    ClaimedCounts(ents, pool, o);
    ClaimsIffNotFull(ents, pool);
    var before := ActiveCount(PoolLives(ents, pool));
    if Claims(ents, pool) {
      assert before + 1 <= |pool|;
    } else {
      assert before == |pool|;
    }
  }

  /** "boss" sets the boss up again, with life 80 just above the canvas, exactly when
      its life is `<= 0`; otherwise it changes no character. */
  lemma BossRespawn(f: int, ents: seq<Character>, rnd: real)
    requires |ents| == SlotCount
    ensures var r := PhaseStep(BossFight, f, ents, rnd).ents;
            var boss := ents[BossSlot];
            (boss.life <= 0 ==> r == ents[BossSlot := Apply(boss, SetBoss(Vec(CanvasWidth / 2.0, 0.0 - boss.height)))]
                                && r[BossSlot].life == 80)
            && (boss.life > 0 ==> r == ents)
  {
    var lives := PoolLives(ents, [BossSlot]);
    if ents[BossSlot].life <= 0 {
      FirstInactiveAt(lives, 0);
    } else {
      assert !Claims(ents, [BossSlot]);
    }
  }

  // ----- one frame -----

  /** Every active name of the board is registered. */
  predicate Registered(b: Board)
  {
    b.active.Some? ==> b.active.value in Table()
  }

  /** With every active name registered, `scene.update` never throws and the name stays
      registered. A step that activates another scene leaves the new one at frame 1,
      any other step advances the frame by one, and without an active scene nothing
      changes. */
  lemma SceneStepFrames(b: Board, rnd: real)
    requires |b.world.ents| == SlotCount && Registered(b)
    ensures SceneStepped(b, rnd).Some?
    ensures Registered(SceneStepped(b, rnd).value)
    ensures SceneStepped(b, rnd).value.world.booms == b.world.booms
    ensures b.active.None? ==> SceneStepped(b, rnd) == Some(b)
    ensures b.active.Some? ==>
              var p := Table()[b.active.value];
              var b1 := SceneStepped(b, rnd).value;
              b1.world.ents == PhaseStep(p, b.frame, b.world.ents, rnd).ents
              && (Next(p, b.frame).Some? ==> b1.active == Next(p, b.frame) && b1.frame == 1)
              && (Next(p, b.frame).None? ==> b1.active == b.active && b1.frame == b.frame + 1)
  {
  }

  /** No phase step touches the Viper. */
  lemma PhaseSparesViper(p: Phase, f: int, ents: seq<Character>, rnd: real)
    requires |ents| == SlotCount
    ensures PhaseStep(p, f, ents, rnd).ents[ViperSlot] == ents[ViperSlot]
  {
    LayoutWired();
    SlotsHold(EnemiesFrom, EnemyMax, ViperSlot);
    SlotsHold(LargesFrom, LargeCount, ViperSlot);
  }

  /** After a frame, "gameover" is active exactly when the Viper had no life left at the
      start of the frame or "gameover" was already active: it is entered from any phase
      and never left by `render`. */
  lemma RenderedGameOver(b: Board, env: Env, rnd: real)
    requires |b.world.ents| == SlotCount && Registered(b)
    ensures Rendered(b, env, rnd).Some?
    ensures Registered(Rendered(b, env, rnd).value)
    ensures Rendered(b, env, rnd).value.active == Some("gameover")
        <==> b.world.ents[ViperSlot].life <= 0 || b.active == Some("gameover")
  {
    SceneStepFrames(b, rnd);
    SteppedGameOver(b, rnd);
    RenderedScene(b, env, rnd);
  }

  /** `scene.update` followed by the game-over check. */
  lemma SteppedGameOver(b: Board, rnd: real)
    requires |b.world.ents| == SlotCount && Registered(b)
    ensures SceneStepped(b, rnd).Some?
    ensures var b2 := GameOverChecked(SceneStepped(b, rnd).value);
            Registered(b2)
            && (b2.active == Some("gameover") <==> b.world.ents[ViperSlot].life <= 0 || b.active == Some("gameover"))
  {
    SceneStepFrames(b, rnd);
    if b.active.Some? {
      PhaseSparesViper(Table()[b.active.value], b.frame, b.world.ents, rnd);
    }
  }

  /** The character updates of a frame leave the scene as `scene.update` and the
      game-over check left it. */
  lemma RenderedScene(b: Board, env: Env, rnd: real)
    requires |b.world.ents| == SlotCount && SceneStepped(b, rnd).Some?
    ensures Rendered(b, env, rnd).Some?
    ensures var b2 := GameOverChecked(SceneStepped(b, rnd).value);
            Rendered(b, env, rnd).value.active == b2.active && Rendered(b, env, rnd).value.frame == b2.frame
  {
  }

  // ----- the start and the restart -----

  /** Before the first frame every slot but the Viper's and every explosion is free, and
      the Viper is coming in from the bottom edge. */
  lemma InitialFree()
    ensures var w := InitialWorld();
            |w.ents| == SlotCount && |w.booms| == ExplosionMax
            && (forall i :: 0 < i < SlotCount ==> w.ents[i].life == 0)
            && (forall k :: 0 <= k < ExplosionMax ==> w.booms[k].life == 0)
            && w.ents[ViperSlot].life == 1 && w.ents[ViperSlot].isComing
            && w.ents[ViperSlot].pos == ViperStart && w.ents[ViperSlot].comingFrame == 0
  {
    var w := InitialWorld();
    forall i | 0 < i < SlotCount
      ensures w.ents[i].life == 0
    {
      assert w.ents[i] == Built(i);
    }
  }

  /** Enter clears enemies, enemy shots and large enemies (their life only), puts the
      Viper back into its entry with life 1, activates "isComing" at frame 0, and leaves
      the Viper's shots, the boss, the homing shots and the explosions alone. */
  lemma RestartFacts(b: Board)
    requires |b.world.ents| == SlotCount
    ensures var r := Restarted(b);
            var e, e0 := r.world.ents, b.world.ents;
            r.active == Some("isComing") && r.frame == 0 && r.world.booms == b.world.booms
            && |e| == SlotCount
            && (forall i :: EnemiesFrom <= i < BossSlot ==> e[i] == e0[i].(life := 0))
            && (forall i :: ViperSlot < i < EnemiesFrom || BossSlot <= i < SlotCount ==> e[i] == e0[i])
            && e[ViperSlot].life == 1 && e[ViperSlot].isComing && e[ViperSlot].comingFrame == 0
            && e[ViperSlot].pos == ViperStart && e[ViperSlot].startPosition == Some(ViperStart)
  {
    RestartedSlots(b.world.ents);
  }

  lemma RestartedSlots(e0: seq<Character>)
    requires |e0| == SlotCount
    ensures var e := RestartedEnts(e0);
            |e| == SlotCount
            && (forall i :: EnemiesFrom <= i < BossSlot ==> e[i] == e0[i].(life := 0))
            && (forall i :: ViperSlot < i < EnemiesFrom || BossSlot <= i < SlotCount ==> e[i] == e0[i])
            && e[ViperSlot] == Apply(e0[ViperSlot], SetIsComing(ViperStart))
  {
    ClearedRanges(e0);
  }

  /** The three `forEach` loops of the Enter handler clear the slots from the first enemy
      to the last large enemy and leave every other slot alone. */
  lemma ClearedRanges(e0: seq<Character>)
    requires |e0| == SlotCount
    ensures var c3 := Cleared(Cleared(Cleared(e0, Enemies), EnemyShots), Larges);
            |c3| == SlotCount
            && (forall i :: EnemiesFrom <= i < BossSlot ==> c3[i] == e0[i].(life := 0))
            && (forall i :: 0 <= i < SlotCount && !(EnemiesFrom <= i < BossSlot) ==> c3[i] == e0[i])
  {
    PoolsFormed();
    var c1 := Cleared(e0, Enemies);
    var c2 := Cleared(c1, EnemyShots);
    var c3 := Cleared(c2, Larges);
    forall i | EnemiesFrom <= i < BossSlot
      ensures c3[i] == e0[i].(life := 0)
    {
      if i < EnemyShotsFrom {
        assert Enemies[i - EnemiesFrom] == i;
      } else if i < LargesFrom {
        assert EnemyShots[i - EnemyShotsFrom] == i;
      } else {
        assert Larges[i - LargesFrom] == i;
      }
    }
    forall i | 0 <= i < SlotCount && !(EnemiesFrom <= i < BossSlot)
      ensures c3[i] == e0[i]
    {
      SlotsHold(EnemiesFrom, EnemyMax, i);
      SlotsHold(EnemyShotsFrom, EnemyShotMax, i);
      SlotsHold(LargesFrom, LargeCount, i);
    }
  }
}

/** The game itself: the objects `initialize` builds and wires, the phase table of
    `sceneInitialize`, one `render` frame and the key handlers. All characters live
    in one arena whose slots are laid out pool after pool in the order the source
    builds its arrays. */
module Games {
  import opened Pools
  import opened Geometry
  import opened Effects
  import opened Characters
  import opened Arenas
  import opened Scenes

  const CanvasWidth: real := 600.0
  const CanvasHeight: real := 480.0
  const ViperShotMax: nat := 10
  const EnemyMax: nat := 15
  const EnemyShotMax: nat := 30
  const LargeCount: nat := 3
  const HomingMax: nat := 20
  const ExplosionMax: nat := 10
  const StarAmount: nat := 100
  const StarSpeed: real := 6.0
  const StarSize: real := 3.0

  /** `sequence(start, end)`: `Array.from({ length: end - start }, (_, i) => i + start)`.
      A negative length is clamped to 0 by `Array.from`. */
  function Sequence(start: int, end: int): (r: seq<int>)
    ensures |r| == if end - start > 0 then end - start else 0
    ensures forall i :: 0 <= i < |r| ==> r[i] == start + i
    decreases end - start
  {
    if end <= start then [] else [start] + Sequence(start + 1, end)
  }

  /** The arena slots `lo`, ..., `hi - 1` that hold one of the source's arrays. */
  function Slots(lo: nat, count: nat): (r: seq<nat>)
    ensures |r| == count && forall i :: 0 <= i < count ==> r[i] == lo + i
  {
    seq(count, i requires 0 <= i < count => lo + i)
  }

  // ----- the arena layout: one slot range per array of `initialize` -----

  const ViperSlot: nat := 0
  const ViperShotsFrom: nat := ViperSlot + 1
  const EnemiesFrom: nat := ViperShotsFrom + ViperShotMax
  const EnemyShotsFrom: nat := EnemiesFrom + EnemyMax
  const LargesFrom: nat := EnemyShotsFrom + EnemyShotMax
  const BossSlot: nat := LargesFrom + LargeCount
  const HomingsFrom: nat := BossSlot + 1
  const SlotCount: nat := HomingsFrom + HomingMax

  const ViperShots: seq<nat> := Slots(ViperShotsFrom, ViperShotMax)
  const Enemies: seq<nat> := Slots(EnemiesFrom, EnemyMax)
  const EnemyShots: seq<nat> := Slots(EnemyShotsFrom, EnemyShotMax)
  const Larges: seq<nat> := Slots(LargesFrom, LargeCount)
  const Homings: seq<nat> := Slots(HomingsFrom, HomingMax)

  /** `enemyArray.concat(largeEnemyArray).concat([boss])`, the Viper's and its shots' targets. */
  const Foes: seq<nat> := Enemies + Larges + [BossSlot]

  function KindAt(i: nat): Kind
  {
    if i == ViperSlot then ViperKind
    else if i < EnemiesFrom then ShotKind
    else if i < EnemyShotsFrom then EnemyKind
    else if i < LargesFrom then ShotKind
    else if i < BossSlot then EnemyKind
    else if i == BossSlot then BossKind
    else HomingKind
  }

  /** `setTarget`: the Viper and its shots aim at the foes, everything else at `[viper]`. */
  function TargetsAt(i: nat): seq<nat>
  {
    if i < EnemiesFrom then Foes else [ViperSlot]
  }

  /** `setShotsArray`: the Viper fires into its shots, small and large enemies into the
      enemy shots, the boss into the homing shots. */
  function ShotsAt(i: nat): seq<nat>
  {
    if i == ViperSlot then ViperShots
    else if EnemiesFrom <= i < EnemyShotsFrom || LargesFrom <= i < BossSlot then EnemyShots
    else if i == BossSlot then Homings
    else []
  }

  function Layout(): Wiring
  {
    Wiring(CanvasWidth, CanvasHeight,
           seq(SlotCount, i requires 0 <= i => KindAt(i)), seq(SlotCount, i requires 0 <= i => TargetsAt(i)),
           seq(SlotCount, i requires 0 <= i => ShotsAt(i)))
  }

  /** A record as the `Character` constructor leaves it at `(0, 0)`, square. */
  function Blank(size: real, life: int, vector: Vec, speed: real, power: int, frame: int): Character
  {
    Character(Vec(0.0, 0.0), size, size, life, vector, speed, power, frame, Default, false, None, 0, 0)
  }

  /** The start point of the Viper's entry, `setIsComing(W / 2, H, W / 2, H - 100)`. */
  const ViperStart: Vec := Vec(CanvasWidth / 2.0, CanvasHeight)

  /** Each slot as its constructor builds it; the Viper also gets `setIsComing`. */
  function Built(i: nat): Character
  {
    match KindAt(i)
    case ViperKind => Apply(Blank(64.0, 1, Vec(0.0, -1.0), 10.0, 0, 0), SetIsComing(ViperStart))
    case ShotKind => Blank(32.0, 0, Vec(0.0, -1.0), 10.0, 1, 0)
    case EnemyKind => Blank(if i < EnemyShotsFrom then 48.0 else 64.0, 0, Vec(0.0, 1.0), 3.0, 0, -1)
    case BossKind => Blank(128.0, 0, Vec(0.0, -1.0), 3.0, 0, -1)
    case HomingKind => Blank(32.0, 0, Vec(0.0, -1.0), 10.0, 1, 0)
  }

  function InitialWorld(): World
  {
    World(seq(SlotCount, i requires 0 <= i => Built(i)), seq(ExplosionMax, _ => NewExplosion(80.0, 50.0, 20, 0.5)))
  }

  // ----- the phase table of `sceneInitialize` -----

  datatype Phase = IsComing | Invade | WaveIn | InvadeLarge | BossFight | GameOver

  function Table(): map<string, Phase>
  {
    map["isComing" := IsComing, "invade" := Invade, "wave" := WaveIn,
        "invade_large" := InvadeLarge, "boss" := BossFight, "gameover" := GameOver]
  }

  /** The spawn x of the small enemies for a draw `rnd` of `Math.random()`. */
  function SpawnX(rnd: real): real
  {
    rnd * (CanvasWidth - 200.0) + 100.0
  }

  /** The claim a phase step attempts at `frame`, if any: the pool it scans and the call
      its first free slot receives. (JavaScript's `%` and Dafny's agree on whether the
      remainder is 0.) */
  function Spawn(p: Phase, frame: int, ents: seq<Character>, rnd: real): (r: Option<(seq<nat>, Order)>)
    requires |ents| == SlotCount
    ensures p == IsComing || p == GameOver ==> r.None?
    ensures p == BossFight ==> r.Some? && r.value.0 == [BossSlot] && r.value.1.SetBoss?
    ensures r.Some? && p != BossFight ==> r.value.1.SetEnemy? && r.value.1.life > 0
    ensures r.Some? && (p == Invade || p == WaveIn) ==> r.value.0 == Enemies
    ensures r.Some? && p == InvadeLarge ==> r.value.0 == Larges && frame == 50
  {
    match p
    case Invade =>
      if frame % 50 == 0 then Some((Enemies, SetEnemy(SpawnX(rnd), 2, Default, 3.0))) else None
    case WaveIn =>
      if frame <= 300 && frame % 60 == 0 then Some((Enemies, SetEnemy(SpawnX(rnd), 2, Wave, 2.0))) else None
    case InvadeLarge =>
      if frame == 50 then Some((Larges, SetEnemy(CanvasWidth / 2.0, 20, Large, 2.0))) else None
    case BossFight =>
      Some(([BossSlot], SetBoss(Vec(CanvasWidth / 2.0, 0.0 - ents[BossSlot].height))))
    case IsComing => None
    case GameOver => None
  }

  /** The scene a phase step activates at `frame`, if any. */
  function Next(p: Phase, frame: int): (r: Option<string>)
    ensures r.Some? ==> r.value in Table() && r.value != "isComing" && r.value != "gameover"
    ensures p == GameOver ==> r.None?
  {
    match p
    case IsComing => if frame > 50 then Some("boss") else None
    case Invade => if frame == 200 then Some("wave") else None
    case WaveIn => if frame == 400 then Some("invade_large") else None
    case InvadeLarge => if frame > 500 then Some("invade") else None
    case BossFight => if frame > 500 then Some("invade") else None
    case GameOver => None
  }

  datatype StepResult = StepResult(ents: seq<Character>, next: Option<string>)

  /** One call of a phase step: its claim, then its `activate`. */
  function PhaseStep(p: Phase, frame: int, ents: seq<Character>, rnd: real): (r: StepResult)
    requires |ents| == SlotCount
    ensures |r.ents| == SlotCount && r.next == Next(p, frame)
  {
    var spawned := match Spawn(p, frame, ents, rnd)
      case None => ents
      case Some((pool, o)) => Claimed(ents, pool, o);
    StepResult(spawned, Next(p, frame))
  }

  // ----- one frame of `render` -----

  /** The characters and explosions, with the scene's active name and frame. */
  datatype Board = Board(world: World, active: Option<string>, frame: int)

  /** `scene.update()` with the game's table. `None` is the throw for an unregistered
      name. A step that activates leaves frame 0, which the trailing `frame++` makes 1. */
  function SceneStepped(b: Board, rnd: real): Option<Board>
    requires |b.world.ents| == SlotCount
  {
    match PendingOf(Table(), b.active, b.frame)
    case Idle => Some(b)
    case Missing(_) => None
    case Run(p, f) =>
      var s := PhaseStep(p, f, b.world.ents, rnd);
      var world := b.world.(ents := s.ents);
      var after := if s.next.Some? then Board(world, s.next, 0) else Board(world, b.active, f);
      Some(after.(frame := after.frame + 1))
  }

  /** `if (viper.life <= 0 && scene.activeScene !== "gameover") scene.activate("gameover")`. */
  function GameOverChecked(b: Board): (r: Board)
    requires |b.world.ents| == SlotCount
    ensures r.world == b.world
    ensures r.active == Some("gameover") <==> b.world.ents[ViperSlot].life <= 0 || b.active == Some("gameover")
    ensures r.active != b.active ==> r.frame == 0
  {
    if b.world.ents[ViperSlot].life <= 0 && b.active != Some("gameover") then b.(active := Some("gameover"), frame := 0)
    else b
  }

  /** The update order of `render` before the explosions: Viper, its shots, enemies, boss,
      large enemies, enemy shots. */
  const FrameOrder: seq<nat> := [ViperSlot] + ViperShots + Enemies + [BossSlot] + Larges + EnemyShots

  /** The character and explosion updates of `render`; the homing shots come last. */
  function CharactersTicked(w: World, env: Env): World
    requires |w.ents| == SlotCount
  {
    LayoutWired();
    var w1 := UpdatedEach(w, Layout(), FrameOrder, env);
    var w2 := w1.(booms := TickedAll(w1.booms, env.now));
    UpdatedEach(w2, Layout(), Homings, env)
  }

  /** One unpaused `render` apart from the stars and drawing. */
  function Rendered(b: Board, env: Env, rnd: real): Option<Board>
    requires |b.world.ents| == SlotCount
  {
    match SceneStepped(b, rnd)
    case None => None
    case Some(b1) =>
      var b2 := GameOverChecked(b1);
      Some(b2.(world := CharactersTicked(b2.world, env)))
  }

  /** The Enter handler's reset of the characters: enemies, enemy shots and large
      enemies cleared, the Viper back to its entry. */
  function RestartedEnts(ents: seq<Character>): seq<Character>
    requires |ents| == SlotCount
  {
    var cleared := Cleared(Cleared(Cleared(ents, Enemies), EnemyShots), Larges);
    cleared[ViperSlot := Apply(cleared[ViperSlot], SetIsComing(ViperStart))]
  }

  /** The Enter handler's reset of the board: the characters, then "isComing" activated. */
  function Restarted(b: Board): Board
    requires |b.world.ents| == SlotCount
  {
    Board(b.world.(ents := RestartedEnts(b.world.ents)), Some("isComing"), 0)
  }

  /** Whether `isKeydown[key]` is truthy (an absent key reads `undefined`). */
  function Held(down: map<string, bool>, key: string): bool
  {
    key in down && down[key]
  }

  function KeysOf(down: map<string, bool>): Keys
  {
    Keys(Held(down, "ArrowLeft"), Held(down, "ArrowRight"), Held(down, "ArrowUp"), Held(down, "ArrowDown"), Held(down, "z"))
  }

  /** The wiring is well formed, its pools hold distinct slots, and the Viper is in
      none of the pools it shares with its foes. */
  lemma LayoutWired()
    ensures Wired(Layout(), SlotCount)
    ensures Distinct(ViperShots) && Distinct(Enemies) && Distinct(EnemyShots) && Distinct(Larges)
    ensures Distinct(Homings) && Distinct(Foes)
    ensures InRange(FrameOrder, SlotCount) && InRange(Homings, SlotCount)
    ensures InRange(Enemies, SlotCount) && InRange(EnemyShots, SlotCount) && InRange(Larges, SlotCount)
    ensures InRange(ViperShots, SlotCount)
  {
    var net := Layout();
    forall i, j | 0 <= i < SlotCount && 0 <= j < |net.targets[i]|
      ensures net.targets[i][j] < SlotCount && net.targets[i][j] != i
    {
      assert net.targets[i] == TargetsAt(i);
      if i < EnemiesFrom {
        assert Foes[j] >= EnemiesFrom;
      }
    }
    forall i, j | 0 <= i < SlotCount && 0 <= j < |net.shots[i]|
      ensures net.shots[i][j] < SlotCount && net.shots[i][j] != i
    {
      assert net.shots[i] == ShotsAt(i);
    }
    forall i | 0 <= i < SlotCount && net.kinds[i] != ViperKind && net.kinds[i] != ShotKind
      ensures |net.targets[i]| > 0
    {
      assert net.targets[i] == TargetsAt(i);
    }
  }

  /** The game: the arena, the scene registry, the background stars, the pause flag
      and the held keys (`isKeydown`). */
  class Game {
    const arena: Arena
    const scene: Scene<Phase>
    const stars: seq<BackgroundStar>
    var paused: bool
    var keyDown: map<string, bool>

    ghost predicate Valid()
      reads this, scene, set s | s in stars
    {
      arena.net == Layout() && arena.ents.Length == SlotCount && Wired(arena.net, arena.ents.Length)
      && scene.steps == Table()
      && (scene.activeScene.Some? ==> scene.activeScene.value in Table())
      && |stars| == StarAmount
      && (forall i, j :: 0 <= i < j < |stars| ==> stars[i] != stars[j])
      && (forall i :: 0 <= i < |stars| ==> stars[i].Valid() && stars[i].canvasHeight == CanvasHeight)
    }

    function Current(): Board
      reads this, arena.ents, arena.booms, scene
    {
      Board(arena.State(), scene.activeScene, scene.frame)
    }

    function StarPositions(): seq<Option<Vec>>
      reads this, set s | s in stars
    {
      seq(|stars|, i requires 0 <= i < |stars| reads stars => stars[i].position)
    }

    /** `initialize()` and `sceneInitialize()`. `draws` are the four `Math.random()` draws
        of each star in call order: size, speed, x, y. */
    constructor (draws: seq<real>)
      requires |draws| == 4 * StarAmount && forall k :: 0 <= k < |draws| ==> 0.0 <= draws[k] < 1.0
      ensures Valid()
      ensures Current() == Board(InitialWorld(), Some("isComing"), 0)
      ensures !paused && keyDown == map[]
      ensures StarsDrawn(stars, draws)
    {
      LayoutWired();
      var w := InitialWorld();
      arena := new Arena(Layout(), w.ents, w.booms);
      var made := MakeStars(draws);
      var sc := MakeScene();
      stars := made;
      scene := sc;
      paused := false;
      keyDown := map[];
    }

    /** `render()` apart from drawing and the `setTimeout` that schedules the next call:
        nothing while paused; otherwise the stars, `scene.update()`, the game-over check,
        then the characters and explosions in the order of `Rendered`. */
    method Render(now: real, host: Host, sparks: int -> Spark, rnd: real)
      requires Valid()
      modifies arena.ents, arena.booms, scene, set s | s in stars
      ensures Valid()
      ensures old(paused) ==> Current() == old(Current()) && StarPositions() == old(StarPositions())
      ensures !old(paused) ==> Rendered(old(Current()), Env(KeysOf(keyDown), now, host, sparks), rnd) == Some(Current())
      ensures !old(paused) ==> forall i :: 0 <= i < |stars| ==>
                stars[i].position == StarMoved(old(stars[i].position), stars[i].speed, stars[i].size, stars[i].canvasHeight)
    {
      if paused {
        return;
      }
      ghost var b0 := Current();
      ScrollStars();
      assert Current() == b0;
      SceneUpdate(rnd);
      ghost var b1 := Current();
      CheckGameOver();
      assert Current() == GameOverChecked(b1);
      TickCharacters(Env(KeysOf(keyDown), now, host, sparks));
    }

    /** `scene.update()`: with every active name registered it never throws. */
    method SceneUpdate(rnd: real)
      requires Valid()
      modifies arena.ents, scene
      ensures Valid()
      ensures SceneStepped(old(Current()), rnd) == Some(Current())
    {
      match scene.Due() {
        case Idle =>
        case Missing(_) =>
          assert false;
        case Run(p, f) =>
          RunPhase(p, f, rnd);
          scene.Advance();
      }
    }

    /** The game-over trigger of `render`. */
    method CheckGameOver()
      requires Valid()
      modifies scene
      ensures Valid()
      ensures Current() == GameOverChecked(old(Current()))
    {
      if arena.ents[ViperSlot].life <= 0 && scene.activeScene != Some("gameover") {
        scene.Activate("gameover");
      }
    }

    /** The `update` calls of `render`, in its order. */
    method TickCharacters(env: Env)
      requires Valid()
      modifies arena.ents, arena.booms
      ensures arena.State() == CharactersTicked(old(arena.State()), env)
    {
      LayoutWired();
      arena.UpdateEach(FrameOrder, env);
      arena.TickAll(env.now);
      arena.UpdateEach(Homings, env);
    }

    /** `backgroundStars.forEach((star) => star.update())`. */
    method ScrollStars()
      requires Valid()
      modifies set s | s in stars
      ensures Valid()
      ensures forall i :: 0 <= i < |stars| ==>
                stars[i].position == StarMoved(old(stars[i].position), stars[i].speed, stars[i].size, stars[i].canvasHeight)
    {
      var i := 0;
      while i < |stars|
        invariant 0 <= i <= |stars| && Valid()
        invariant forall j :: 0 <= j < i ==>
                    stars[j].position == StarMoved(old(stars[j].position), stars[j].speed, stars[j].size, stars[j].canvasHeight)
        invariant forall j :: i <= j < |stars| ==> stars[j].position == old(stars[j].position)
      {
        stars[i].Update();
        i := i + 1;
      }
    }

    /** A call of phase step `p` at `frame`: its claim loop over a pool, then its
        `scene.activate`. */
    method RunPhase(p: Phase, frame: int, rnd: real)
      requires Valid()
      modifies arena.ents, scene
      ensures arena.ents[..] == PhaseStep(p, frame, old(arena.ents[..]), rnd).ents
      ensures scene.steps == old(scene.steps)
      ensures Next(p, frame).Some? ==> scene.activeScene == Next(p, frame) && scene.frame == 0
      ensures Next(p, frame).None? ==> scene.activeScene == old(scene.activeScene) && scene.frame == old(scene.frame)
    {
      LayoutWired();
      match Spawn(p, frame, arena.ents[..], rnd) {
        case None =>
        case Some((pool, o)) =>
          var _ := arena.Claim(pool, o);
      }
      match Next(p, frame) {
        case None =>
        case Some(name) =>
          scene.Activate(name);
      }
    }

    /** The `keydown` listener: the key is held; `q` toggles the pause; Enter restarts. */
    method KeyDown(key: string)
      requires Valid()
      modifies this, arena.ents, scene
      ensures Valid()
      ensures keyDown == old(keyDown)[key := true]
      ensures key == "Enter" ==> !paused && Current() == Restarted(old(Current()))
      ensures key == "q" ==> paused == !old(paused) && Current() == old(Current())
      ensures key != "Enter" && key != "q" ==> paused == old(paused) && Current() == old(Current())
    {
      keyDown := keyDown[key := true];
      if key == "q" {
        paused := !paused;
      }
      if key == "Enter" {
        Restart();
      }
    }

    /** The `keyup` listener. */
    method KeyUp(key: string)
      modifies this
      ensures keyDown == old(keyDown)[key := false] && paused == old(paused)
    {
      keyDown := keyDown[key := false];
    }

    /** The Enter branch of the `keydown` listener. */
    method Restart()
      requires Valid()
      modifies this, arena.ents, scene
      ensures Valid() && !paused && keyDown == old(keyDown)
      ensures Current() == Restarted(old(Current()))
    {
      paused := false;
      ResetCharacters();
      scene.Activate("isComing");
    }

    /** The character half of the Enter branch. */
    method ResetCharacters()
      requires Valid()
      modifies arena.ents
      ensures arena.ents[..] == RestartedEnts(old(arena.ents[..]))
    {
      LayoutWired();
      arena.ClearLives(Enemies);
      arena.ClearLives(EnemyShots);
      arena.ClearLives(Larges);
      arena.Call(ViperSlot, SetIsComing(ViperStart));
    }
  }

  /** Star `i` was built from draws `4 i` to `4 i + 3`:
      `size = 1 + (STAR_SIZE - 1) * r`, `speed = 3 + (r * STAR_SPEED - 2)`, then
      `set(r * W, r * H)`. */
  ghost predicate StarsDrawn(stars: seq<BackgroundStar>, draws: seq<real>)
    requires |stars| == StarAmount && |draws| == 4 * StarAmount
    reads set s | s in stars
  {
    forall i :: 0 <= i < StarAmount ==>
      stars[i].size == 1.0 + (StarSize - 1.0) * draws[4 * i]
      && stars[i].speed == 3.0 + (draws[4 * i + 1] * StarSpeed - 2.0)
      && stars[i].position == Some(Vec(draws[4 * i + 2] * CanvasWidth, draws[4 * i + 3] * CanvasHeight))
  }

  /** The star loop of `initialize`. */
  method MakeStars(draws: seq<real>) returns (made: seq<BackgroundStar>)
    requires |draws| == 4 * StarAmount && forall k :: 0 <= k < |draws| ==> 0.0 <= draws[k] < 1.0
    ensures |made| == StarAmount
    ensures forall a, b :: 0 <= a < b < |made| ==> made[a] != made[b]
    ensures forall a :: 0 <= a < |made| ==> fresh(made[a]) && made[a].Valid() && made[a].canvasHeight == CanvasHeight
    ensures StarsDrawn(made, draws)
  {
    made := [];
    var i := 0;
    while i < StarAmount
      invariant 0 <= i <= StarAmount && |made| == i
      invariant forall a, b :: 0 <= a < b < i ==> made[a] != made[b]
      invariant forall a :: 0 <= a < i ==> fresh(made[a]) && made[a].Valid() && made[a].canvasHeight == CanvasHeight
      invariant forall a :: 0 <= a < i ==>
                  made[a].size == 1.0 + (StarSize - 1.0) * draws[4 * a]
                  && made[a].speed == 3.0 + (draws[4 * a + 1] * StarSpeed - 2.0)
                  && made[a].position == Some(Vec(draws[4 * a + 2] * CanvasWidth, draws[4 * a + 3] * CanvasHeight))
    {
      var size := 1.0 + (StarSize - 1.0) * draws[4 * i];
      var speed := 3.0 + (draws[4 * i + 1] * StarSpeed - 2.0);
      var star := new BackgroundStar(size, speed, CanvasHeight);
      star.Set(draws[4 * i + 2] * CanvasWidth, draws[4 * i + 3] * CanvasHeight);
      made := made + [star];
      i := i + 1;
    }
  }

  /** `scene = new Scene()` and `sceneInitialize()`. */
  method MakeScene() returns (sc: Scene<Phase>)
    ensures fresh(sc) && sc.steps == Table() && sc.activeScene == Some("isComing") && sc.frame == 0
  {
    sc := new Scene<Phase>();
    sc.Add("isComing", IsComing);
    sc.Add("invade", Invade);
    sc.Add("wave", WaveIn);
    sc.Add("invade_large", InvadeLarge);
    sc.Add("boss", BossFight);
    sc.Add("gameover", GameOver);
    sc.Activate("isComing");
  }
}

# canvas-shooting: the simulation rules in Dafny

This project models the rules of the browser arcade shooter canvas-shooting, with the drawing, sound and timers removed. It covers four parts:

- The fixed-capacity pools. Every fire, spawn and explosion goes to the lowest-index slot with `life <= 0`, or to no slot at all.
- The per-character `update` rules of `character.ts`: body contact, projectile collision, the Viper's scripted entry, the shot cooldown, the clamp to the canvas, the despawn, and the homing turn decision.
- The scene registry of `scene.ts` and the phase table of `sceneInitialize`. Around them: one `render` frame with its update order and game-over trigger, and the Enter-key restart.
- The helpers of `class.ts`: `calcDistance`, `normalize`, the explosion lifecycle, the ease-in curve and the scrolling stars.

Layout:

- **Characters.** Every character lives in one `array<Character>` (`Arenas.Arena.ents`). That array holds the Viper, its shots, the enemies, the enemy shots, the large enemies, the boss and the homing shots, pool after pool, in the order `initialize` builds them.
- **Explosions.** The explosions live in a second array (`Arenas.Arena.booms`).
- **References.** An object reference becomes a slot index. A target list or shot array becomes a sequence of indices, held in a constant `Wiring`. `instanceof Viper` becomes a kind tag.
- **Proof pattern.** Each `update` is first a function on `World(ents, booms)`, in `Characters`. It is then written again as an `Arena` method with the source's own loops, and that method is proved to produce the function's result. The properties are lemmas about the functions, in `CharacterFacts`, `EffectFacts` and `GameFacts`.
- **Game objects.** `Games.Game` holds the arena, the `Scenes.Scene` registry, the stars, the pause flag and the held keys. Its `Render`, `KeyDown` and `KeyUp` follow `render` and the two listeners.

Inputs, as the model treats them:

- `Math.sqrt`, `Math.sin`, `Math.cos` and `Math.PI` are a `Host` parameter. Where a lemma needs a true square root, it assumes one through `ValidSqrt`.
- `Math.random()` draws are parameters: the spawn x, the star draws and the particle draws.
- `Date.now()` is the parameter `now`.
- Numbers are `real`, and frame counters and lives are `int`.

## Model

| member | source | states |
|---|---|---|
| Pools.FirstInactive | src/character.ts:95-101 | The scan of a pool finds a slot with `life <= 0` whose earlier slots are all live; it finds none exactly when every slot is live |
| Pools.FirstInactiveAt | src/character.ts:268-275 | A free slot whose earlier slots are all live is the one the `for ... of` / `break` scan picks |
| Pools.FullIffNoneFree | src/character.ts:268-275 | The scan finds nothing exactly when every slot of the pool is active |
| Pools.ActivateFirstCounts | src/character.ts:268-275 | Making the found slot live raises the number of active slots by exactly one |
| Geometry.DistanceSquared | src/class.ts:119-121 | The squared distance is non-negative and zero exactly for equal positions |
| Geometry.DistanceProperties | src/class.ts:119-121 | `calcDistance` is symmetric, non-negative and zero exactly for equal positions |
| Geometry.TouchingIffCloser | src/character.ts:55-56 | The squared comparison agrees with `distance < (w + tw) / d` |
| Geometry.Touching | src/character.ts:55-56 | The collision test `distance < (w + tw) / d`, written on squares; `TouchingIffCloser` proves it equal to the source's test |
| Geometry.Cross | src/character.ts:361 | The assumed `cross(v, n) = vx * ny - vy * nx`; `TurnIgnoresLength` and `TurnOnUnitVectors` show that only its sign is used, and that the sign does not depend on the lengths |
| Geometry.Normalize | src/class.ts:78-83 | For distinct positions the result is `(target - self) / distance`, with a positive distance; for equal ones it is the zero vector |
| Geometry.NormalizeUnit | src/class.ts:78-83 | For distinct positions and a true square root the direction has unit length, so a shot fired along it at speed 5 (src/character.ts:223-224) moves 5 per update |
| Geometry.UnitLength | src/character.ts:358 | The normalised heading of a homing shot with a non-zero vector is a unit vector, the heading `HomingTurn` turns |
| Geometry.TurnDegrees | src/character.ts:363-367 | +1 degree exactly when cross > 0, -1 exactly when cross < 0, no turn exactly when cross = 0, never more than one degree |
| Geometry.TurnIgnoresLength | src/character.ts:355-363 | The turn decision is the same after positive scaling of both vectors |
| Geometry.TurnOnUnitVectors | src/character.ts:355-367 | Deciding on the normalised heading and target direction equals deciding on the raw heading and the raw offset to the target |
| Effects.NewExplosion | src/class.ts:137-149 | A new explosion is inactive, never set, has no particles and keeps its range, size, count and duration |
| Effects.SparkSizeRange | src/class.ts:163 | With `rnd` in `[0, 1)`, a particle size is at least half and less than all of `size` |
| Effects.Ignite | src/class.ts:151-165 | `set(x, y)`: life 1, start time `now`, and the first `count` positions, vectors and sizes written as the loop writes them, each position `(x, y)` |
| Effects.Ignited | src/class.ts:151-165 | `set(x, y)` as a value: life 1, start time `now`, range, size, count and duration kept, the first `count` particles at `(x, y)` with their drawn vectors and sizes, later entries of all three particle arrays kept |
| Effects.EaseIn | src/class.ts:205-207 | `simpleEaseIn(t) = t ** 4`; its range is `EffectFacts.EaseInRange` |
| Effects.Progress | src/class.ts:183-184 | The eased progress `1 - simpleEaseIn(1 - min(r, 1))`; its range, monotonicity and end are in `EffectFacts.ProgressRange`, `ProgressMonotone` and `ProgressDone` |
| Effects.Spent | src/class.ts:174-199 | The end test `progres >= 1`; `EffectFacts.SpentIff` proves it holds exactly when some time has passed and at least `timeRange` seconds have |
| Effects.Ticked | src/class.ts:167-202 | `update` changes nothing but `life`, and changes it only for a running explosion, only to 0 |
| Effects.BackgroundStar.constructor | src/class.ts:216-221 | A star keeps its size and speed and has no position |
| Effects.BackgroundStar.Set | src/class.ts:223-225 | The position becomes `(x, y)` |
| Effects.BackgroundStar.Update | src/class.ts:227-236 | The position becomes `StarMoved` of the old one, and a set star keeps `y < H + size` |
| Effects.StarMoved | src/class.ts:227-234 | An unset star stays unset; a set one keeps its x and moves its y as `Scrolled` says |
| Effects.Scrolled | src/class.ts:231-234 | The new y is exactly `y + speed` while that is below `H + size`, and `-size` once it reaches that line; with `size >= 0` and `H > 0` it is always below `H + size` |
| EffectFacts.EaseInRange | src/class.ts:205-207 | `simpleEaseIn` maps `[0, 1]` into `[0, 1]` |
| EffectFacts.ProgressRange | src/class.ts:183-184 | The eased progress is at most 1, and in `[0, 1]` for a non-negative ratio |
| EffectFacts.ProgressMonotone | src/class.ts:183-184 | The eased progress does not decrease as the elapsed ratio grows |
| EffectFacts.ProgressDone | src/class.ts:183-184 | The progress reaches 1 exactly when the elapsed ratio does |
| EffectFacts.ShrinkEnds | src/class.ts:185 | The shrink factor is 1 at ratio 0 and 0 from ratio 1 on |
| EffectFacts.SpentIff | src/class.ts:174-201 | An explosion is over exactly when some time has passed and at least `timeRange` seconds have |
| EffectFacts.TickedOnlyClears | src/class.ts:167-202 | `update` only ever clears `life`, and does nothing when `life <= 0` |
| EffectFacts.TickedClears | src/class.ts:199-201 | A running explosion is cleared exactly when its time is up, and changes nothing otherwise |
| EffectFacts.IgnitedLifecycle | src/class.ts:151-201 | An explosion set at `t0` lives through each update before `t0 + 1000 * timeRange` and is cleared by the first one at or after it |
| EffectFacts.ExplodedClaimsFirstFree | src/character.ts:60-66 | The explosion claim sets the lowest free slot and only it; with none free the pool is unchanged |
| EffectFacts.ExplodedCounts | src/character.ts:60-66 | An explosion claim that finds a free slot makes exactly one more explosion active; one that finds none leaves the count as it was |
| Characters.Apply | src/character.ts:203-209 | The calls that restart a pooled character keep its size: `setShot`, `setIsComing` and `fire` (129-133, 34-41, 270-272) give life 1, `Boss.set` (291-295) life 80, `setEnemy` the given life |
| Characters.Claimed | src/character.ts:267-276 | The first slot of the pool with `life <= 0` receives the call; without a free slot nothing changes; no other slot changes |
| Characters.Cleared | src/main.ts:201-203 | `forEach(c => c.life = 0)`: every slot of the pool has life 0, nothing but lives changes, and slots outside the pool are untouched |
| Characters.ContactStep | src/character.ts:54-68 | One body contact changes only lives, and only those of the Viper and the target |
| Characters.Contacts | src/character.ts:53-69 | The body-contact loop changes only lives, and only those of the Viper and its targets |
| Characters.StrikeStep | src/character.ts:146-165 | One projectile collision changes only lives, and only those of the shot and the target |
| Characters.Strike | src/character.ts:145-166 | The projectile collision loop changes only lives, and only those of the shot and its targets |
| Characters.Coming | src/character.ts:72-85 | While coming in, `y = startY - 2 * comingFrame`, pinned to `H - 100` and the entry ended once it is at or above it; `comingFrame` rises by one, nothing else changes |
| Characters.ClampTo | src/character.ts:106-107 | `Math.min(Math.max(v, 0), limit)` lies in `[0, limit]` and is `v` itself when `v` already does |
| Characters.Clamped | src/character.ts:106-108 | The Viper ends on the canvas, and a Viper already on it does not move |
| Characters.Steered | src/character.ts:88-91 | The arrow keys change only the position; opposite keys held together cancel, and no arrow leaves the Viper in place |
| Characters.ViperShoots | src/character.ts:94-103 | With `z` held and the counter at 0 or more a shot is claimed at the Viper; the counter becomes `1 - shotCoolTime` only if a slot was free and otherwise rises by exactly one |
| Characters.ViperUpdated | src/character.ts:47-110 | A Viper without life or entry does nothing; a live one ends on the canvas; only the Viper, its targets and its shots can change. Its new record is given by `CharacterFacts.ViperOutcome` |
| Characters.ShotUpdated | src/character.ts:139-179 | A dead shot does nothing; a live one moves by `vector * speed`; a shot still alive afterwards is inside the field; other slots change only in life. The exact lives are given by `CharacterFacts.ShotOutcome` |
| Characters.Outside | src/character.ts:169-174 | The despawn box: strictly outside `[-w, W + w] x [-h, H + h]`; used by `ShotDespawned` and `EnemyDespawned` |
| Characters.ShotDespawned | src/character.ts:169-176 | Changes only the life; a shot still live afterwards is inside the field; a shot inside is unchanged |
| Characters.EnemyDespawned | src/character.ts:253-261 | Changes only life and frame; outside the field the life becomes 0 and the frame -1 (0 after the `frame++`); inside nothing changes |
| Characters.Homed | src/character.ts:355-367 | The turn decision changes only the heading |
| Characters.HomingUpdated | src/character.ts:349-412 | A dead homing shot does nothing; a live one turns, moves, collides and despawns like a shot and counts its frame; only it and its targets can change. The exact lives are given by `CharacterFacts.HomingOutcome` |
| Characters.HomingUpdatedAsWritten | src/character.ts:358-361 | As written, every live homing shot throws before changing anything, because `Position` has no `normalize` |
| Characters.Fired | src/character.ts:267-276 | `fire` changes no slot outside the shooter's shot pool |
| Characters.Aimed | src/character.ts:223-224 | An aimed shot changes no slot outside the shooter's shot pool |
| Characters.Volley | src/character.ts:231-235 | A volley changes no slot outside the shooter's shot pool |
| Characters.VolleyFrom | src/character.ts:232-235 | The volley loop at angle `i` fires once at `i`, then continues at `i + 45` |
| Characters.EnemyUpdated | src/character.ts:215-265 | A dead enemy does nothing; a live one moves by its type and then either despawns with frame 0 or counts its frame; a live enemy is inside the field; off its firing frames nothing else changes; explosions never change |
| Characters.EnemyMoved | src/character.ts:219-249 | The movement by type changes only the position; y moves by `vector.y * speed`, except for a large enemy at `y >= 100`, which keeps its y; a default enemy moves by `vector * speed` |
| Characters.BossMoved | src/character.ts:316-319 | The boss's movement changes only the position, and y moves by `speed` exactly while `y <= 100` |
| Characters.EnemyShot | src/character.ts:220-250 | Off the firing frame (`% 60` for wave and large, `% 70` for default) nothing changes; otherwise only the shot pool does |
| Characters.BossUpdated | src/character.ts:312-338 | A dead boss does nothing; a live one moves and then either despawns with frame 0 or counts its frame; only on frames `% 50 == 0` can its homing pool change |
| Characters.Updated | src/main.ts:162-170 | The update chosen by the slot's class changes nothing at all when the character is dead, and otherwise changes only that character, its targets and its shots |
| Characters.UpdatedEach | src/main.ts:162-170 | A `forEach` of updates leaves every slot that none of the updated characters can reach unchanged |
| CharacterFacts.ClaimedCounts | src/character.ts:268-275 | A successful spawn or fire makes exactly one more slot of the pool live; a failed one changes nothing |
| CharacterFacts.ClaimsIffNotFull | src/character.ts:268-275 | A claim finds a slot exactly when the pool is not full |
| CharacterFacts.FiredCounts | src/character.ts:267-276 | A `fire` activates one more shot unless the pool is full |
| CharacterFacts.VolleyCounts | src/character.ts:231-236 | A volley of `n` shots activates `n` more slots, or as many as are free |
| CharacterFacts.VolleyHasNine | src/character.ts:232 | `for (i = 0; i <= 360; i += 45)` visits exactly 0, 45, ..., 360: nine shots |
| CharacterFacts.LargeVolleyCounts | src/character.ts:230-236 | A large enemy's volley activates nine more enemy shots, or as many as are free |
| CharacterFacts.ContactsViperDamage | src/character.ts:53-69 | The Viper loses one life per live target it touches, whether or not it is coming in |
| CharacterFacts.ContactsTargetDamage | src/character.ts:53-69 | Each touched target loses exactly one life and the others none |
| CharacterFacts.ContactsDamage | src/character.ts:53-69 | Both of the above over the whole loop, which does not stop after a contact |
| CharacterFacts.ContactStepEffect | src/character.ts:54-67 | A contact takes one life from each side and claims an explosion at the Viper exactly when its life drops to `<= 0`; without contact nothing changes |
| CharacterFacts.StrikeShotLife | src/character.ts:145-166 | With no coming Viper among the targets, the projectile ends with life 0 if it touched any target and keeps its life otherwise |
| CharacterFacts.StrikeTargetDamage | src/character.ts:145-166 | Every touched live target loses `power`, and the loop does not stop after a hit |
| CharacterFacts.StrikeDamage | src/character.ts:145-166 | Both of the above over the whole collision loop |
| CharacterFacts.ComingViperShielded | src/character.ts:149-152 | A projectile never changes a Viper that is coming in |
| CharacterFacts.ShotsSpareComingViper | src/character.ts:139-166 | A whole shot or homing-shot update leaves a coming Viper unchanged |
| CharacterFacts.Flown | src/character.ts:141-142 | The world after a projectile's step: only its slot changes, and it holds the moved record |
| CharacterFacts.ShotOutcome | src/character.ts:139-179 | For a live shot with distinct targets and no coming Viper among them: after `Shot.update` its life is 0 exactly when, after its step, it touches a target or is outside the field, and is unchanged otherwise; each target loses `power` exactly when the moved shot touches it |
| CharacterFacts.HomingOutcome | src/character.ts:349-412 | The same for a live homing shot, on the heading its turn decision chose, and its frame rises by one |
| CharacterFacts.StrikeStepEffect | src/character.ts:146-165 | A hit on a coming Viper stops the loop with nothing changed; any other hit takes `power` from the target, sets the shot's life to 0 and claims an explosion exactly when the target's life drops to `<= 0` |
| CharacterFacts.ComingTrajectory | src/character.ts:72-85 | From `y = H`, the Viper is at `H - 2 (n - 1)` after update `n <= 50`, and the 51st update pins it to `H - 100` and ends the entry |
| CharacterFacts.ComingEndsAt380 | src/character.ts:72-85 | With the game's canvas, after `setIsComing(300, 480, ..)` the entry is still running after 50 updates and ends at `(300, 380)` on the 51st |
| CharacterFacts.CooldownHolds | src/character.ts:94-103 | While the counter stays below zero nothing is fired whatever the keys, and it rises by exactly one per update |
| CharacterFacts.ShotSpacing | src/character.ts:94-103 | After a shot, the next nine updates fire nothing, so two shots are at least ten updates apart |
| CharacterFacts.ViperOutcome | src/character.ts:47-110 | For a live Viper with an entry, whose targets are distinct and apart from its shot pool, a whole `Viper.update` first takes one life per touched target. Coming in, the Viper then takes one entry step and the clamp. Otherwise it steers and is clamped, and its counter becomes `1 - shotCoolTime` exactly when `z` is held, the counter is at 0 or more and a shot is free; in every other case the counter rises by one |
| CharacterFacts.HomingAsWrittenThrows | src/character.ts:349-361 | For every live homing shot the as-written update throws, while the intended one turns it, moves it and counts its frame |
| CharacterFacts.HomingTurn | src/character.ts:355-367 | A homing shot's new heading is its unit heading, turned by one degree towards the side the raw cross product names, or not turned |
| Arenas.Arena.constructor | src/main.ts:70-123 | The arena holds the given characters and explosions and the given wiring |
| Arenas.Arena.Explode | src/character.ts:60-66 | The in-place explosion claim leaves the pool as `Exploded` |
| Arenas.Arena.Claim | src/character.ts:267-276 | The in-place claim loop leaves the characters as `Claimed` and reports whether a slot was free |
| Arenas.Arena.ClearLives | src/main.ts:201-203 | The in-place `forEach` leaves the characters as `Cleared` |
| Arenas.Arena.Call | src/main.ts:204 | A direct call such as `viper.setIsComing` changes that slot and no other |
| Arenas.Arena.ContactOne | src/character.ts:54-68 | One turn of the body-contact loop, in place, as `ContactStep` |
| Arenas.Arena.ContactAll | src/character.ts:53-69 | The body-contact loop, in place, as `Contacts` |
| Arenas.Arena.StrikeOne | src/character.ts:146-165 | One turn of the collision loop, in place; it reports the `break` at a coming Viper and then changes nothing |
| Arenas.Arena.StrikeAll | src/character.ts:145-166 | The projectile collision loop, in place, as `Strike` |
| Arenas.Arena.UpdateViper | src/character.ts:47-110 | `Viper.update` in place, as `ViperUpdated` |
| Arenas.Arena.Shoot | src/character.ts:94-103 | The `z`-key branch and counter in place, as `ViperShoots` |
| Arenas.Arena.UpdateShot | src/character.ts:139-179 | `Shot.update` in place, as `ShotUpdated` |
| Arenas.Arena.UpdateHoming | src/character.ts:349-412 | `Homing.update` in place, as `HomingUpdated` |
| Arenas.Arena.Fire | src/character.ts:267-276 | `Enemy.fire` in place, as `Fired` |
| Arenas.Arena.Aim | src/character.ts:321-324 | The aimed shot at `target[0]` in place, as `Aimed` |
| Arenas.Arena.FireVolley | src/character.ts:231-236 | The 45-degree volley loop in place, as `Volley` over the nine angles |
| Arenas.Arena.UpdateEnemy | src/character.ts:215-265 | `Enemy.update` in place, as `EnemyUpdated` |
| Arenas.Arena.EnemyShoot | src/character.ts:220-246 | The firing switch of `Enemy.update` in place, as `EnemyShot` |
| Arenas.Arena.UpdateBoss | src/character.ts:312-338 | `Boss.update` in place, as `BossUpdated` |
| Arenas.Arena.Update | src/main.ts:162-170 | The update of one slot by its class, in place |
| Arenas.Arena.UpdateEach | src/main.ts:162-170 | A `forEach` of updates in place, as `UpdatedEach` |
| Arenas.Arena.TickAll | src/main.ts:169 | `explosion.forEach(e => e.update())` in place: each explosion as `Ticked` |
| Scenes.PendingOf | src/scene.ts:21-25 | `update` does nothing exactly without an active name (or with the empty one), throws exactly for an unregistered one, and otherwise runs the registered step with the current frame |
| Scenes.Scene.Due | src/scene.ts:21-25 | The first half of `update` on the registry's fields; what it returns is stated by `PendingOf` |
| Scenes.Scene.constructor | src/scene.ts:6-10 | A new registry is empty, has no active scene and frame -1, so `update` does nothing |
| Scenes.Scene.Add | src/scene.ts:12-14 | `add` is a map `set`: a second `add` under a name replaces the first; nothing else changes |
| Scenes.Scene.Activate | src/scene.ts:16-19 | `activate(n)` sets the active name and frame 0 and leaves the registry alone |
| Scenes.Scene.Advance | src/scene.ts:26 | The trailing `frame++` of `update` raises the frame by exactly one |
| Games.Sequence | src/main.ts:213-215 | `sequence(s, e)` has `max(0, e - s)` elements and element `i` is `s + i` |
| Games.Built | src/main.ts:80-117 | Each slot as its constructor leaves it; the life, entry and position facts are in `GameFacts.InitialFree` |
| Games.InitialWorld | src/main.ts:80-123 | The characters and the ten explosions after `initialize`; `GameFacts.InitialFree` states that all but the Viper are free |
| Games.Table | src/main.ts:217-290 | The six names of `sceneInitialize` with their steps; `Games.MakeScene` registers exactly this table |
| Games.Spawn | src/main.ts:224-271 | The claim a step attempts: none for "isComing" and "gameover"; the boss slot with `Boss.set` on every "boss" call; the enemy pool with a live `setEnemy` for "invade" and "wave"; a large enemy at frame 50 only for "invade_large" |
| Games.Next | src/main.ts:218-276 | Scene switches go only to registered names, never back to "isComing" and never to "gameover"; "gameover" never switches |
| Games.PhaseStep | src/main.ts:217-287 | One step call keeps the arena size and activates `Next`; its claims are counted in `GameFacts.PhaseSpawnCounts` and the run lemmas |
| Games.SceneStepped | src/scene.ts:21-27 | `scene.update` on the board; `GameFacts.SceneStepFrames` states that it never throws in the game and how the frame moves |
| Games.GameOverChecked | src/main.ts:157-159 | The characters are kept; "gameover" is active afterwards exactly when the Viper has no life or it already was, and a switch resets the frame to 0 |
| Games.CharactersTicked | src/main.ts:162-170 | The updates of `render` in its order; `Games.Game.TickCharacters` runs them in place, and `CharacterFacts` states what each one does |
| Games.Rendered | src/main.ts:154-170 | One unpaused frame apart from the stars; `GameFacts.RenderedGameOver` states when it ends in "gameover" |
| Games.RestartedEnts | src/main.ts:200-204 | The Enter handler's reset of the characters; `GameFacts.RestartFacts` states which slots it clears and how it restarts the Viper |
| Games.Restarted | src/main.ts:199-206 | The board after Enter; `GameFacts.RestartFacts` states it |
| Games.LayoutWired | src/main.ts:84-133 | The wiring `initialize` builds is well formed, its pools are distinct, and no character is its own target or its own shot |
| Games.Game.constructor | src/main.ts:70-146 | `initialize` and `sceneInitialize`: the initial board, "isComing" active at frame 0, unpaused, no key held, every star built from its four draws |
| Games.Game.Render | src/main.ts:148-173 | Paused: nothing changes. Otherwise the stars scroll, and the board becomes `Rendered` of the old one: `scene.update`, the game-over check, then the characters and explosions in `render`'s order |
| Games.Game.SceneUpdate | src/main.ts:156 | `scene.update()` never throws in the game and leaves the board as `SceneStepped` |
| Games.Game.CheckGameOver | src/main.ts:157-159 | The game-over check leaves the board as `GameOverChecked` |
| Games.Game.TickCharacters | src/main.ts:162-170 | The updates run as `CharactersTicked` says: Viper, Viper shots, enemies, boss, large enemies, enemy shots, then the explosions, then the homing shots |
| Games.Game.ScrollStars | src/main.ts:154 | Every star moves as `StarMoved` says |
| Games.Game.RunPhase | src/main.ts:217-290 | A phase step: its claim (if any) leaves the characters as `PhaseStep` says, and its `activate` (if any) sets the new name and frame 0 |
| Games.Game.KeyDown | src/main.ts:196-207 | The key is held. `q` toggles the pause and changes nothing else. Enter unpauses and leaves the board as `Restarted`. Other keys change nothing else |
| Games.Game.KeyUp | src/main.ts:208-210 | The key is released and nothing else changes |
| Games.Game.Restart | src/main.ts:199-206 | The Enter branch: unpaused, and the board as `Restarted` |
| Games.Game.ResetCharacters | src/main.ts:200-204 | The three `forEach` clears and `setIsComing`, in place, as `RestartedEnts` |
| Games.MakeStars | src/main.ts:136-141 | A hundred distinct stars, each built from its draws: `size = 1 + 2 r`, `speed = 3 + (6 r - 2)`, at `(r W, r H)` |
| Games.MakeScene | src/main.ts:217-290 | The registry holds the six phase steps under their names, and "isComing" is active at frame 0 |
| GameFacts.SequenceSplit | src/main.ts:213-215 | `sequence(a, c)` is `sequence(a, b)` followed by `sequence(b, c)` |
| GameFacts.ViperReach | src/main.ts:125-133 | In the game, the Viper and its shots aim at the foes: distinct slots, none of them a Viper and none in the Viper's shot pool. So the requirements of `ViperOutcome`, and of `ShotOutcome` for the Viper's shots, are met |
| GameFacts.IsComingRun | src/main.ts:218-222 | "isComing", entered at frame 0, runs on frames 0 to 51, spawns nothing, changes no character, and activates "boss" on frame 51, the first with `frame > 50` |
| GameFacts.InvadeRun | src/main.ts:224-237 | "invade", entered from another step, runs on frames 1 to 200, attempts a spawn exactly at 50, 100, 150 and 200, and activates "wave" at 200 |
| GameFacts.WaveRun | src/main.ts:239-252 | "wave" runs on frames 1 to 400, attempts a spawn exactly at 60, 120, 180, 240 and 300, and activates "invade_large" at 400 |
| GameFacts.InvadeLargeRun | src/main.ts:254-266 | "invade_large" runs on frames 1 to 501, attempts one spawn at 50, and activates "invade" at 501, the first with `frame > 500` |
| GameFacts.BossRun | src/main.ts:268-276 | "boss" runs on frames 1 to 501 and activates "invade" at 501 |
| GameFacts.GameOverRun | src/main.ts:278-287 | "gameover" never activates another scene and changes no character |
| GameFacts.PhaseSpawnCounts | src/main.ts:226-233 | A phase's spawn activates one more slot of its pool unless the pool is full, and changes no slot outside the pool |
| GameFacts.BossRespawn | src/main.ts:269-271 | "boss" sets the boss up again, with life 80 just above the canvas, exactly when its life is `<= 0`; otherwise no character changes |
| GameFacts.SceneStepFrames | src/scene.ts:21-27 | In the game `scene.update` never throws and keeps the name registered. A step that activates leaves the new scene at frame 1, so its first call sees frame 1. Any other step advances the frame by one. No explosion changes |
| GameFacts.PhaseSparesViper | src/main.ts:217-290 | No phase step touches the Viper |
| GameFacts.RenderedGameOver | src/main.ts:155-159 | After a frame, "gameover" is active exactly when the Viper had no life at the frame's start or "gameover" was already active; `render` never leaves it |
| GameFacts.InitialFree | src/main.ts:80-123 | Before the first frame every slot but the Viper's and every explosion is free, and the Viper is coming in at `(300, 480)` with life 1 |
| GameFacts.RestartFacts | src/main.ts:199-206 | Enter activates "isComing" at frame 0. It sets life 0 on every enemy, enemy shot and large enemy and changes nothing else about them. It puts the Viper back into its entry with life 1 at `(300, 480)`. The Viper's shots, the boss, the homing shots and the explosions are untouched |

## Left out

- Drawing: `draw`, `rotationDraw`, the canvas fills and text, the `globalAlpha` blinking and `Canvas2dUtility`. These are canvas side effects. The "gameover" step only draws, so it is a step that changes nothing.
- Image and sound loading, the `ready` flags, `loadCheck` and `sound.play()`. These are asynchronous browser I/O. The explosion claim is modelled; the sound is not.
- The `setTimeout` scheduling of `render` and the pause loop. `Render` does nothing while paused, and the next call is up to the caller.
- The DOM listeners themselves. `KeyDown` and `KeyUp` are what they do with a key.
- `Math.random` and `Date.now`. They are parameters: a spawn `rnd`, the star `draws`, the particle `sparks` and `now`. `Games.Game.Render` takes one `sparks` per frame, so all explosions set in the same frame get the same particle draws. The source draws afresh in each `set`. The particles only feed drawing. Likewise one `now` serves every `Explosion.set` (src/class.ts:153) and `Explosion.update` (src/class.ts:174) of a frame, where the source calls `Date.now()` in each. The milliseconds between those calls are not modelled.
- Trigonometry and `sqrt` are host functions, with no properties assumed about them:
  - the sin/cos drift of the wave, large and boss enemies;
  - the volley directions;
  - `rotate` and `atan2` of the homing shot.

  The frame-cadence conditions and the turn sign are modelled exactly. Collision compares squared distances, except where a lemma about `calcDistance` assumes a true square root.
- Floating point. Numbers are `real`, so NaN, infinities and rounding are not modelled. Dividing by a zero distance in `normalize` (NaN in the source) gives the zero vector in `Geometry.Normalize`. An explosion with `timeRange == 0` follows JavaScript's infinity/NaN outcome in `Effects.Spent`.
- Characters.ViperUpdated: the `!this.endPosition` guard is not modelled separately, since `setIsComing` sets `startPosition` and `endPosition` together and nothing else sets either.
- The sprite angle of shots and homing shots (`this.angle`). It is only used for drawing.
- Characters.HomingUpdated: `Position` defines no `normalize`, `cross` or `rotate`. The model therefore uses the evident meaning:
  - the heading made unit length;
  - `cross(v, n) = vx * ny - vy * nx`;
  - a standard rotation.

  The code as written is `Characters.HomingUpdatedAsWritten` (see Findings).
- The background stars are a sequence of objects in `Games.Game`. They take no part in any other property.
- Effects.BackgroundStar.Set: requires `y < H + size`, which `set` does not demand. The class invariant needs it. The only call, in `initialize`, passes `y = random * H`, which meets it.

## Findings

| source | as written | input that shows it | evidently intended | confidence | as-written member | corrected member |
|---|---|---|---|---|---|---|
| src/character.ts:358-367 | `Homing.update` calls `this.vector.normalize(..)`, `.cross(..)` and `.rotate(..)` on a `Position`, which defines none of them, so it throws a `TypeError` | any homing shot with `life > 0` when `render` updates it (the boss fires one whenever `frame % 50 == 0`) | make the heading unit length, turn it one degree towards the target by the sign of the cross product, then move and collide as a shot. As written, the throw escapes `render` before its `setTimeout(render, 20)` (src/main.ts:171), so the loop stops for good. This happens on the first "boss" frame: `boss.update` fires a homing shot at frame 0, and the same frame then updates it | not executed; the `class.ts` at hand also lacks the `Sound` class that `main.ts` and `character.ts` import, so it may not be the revision the rest was run with | CharacterFacts.HomingAsWrittenThrows | Characters.HomingUpdated |

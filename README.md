# Play scene of a wave shooter, in Dafny

This project models the game rules of the play scene of a small Phaser arcade shooter
(`src/Scenes/PlayScene.js`). The player ship moves left and right and fires upward. Enemies
arrive in waves laid out on a grid. Each wave adds a life. A shield takes the first hit and a
second hit costs a life. The game ends when no life is left.

The model has five files:

- `config.dfy`: the play-field size from `src/main.js` (480 × 640).
- `wrappers.dfy`: an `Option` type.
- `damage.dfy`: the hit rule on lives and shield (`Damage.Hit`), and what a run of hits does.
- `enemies.dfy`: the enemy record, the grid each wave spawns, the per-frame upkeep of waves 2
  and 3, and the choice of the next wave-3 diver, all as functions on sequences with lemmas.
- `play_scene.dfy`: the scene itself. `PlayScene.Scene` is a class whose fields are the
  scene's state (lives, shield, score, wave, flags, the enemy group, timers and HUD). The frame
  update, the timer callbacks and the collision callbacks are methods that update those fields
  in place. Each method's postcondition ties the new state to the old state and to the
  functions of `enemies.dfy` and `damage.dfy`. Every frame, timer and collision method keeps the
  invariant `Valid()`; the helpers `SpawnGrid`, `ScheduleEnemyFire` and `AddScore` run inside
  `SpawnWave` and `OnPlayerBulletHitsEnemy`, where it is restored.

How engine services are represented:

- One-shot delayed calls (`time.delayedCall`) are a multiset `pending` of events:
  `NextWave`, `FireReady` and `RespawnPlayer`. The callback methods `SpawnWave`,
  `RestoreFire` and `ResetPlayerPosition` may run only while their event is pending.
- The looping dive timer is the flag `diveTimer`.
- The looping per-enemy fire timers are the set `fireTimers` of roster positions. `EnemyFire`
  may run only for a position in that set.
- The enemy group is the sequence `roster` in creation order. Disabling an enemy clears its
  `active` flag and keeps it in the group, as Phaser's `disableBody` does. So roster positions
  stay stable and new waves are appended.
- Bullets are counted, not tracked: `playerBullets` and `enemyBullets`.
- The three HUD texts are the snapshot `hud`.
- A switch to the game-over scene is `gameOver := Some(score)`.

Points where the code's behaviour is easy to misread:

- `spawnWave` increments the wave counter before it computes the rows. So wave 1 has
  2 + min(1, 4) = 3 rows, which is 18 enemies (see `Enemies.GridLayout`).
- The 800 ms delayed `physics.world.enable(player)` after a shield hit re-enables a body that
  was never disabled. There is no invulnerability window, so the model has none.
- On the fatal hit, `damagePlayer` returns before `updateUI`. The HUD keeps its previous
  values (`PlayScene.Scene.DamagePlayer`).
- `onPlayerBulletHitsEnemy` has no `active` guard. The model keeps it unguarded.

## Model

| member | source | states |
|---|---|---|
| PlayScene.Scene.constructor | src/Scenes/PlayScene.js:28-35 | initGame starts with 2 lives, shield 1, score 0, wave 0, no active wave, firing allowed, an empty group, and the first spawnWave pending; the scene invariant holds |
| PlayScene.Scene.Update | src/Scenes/PlayScene.js:17-25 | one frame sets the velocity from the arrows, fires only when fire is freshly pressed and allowed, maintains every enemy, and ends the wave exactly when a wave was active and no enemy of the maintained group is active |
| PlayScene.Scene.HandlePlayerInput | src/Scenes/PlayScene.js:99-113 | left wins over right, neither means 0; a bullet is fired iff fire was just pressed and canFire held; then canFire is false and exactly one cooldown callback is pending |
| PlayScene.Scene.RestoreFire | src/Scenes/PlayScene.js:111 | the cooldown callback consumes its event and allows firing again |
| PlayScene.Scene.MaintainEnemies | src/Scenes/PlayScene.js:116-139 | the group after the loop is the old group with every enemy replaced by its maintained form, in place and in order |
| Enemies.Maintained | src/Scenes/PlayScene.js:117-138 | an inactive enemy is untouched; only y and the active flag change; a wave-2 looping enemy more than 30 px below the field reappears at y = -30; exactly the wave-3 divers beyond the 50 px margin are disabled; nothing is revived |
| Enemies.MaintainAll | src/Scenes/PlayScene.js:117 | the group keeps its length and each position holds the maintained enemy |
| Enemies.MaintainCount | src/Scenes/PlayScene.js:116-139 | upkeep never raises the active count, and outside wave 3 it leaves the count unchanged |
| PlayScene.Scene.CountActiveEnemies | src/Scenes/PlayScene.js:22 | the loop's count equals the number of active enemies in the group |
| Enemies.CountActive | src/Scenes/PlayScene.js:22 | the count is zero iff no enemy is active, and equals the group size iff all are active |
| Enemies.CountActiveSnoc | src/Scenes/PlayScene.js:22 | counting one more enemy adds one exactly when that enemy is active |
| Enemies.CountActiveMonotone | src/Scenes/PlayScene.js:22 | clearing active flags never raises the active count, and leaving them alone keeps it |
| PlayScene.Scene.EndCurrentWave | src/Scenes/PlayScene.js:142-149 | no wave is active, the dive timer is gone, and exactly one more spawnWave is pending |
| PlayScene.Scene.SpawnWave | src/Scenes/PlayScene.js:151-199 | the wave number and lives go up by one, the HUD shows them, the wave's grid is appended to the group, each new enemy gets a fire timer unless the wave is 3, a dive timer exists iff the wave is 3, and the wave is active |
| PlayScene.Scene.SpawnGrid | src/Scenes/PlayScene.js:156-187 | the nested row and column loops append exactly Grid(wave) in row-major order and schedule fire for exactly the new positions, except in wave 3 |
| PlayScene.Scene.ScheduleEnemyFire | src/Scenes/PlayScene.js:221-228 | a fire timer is added for the enemy iff it is not tagged as unable to shoot |
| PlayScene.TimersMatchGrid | src/Scenes/PlayScene.js:167-185 | after a wave is spawned, exactly the enemies allowed to shoot own a fire timer |
| Enemies.Rows | src/Scenes/PlayScene.js:157 | a wave has 2 + min(wave, 4) rows, between 2 and 6 |
| Enemies.GridLayout | src/Scenes/PlayScene.js:156-185 | a wave spawns 6 * (2 + min(wave, 4)) enemies; the one at row r, column c is active, not diving, at (60 + 60c, 80 + 50r), enemy1 on even rows and enemy2 on odd rows, looping down iff the wave is 2, and able to shoot iff the wave is not 3 |
| Enemies.GridRowsAt | src/Scenes/PlayScene.js:160-165 | cell 6r + c of the rows built so far is the enemy created at row r, column c |
| Enemies.GridCell | src/Scenes/PlayScene.js:160-165 | every grid position k holds the enemy of row k / 6 and column k % 6 |
| Enemies.GridStep | src/Scenes/PlayScene.js:160-165 | creating cell (r, c) extends the built prefix by exactly that cell, and the last column completes the row |
| Enemies.GridPositionsDistinct | src/Scenes/PlayScene.js:162-163 | no two enemies of one wave share a spawn position |
| Enemies.GridOnScreen | src/Scenes/PlayScene.js:162-163 | every spawned enemy lies strictly inside the 480 × 640 field |
| Enemies.GridPolicy | src/Scenes/PlayScene.js:167-185 | every spawned enemy is active and not diving; it loops down iff the wave is 2, and it cannot shoot iff the wave is 3 |
| Enemies.GridAllActive | src/Scenes/PlayScene.js:160-187 | a freshly spawned wave is non-empty and entirely active, so it cannot end at once |
| PlayScene.Scene.LaunchDive | src/Scenes/PlayScene.js:202-211 | the search loop tags the first active, non-diving enemy in group order as diving, and changes nothing if there is none |
| Enemies.FirstIdle | src/Scenes/PlayScene.js:203 | the result is an idle enemy with no idle enemy before it, and there is no result iff no enemy is idle |
| Enemies.CountIdleTagDiving | src/Scenes/PlayScene.js:206 | tagging an idle enemy as diving removes exactly one dive candidate |
| Enemies.CountIdleZero | src/Scenes/PlayScene.js:203-204 | no dive candidate is counted iff no enemy is idle |
| Enemies.DiveTakesOne | src/Scenes/PlayScene.js:202-211 | each dive tick turns exactly one idle enemy into a diver when one exists and otherwise changes nothing; no other enemy changes and the active count is kept |
| PlayScene.Scene.EnemyFire | src/Scenes/PlayScene.js:230-236 | an enemy bullet appears iff the enemy is active and not diving |
| PlayScene.Scene.MoveEnemy | src/Scenes/PlayScene.js:169 | engine movement (velocity, tweens) may move an enabled enemy anywhere; the model moves only enabled enemies, because no rule reads a disabled enemy's position |
| PlayScene.Scene.OnPlayerBulletHitsEnemy | src/Scenes/PlayScene.js:239-244 | the bullet is destroyed, the enemy is disabled in place, and the score rises by 100 for enemy1 and 150 otherwise, so it strictly increases |
| PlayScene.Scene.OnEnemyBulletHitsPlayer | src/Scenes/PlayScene.js:246-249 | the bullet is destroyed and the player takes exactly one hit |
| PlayScene.Scene.OnEnemyCollidesPlayer | src/Scenes/PlayScene.js:251-255 | a collision with an inactive enemy changes nothing; otherwise that enemy is disabled and the player takes one hit |
| PlayScene.Scene.DamagePlayer | src/Scenes/PlayScene.js:258-281 | a shielded player loses only the shield; an unshielded one loses a life, gets the shield back and is respawned later; at zero lives the game is over with the score and the HUD is not refreshed |
| PlayScene.Scene.ResetPlayerPosition | src/Scenes/PlayScene.js:294-296 | the respawn callback puts the player at (240, 590) |
| PlayScene.Scene.AddScore | src/Scenes/PlayScene.js:299-302 | the score grows by the amount and the HUD shows the new score |
| Damage.Hit | src/Scenes/PlayScene.js:261-278 | a hit removes exactly one hit point (2 * lives + shield) and keeps the shield 0 or 1; a life is lost iff the shield was down |
| Damage.HitsWearDown | src/Scenes/PlayScene.js:261-278 | n consecutive hits remove exactly n hit points and keep the shield 0 or 1 |
| Damage.HitsCountDown | src/Scenes/PlayScene.js:261-278 | after n hits the player still has a life iff n is at most two less than the hit points; the hit that empties the last life is hit number 2 * lives + shield - 1 |
| Damage.SixthHitInFirstWaveIsFatal | src/Scenes/PlayScene.js:30-31 | from the starting 2 lives and shield 1, hits can land only after the first spawn (line 153) has raised lives to 3; then the fifth hit leaves one life and the sixth ends the game |

## Left out

- Rendering, textures, tweens (the side-to-side yoyo of waves 1 and 4+), blinking, camera shake and sound are presentation only and have no effect on the rules.
- Physics integration (velocities, `moveToObject`, the dive angle from `atan2`) is not modelled; `PlayScene.Scene.MoveEnemy` stands in for the engine moving an enabled body, and positions are integers.
- Overlap detection is the engine's job: the collision methods take the bullet or enemy that overlapped as given.
- Real time is not modelled: delays (750, 1500, 300, 50 ms), the 1200 ms dive period and the random 4000–6000 ms fire period are replaced by pending events and timer sets, which the environment may fire in any order.
- The game-over scene and a later restart of the play scene are not part of this model; `Update`, the timer callbacks and the collision callbacks require the scene to still be running, since the engine stops a scene's updates and timers when it switches scenes.
- Player bullets and enemy bullets leaving the screen are never cleaned up in the source; the model only counts bullets created and destroyed.
- `firePlayerBullet` is modelled only as the bullet count going up; the bullet's position and speed are physics.
- PlayScene.Scene.OnPlayerBulletHitsEnemy: does not require the enemy to be active, as the source does not check; the engine only reports overlaps of enabled bodies.

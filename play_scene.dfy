/**
 * The game rules of the play scene (src/Scenes/PlayScene.js) with the engine stripped away.
 *
 * The scene is one object whose fields the frame update, the timer callbacks and the collision
 * callbacks update in place. The engine runs these one at a time between frames, so each is a
 * method here. One-shot delayed calls wait in `pending`; the looping timers are the dive timer
 * (`diveTimer`) and one fire timer per enemy (`fireTimers`, by roster position).
 */
module PlayScene {
  import opened Wrappers
  import opened Config
  import opened Enemies
  import opened Damage

  const PLAYER_SPEED: int := 250
  const PLAYER_SPAWN_X: int := GAME_WIDTH / 2
  const PLAYER_SPAWN_Y: int := GAME_HEIGHT - 50

  /** A one-shot delayed call registered with the scene's clock. */
  datatype Event =
    | NextWave       // spawnWave, 750 ms after the start and 1500 ms after each wave end
    | FireReady      // canFire = true, 300 ms after a player shot
    | RespawnPlayer  // resetPlayerPosition, 50 ms after a life is lost

  /** The keyboard as one frame sees it: arrow keys held, space freshly pressed. */
  datatype Input = Input(leftDown: bool, rightDown: bool, fireJustDown: bool)

  /** What the three HUD texts show: score, lives and wave at the last refresh. */
  datatype Hud = Hud(score: int, lives: int, wave: int)

  /** Every fire timer belongs to an enemy of the roster, and exactly the enemies allowed to shoot own one. */
  predicate TimersMatch(roster: seq<Enemy>, timers: set<nat>) {
    (forall t :: t in timers ==> t < |roster|) &&
    (forall i :: 0 <= i < |roster| ==> (i in timers <==> roster[i].canShoot))
  }

  /**
   * Appending a wave's grid and giving a fire timer to each new enemy unless the wave is 3
   * keeps the timers matched.
   */
  lemma TimersMatchGrid(roster: seq<Enemy>, timers: set<nat>, timers': set<nat>, wave: int)
    requires wave >= 1 && TimersMatch(roster, timers)
    requires forall k :: k in timers' <==> k in timers || (wave != 3 && |roster| <= k < |roster| + |Grid(wave)|)
    ensures TimersMatch(roster + Grid(wave), timers')
  {
    var g := Grid(wave);
    var roster' := roster + g;
    forall i | 0 <= i < |roster'| ensures i in timers' <==> roster'[i].canShoot {
      if i < |roster| {
        assert roster'[i] == roster[i];
      } else {
        assert roster'[i] == g[i - |roster|];
        GridPolicy(wave, i - |roster|);
      }
    }
  }

  class Scene {
    var lives: int
    var shield: int
    var score: int
    var wave: int
    var waveActive: bool
    var canFire: bool
    /** A wave-3 dive timer is registered (the handle is not null). */
    var diveTimer: bool
    /** The enemy group, in creation order; disabled enemies stay in it. */
    var roster: seq<Enemy>
    /** Roster positions of the enemies that own a looping fire timer. */
    var fireTimers: set<nat>
    var pending: multiset<Event>
    var playerBullets: nat
    var enemyBullets: nat
    var playerX: int
    var playerY: int
    var playerVx: int
    var hud: Hud
    /** Some(score) once the scene has switched to the game-over scene with that score. */
    var gameOver: Option<int>

    /**
     * The scene's invariant: the shield is 0 or 1; the game is over exactly when no life is
     * left and then carries the score; while playing the HUD is current; a dive timer exists
     * exactly during an active wave 3; the next wave is pending exactly while no wave is
     * active; a fire cooldown is pending exactly while the player cannot fire.
     */
    ghost predicate Valid()
      reads this
    {
      0 <= shield <= 1 && lives >= 0 && score >= 0 && wave >= 0 &&
      (gameOver.None? <==> lives > 0) &&
      (gameOver.Some? ==> gameOver.value == score) &&
      (gameOver.None? ==> hud == Hud(score, lives, wave)) &&
      (waveActive ==> wave >= 1) &&
      (diveTimer <==> waveActive && wave == 3) &&
      pending[NextWave] == (if waveActive then 0 else 1) &&
      pending[FireReady] == (if canFire then 0 else 1) &&
      TimersMatch(roster, fireTimers)
    }

    /** The scene still receives frames and callbacks (it has not switched to game over). */
    predicate Running()
      reads this
    {
      gameOver.None?
    }

    /** Creating the scene and initGame: starting state, first wave due after 750 ms. */
    constructor ()
      ensures Valid() && Running()
      ensures lives == 2 && shield == 1 && score == 0 && wave == 0
      ensures !waveActive && canFire && !diveTimer
      ensures roster == [] && fireTimers == {} && pending == multiset{NextWave}
      ensures playerBullets == 0 && enemyBullets == 0
      ensures playerX == PLAYER_SPAWN_X && playerY == PLAYER_SPAWN_Y && playerVx == 0
      ensures hud == Hud(0, 2, 0)
    {
      diveTimer := false;
      lives := 2;
      shield := 1;
      score := 0;
      wave := 0;
      waveActive := false;
      canFire := true;
      roster := [];
      fireTimers := {};
      playerBullets := 0;
      enemyBullets := 0;
      playerX, playerY, playerVx := PLAYER_SPAWN_X, PLAYER_SPAWN_Y, 0;
      hud := Hud(0, 2, 0);
      gameOver := None;
      pending := multiset{NextWave};
    }

    /**
     * One frame: input, enemy upkeep, then the wave ends if a wave is active and no enemy of
     * the maintained roster is active.
     */
    method Update(input: Input) returns (fired: bool, ended: bool)
      requires Valid() && Running()
      modifies this`playerVx, this`canFire, this`playerBullets, this`pending, this`roster
      modifies this`waveActive, this`diveTimer
      ensures Valid() && Running()
      ensures playerVx == (if input.leftDown then -PLAYER_SPEED else if input.rightDown then PLAYER_SPEED else 0)
      ensures fired <==> input.fireJustDown && old(canFire)
      ensures canFire == (old(canFire) && !fired)
      ensures playerBullets == old(playerBullets) + (if fired then 1 else 0)
      ensures roster == MaintainAll(old(roster), wave)
      ensures ended <==> old(waveActive) && CountActive(roster) == 0
      ensures waveActive == (old(waveActive) && !ended)
      ensures diveTimer == (old(diveTimer) && !ended)
      ensures pending == old(pending) + (if fired then multiset{FireReady} else multiset{})
                                      + (if ended then multiset{NextWave} else multiset{})
    {
      fired := HandlePlayerInput(input);
      MaintainEnemies();
      ended := false;
      if waveActive {
        var n := CountActiveEnemies();
        if n == 0 {
          EndCurrentWave();
          ended := true;
        }
      }
    }

    /**
     * Arrow keys choose the horizontal velocity; a fresh press of fire shoots only when the
     * cooldown has passed, and then starts a new 300 ms cooldown.
     */
    method HandlePlayerInput(input: Input) returns (fired: bool)
      requires Valid()
      modifies this`playerVx, this`canFire, this`playerBullets, this`pending
      ensures Valid()
      ensures playerVx == (if input.leftDown then -PLAYER_SPEED else if input.rightDown then PLAYER_SPEED else 0)
      ensures fired <==> input.fireJustDown && old(canFire)
      ensures canFire == (old(canFire) && !fired)
      ensures playerBullets == old(playerBullets) + (if fired then 1 else 0)
      ensures pending == old(pending) + (if fired then multiset{FireReady} else multiset{})
    {
      if input.leftDown {
        playerVx := -PLAYER_SPEED;
      } else if input.rightDown {
        playerVx := PLAYER_SPEED;
      } else {
        playerVx := 0;
      }
      fired := false;
      if input.fireJustDown && canFire {
        playerBullets := playerBullets + 1;  // firePlayerBullet
        canFire := false;
        pending := pending + multiset{FireReady};
        fired := true;
      }
    }

    /** The 300 ms cooldown callback: the player may fire again. */
    method RestoreFire()
      requires Valid() && Running() && FireReady in pending
      modifies this`canFire, this`pending
      ensures Valid()
      ensures canFire && pending == old(pending) - multiset{FireReady}
    {
      pending := pending - multiset{FireReady};
      canFire := true;
    }

    /** Per-frame enemy upkeep: the wave-2 vertical wrap and the wave-3 off-screen despawn. */
    method MaintainEnemies()
      requires Valid()
      modifies this`roster
      ensures Valid()
      ensures roster == MaintainAll(old(roster), wave)
    {
      var i := 0;
      while i < |roster|
        invariant 0 <= i <= |roster| == |old(roster)|
        invariant forall k :: 0 <= k < i ==> roster[k] == Maintained(old(roster)[k], wave)
        invariant forall k :: i <= k < |roster| ==> roster[k] == old(roster)[k]
      {
        var enemy := roster[i];
        if enemy.active {
          if wave == 2 && enemy.loopDown && enemy.y > GAME_HEIGHT + 30 {
            enemy := enemy.(y := -30);
          }
          if wave == 3 && enemy.diving {
            var offScreen :=
              enemy.y > GAME_HEIGHT + 50 ||
              enemy.y < -50 ||
              enemy.x < -50 ||
              enemy.x > GAME_WIDTH + 50;
            if offScreen {
              enemy := enemy.(active := false);
            }
          }
          roster := roster[i := enemy];
        }
        i := i + 1;
      }
    }

    /** The number of active enemies, counted over the group in order. */
    method CountActiveEnemies() returns (n: nat)
      ensures n == CountActive(roster)
    {
      n := 0;
      var i := 0;
      while i < |roster|
        invariant 0 <= i <= |roster|
        invariant n == CountActive(roster[..i])
      {
        assert roster[..i + 1] == roster[..i] + [roster[i]];
        CountActiveSnoc(roster[..i], roster[i]);
        if roster[i].active {
          n := n + 1;
        }
        i := i + 1;
      }
      assert roster[..i] == roster;
    }

    /** Wave end: no wave is active, the dive timer is cancelled, the next wave is due in 1500 ms. */
    method EndCurrentWave()
      requires Valid() && waveActive
      modifies this`waveActive, this`diveTimer, this`pending
      ensures Valid()
      ensures !waveActive && !diveTimer
      ensures pending == old(pending) + multiset{NextWave}
    {
      waveActive := false;
      if diveTimer {
        diveTimer := false;
      }
      pending := pending + multiset{NextWave};
    }

    /**
     * The delayed spawnWave call: next wave number, one life more, the wave's grid appended to
     * the group, a fire timer for every new enemy unless the wave is 3, a dive timer in wave 3.
     */
    method SpawnWave()
      requires Valid() && Running() && NextWave in pending
      modifies this`pending, this`wave, this`lives, this`hud, this`roster, this`fireTimers,
               this`diveTimer, this`waveActive
      ensures Valid() && Running()
      ensures wave == old(wave) + 1 && lives == old(lives) + 1
      ensures roster == old(roster) + Grid(wave)
      ensures forall k :: k in fireTimers <==> k in old(fireTimers) || (wave != 3 && |old(roster)| <= k < |roster|)
      ensures waveActive && diveTimer == (wave == 3)
      ensures hud == Hud(score, lives, wave)
      ensures pending == old(pending) - multiset{NextWave}
    {
      pending := pending - multiset{NextWave};
      wave := wave + 1;
      lives := lives + 1;
      hud := Hud(score, lives, wave);  // updateUI

      SpawnGrid();
      TimersMatchGrid(old(roster), old(fireTimers), fireTimers, wave);
      if wave == 3 {
        diveTimer := true;
      }
      waveActive := true;
    }

    /**
     * The nested row/column loops of spawnWave: one enemy per grid cell, appended to the group
     * with the tags of the wave, each followed by its fire schedule unless the wave is 3.
     */
    method SpawnGrid()
      requires wave >= 1
      modifies this`roster, this`fireTimers
      ensures roster == old(roster) + Grid(wave)
      ensures forall k :: k in fireTimers <==> k in old(fireTimers) || (wave != 3 && |old(roster)| <= k < |roster|)
    {
      var rows := Rows(wave);
      var r := 0;
      while r < rows
        invariant 0 <= r <= rows
        invariant roster == old(roster) + GridRows(r, wave)
        invariant forall k :: k in fireTimers <==> k in old(fireTimers) || (wave != 3 && |old(roster)| <= k < |roster|)
      {
        var c := 0;
        while c < COLS
          invariant 0 <= c <= COLS
          invariant roster == old(roster) + GridRows(r, wave) + Row(r, wave)[..c]
          invariant forall k :: k in fireTimers <==> k in old(fireTimers) || (wave != 3 && |old(roster)| <= k < |roster|)
        {
          var x := START_X + c * COL_SPACING;
          var y := START_Y + r * ROW_SPACING;
          var kind := if r % 2 == 0 then Enemy1 else Enemy2;
          var enemy := Enemy(true, kind, x, y, false, false, true);
          if wave == 2 {
            enemy := enemy.(loopDown := true);
          } else if wave == 3 {
            enemy := enemy.(canShoot := false);  // waits for a dive
          }
          assert enemy == SpawnedAt(r, c, wave);
          GridStep(old(roster), r, c, wave);
          roster := roster + [enemy];
          if wave != 3 {
            ScheduleEnemyFire(|roster| - 1);
          }
          c := c + 1;
        }
        r := r + 1;
      }
    }

    /** scheduleEnemyFire: a looping fire timer for the enemy unless it is tagged as unable to shoot. */
    method ScheduleEnemyFire(i: nat)
      requires i < |roster|
      modifies this`fireTimers
      ensures fireTimers == old(fireTimers) + (if roster[i].canShoot then {i} else {})
    {
      if !roster[i].canShoot {
        return;
      }
      fireTimers := fireTimers + {i};
    }

    /** The dive timer's tick (launchDive): the first idle enemy in group order starts diving. */
    method LaunchDive()
      requires Valid() && Running() && diveTimer
      modifies this`roster
      ensures Valid()
      ensures roster == Dove(old(roster))
    {
      var i := 0;
      while i < |roster|
        invariant 0 <= i <= |roster|
        invariant forall j :: 0 <= j < i ==> !Idle(roster[j])
      {
        if roster[i].active && !roster[i].diving {
          assert FirstIdle(roster) == Some(i);
          roster := roster[i := roster[i].(diving := true)];
          return;
        }
        i := i + 1;
      }
    }

    /** A fire timer's tick (enemyFire): a bullet only from an active enemy that is not diving. */
    method EnemyFire(i: nat) returns (fired: bool)
      requires Valid() && Running() && i in fireTimers
      modifies this`enemyBullets
      ensures Valid()
      ensures fired <==> roster[i].active && !roster[i].diving
      ensures enemyBullets == old(enemyBullets) + (if fired then 1 else 0)
    {
      if !roster[i].active || roster[i].diving {
        return false;
      }
      enemyBullets := enemyBullets + 1;
      fired := true;
    }

    /** Physics integration between frames moves an enabled enemy body anywhere. */
    method MoveEnemy(i: nat, x: int, y: int)
      requires Valid() && i < |roster|
      modifies this`roster
      ensures Valid()
      ensures roster == if old(roster)[i].active then old(roster)[i := old(roster)[i].(x := x, y := y)] else old(roster)
    {
      if roster[i].active {
        roster := roster[i := roster[i].(x := x, y := y)];
      }
    }

    /** The delayed resetPlayerPosition call: the player returns to the spawn point. */
    method ResetPlayerPosition()
      requires Valid() && Running() && RespawnPlayer in pending
      modifies this`playerX, this`playerY, this`pending
      ensures Valid()
      ensures playerX == PLAYER_SPAWN_X && playerY == PLAYER_SPAWN_Y
      ensures pending == old(pending) - multiset{RespawnPlayer}
    {
      pending := pending - multiset{RespawnPlayer};
      playerX, playerY := PLAYER_SPAWN_X, PLAYER_SPAWN_Y;
    }

    /** A player bullet overlaps an enemy: the bullet goes, the enemy is disabled, points are scored. */
    method OnPlayerBulletHitsEnemy(i: nat)
      requires Valid() && Running() && playerBullets > 0 && i < |roster|
      modifies this`playerBullets, this`roster, this`score, this`hud
      ensures Valid() && Running()
      ensures playerBullets == old(playerBullets) - 1
      ensures roster == old(roster)[i := old(roster)[i].(active := false)]
      ensures score == old(score) + (if old(roster)[i].kind == Enemy1 then 100 else 150) > old(score)
      ensures hud == Hud(score, lives, wave)
    {
      playerBullets := playerBullets - 1;
      roster := roster[i := roster[i].(active := false)];
      AddScore(if roster[i].kind == Enemy1 then 100 else 150);
    }

    /** An enemy bullet overlaps the player: the bullet goes and the player takes a hit. */
    method OnEnemyBulletHitsPlayer()
      requires Valid() && Running() && enemyBullets > 0
      modifies this`enemyBullets, this`lives, this`shield, this`hud, this`pending, this`gameOver
      ensures Valid()
      ensures enemyBullets == old(enemyBullets) - 1
      ensures Vitals(lives, shield) == Hit(Vitals(old(lives), old(shield)))
      ensures gameOver == (if lives == 0 then Some(score) else None)
      ensures hud == (if lives == 0 then old(hud) else Hud(score, lives, wave))
      ensures pending == old(pending) + (if old(shield) == 0 then multiset{RespawnPlayer} else multiset{})
    {
      enemyBullets := enemyBullets - 1;
      DamagePlayer();
    }

    /** An enemy body overlaps the player: an active enemy is spent and the player takes a hit. */
    method OnEnemyCollidesPlayer(i: nat)
      requires Valid() && Running() && i < |roster|
      modifies this`roster, this`lives, this`shield, this`hud, this`pending, this`gameOver
      ensures Valid()
      ensures !old(roster[i].active) ==> unchanged(this)
      ensures old(roster[i].active) ==>
        roster == old(roster)[i := old(roster)[i].(active := false)] &&
        Vitals(lives, shield) == Hit(Vitals(old(lives), old(shield))) &&
        gameOver == (if lives == 0 then Some(score) else None) &&
        hud == (if lives == 0 then old(hud) else Hud(score, lives, wave)) &&
        pending == old(pending) + (if old(shield) == 0 then multiset{RespawnPlayer} else multiset{})
    {
      if !roster[i].active {
        return;
      }
      roster := roster[i := roster[i].(active := false)];
      DamagePlayer();
    }

    /**
     * damagePlayer: a shielded player loses the shield and nothing else; an unshielded player
     * loses one life, gets the shield back and is respawned after 50 ms. Losing the last life
     * switches to the game-over scene with the score and skips the HUD refresh.
     */
    method DamagePlayer()
      requires Valid() && Running()
      modifies this`lives, this`shield, this`hud, this`pending, this`gameOver
      ensures Valid()
      ensures Vitals(lives, shield) == Hit(Vitals(old(lives), old(shield)))
      ensures old(shield) > 0 ==> shield == 0 && lives == old(lives)
      ensures old(shield) == 0 ==> shield == 1 && lives == old(lives) - 1
      ensures gameOver == (if lives == 0 then Some(score) else None)
      ensures hud == (if lives == 0 then old(hud) else Hud(score, lives, wave))
      ensures pending == old(pending) + (if old(shield) == 0 then multiset{RespawnPlayer} else multiset{})
    {
      // blinkPlayer, textures, camera shake and sound are presentation only
      if shield > 0 {
        shield := 0;
      } else {
        lives := lives - 1;
        shield := 1;
        pending := pending + multiset{RespawnPlayer};
        if lives <= 0 {
          gameOver := Some(score);
          return;
        }
      }
      hud := Hud(score, lives, wave);  // updateUI
    }

    /** addScore: the score grows by the amount and the HUD is refreshed. */
    method AddScore(amount: int)
      modifies this`score, this`hud
      ensures score == old(score) + amount
      ensures hud == Hud(score, lives, wave)
    {
      score := score + amount;
      hud := Hud(score, lives, wave);
    }
  }
}

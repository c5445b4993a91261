/**
 * The enemy roster of the play scene (PlayScene.enemies) as values: the record each enemy
 * carries, the grid a wave spawns, the per-frame upkeep of wave 2 and wave 3, and the choice
 * of the next wave-3 diver. The class in play_scene.dfy applies these to its roster.
 */
module Enemies {
  import opened Wrappers
  import opened Config

  /** The two enemy textures; an enemy1 kill is worth 100 points, an enemy2 kill 150. */
  datatype Kind = Enemy1 | Enemy2

  /**
   * One enemy sprite. `active` is false once the body has been disabled (shot, rammed the
   * player, or flew off screen during a dive); a disabled enemy stays in the group.
   * `loopDown` and `diving` are the data tags of waves 2 and 3; `canShoot` is false exactly
   * when the sprite was tagged "canShoot = false" (wave 3), and true when the tag was never set.
   */
  datatype Enemy = Enemy(
    active: bool,
    kind: Kind,
    x: int,
    y: int,
    loopDown: bool,
    diving: bool,
    canShoot: bool)

  const COLS: int := 6
  const START_X: int := 60
  const START_Y: int := 80
  const COL_SPACING: int := 60
  const ROW_SPACING: int := 50

  /** Number of grid rows of a wave: two more than the wave number, capped at six. */
  function Rows(wave: int): (rows: int)
    ensures 0 <= wave ==> 2 <= rows <= 6
    ensures 0 <= wave <= 4 ==> rows == wave + 2
    ensures 4 <= wave ==> rows == 6
  {
    2 + if wave < 4 then wave else 4
  }

  /** The enemy created at row r, column c when the wave counter has reached `wave`. */
  function SpawnedAt(r: int, c: int, wave: int): Enemy {
    Enemy(
      active := true,
      kind := if r % 2 == 0 then Enemy1 else Enemy2,
      x := START_X + c * COL_SPACING,
      y := START_Y + r * ROW_SPACING,
      loopDown := wave == 2,
      diving := false,
      canShoot := wave != 3)
  }

  /** Row r of a wave's grid, left to right. */
  function Row(r: int, wave: int): (row: seq<Enemy>)
    ensures |row| == COLS
  {
    seq(COLS, c => SpawnedAt(r, c, wave))
  }

  /** The first n rows of a wave's grid, top row first. */
  function GridRows(n: nat, wave: int): (g: seq<Enemy>)
    ensures |g| == COLS * n
  {
    if n == 0 then [] else GridRows(n - 1, wave) + Row(n - 1, wave)
  }

  /** Building a grid one enemy at a time: appending cell (r, c) extends the built prefix by one. */
  lemma GridStep(before: seq<Enemy>, r: nat, c: int, wave: int)
    requires 0 <= c < COLS
    ensures before + GridRows(r, wave) + Row(r, wave)[..c] + [SpawnedAt(r, c, wave)]
         == before + GridRows(r, wave) + Row(r, wave)[..c + 1]
    ensures c + 1 == COLS ==> before + GridRows(r, wave) + Row(r, wave)[..c + 1] == before + GridRows(r + 1, wave)
  {
    assert Row(r, wave)[..c + 1] == Row(r, wave)[..c] + [SpawnedAt(r, c, wave)];
    assert Row(r, wave)[..COLS] == Row(r, wave);
  }

  /** The enemies spawnWave appends for wave number `wave` (already incremented), in order. */
  function Grid(wave: int): seq<Enemy>
    requires wave >= 1
  {
    GridRows(Rows(wave), wave)
  }

  /** Cell 6r + c of the first n rows is the enemy spawned at row r, column c. */
  lemma {:induction false} GridRowsAt(n: nat, wave: int, r: int, c: int)
    requires 0 <= r < n && 0 <= c < COLS
    ensures COLS * r + c < |GridRows(n, wave)|
    ensures GridRows(n, wave)[COLS * r + c] == SpawnedAt(r, c, wave)
  {
    if r < n - 1 {
      GridRowsAt(n - 1, wave, r, c);
    }
  }

  /** Every cell of a wave's grid is the enemy spawned at its row k / 6 and column k % 6. */
  lemma GridCell(wave: int, k: int)
    requires wave >= 1 && 0 <= k < |Grid(wave)|
    ensures k / COLS < Rows(wave) && Grid(wave)[k] == SpawnedAt(k / COLS, k % COLS, wave)
  {
    GridRowsAt(Rows(wave), wave, k / COLS, k % COLS);
  }

  /**
   * The layout of a wave: 6 * (2 + min(wave, 4)) enemies, the one at row r and column c at
   * (60 + 60c, 80 + 50r), enemy1 on even rows and enemy2 on odd rows, all active and none diving.
   */
  lemma GridLayout(wave: int, r: int, c: int)
    requires wave >= 1 && 0 <= r < Rows(wave) && 0 <= c < COLS
    ensures |Grid(wave)| == 6 * (2 + if wave < 4 then wave else 4)
    ensures 0 <= COLS * r + c < |Grid(wave)|
    ensures Grid(wave)[COLS * r + c] == Enemy(
      true, if r % 2 == 0 then Enemy1 else Enemy2, 60 + 60 * c, 80 + 50 * r,
      wave == 2, false, wave != 3)
  {
    GridRowsAt(Rows(wave), wave, r, c);
  }

  /** Two different enemies of one wave never share a spawn position. */
  lemma {:induction false} GridPositionsDistinct(wave: int, i: int, j: int)
    requires wave >= 1 && 0 <= i < |Grid(wave)| && 0 <= j < |Grid(wave)| && i != j
    ensures (Grid(wave)[i].x, Grid(wave)[i].y) != (Grid(wave)[j].x, Grid(wave)[j].y)
  {
    // a cell's column and row are read back from its position
    GridCell(wave, i);
    GridCell(wave, j);
    assert i == COLS * (i / COLS) + i % COLS && j == COLS * (j / COLS) + j % COLS;
  }

  /** Every spawned enemy lies inside the play field. */
  lemma GridOnScreen(wave: int, k: int)
    requires wave >= 1 && 0 <= k < |Grid(wave)|
    ensures 0 < Grid(wave)[k].x < GAME_WIDTH && 0 < Grid(wave)[k].y < GAME_HEIGHT
  {
    GridCell(wave, k);
  }

  /** The per-wave behaviour tags: loopDown exactly in wave 2, no fire schedule exactly in wave 3. */
  lemma GridPolicy(wave: int, k: int)
    requires wave >= 1 && 0 <= k < |Grid(wave)|
    ensures Grid(wave)[k].active && !Grid(wave)[k].diving
    ensures Grid(wave)[k].loopDown <==> wave == 2
    ensures !Grid(wave)[k].canShoot <==> wave == 3
  {
    GridCell(wave, k);
  }

  /** Number of active enemies (Phaser's Group.countActive). */
  function CountActive(s: seq<Enemy>): (n: nat)
    ensures n <= |s|
    ensures n == 0 <==> forall i :: 0 <= i < |s| ==> !s[i].active
    ensures n == |s| <==> forall i :: 0 <= i < |s| ==> s[i].active
  {
    if s == [] then 0 else (if s[0].active then 1 else 0) + CountActive(s[1..])
  }

  /** Counting active enemies one at a time from the front, as a loop over the group does. */
  lemma {:induction false} CountActiveSnoc(s: seq<Enemy>, e: Enemy)
    ensures CountActive(s + [e]) == CountActive(s) + if e.active then 1 else 0
  {
    if s != [] {
      assert (s + [e])[1..] == s[1..] + [e];
      CountActiveSnoc(s[1..], e);
    }
  }

  /** A freshly spawned wave is entirely active. */
  lemma GridAllActive(wave: int)
    requires wave >= 1
    ensures CountActive(Grid(wave)) == |Grid(wave)| > 0
  {
    forall k | 0 <= k < |Grid(wave)| ensures Grid(wave)[k].active {
      GridPolicy(wave, k);
    }
  }

  /** A roster whose active flags can only have been cleared has no more active enemies. */
  lemma {:induction false} CountActiveMonotone(s: seq<Enemy>, t: seq<Enemy>)
    requires |s| == |t|
    requires forall i :: 0 <= i < |t| ==> t[i].active ==> s[i].active
    ensures CountActive(t) <= CountActive(s)
    ensures (forall i :: 0 <= i < |t| ==> t[i].active == s[i].active) ==> CountActive(t) == CountActive(s)
  {
    if s != [] {
      CountActiveMonotone(s[1..], t[1..]);
    }
  }

  /** Outside the 50-pixel margin around the play field on some side. */
  predicate OffScreen(e: Enemy) {
    e.y > GAME_HEIGHT + 50 || e.y < -50 || e.x < -50 || e.x > GAME_WIDTH + 50
  }

  /**
   * One enemy after the per-frame upkeep of maintainEnemies in the given wave: in wave 2 an
   * active looping enemy that has sunk more than 30 pixels below the field reappears 30 pixels
   * above it, and in wave 3 an active diver outside the margin is disabled.
   */
  function Maintained(e: Enemy, wave: int): (r: Enemy)
    // only the height and the active flag can change, and an inactive enemy does not change
    ensures r == e.(y := r.y, active := r.active)
    ensures !e.active ==> r == e
    // nothing is revived, and the wave-2 wrap never disables
    ensures r.active ==> e.active
    ensures wave != 3 ==> r.active == e.active
    // wrap bound: an active looping enemy of wave 2 ends no lower than 30 pixels below the field
    ensures wave == 2 && r.active && r.loopDown ==> r.y <= GAME_HEIGHT + 30
    ensures wave == 2 && e.active && e.loopDown && e.y > GAME_HEIGHT + 30 ==> r.y == -30
    ensures r.y != e.y ==> wave == 2 && e.active && e.loopDown && e.y > GAME_HEIGHT + 30
    // despawn bound: an active diver of wave 3 ends inside the margin, and only divers outside it are disabled
    ensures wave == 3 && r.active && r.diving ==> !OffScreen(r)
    ensures e.active && !r.active <==> wave == 3 && e.active && e.diving && OffScreen(e)
  {
    if !e.active then e
    else
      var wrapped :=
        if wave == 2 && e.loopDown && e.y > GAME_HEIGHT + 30 then e.(y := -30) else e;
      if wave == 3 && wrapped.diving && OffScreen(wrapped) then wrapped.(active := false)
      else wrapped
  }

  /** The whole roster after maintainEnemies: each enemy maintained in place, in order. */
  function MaintainAll(s: seq<Enemy>, wave: int): (t: seq<Enemy>)
    ensures |t| == |s|
    ensures forall i :: 0 <= i < |s| ==> t[i] == Maintained(s[i], wave)
  {
    if s == [] then [] else [Maintained(s[0], wave)] + MaintainAll(s[1..], wave)
  }

  /** Upkeep never adds active enemies, and in every wave but wave 3 it removes none. */
  lemma MaintainCount(s: seq<Enemy>, wave: int)
    ensures CountActive(MaintainAll(s, wave)) <= CountActive(s)
    ensures wave != 3 ==> CountActive(MaintainAll(s, wave)) == CountActive(s)
  {
    CountActiveMonotone(s, MaintainAll(s, wave));
  }

  /** An enemy the dive timer may pick: active and not already diving. */
  predicate Idle(e: Enemy) {
    e.active && !e.diving
  }

  /** Position of the first idle enemy in roster order (Array.prototype.find over the group). */
  function FirstIdle(s: seq<Enemy>): (r: Option<nat>)
    ensures r.Some? ==> r.value < |s| && Idle(s[r.value])
    ensures r.Some? ==> forall j :: 0 <= j < r.value ==> !Idle(s[j])
    ensures r.None? <==> forall j :: 0 <= j < |s| ==> !Idle(s[j])
  {
    if s == [] then None
    else if Idle(s[0]) then Some(0)
    else match FirstIdle(s[1..])
      case None => None
      case Some(k) => Some(k + 1)
  }

  /** The roster after launchDive: the first idle enemy, if any, is tagged as diving. */
  function Dove(s: seq<Enemy>): seq<Enemy> {
    match FirstIdle(s)
    case None => s
    case Some(k) => s[k := s[k].(diving := true)]
  }

  /** Number of enemies the dive timer could still pick. */
  function CountIdle(s: seq<Enemy>): (n: nat)
    ensures n <= |s|
  {
    if s == [] then 0 else (if Idle(s[0]) then 1 else 0) + CountIdle(s[1..])
  }

  /** Tagging an idle enemy as diving removes exactly one candidate. */
  lemma {:induction false} CountIdleTagDiving(s: seq<Enemy>, k: nat)
    requires k < |s| && Idle(s[k])
    ensures CountIdle(s[k := s[k].(diving := true)]) == CountIdle(s) - 1
  {
    if k > 0 {
      var t := s[k := s[k].(diving := true)];
      assert t[1..] == s[1..][k - 1 := s[k].(diving := true)];
      CountIdleTagDiving(s[1..], k - 1);
    }
  }

  /** No idle enemy left means a zero count of candidates, and the other way round. */
  lemma {:induction false} CountIdleZero(s: seq<Enemy>)
    ensures CountIdle(s) == 0 <==> forall j :: 0 <= j < |s| ==> !Idle(s[j])
  {
    if s != [] {
      CountIdleZero(s[1..]);
      assert forall j :: 1 <= j < |s| ==> s[1..][j - 1] == s[j];
    }
  }

  /**
   * Each dive tick turns exactly one previously idle enemy into a diver when one exists,
   * and changes nothing otherwise; positions, kinds and the active count are untouched.
   */
  lemma DiveTakesOne(s: seq<Enemy>)
    ensures |Dove(s)| == |s|
    ensures CountIdle(s) > 0 ==> CountIdle(Dove(s)) == CountIdle(s) - 1
    ensures CountIdle(s) == 0 ==> Dove(s) == s
    ensures forall i :: 0 <= i < |s| ==> Dove(s)[i] == s[i] || (Idle(s[i]) && Dove(s)[i] == s[i].(diving := true))
    ensures CountActive(Dove(s)) == CountActive(s)
  {
    CountIdleZero(s);
    match FirstIdle(s)
    case None =>
    case Some(k) =>
      CountIdleTagDiving(s, k);
    CountActiveMonotone(s, Dove(s));
  }
}

/**
 * The player's shield/lives accounting (PlayScene.damagePlayer), stated on plain values.
 *
 * A shielded player who is hit loses the shield; an unshielded player who is hit loses a
 * life and gets the shield back. Counting a life as two hit points and the shield as one,
 * every hit removes exactly one hit point.
 */
module Damage {

  datatype Vitals = Vitals(lives: int, shield: int)

  /** Shield is 1 ("blue hull") or 0 ("red hull, next hit costs a life"). */
  predicate ShieldOk(v: Vitals) {
    0 <= v.shield <= 1
  }

  /** Hit points left: two per life, one for the shield. */
  function Health(v: Vitals): int {
    2 * v.lives + v.shield
  }

  /** The effect of one hit on lives and shield. */
  function Hit(v: Vitals): (r: Vitals)
    ensures ShieldOk(v) ==> ShieldOk(r) && Health(r) == Health(v) - 1
    ensures r.lives < v.lives <==> v.shield <= 0
    ensures v.lives - 1 <= r.lives <= v.lives
  {
    if v.shield > 0 then Vitals(v.lives, 0) else Vitals(v.lives - 1, 1)
  }

  /** The vitals after n consecutive hits. */
  function Hits(v: Vitals, n: nat): Vitals {
    if n == 0 then v else Hit(Hits(v, n - 1))
  }

  /** With the shield 0 or 1, a life is left exactly when at least two hit points are. */
  lemma LivesFromHealth(w: Vitals)
    requires ShieldOk(w)
    ensures w.lives >= 1 <==> Health(w) >= 2
    ensures Health(w) == 1 ==> w.lives == 0
  {
  }

  /** n hits remove n hit points and keep the shield 0 or 1. */
  lemma {:induction false} HitsWearDown(v: Vitals, n: nat)
    requires ShieldOk(v)
    ensures ShieldOk(Hits(v, n)) && Health(Hits(v, n)) == Health(v) - n
  {
    if n > 0 {
      HitsWearDown(v, n - 1);
      assert Hits(v, n) == Hit(Hits(v, n - 1));
    }
  }

  /**
   * Consecutive hits wear the player down one hit point at a time: a player with L lives
   * and shield s still has a life after 2L + s - 2 hits, and the hit after that one is the
   * fatal one (lives reach 0).
   */
  lemma HitsCountDown(v: Vitals, n: nat)
    requires ShieldOk(v)
    ensures Hits(v, n).lives >= 1 <==> n <= Health(v) - 2
    ensures n == Health(v) - 1 ==> Hits(v, n).lives == 0
  {
    HitsWearDown(v, n);
    LivesFromHealth(Hits(v, n));
  }

  /**
   * No enemy or enemy bullet exists before the first wave spawns, and that spawn adds a life:
   * the first hit can only land at 3 lives with the shield up, and the sixth consecutive hit
   * of the first wave ends the game.
   */
  lemma SixthHitInFirstWaveIsFatal()
    ensures Hits(Vitals(3, 1), 5).lives == 1
    ensures Hits(Vitals(3, 1), 6) == Vitals(0, 1)
  {
    HitsCountDown(Vitals(3, 1), 5);
    HitsCountDown(Vitals(3, 1), 6);
  }
}

/**
  The star-row rule shared by the feedback form and the admin page's feedback
  cards: of the stars numbered 1..n, star s is drawn highlighted exactly when
  s is at most the level being shown.
*/
module StarRating {

  /** Star `star` is highlighted at `level`. */
  predicate Lit(star: int, level: int) {
    star <= level
  }

  /** How many of the stars 1..n are highlighted at `level`. */
  function LitCount(level: int, n: nat): nat {
    if n == 0 then 0 else LitCount(level, n - 1) + (if Lit(n, level) then 1 else 0)
  }

  /** The highlighted stars are `level` of them, clamped to 0..n. */
  lemma {:induction false} LitCountClamped(level: int, n: nat)
    ensures LitCount(level, n) == if level <= 0 then 0 else if level >= n then n else level
  {
    if n > 0 {
      LitCountClamped(level, n - 1);
    }
  }

  /** A level within 0..n highlights exactly that many stars. */
  lemma LitCountExact(level: int, n: nat)
    requires 0 <= level <= n
    ensures LitCount(level, n) == level
  {
    LitCountClamped(level, n);
  }

  /** The highlighted stars form a prefix: if a star is lit, so is every
      earlier one. */
  lemma LitPrefix(s: int, t: int, level: int)
    requires s <= t && Lit(t, level)
    ensures Lit(s, level)
  {
  }
}

/** The xp curve and the level-up rule of the scene. */
module Progression {
  import opened Extended

  /** The scene's `maxLevel`: from this level on the threshold is `Infinity`. */
  const MaxLevel: int := 40

  /** xpAmountForLevel: total xp needed to reach `levelNum`. Zero up to level 0, `Infinity` from
      the cap on, and `50 * n * (n + 1)` in between. */
  function XpAmountForLevel(levelNum: int): (r: Ext)
    ensures r.Infinite? <==> levelNum >= MaxLevel
    ensures r == Finite(0.0) <==> levelNum <= 0
    ensures r.Finite? ==> r.value >= 0.0
  {
    if levelNum <= 0 then Finite(0.0)
    else if levelNum >= MaxLevel then Infinite
    else Finite((50 * (levelNum * (levelNum + 1))) as real)
  }

  /** Each level from 0 up to the cap needs strictly more xp than the one before. */
  lemma XpStep(n: int)
    requires 0 <= n < MaxLevel
    ensures Below(XpAmountForLevel(n), XpAmountForLevel(n + 1))
  {
    if n + 1 < MaxLevel {
      assert (n + 1) * (n + 2) - n * (n + 1) == 2 * (n + 1);
    }
  }

  /** The curve is strictly increasing on 0..40 (level 40 being `Infinity`). */
  lemma {:induction false} XpStrictlyIncreasing(m: int, n: int)
    requires 0 <= m < n <= MaxLevel
    ensures Below(XpAmountForLevel(m), XpAmountForLevel(n))
    decreases n - m
  {
    XpStep(m);
    if m + 1 < n {
      XpStrictlyIncreasing(m + 1, n);
    }
  }

  /** The xp bar's span at level `n` (threshold of the next level minus that of this one) is
      `100 * (n + 1)` below the last finite step. */
  lemma XpBarSpan(n: int)
    requires 0 <= n <= MaxLevel - 2
    ensures XpAmountForLevel(n).Finite? && XpAmountForLevel(n + 1).Finite?
    ensures XpAmountForLevel(n + 1).value - XpAmountForLevel(n).value == (100 * (n + 1)) as real
  {
    assert 50 * ((n + 1) * (n + 2)) - 50 * (n * (n + 1)) == 100 * (n + 1);
  }

  /** Whether update's threshold check levels the player up. */
  predicate LevelUpDue(level: int, xp: real)
  {
    AtLeast(xp, XpAmountForLevel(level + 1))
  }

  /** A level-up is only ever due below the cap, so it never lifts the level past 39. */
  lemma LevelUpStaysBelowCap(level: int, xp: real)
    requires LevelUpDue(level, xp)
    ensures level + 1 < MaxLevel
  {
  }

  /** The level that `xp` entitles a player to: the highest level in 0..39 whose threshold it
      reaches. */
  function LevelFor(xp: real): (n: int)
    ensures 0 <= n < MaxLevel
    ensures n == 0 || AtLeast(xp, XpAmountForLevel(n))
    ensures !AtLeast(xp, XpAmountForLevel(n + 1))
  {
    HighestReachedUpTo(MaxLevel - 1, xp)
  }

  function HighestReachedUpTo(k: int, xp: real): (n: int)
    requires 0 <= k < MaxLevel
    ensures 0 <= n <= k
    ensures n == 0 || AtLeast(xp, XpAmountForLevel(n))
    ensures n < k ==> !AtLeast(xp, XpAmountForLevel(n + 1))
    decreases k
  {
    if k == 0 || AtLeast(xp, XpAmountForLevel(k)) then k else HighestReachedUpTo(k - 1, xp)
  }

  /** The threshold check fires exactly when the player is behind the level their xp entitles
      them to. */
  lemma LevelUpDueIffBehind(level: int, xp: real)
    requires 0 <= level < MaxLevel
    ensures LevelUpDue(level, xp) <==> level < LevelFor(xp)
  {
    var target := LevelFor(xp);
    if level < target {
      if level + 1 < target {
        XpStrictlyIncreasing(level + 1, target);
        AtLeastMonotone(xp, XpAmountForLevel(level + 1), XpAmountForLevel(target));
      }
    } else if target + 1 < level + 1 {
      XpStrictlyIncreasing(target + 1, level + 1);
      if AtLeast(xp, XpAmountForLevel(level + 1)) {
        AtLeastMonotone(xp, XpAmountForLevel(target + 1), XpAmountForLevel(level + 1));
      }
    }
  }

  /** The level after one threshold check. */
  function CheckLevel(level: int, xp: real): int
  {
    if LevelUpDue(level, xp) then level + 1 else level
  }

  /** The level after `k` successive checks with no xp gained in between. */
  function CheckLevelTimes(level: int, xp: real, k: nat): int
    decreases k
  {
    if k == 0 then level else CheckLevelTimes(CheckLevel(level, xp), xp, k - 1)
  }

  /** A gain that crosses several thresholds at once is paid out one level per check: after `k`
      checks the level is `level + k`, until it meets the level the xp entitles to. */
  lemma {:induction false} LevelsPaidOneAtATime(level: int, xp: real, k: nat)
    requires 0 <= level <= LevelFor(xp)
    ensures CheckLevelTimes(level, xp, k) == if level + k <= LevelFor(xp) then level + k else LevelFor(xp)
    decreases k
  {
    LevelUpDueIffBehind(level, xp);
    if k > 0 {
      LevelsPaidOneAtATime(CheckLevel(level, xp), xp, k - 1);
    }
  }
}

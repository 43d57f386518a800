/** Numbers extended with JavaScript's positive `Infinity`, which the scene uses both as the
    xp threshold beyond the level cap and as the timer delay `1000 / 0`. */
module Extended {

  datatype Ext = Finite(value: real) | Infinite

  /** JavaScript's `x >= t` for a finite `x`: nothing finite reaches `Infinity`. */
  predicate AtLeast(x: real, t: Ext)
  {
    t.Finite? && x >= t.value
  }

  /** Strict order on extended numbers: every finite number lies below `Infinity`. */
  predicate Below(a: Ext, b: Ext)
  {
    match (a, b)
    case (Finite(x), Finite(y)) => x < y
    case (Finite(_), Infinite) => true
    case (Infinite, _) => false
  }

  /** Reaching a threshold is upward closed along `Below`. */
  lemma AtLeastMonotone(x: real, a: Ext, b: Ext)
    requires Below(a, b) && AtLeast(x, b)
    ensures AtLeast(x, a)
  {
  }
}

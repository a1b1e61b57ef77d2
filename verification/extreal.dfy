/**
 * Reals extended with the positive infinity that the planner uses as a
 * sentinel (`np.inf` for a segment that serves no house).  Only the
 * operations the planner performs are defined: addition, scaling by a
 * positive constant and the strict comparison `<` of Python floats.
 */
module ExtReals {

  datatype ExtReal = Finite(value: real) | Inf

  /** Python float addition restricted to finite values and +inf. */
  function Add(a: ExtReal, b: ExtReal): (r: ExtReal)
    ensures r.Inf? <==> a.Inf? || b.Inf?
    ensures a.Finite? && b.Finite? ==> r.value == a.value + b.value
  {
    if a.Inf? || b.Inf? then Inf else Finite(a.value + b.value)
  }

  /** Multiplication by a positive constant: inf stays inf. */
  function Scale(a: ExtReal, c: real): (r: ExtReal)
    requires c > 0.0
    ensures r.Inf? <==> a.Inf?
    ensures a.Finite? ==> r.value == a.value * c
  {
    if a.Inf? then Inf else Finite(a.value * c)
  }

  /** Python's `<` on floats: `inf < inf` is false, every finite value is below inf. */
  predicate Less(a: ExtReal, b: ExtReal)
  {
    a.Finite? && (b.Inf? || a.value < b.value)
  }

  predicate NonNegative(a: ExtReal)
  {
    a.Inf? || a.value >= 0.0
  }

  /** `<` is a strict weak order on extended reals: irreflexive, transitive, and its incomparability is transitive. */
  lemma LessIsStrictWeakOrder(a: ExtReal, b: ExtReal, c: ExtReal)
    ensures !Less(a, a)
    ensures Less(a, b) ==> !Less(b, a)
    ensures Less(a, b) && Less(b, c) ==> Less(a, c)
    ensures Less(a, c) ==> Less(a, b) || Less(b, c)
  {
  }

  /** Adding a non-negative value never makes a sum smaller. */
  lemma AddNonNegative(a: ExtReal, b: ExtReal)
    requires NonNegative(a) && NonNegative(b)
    ensures NonNegative(Add(a, b))
    ensures !Less(Add(a, b), a)
  {
  }

  /** A term added to a sum of two parts can be added to either part: addition is associative and commutative, inf included. */
  lemma AddSplit(h: ExtReal, hA: ExtReal, hB: ExtReal, a: ExtReal, b: ExtReal)
    requires (hA == h && hB == Finite(0.0)) || (hA == Finite(0.0) && hB == h)
    ensures Add(h, Add(a, b)) == Add(Add(hA, a), Add(hB, b))
  {
  }
}

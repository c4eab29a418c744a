/** Time intervals of the cache: a closed range [tStart, tEnd] on the time axis.
    Time values are modelled as exact reals; the source uses doubles. */
module SqpDateTimes {

  /** The interval value type. Both predicates compare the bounds inclusively. */
  datatype SqpDateTime = SqpDateTime(tStart: real, tEnd: real) {

    /** `this` covers the whole of `o`. */
    predicate Contains(o: SqpDateTime) {
      tStart <= o.tStart && tEnd >= o.tEnd
    }

    /** `this` and `o` overlap or share an endpoint. */
    predicate Intersect(o: SqpDateTime) {
      tEnd >= o.tStart && tStart <= o.tEnd
    }

    /** The time point `x` lies in the closed interval. */
    predicate In(x: real) {
      tStart <= x <= tEnd
    }
  }

  /** The invariant the callers are expected to respect: start is not after end. */
  predicate WellFormed(d: SqpDateTime) {
    d.tStart <= d.tEnd
  }

  function Min(a: real, b: real): real { if a <= b then a else b }

  function Max(a: real, b: real): real { if a >= b then a else b }

  /** The smallest interval containing both `a` and `b`. */
  function Hull(a: SqpDateTime, b: SqpDateTime): (h: SqpDateTime)
    ensures h.Contains(a) && h.Contains(b)
    ensures h.tStart == a.tStart || h.tStart == b.tStart
    ensures h.tEnd == a.tEnd || h.tEnd == b.tEnd
  {
    SqpDateTime(Min(a.tStart, b.tStart), Max(a.tEnd, b.tEnd))
  }

  // ---------------------------------------------------------------------------
  // The boolean formulas against the point sets they stand for.
  // ---------------------------------------------------------------------------

  /** For a well-formed `o`, `Contains(o)` holds exactly when every point of `o` is a point of `d`. */
  lemma ContainsMeansSubset(d: SqpDateTime, o: SqpDateTime)
    requires WellFormed(o)
    ensures d.Contains(o) <==> (forall x :: o.In(x) ==> d.In(x))
  {
    if forall x :: o.In(x) ==> d.In(x) {
      assert o.In(o.tStart) && o.In(o.tEnd);
    }
  }

  /** For well-formed intervals, `Intersect` holds exactly when they share a point. */
  lemma IntersectMeansCommonPoint(a: SqpDateTime, b: SqpDateTime)
    requires WellFormed(a) && WellFormed(b)
    ensures a.Intersect(b) <==> (exists x :: a.In(x) && b.In(x))
  {
    if a.Intersect(b) {
      var x := Max(a.tStart, b.tStart);
      assert a.In(x) && b.In(x);
    }
  }

  /** Two well-formed intersecting intervals cover exactly the points of their hull. */
  lemma HullOfIntersecting(a: SqpDateTime, b: SqpDateTime)
    requires WellFormed(a) && WellFormed(b) && a.Intersect(b)
    ensures WellFormed(Hull(a, b))
    ensures forall x :: Hull(a, b).In(x) <==> a.In(x) || b.In(x)
  {
  }

  // ---------------------------------------------------------------------------
  // Algebraic facts about the two predicates.
  // ---------------------------------------------------------------------------

  lemma ContainsReflexive(d: SqpDateTime)
    ensures d.Contains(d)
  {
  }

  lemma ContainsTransitive(a: SqpDateTime, b: SqpDateTime, c: SqpDateTime)
    requires a.Contains(b) && b.Contains(c)
    ensures a.Contains(c)
  {
  }

  lemma IntersectSymmetric(a: SqpDateTime, b: SqpDateTime)
    ensures a.Intersect(b) <==> b.Intersect(a)
  {
  }

  /** Intervals that only touch at an endpoint intersect. */
  lemma TouchingIntersect(a: SqpDateTime, b: SqpDateTime)
    requires WellFormed(a) && WellFormed(b)
    requires a.tEnd == b.tStart
    ensures a.Intersect(b) && b.Intersect(a)
  {
  }

  lemma ContainsImpliesIntersect(d: SqpDateTime, o: SqpDateTime)
    requires WellFormed(o) && d.Contains(o)
    ensures d.Intersect(o)
  {
  }

  /** The negation of `Intersect` is the pair of tests the cache's merge-insert uses to tell
      "entirely before" and "entirely after" apart. */
  lemma NotIntersectIsDisjoint(d: SqpDateTime, o: SqpDateTime)
    ensures !d.Intersect(o) <==> (d.tEnd < o.tStart || d.tStart > o.tEnd)
  {
  }
}

/** The transcendental functions the simulators call (`math.sqrt`, `np.sin`,
    `math.pi`). Exact reals have no closed form for them, so they are carried
    as a value and constrained only by the facts the model relies on. */
module RealMath {

  datatype Transcendental = Transcendental(Sin: real -> real, Sqrt: real -> real, Pi: real)

  /** The facts assumed of the platform's math library. */
  ghost predicate Lawful(m: Transcendental)
  {
    && m.Pi > 3.0
    && (forall x :: x >= 0.0 ==> m.Sqrt(x) >= 0.0 && m.Sqrt(x) * m.Sqrt(x) == x)
    && (forall x :: -1.0 <= m.Sin(x) <= 1.0)
  }

  /** The square root of a positive number is positive. */
  lemma SqrtPositive(m: Transcendental, x: real)
    requires Lawful(m) && x > 0.0
    ensures m.Sqrt(x) > 0.0
  {
    assert m.Sqrt(x) * m.Sqrt(x) == x;
  }
}

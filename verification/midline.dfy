/** The shared reference line between the two faces: the componentwise mean
    of the two clouds' regression lines. The regressions themselves are
    inputs of this model. */
module Midline {
  import opened Geometry

  /** The mid line of two fitted lines: at every abscissa it passes halfway
      between them, and it is the common line when the fits coincide. */
  function MidLine(fit1: Line, fit2: Line): (mid: Line)
    ensures forall x :: 2.0 * Eval(mid, x) == Eval(fit1, x) + Eval(fit2, x)
    ensures fit1 == fit2 ==> mid == fit1
  {
    Line((fit1.a + fit2.a) / 2.0, (fit1.b + fit2.b) / 2.0)
  }

  /** The mid line does not depend on which cloud is called the first. */
  lemma MidLineSymmetric(fit1: Line, fit2: Line)
    ensures MidLine(fit1, fit2) == MidLine(fit2, fit1)
  {
  }

  /** At every abscissa the mid line lies between the two fitted lines. */
  lemma MidLineBetween(fit1: Line, fit2: Line, x: real)
    ensures Eval(fit1, x) <= Eval(fit2, x) ==>
              Eval(fit1, x) <= Eval(MidLine(fit1, fit2), x) <= Eval(fit2, x)
    ensures Eval(fit2, x) <= Eval(fit1, x) ==>
              Eval(fit2, x) <= Eval(MidLine(fit1, fit2), x) <= Eval(fit1, x)
  {
  }

  /** The mid line is the only line passing halfway between the fits at
      every abscissa. */
  lemma MidLineUnique(fit1: Line, fit2: Line, m: Line)
    requires forall x :: 2.0 * Eval(m, x) == Eval(fit1, x) + Eval(fit2, x)
    ensures m == MidLine(fit1, fit2)
  {
    var mid := MidLine(fit1, fit2);
    assert 2.0 * Eval(m, 0.0) == Eval(fit1, 0.0) + Eval(fit2, 0.0);
    assert 2.0 * Eval(m, 1.0) == Eval(fit1, 1.0) + Eval(fit2, 1.0);
  }
}

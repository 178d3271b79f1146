/** Ordinary least squares with one predictor: the line fitted to a series
    of measurements y against a predictor x (the years). */
module Regression {
  import opened Statistics

  /** A line y = slope * x + intercept; the pair the regression returns. */
  datatype Line = Line(slope: real, intercept: real)
  {
    /** The value of the line at `x`. */
    function At(x: real): real
    {
      slope * x + intercept
    }
  }

  /** The values of `line` at every sample of `x`. */
  function Evaluate(line: Line, x: seq<real>): seq<real>
  {
    seq(|x|, i requires 0 <= i < |x| => line.At(x[i]))
  }

  /** The terms (x[i] - xMean) * (y[i] - yMean) of the numerator. */
  function CrossTerms(x: seq<real>, y: seq<real>, xMean: real, yMean: real): seq<real>
    requires |x| == |y|
  {
    seq(|x|, i requires 0 <= i < |x| => (x[i] - xMean) * (y[i] - yMean))
  }

  /** The terms (x[i] - xMean)^2 of the denominator. */
  function SquareTerms(x: seq<real>, xMean: real): seq<real>
  {
    seq(|x|, i requires 0 <= i < |x| => (x[i] - xMean) * (x[i] - xMean))
  }

  /** The numerator of the slope: the cross-deviation sum over all samples.
      It vanishes with a constant predictor, as does the denominator. */
  function Numerator(x: seq<real>, y: seq<real>): (n: real)
    requires |x| == |y| > 0
    ensures AllEqual(x) ==> n == 0.0
  {
    CrossSumOfConstant(x, y);
    Sum(CrossTerms(x, y, Mean(x), Mean(y)))
  }

  /** The denominator of the slope: the squared-deviation sum of the
      predictor, never negative as a sum of squares. */
  function Denominator(x: seq<real>): (d: real)
    requires |x| > 0
    ensures d >= 0.0
  {
    SquareSum(x, Mean(x));
    Sum(SquareTerms(x, Mean(x)))
  }

  /** All predictor values are the same: the predictor has no variance. */
  predicate AllEqual(x: seq<real>)
  {
    forall i :: 0 <= i < |x| ==> x[i] == x[0]
  }

  /** The line given the two sums and the two means: the fallback (0, 0)
      when the denominator is zero, otherwise the slope numerator /
      denominator and the intercept that puts the point of means on the line. */
  function LineFromSums(numerator: real, denominator: real, xMean: real, yMean: real): (line: Line)
    ensures denominator != 0.0 ==> line.slope * denominator == numerator && line.At(xMean) == yMean
  {
    if denominator == 0.0 then Line(0.0, 0.0)
    else
      var slope := numerator / denominator;
      Line(slope, yMean - slope * xMean)
  }

  /** The line the regression returns for the samples. */
  function Fit(x: seq<real>, y: seq<real>): (line: Line)
    requires |x| == |y| > 0
    ensures AllEqual(x) ==> line == Line(0.0, 0.0)
  {
    DenominatorZeroIffAllEqual(x);
    LineFromSums(Numerator(x, y), Denominator(x), Mean(x), Mean(y))
  }

  /** The regression: both means, one pass accumulating the numerator and
      the denominator, then the zero-variance fallback or the slope and
      intercept. `degenerate` stands for the warning written when the
      fallback is taken. */
  method LinearRegression(x: seq<real>, y: seq<real>) returns (line: Line, degenerate: bool)
    requires |x| == |y| > 0
    ensures degenerate <==> AllEqual(x)
    ensures degenerate ==> line == Line(0.0, 0.0)
    ensures line == Fit(x, y)
  {
    var xMean := Mean(x);
    var yMean := Mean(y);
    var numerator, denominator := DeviationSums(x, y, xMean, yMean);
    DenominatorZeroIffAllEqual(x);
    line, degenerate := SlopeAndIntercept(numerator, denominator, xMean, yMean);
  }

  /** The end of the regression: the fallback (0, 0) with the warning when
      the denominator is zero, otherwise slope = numerator / denominator and
      the intercept yMean - slope * xMean. */
  method SlopeAndIntercept(numerator: real, denominator: real, xMean: real, yMean: real)
    returns (line: Line, degenerate: bool)
    ensures degenerate <==> denominator == 0.0
    ensures degenerate ==> line == Line(0.0, 0.0)
    ensures !degenerate ==> line.slope * denominator == numerator && line.At(xMean) == yMean
    ensures line == LineFromSums(numerator, denominator, xMean, yMean)
  {
    if denominator == 0.0 {
      return Line(0.0, 0.0), true;
    }
    var slope := numerator / denominator;
    var intercept := yMean - slope * xMean;
    line, degenerate := Line(slope, intercept), false;
  }

  /** The accumulation pass of the regression: the sum of the cross
      deviations (x[i] - xMean) * (y[i] - yMean) and the sum of the squared
      deviations (x[i] - xMean)^2. */
  method DeviationSums(x: seq<real>, y: seq<real>, xMean: real, yMean: real)
    returns (numerator: real, denominator: real)
    requires |x| == |y| > 0 && xMean == Mean(x) && yMean == Mean(y)
    ensures numerator == Numerator(x, y)
    ensures denominator == Denominator(x)
  {
    numerator, denominator := 0.0, 0.0;
    ghost var cross, squares := CrossTerms(x, y, xMean, yMean), SquareTerms(x, xMean);
    for i := 0 to |x|
      invariant numerator == Sum(cross[..i])
      invariant denominator == Sum(squares[..i])
    {
      var crossTerm := (x[i] - xMean) * (y[i] - yMean);
      var squareTerm := (x[i] - xMean) * (x[i] - xMean);
      Accumulate(cross, i, numerator, crossTerm);
      Accumulate(squares, i, denominator, squareTerm);
      numerator := numerator + crossTerm;
      denominator := denominator + squareTerm;
    }
    assert cross[..|x|] == cross && squares[..|x|] == squares;
  }

  /** When the denominator is not zero, the slope of the fit solves
      slope * Denominator == Numerator and the line passes through the point
      of means (Mean(x), Mean(y)). */
  lemma FitPassesThroughMeans(x: seq<real>, y: seq<real>)
    requires |x| == |y| > 0
    requires Denominator(x) != 0.0
    ensures Fit(x, y).slope * Denominator(x) == Numerator(x, y)
    ensures Fit(x, y).At(Mean(x)) == Mean(y)
  {
  }

  /** The denominator is zero exactly when all predictor values are
      identical. */
  lemma DenominatorZeroIffAllEqual(x: seq<real>)
    requires |x| > 0
    ensures Denominator(x) == 0.0 <==> AllEqual(x)
  {
    SquareSum(x, Mean(x));
    if AllEqual(x) {
      MeanBounds(x, x[0], x[0]);
    }
  }

  /** A sum of squared deviations from m is never negative, and it is zero
      exactly when every value is m. */
  lemma SquareSum(x: seq<real>, m: real)
    ensures Sum(SquareTerms(x, m)) >= 0.0
    ensures Sum(SquareTerms(x, m)) == 0.0 <==> forall i :: 0 <= i < |x| ==> x[i] == m
  {
    var squares := SquareTerms(x, m);
    forall i | 0 <= i < |x|
      ensures squares[i] >= 0.0
      ensures squares[i] == 0.0 <==> x[i] == m
    {
      SquareTerm(x, m, i);
    }
    SumOfNonNegatives(squares);
  }

  /** With a constant predictor every cross deviation is zero, so their sum
      is zero. */
  lemma CrossSumOfConstant(x: seq<real>, y: seq<real>)
    requires |x| == |y| > 0
    ensures AllEqual(x) ==> Sum(CrossTerms(x, y, Mean(x), Mean(y))) == 0.0
  {
    if AllEqual(x) {
      var mx, my := Mean(x), Mean(y);
      MeanBounds(x, x[0], x[0]);
      var cross := CrossTerms(x, y, mx, my);
      forall i | 0 <= i < |x|
        ensures cross[i] == 0.0
      {
        ZeroFactor(x[i] - mx, y[i] - my);
      }
      SumOfNonNegatives(cross);
    }
  }

  /** Noise-free data with a non-constant predictor gives back exactly the
      line it lies on, so evaluating the fit at the samples reproduces them. */
  lemma FitRecoversLine(x: seq<real>, y: seq<real>, a: real, b: real)
    requires |x| == |y| > 0
    requires !AllEqual(x)
    requires forall i :: 0 <= i < |x| ==> y[i] == a * x[i] + b
    ensures Fit(x, y) == Line(a, b)
    ensures Evaluate(Fit(x, y), x) == y
  {
    DenominatorZeroIffAllEqual(x);
    NumeratorOfLine(x, y, a, b);
    MeanAffine(x, y, a, b);
    FitOfProportionalSums(x, y, a, b);
    LineThroughSamples(x, y, a, b);
  }

  /** When the numerator is a times the non-zero denominator and the mean
      of y is a times the mean of x plus b, the fit is the line (a, b). */
  lemma FitOfProportionalSums(x: seq<real>, y: seq<real>, a: real, b: real)
    requires |x| == |y| > 0
    requires Denominator(x) != 0.0
    requires Numerator(x, y) == a * Denominator(x)
    requires Mean(y) == a * Mean(x) + b
    ensures Fit(x, y) == Line(a, b)
  {
    var den, mx := Denominator(x), Mean(x);
    calc {
      Fit(x, y);
    ==
      LineFromSums(Numerator(x, y), den, mx, Mean(y));
    ==
      LineFromSums(a * den, den, mx, a * mx + b);
    == { LineOfExactSums(a, b, den, mx); }
      Line(a, b);
    }
  }

  /** Evaluating the line a noise-free series lies on gives back the series. */
  lemma LineThroughSamples(x: seq<real>, y: seq<real>, a: real, b: real)
    requires |x| == |y|
    requires forall i :: 0 <= i < |x| ==> y[i] == a * x[i] + b
    ensures Evaluate(Line(a, b), x) == y
  {
    assert forall i :: 0 <= i < |x| ==> Evaluate(Line(a, b), x)[i] == y[i];
  }

  /** On noise-free data the numerator is the slope of the data's line
      times the denominator. */
  lemma NumeratorOfLine(x: seq<real>, y: seq<real>, a: real, b: real)
    requires |x| == |y| > 0
    requires forall i :: 0 <= i < |x| ==> y[i] == a * x[i] + b
    ensures Numerator(x, y) == a * Denominator(x)
  {
    var mx, my := Mean(x), Mean(y);
    assert my == a * mx + b by { MeanAffine(x, y, a, b); }
    ScaledTerms(x, y, a, b, mx, my);
    SumAffine(SquareTerms(x, mx), CrossTerms(x, y, mx, my), a, 0.0);
  }

  /** On noise-free data every cross term is the slope times the square
      term, written with offset 0 so that `SumAffine` applies. */
  lemma ScaledTerms(x: seq<real>, y: seq<real>, a: real, b: real, xMean: real, yMean: real)
    requires |x| == |y|
    requires forall i :: 0 <= i < |x| ==> y[i] == a * x[i] + b
    requires yMean == a * xMean + b
    ensures forall i :: 0 <= i < |x| ==>
              CrossTerms(x, y, xMean, yMean)[i] == a * SquareTerms(x, xMean)[i] + 0.0
  {
    forall i | 0 <= i < |x|
      ensures CrossTerms(x, y, xMean, yMean)[i] == a * SquareTerms(x, xMean)[i] + 0.0
    {
      ScaledTerm(x, y, a, b, xMean, yMean, i);
    }
  }

  /** The example of a doubling series: x = 1..4, y = 2x gives slope 2 and
      intercept 0. */
  lemma DoublingExample()
    ensures Fit([1.0, 2.0, 3.0, 4.0], [2.0, 4.0, 6.0, 8.0]) == Line(2.0, 0.0)
  {
    var x, y := [1.0, 2.0, 3.0, 4.0], [2.0, 4.0, 6.0, 8.0];
    assert x[1] != x[0];
    FitRecoversLine(x, y, 2.0, 0.0);
  }

  /** The example of a constant predictor: x = [5, 5, 5] is degenerate and
      falls back to the line (0, 0) whatever y is. */
  lemma ConstantPredictorExample(y: seq<real>)
    requires |y| == 3
    ensures Denominator([5.0, 5.0, 5.0]) == 0.0
    ensures Fit([5.0, 5.0, 5.0], y) == Line(0.0, 0.0)
  {
    DenominatorZeroIffAllEqual([5.0, 5.0, 5.0]);
  }

  /** The residuals y[i] - line.At(x[i]). */
  function Residuals(x: seq<real>, y: seq<real>, line: Line): seq<real>
    requires |x| == |y|
  {
    seq(|x|, i requires 0 <= i < |x| => y[i] - line.At(x[i]))
  }

  /** The residuals weighted by the predictor, x[i] * (y[i] - line.At(x[i])). */
  function Moments(x: seq<real>, y: seq<real>, line: Line): seq<real>
    requires |x| == |y|
  {
    seq(|x|, i requires 0 <= i < |x| => x[i] * (y[i] - line.At(x[i])))
  }

  /** The squared residuals (y[i] - line.At(x[i]))^2. */
  function SquaredResiduals(x: seq<real>, y: seq<real>, line: Line): seq<real>
    requires |x| == |y|
  {
    seq(|x|, i requires 0 <= i < |x| => (y[i] - line.At(x[i])) * (y[i] - line.At(x[i])))
  }

  /** The sum of the squared residuals of `line` on the samples. */
  function SquaredError(x: seq<real>, y: seq<real>, line: Line): real
    requires |x| == |y|
  {
    Sum(SquaredResiduals(x, y, line))
  }

  /** When the predictor is not constant, the fitted line satisfies the
      normal equations of least squares: its residuals sum to zero, and so
      do the residuals weighted by the predictor. */
  lemma NormalEquations(x: seq<real>, y: seq<real>)
    requires |x| == |y| > 0
    requires !AllEqual(x)
    ensures Sum(Residuals(x, y, Fit(x, y))) == 0.0
    ensures Sum(Moments(x, y, Fit(x, y))) == 0.0
  {
    FitResidualsSumToZero(x, y);
    FitMomentsSumToZero(x, y);
  }

  /** The first normal equation: the residuals of the fit sum to zero. */
  lemma FitResidualsSumToZero(x: seq<real>, y: seq<real>)
    requires |x| == |y| > 0
    requires !AllEqual(x)
    ensures Sum(Residuals(x, y, Fit(x, y))) == 0.0
  {
    var line, mx, my := Fit(x, y), Mean(x), Mean(y);
    assert line.At(mx) == my by {
      DenominatorZeroIffAllEqual(x);
      FitPassesThroughMeans(x, y);
    }
    calc {
      Sum(Residuals(x, y, line));
    == { ResidualSum(x, y, line, mx, my); }
      Sum(Deviations(y, my)) - line.slope * Sum(Deviations(x, mx));
    == { DeviationsSumToZero(x); DeviationsSumToZero(y); }
      0.0 - line.slope * 0.0;
    ==
      0.0;
    }
  }

  /** The second normal equation: the residuals of the fit weighted by the
      predictor sum to zero. */
  lemma FitMomentsSumToZero(x: seq<real>, y: seq<real>)
    requires |x| == |y| > 0
    requires !AllEqual(x)
    ensures Sum(Moments(x, y, Fit(x, y))) == 0.0
  {
    var line, mx, my := Fit(x, y), Mean(x), Mean(y);
    assert Sum(SquareTerms(x, mx)) != 0.0 by { DenominatorZeroIffAllEqual(x); }
    assert Sum(Residuals(x, y, line)) == 0.0 by { FitResidualsSumToZero(x, y); }
    MomentsVanish(x, y, line, mx, my);
  }

  /** The line fitted from the sums about (xMean, yMean), when its residuals
      sum to zero, also has weighted residuals summing to zero. */
  lemma MomentsVanish(x: seq<real>, y: seq<real>, line: Line, xMean: real, yMean: real)
    requires |x| == |y|
    requires Sum(SquareTerms(x, xMean)) != 0.0
    requires line == LineFromSums(Sum(CrossTerms(x, y, xMean, yMean)), Sum(SquareTerms(x, xMean)), xMean, yMean)
    requires Sum(Residuals(x, y, line)) == 0.0
    ensures Sum(Moments(x, y, line)) == 0.0
  {
    MomentSumSplit(x, y, line, xMean, yMean);
    MomentsCancel(line.slope, Sum(SquareTerms(x, xMean)), Sum(CrossTerms(x, y, xMean, yMean)), xMean,
                  Sum(Residuals(x, y, line)));
  }

  /** For a line through (xMean, yMean), the residual sum is the deviation
      sum of y minus slope times the deviation sum of x. */
  lemma ResidualSum(x: seq<real>, y: seq<real>, line: Line, xMean: real, yMean: real)
    requires |x| == |y|
    requires line.At(xMean) == yMean
    ensures Sum(Residuals(x, y, line))
            == Sum(Deviations(y, yMean)) - line.slope * Sum(Deviations(x, xMean))
  {
    ResidualTerms(x, y, line, xMean, yMean);
    SumCombination(Deviations(y, yMean), Deviations(x, xMean), Deviations(x, xMean), Residuals(x, y, line),
                   line.slope, 0.0);
  }

  /** Every residual of a line through (xMean, yMean), written with the
      deviations of the sample; the zero third term gives the two-term
      difference the shape `SumCombination` takes. */
  lemma ResidualTerms(x: seq<real>, y: seq<real>, line: Line, xMean: real, yMean: real)
    requires |x| == |y|
    requires line.At(xMean) == yMean
    ensures IsCombination(Deviations(y, yMean), Deviations(x, xMean), Deviations(x, xMean),
                          Residuals(x, y, line), line.slope, 0.0)
  {
    forall i | 0 <= i < |x|
      ensures Residuals(x, y, line)[i]
              == Deviations(y, yMean)[i] - line.slope * Deviations(x, xMean)[i] + 0.0 * Deviations(x, xMean)[i]
    {
      ResidualTerm(x, y, line, xMean, yMean, i);
    }
  }

  /** For a line through (xMean, yMean), the sum of the weighted residuals
      is the cross-deviation sum minus slope times the squared-deviation sum
      plus xMean times the residual sum. */
  lemma MomentSumSplit(x: seq<real>, y: seq<real>, line: Line, xMean: real, yMean: real)
    requires |x| == |y|
    requires line.At(xMean) == yMean
    ensures Sum(Moments(x, y, line))
            == Sum(CrossTerms(x, y, xMean, yMean)) - line.slope * Sum(SquareTerms(x, xMean))
               + xMean * Sum(Residuals(x, y, line))
  {
    MomentTerms(x, y, line, xMean, yMean);
    SumCombination(CrossTerms(x, y, xMean, yMean), SquareTerms(x, xMean), Residuals(x, y, line),
                   Moments(x, y, line), line.slope, xMean);
  }

  /** Every moment term of a line through (xMean, yMean), written with the
      cross, square and residual terms. */
  lemma MomentTerms(x: seq<real>, y: seq<real>, line: Line, xMean: real, yMean: real)
    requires |x| == |y|
    requires line.At(xMean) == yMean
    ensures IsCombination(CrossTerms(x, y, xMean, yMean), SquareTerms(x, xMean), Residuals(x, y, line),
                          Moments(x, y, line), line.slope, xMean)
  {
    forall i | 0 <= i < |x|
      ensures Moments(x, y, line)[i]
              == CrossTerms(x, y, xMean, yMean)[i] - line.slope * SquareTerms(x, xMean)[i]
                 + xMean * Residuals(x, y, line)[i]
    {
      MomentTerm(x, y, line, xMean, yMean, i);
    }
  }

  /** Least squares: when the predictor is not constant, no line has a
      smaller sum of squared residuals than the fitted one. */
  lemma FitMinimizesSquaredError(x: seq<real>, y: seq<real>, other: Line)
    requires |x| == |y| > 0
    requires !AllEqual(x)
    ensures SquaredError(x, y, Fit(x, y)) <= SquaredError(x, y, other)
  {
    NormalEquations(x, y);
    OrthogonalResidualsMinimize(x, y, Fit(x, y), other);
  }

  /** A line whose residuals and weighted residuals both sum to zero has no
      larger squared error than any other line. */
  lemma OrthogonalResidualsMinimize(x: seq<real>, y: seq<real>, line: Line, other: Line)
    requires |x| == |y|
    requires Sum(Residuals(x, y, line)) == 0.0 && Sum(Moments(x, y, line)) == 0.0
    ensures SquaredError(x, y, line) <= SquaredError(x, y, other)
  {
    var ds, dc := 2.0 * (other.slope - line.slope), 2.0 * (line.intercept - other.intercept);
    var residuals, moments := Residuals(x, y, line), Moments(x, y, line);
    var own, theirs := SquaredResiduals(x, y, line), SquaredResiduals(x, y, other);
    var gaps := SquaredResiduals(x, Evaluate(line, x), other);
    // Each squared residual of `other` is the squared residual of `line`,
    // plus terms in the residuals of `line`, plus the squared gap between
    // the two lines.
    var mixed := Combine(own, moments, residuals, ds, dc);
    ErrorTerms(x, y, line, other, mixed);
    calc {
      Sum(theirs);
    == { SumCombination(mixed, gaps, gaps, theirs, 0.0, 1.0); }
      Sum(mixed) - 0.0 * Sum(gaps) + 1.0 * Sum(gaps);
    == { SumCombination(own, moments, residuals, mixed, ds, dc); }
      Sum(own) - ds * Sum(moments) + dc * Sum(residuals) + Sum(gaps);
    ==
      Sum(own) - ds * 0.0 + dc * 0.0 + Sum(gaps);
    >= { SumOfNonNegatives(gaps); }
      Sum(own);
    }
  }

  /** Every squared residual of `other`, split into the terms of `line` and
      the squared gap between the two lines; every such gap is non-negative.
      Adding the gap is the combination with coefficients 0 and 1, the
      shape `SumCombination` takes. */
  lemma ErrorTerms(x: seq<real>, y: seq<real>, line: Line, other: Line, mixed: seq<real>)
    requires |x| == |y| == |mixed|
    requires IsCombination(SquaredResiduals(x, y, line), Moments(x, y, line), Residuals(x, y, line), mixed,
                           2.0 * (other.slope - line.slope), 2.0 * (line.intercept - other.intercept))
    ensures IsCombination(mixed, SquaredResiduals(x, Evaluate(line, x), other),
                          SquaredResiduals(x, Evaluate(line, x), other), SquaredResiduals(x, y, other), 0.0, 1.0)
    ensures forall i :: 0 <= i < |x| ==> SquaredResiduals(x, Evaluate(line, x), other)[i] >= 0.0
  {
    var gaps := SquaredResiduals(x, Evaluate(line, x), other);
    forall i | 0 <= i < |x|
      ensures SquaredResiduals(x, y, other)[i] == mixed[i] - 0.0 * gaps[i] + 1.0 * gaps[i]
      ensures gaps[i] >= 0.0
    {
      ErrorTerm(x, y, line, other, i);
    }
  }

  /** One squared deviation is never negative, and zero exactly when the
      sample equals the centre. */
  lemma SquareTerm(x: seq<real>, m: real, i: nat)
    requires i < |x|
    ensures SquareTerms(x, m)[i] >= 0.0
    ensures SquareTerms(x, m)[i] == 0.0 <==> x[i] == m
  {
    SquareOf(x[i] - m, SquareTerms(x, m)[i]);
  }

  /** On noise-free data one cross term is the slope times the square term
      (offset 0, as in `ScaledTerms`). */
  lemma ScaledTerm(x: seq<real>, y: seq<real>, a: real, b: real, xMean: real, yMean: real, i: nat)
    requires |x| == |y| && i < |x|
    requires y[i] == a * x[i] + b && yMean == a * xMean + b
    ensures CrossTerms(x, y, xMean, yMean)[i] == a * SquareTerms(x, xMean)[i] + 0.0
  {
    ScaledSquare(x[i] - xMean, y[i] - yMean, a);
  }

  /** One residual of a line through (xMean, yMean), written with the
      deviations of the sample (zero third term, as in `ResidualTerms`). */
  lemma ResidualTerm(x: seq<real>, y: seq<real>, line: Line, xMean: real, yMean: real, i: nat)
    requires |x| == |y| && i < |x|
    requires line.At(xMean) == yMean
    ensures Residuals(x, y, line)[i]
            == Deviations(y, yMean)[i] - line.slope * Deviations(x, xMean)[i]
               + 0.0 * Deviations(x, xMean)[i]
  {
    ResidualStep(x[i], y[i], line, xMean, yMean);
  }

  /** One moment term written with the cross, square and residual terms,
      for a line through (xMean, yMean). */
  lemma MomentTerm(x: seq<real>, y: seq<real>, line: Line, xMean: real, yMean: real, i: nat)
    requires |x| == |y| && i < |x|
    requires line.At(xMean) == yMean
    ensures Moments(x, y, line)[i]
            == CrossTerms(x, y, xMean, yMean)[i] - line.slope * SquareTerms(x, xMean)[i]
               + xMean * Residuals(x, y, line)[i]
  {
    MomentStep(x[i], y[i], line, xMean, yMean);
  }

  /** One squared residual of `other` written with the terms of `line`. */
  lemma ErrorTerm(x: seq<real>, y: seq<real>, line: Line, other: Line, i: nat)
    requires |x| == |y| && i < |x|
    ensures SquaredResiduals(x, y, other)[i]
            == SquaredResiduals(x, y, line)[i]
               - (2.0 * (other.slope - line.slope)) * Moments(x, y, line)[i]
               + (2.0 * (line.intercept - other.intercept)) * Residuals(x, y, line)[i]
               + SquaredResiduals(x, Evaluate(line, x), other)[i]
    ensures SquaredResiduals(x, Evaluate(line, x), other)[i] >= 0.0
  {
    var fitted := Evaluate(line, x);
    assert fitted[i] == line.At(x[i]);
    SquaredErrorStep(x[i], y[i], line, other);
    SquareOf(fitted[i] - other.At(x[i]), SquaredResiduals(x, fitted, other)[i]);
  }

  /** One step of a running sum: adding element i to the sum of the first
      i elements gives the sum of the first i + 1. */
  lemma Accumulate(s: seq<real>, i: nat, acc: real, term: real)
    requires i < |s| && acc == Sum(s[..i]) && term == s[i]
    ensures acc + term == Sum(s[..i + 1])
  {
    SumExtend(s, i);
  }

  // Arithmetic facts about single samples, used by the proofs above.

  lemma SquareOf(d: real, square: real)
    requires square == d * d
    ensures square >= 0.0
    ensures square == 0.0 <==> d == 0.0
  {
    if d != 0.0 {
      calc {
        0.0;
      < { NonZeroSquare(d); }
        d * d;
      ==
        square;
      }
    } else {
      calc {
        square;
      ==
        d * d;
      ==
        0.0;
      }
    }
  }

  lemma NonZeroSquare(d: real)
    requires d != 0.0
    ensures d * d > 0.0
  {
    if d > 0.0 {
      PositiveProduct(d, d);
    } else {
      PositiveProduct(-d, -d);
      assert (-d) * (-d) == d * d;
    }
  }

  lemma PositiveProduct(a: real, b: real)
    requires a > 0.0 && b > 0.0
    ensures a * b > 0.0
  {
  }

  lemma CancelDivision(a: real, den: real)
    requires den != 0.0
    ensures (a * den) / den == a
  {
  }

  // The `+ 0.0` matches the affine shape of `SumAffine`.
  lemma ScaledSquare(p: real, q: real, a: real)
    requires q == a * p
    ensures p * q == a * (p * p) + 0.0
  {
  }

  lemma ResidualStep(u: real, v: real, line: Line, xMean: real, yMean: real)
    requires line.At(xMean) == yMean
    ensures v - line.At(u) == (v - yMean) - line.slope * (u - xMean)
  {
  }

  lemma ZeroFactor(p: real, q: real)
    requires p == 0.0
    ensures p * q == 0.0
  {
  }

  lemma MomentsCancel(s: real, den: real, num: real, xMean: real, residualSum: real)
    requires s * den == num && residualSum == 0.0
    ensures num - s * den + xMean * residualSum == 0.0
  {
  }

  lemma LineOfExactSums(a: real, b: real, den: real, xMean: real)
    requires den != 0.0
    ensures LineFromSums(a * den, den, xMean, a * xMean + b) == Line(a, b)
  {
    CancelDivision(a, den);
  }

  lemma MomentStep(u: real, v: real, line: Line, xMean: real, yMean: real)
    requires line.At(xMean) == yMean
    ensures u * (v - line.At(u))
            == (u - xMean) * (v - yMean) - line.slope * ((u - xMean) * (u - xMean))
               + xMean * (v - line.At(u))
  {
    var s, p, w := line.slope, u - xMean, v - yMean;
    var e := v - line.At(u);
    assert e == w - s * p;
    calc {
      p * w - s * (p * p) + xMean * e;
      p * w - s * (p * p) + xMean * (w - s * p);
      (p + xMean) * w - s * ((p + xMean) * p);
      u * w - s * (u * p);
      u * (w - s * p);
    }
  }

  lemma SquaredErrorStep(u: real, v: real, line: Line, other: Line)
    ensures (v - other.At(u)) * (v - other.At(u))
            == (v - line.At(u)) * (v - line.At(u))
               - (2.0 * (other.slope - line.slope)) * (u * (v - line.At(u)))
               + (2.0 * (line.intercept - other.intercept)) * (v - line.At(u))
               + (line.At(u) - other.At(u)) * (line.At(u) - other.At(u))
  {
    var r, d := v - line.At(u), line.At(u) - other.At(u);
    var ds, dc := line.slope - other.slope, line.intercept - other.intercept;
    assert d == ds * u + dc;
    calc {
      (v - other.At(u)) * (v - other.At(u));
      (r + d) * (r + d);
      r * r + 2.0 * (d * r) + d * d;
      r * r + 2.0 * ((ds * u + dc) * r) + d * d;
      r * r + (2.0 * ds) * (u * r) + (2.0 * dc) * r + d * d;
      r * r - (2.0 * (other.slope - line.slope)) * (u * r) + (2.0 * dc) * r + d * d;
    }
  }
}

/** Extrapolation of a fitted line over a range of whole years. */
module Forecasting {
  import opened Regression

  /** The whole years from `startYear` to `endYear` inclusive, in ascending
      order: end - start + 1 of them, the i-th being start + i; none when the
      range is empty. */
  function Horizon(startYear: int, endYear: int): (years: seq<int>)
    ensures |years| == if startYear <= endYear then endYear - startYear + 1 else 0
    ensures forall i :: 0 <= i < |years| ==> years[i] == startYear + i
    decreases endYear - startYear
  {
    if startYear > endYear then []
    else
      var rest := Horizon(startYear + 1, endYear);
      assert forall i :: 0 < i <= |rest| ==> ([startYear] + rest)[i] == rest[i - 1];
      [startYear] + rest
  }

  /** The years as predictor values. */
  function AsReals(years: seq<int>): seq<real>
  {
    seq(|years|, i requires 0 <= i < |years| => years[i] as real)
  }

  /** The forecast: the value of the line slope * year + intercept at every
      year of the range, in the order of the years. */
  method Forecast(slope: real, intercept: real, startYear: int, endYear: int) returns (predictions: seq<real>)
    ensures |predictions| == if startYear <= endYear then endYear - startYear + 1 else 0
    ensures forall i :: 0 <= i < |predictions| ==> predictions[i] == slope * ((startYear + i) as real) + intercept
    ensures predictions == Evaluate(Line(slope, intercept), AsReals(Horizon(startYear, endYear)))
  {
    predictions := [];
    var year := startYear;
    while year <= endYear
      invariant startYear <= year
      invariant year == startYear || year <= endYear + 1
      invariant |predictions| == year - startYear
      invariant forall k :: 0 <= k < |predictions| ==> predictions[k] == slope * ((startYear + k) as real) + intercept
      decreases endYear - year
    {
      predictions := predictions + [slope * (year as real) + intercept];
      year := year + 1;
    }
    ForecastMatchesHorizon(slope, intercept, startYear, endYear, predictions);
  }

  /** A series holding the line's value at each start + i is the line
      evaluated over the range. */
  lemma ForecastMatchesHorizon(slope: real, intercept: real, startYear: int, endYear: int, predictions: seq<real>)
    requires |predictions| == |Horizon(startYear, endYear)|
    requires forall i :: 0 <= i < |predictions| ==> predictions[i] == slope * ((startYear + i) as real) + intercept
    ensures predictions == Evaluate(Line(slope, intercept), AsReals(Horizon(startYear, endYear)))
  {
    EvaluateOverHorizon(slope, intercept, startYear, endYear);
  }

  /** The line evaluated over the range holds its value at start + i at
      each index i. */
  lemma EvaluateOverHorizon(slope: real, intercept: real, startYear: int, endYear: int)
    ensures forall i :: 0 <= i < |Horizon(startYear, endYear)| ==>
      Evaluate(Line(slope, intercept), AsReals(Horizon(startYear, endYear)))[i]
      == slope * ((startYear + i) as real) + intercept
  {
    var years := AsReals(Horizon(startYear, endYear));
    forall i | 0 <= i < |years|
      ensures Evaluate(Line(slope, intercept), years)[i] == slope * ((startYear + i) as real) + intercept
    {
      assert years[i] == (startYear + i) as real;
      LineAtYear(Line(slope, intercept), years[i], startYear + i);
    }
  }

  /** The line at a year given as a predictor value. */
  lemma LineAtYear(line: Line, x: real, year: int)
    requires x == year as real
    ensures line.At(x) == line.slope * (year as real) + line.intercept
  {
  }

  /** The fixed horizon of the program, 2024 to 2124, gives 101 years,
      from 2024 up to 2124. */
  lemma FixedHorizon()
    ensures |Horizon(2024, 2124)| == 101
    ensures Horizon(2024, 2124)[0] == 2024 && Horizon(2024, 2124)[100] == 2124
  {
  }

  /** For samples lying exactly on the line a * x + b, at two or more
      distinct predictor values, the forecast from the fitted line is that
      line at every future year. */
  lemma ForecastOfExactTrend(x: seq<real>, y: seq<real>, a: real, b: real, startYear: int, endYear: int)
    requires |x| == |y| > 0
    requires !AllEqual(x)
    requires forall i :: 0 <= i < |x| ==> y[i] == a * x[i] + b
    ensures forall i :: 0 <= i < |Horizon(startYear, endYear)| ==>
      Evaluate(Fit(x, y), AsReals(Horizon(startYear, endYear)))[i] == a * ((startYear + i) as real) + b
  {
    assert Fit(x, y) == Line(a, b) by { FitRecoversLine(x, y, a, b); }
    EvaluateOverHorizon(a, b, startYear, endYear);
  }

  /** Forecasting a noise-free series over its own consecutive years gives
      the series back. */
  lemma ForecastReproducesSamples(y: seq<real>, a: real, b: real, startYear: int, endYear: int)
    requires startYear < endYear
    requires |y| == |Horizon(startYear, endYear)|
    requires forall i :: 0 <= i < |y| ==> y[i] == a * ((startYear + i) as real) + b
    ensures Evaluate(Fit(AsReals(Horizon(startYear, endYear)), y), AsReals(Horizon(startYear, endYear))) == y
  {
    var x := AsReals(Horizon(startYear, endYear));
    assert x[1] != x[0];
    forall i | 0 <= i < |x|
      ensures y[i] == a * x[i] + b
    {
      assert x[i] == (startYear + i) as real;
    }
    FitRecoversLine(x, y, a, b);
  }
}

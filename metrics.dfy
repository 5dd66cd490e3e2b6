/**
 * Performance metrics (calculate_cagr and the window prices of
 * show_performance_metrics). Prices are reals; the fractional power
 * `** (1 / years)` is a parameter `pow`, constrained only by the laws a
 * power function obeys and the calculations below need.
 */
module Metrics {
  import opened Wrappers
  import opened StockData

  /** Trading-day offsets of the 1-, 3- and 5-year windows. */
  const OneYear: nat := 252
  const ThreeYears: nat := 756
  const FiveYears: nat := 1260

  /** x ** 1 == x and 1 ** y == 1. */
  ghost predicate PowerLaws(pow: (real, real) -> real) {
    && (forall x :: pow(x, 1.0) == x)
    && (forall y :: pow(1.0, y) == 1.0)
  }

  /** x ** float(n), for a whole exponent n. */
  function IntPow(x: real, n: nat): real {
    if n == 0 then 1.0 else x * IntPow(x, n - 1)
  }

  /** x ** (1 / n) for a whole n >= 1. */
  function Root(pow: (real, real) -> real, x: real, n: nat): real
    requires n >= 1
  {
    pow(x, 1.0 / (n as real))
  }

  /** x ** (1 / n) is an n-th root of every positive x. */
  ghost predicate RootLaw(pow: (real, real) -> real) {
    forall x: real, n: nat :: x > 0.0 && n >= 1 ==> IntPow(Root(pow, x, n), n) == x
  }

  /**
   * calculate_cagr: 0 for a non-positive initial value or a non-positive
   * number of years; otherwise (final / initial) ** (1 / years) - 1.
   */
  function Cagr(pow: (real, real) -> real, initial: real, final: real, years: real): real {
    if initial <= 0.0 || years <= 0.0 then 0.0
    else pow(final / initial, 1.0 / years) - 1.0
  }

  /** Degenerate inputs give 0 whatever the power function and the final value. */
  lemma CagrDegenerate(pow: (real, real) -> real, initial: real, final: real, years: real)
    requires initial <= 0.0 || years <= 0.0
    ensures Cagr(pow, initial, final, years) == 0.0
  {
  }

  /** Over one year the growth rate is the plain relative change. */
  lemma CagrOneYear(pow: (real, real) -> real, initial: real, final: real)
    requires PowerLaws(pow)
    requires initial > 0.0
    ensures Cagr(pow, initial, final, 1.0) == final / initial - 1.0
  {
  }

  /** calculate_cagr(100, 200, 1) == 1.0: doubling in a year is 100% growth. */
  lemma CagrDoublingInOneYear(pow: (real, real) -> real)
    requires PowerLaws(pow)
    ensures Cagr(pow, 100.0, 200.0, 1.0) == 1.0
  {
    CagrOneYear(pow, 100.0, 200.0);
  }

  /** An unchanged price has no growth, over any horizon. */
  lemma CagrUnchanged(pow: (real, real) -> real, value: real, years: real)
    requires PowerLaws(pow)
    ensures Cagr(pow, value, value, years) == 0.0
  {
    if value > 0.0 && years > 0.0 {
      assert value / value == 1.0;
      assert pow(1.0, 1.0 / years) == 1.0;
    }
  }

  /**
   * The defining property of the rate: compounding 1 + CAGR over n whole years
   * turns the initial value into the final one.
   */
  lemma CagrCompounds(pow: (real, real) -> real, initial: real, final: real, n: nat)
    requires RootLaw(pow)
    requires initial > 0.0 && final > 0.0 && n >= 1
    ensures initial * IntPow(1.0 + Cagr(pow, initial, final, n as real), n) == final
  {
    var ratio := final / initial;
    assert 1.0 + Cagr(pow, initial, final, n as real) == pow(ratio, 1.0 / (n as real));
    assert IntPow(Root(pow, ratio, n), n) == ratio;
    assert initial * ratio == final;
  }

  /** Python positional indexing (pandas iloc): negative j counts from the end; out of range raises. */
  function ILoc<T>(s: seq<T>, j: int): Option<T> {
    if 0 <= j < |s| then Some(s[j])
    else if -|s| <= j < 0 then Some(s[|s| + j])
    else None
  }

  /** data['Close'].iloc[-k] if len(data) >= k else data['Close'].iloc[0]. */
  function PriceKAgo(closes: seq<real>, k: nat): Option<real> {
    if |closes| >= k then ILoc(closes, -(k as int)) else ILoc(closes, 0)
  }

  /**
   * The position of the base price of a k-day window in a series of n points.
   * The window runs from it to the last point and holds min(n, k) points, so
   * the base lies k - 1 trading days before the last point when the series is
   * long enough, and is the first point otherwise.
   */
  function BaseIndex(n: nat, k: nat): (i: nat)
    requires n >= 1 && k >= 1
    ensures i <= n - 1
    ensures n - i == if n <= k then n else k
  {
    if n >= k then n - k else 0
  }

  /** The price lookup reads the base position, and raises only on an empty series. */
  lemma PriceKAgoAtBaseIndex(closes: seq<real>, k: nat)
    requires k >= 1
    ensures closes == [] <==> PriceKAgo(closes, k).None?
    ensures closes != [] ==> PriceKAgo(closes, k) == Some(closes[BaseIndex(|closes|, k)])
  {
  }

  /** The longer the window, the earlier (or equal) its base. */
  lemma WindowsNested(n: nat)
    requires n >= 1
    ensures BaseIndex(n, FiveYears) <= BaseIndex(n, ThreeYears) <= BaseIndex(n, OneYear) <= n - 1
  {
  }

  /** A series shorter than a year uses its first point as the base of all three windows. */
  lemma ShortSeriesSharedBase(n: nat)
    requires 1 <= n < OneYear
    ensures BaseIndex(n, OneYear) == 0 && BaseIndex(n, ThreeYears) == 0 && BaseIndex(n, FiveYears) == 0
  {
  }

  /** With 300 points the one-year base sits at position 48, 251 trading days before the last. */
  lemma ThreeHundredPoints()
    ensures BaseIndex(300, OneYear) == 48
    ensures BaseIndex(300, ThreeYears) == 0 && BaseIndex(300, FiveYears) == 0
  {
  }

  /** The annualised returns shown in the table. */
  datatype Returns = Returns(oneYear: real, threeYears: real, fiveYears: real)

  /** data['Close']: the closing-price column of the history. */
  function Closes(rows: seq<PriceRow>): (c: seq<real>)
    ensures |c| == |rows|
    ensures forall i :: 0 <= i < |rows| ==> c[i] == rows[i].close
  {
    if rows == [] then [] else [rows[0].close] + Closes(rows[1..])
  }

  /**
   * The return table of show_performance_metrics: `None` when a price lookup
   * raises (the error message is shown instead). `[]` stands for an empty
   * history that still has a Close column; a frame without one raises before
   * the lookups, and the dashboard never passes it.
   */
  function AnnualisedReturns(pow: (real, real) -> real, rows: seq<PriceRow>): (r: Option<Returns>)
    ensures r.None? <==> rows == []
    ensures rows != [] ==>
      var n := |rows|;
      var current := rows[n - 1].close;
      r == Some(Returns(
        Cagr(pow, rows[BaseIndex(n, OneYear)].close, current, 1.0),
        Cagr(pow, rows[BaseIndex(n, ThreeYears)].close, current, 3.0),
        Cagr(pow, rows[BaseIndex(n, FiveYears)].close, current, 5.0)))
  {
    var closes := Closes(rows);
    PriceKAgoAtBaseIndex(closes, OneYear);
    PriceKAgoAtBaseIndex(closes, ThreeYears);
    PriceKAgoAtBaseIndex(closes, FiveYears);
    match (ILoc(closes, -1), PriceKAgo(closes, OneYear), PriceKAgo(closes, ThreeYears), PriceKAgo(closes, FiveYears))
    case (Some(current), Some(p1), Some(p3), Some(p5)) =>
      Some(Returns(Cagr(pow, p1, current, 1.0), Cagr(pow, p3, current, 3.0), Cagr(pow, p5, current, 5.0)))
    case _ => None
  }

  /**
   * A series shorter than a year measures all three windows from its first
   * close: the three figures differ only by the nominal number of years.
   */
  lemma ShortSeriesReturns(pow: (real, real) -> real, rows: seq<PriceRow>)
    requires 1 <= |rows| < OneYear
    ensures var first, last := rows[0].close, rows[|rows| - 1].close;
      AnnualisedReturns(pow, rows) == Some(Returns(
        Cagr(pow, first, last, 1.0), Cagr(pow, first, last, 3.0), Cagr(pow, first, last, 5.0)))
  {
    ShortSeriesSharedBase(|rows|);
  }
}

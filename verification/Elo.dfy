/** Elo estimates over exact reals: log10 and the square root are parameters, used only through
    the laws stated here. */
module Elo {
  import opened ChessTypes

  /** What is used of log10: it turns products into sums and never falls. */
  ghost predicate IsLog(log: real -> real) {
    && (forall x: real, y: real :: x > 0.0 && y > 0.0 ==> log(x * y) == log(x) + log(y))
    && (forall x: real, y: real :: 0.0 < x <= y ==> log(x) <= log(y))
  }

  /** What is used of the square root. */
  ghost predicate IsRoot(root: real -> real) {
    forall x: real :: x >= 0.0 ==> root(x) >= 0.0 && root(x) * root(x) == x
  }

  function Min(a: real, b: real): real { if b < a then b else a }
  function Max(a: real, b: real): real { if b > a then b else a }

  datatype Tally = Tally(wins: nat, draws: nat, losses: nat) {
    function Games(): nat { wins + draws + losses }

    /** The same games from the opponent's side. */
    function Swapped(): Tally { Tally(losses, draws, wins) }
  }

  function ScoreRate(t: Tally): real
    requires t.Games() > 0
  {
    (t.wins as real + 0.5 * t.draws as real) / t.Games() as real
  }

  function Margin(games: nat): real { 1.0 / (2.0 * (games as real + 1.0)) }

  function ClampRate(rate: real, games: nat): real { Min(Max(rate, Margin(games)), 1.0 - Margin(games)) }

  /** None stands for a ValueError. */
  function DeltaElo(log: real -> real, rate: real): Option<real> {
    if !(0.0 < rate < 1.0) then None else Some(-400.0 * log(1.0 / rate - 1.0))
  }

  function Square(x: real): (y: real)
    ensures y >= 0.0
  {
    x * x
  }

  function Variance(t: Tally): real
    requires t.Games() > 0
  {
    var p := ScoreRate(t);
    (t.wins as real * Square(1.0 - p) + t.draws as real * Square(0.5 - p) + t.losses as real * Square(0.0 - p))
      / t.Games() as real
  }

  function StandardError(root: real -> real, t: Tally): real
    requires t.Games() > 0
  {
    root(Variance(t) / t.Games() as real)
  }

  /** How far the bounds lie from the rate, before clamping. */
  function Width(root: real -> real, t: Tally, z: real): real
    requires t.Games() > 0
  {
    z * StandardError(root, t)
  }

  datatype Interval = Interval(lo: real, mid: real, hi: real)

  /** The estimates at a rate and at a distance below and above it. */
  function Estimates(log: real -> real, p: real, width: real, games: nat): Option<Interval> {
    match (DeltaElo(log, ClampRate(p - width, games)), DeltaElo(log, ClampRate(p, games)),
           DeltaElo(log, ClampRate(p + width, games)))
    case (Some(lo), Some(mid), Some(hi)) => Some(Interval(lo, mid, hi))
    case _ => None
  }

  /** delta_elo_ci; None (a ValueError) without games. */
  function DeltaEloCi(log: real -> real, root: real -> real, t: Tally, z: real): Option<Interval> {
    if t.Games() == 0 then None else Estimates(log, ScoreRate(t), Width(root, t, z), t.Games())
  }

  // ----- clamping ----------------------------------------------------------

  lemma MarginSmall(games: nat)
    ensures 0.0 < Margin(games) <= 0.5
    ensures Margin(games) * (2.0 * (games as real + 1.0)) == 1.0
  {
    var n := 2.0 * (games as real + 1.0);
    assert n >= 2.0;
    Reciprocal(n);
  }

  lemma Reciprocal(n: real)
    requires n >= 2.0
    ensures 0.0 < 1.0 / n <= 0.5 && 1.0 / n * n == 1.0
  {
    var r := 1.0 / n;
    assert r * n == 1.0;
    assert r > 0.5 ==> r * n > 0.5 * n;
    assert r <= 0.0 ==> r * n <= 0.0;
  }

  lemma MarginBelowHalf(games: nat)
    requires games > 0
    ensures 0.0 < Margin(games) < 0.5
  {
    MarginSmall(games);
    if Margin(games) == 0.5 {
      assert 0.5 * (2.0 * (games as real + 1.0)) > 1.0;
    }
  }

  /** Clamping lands strictly between 0 and 1, keeps the order and commutes with taking the complement. */
  lemma Clamped(r: real, s: real, games: nat)
    ensures 0.0 < Margin(games) <= ClampRate(r, games) <= 1.0 - Margin(games) < 1.0
    ensures r <= s ==> ClampRate(r, games) <= ClampRate(s, games)
    ensures ClampRate(1.0 - r, games) == 1.0 - ClampRate(r, games)
  {
    MarginSmall(games);
    hide Margin;
  }

  // ----- one estimate ------------------------------------------------------

  lemma Odds(r: real)
    requires 0.0 < r < 1.0
    ensures 1.0 / r - 1.0 > 0.0
    ensures (1.0 / r - 1.0) * r == 1.0 - r
  {
    var q := 1.0 / r;
    assert q * r == 1.0;
    assert q <= 1.0 ==> q * r <= 1.0 * r;
  }

  lemma OddsFall(r: real, s: real)
    requires 0.0 < r <= s < 1.0
    ensures 1.0 / s - 1.0 <= 1.0 / r - 1.0
  {
    var a, b := 1.0 / r, 1.0 / s;
    assert a * r == 1.0 && b * s == 1.0;
    Odds(s);
    if b > a {
      assert b * s >= b * r;
      assert b * r > a * r;
    }
  }

  lemma OddsMirror(r: real)
    requires 0.0 < r < 1.0
    ensures (1.0 / r - 1.0) * (1.0 / (1.0 - r) - 1.0) == 1.0
  {
    var x, y, s := 1.0 / r - 1.0, 1.0 / (1.0 - r) - 1.0, 1.0 - r;
    Odds(r);
    Odds(s);
    assert x * r == s && y * s == r;
    assert (x * y) * (r * s) == (x * r) * (y * s);
    assert (x * y - 1.0) * (r * s) == 0.0;
    assert r * s > 0.0;
    CancelZero(x * y - 1.0, r * s);
  }

  lemma CancelZero(x: real, n: real)
    requires x * n == 0.0 && n > 0.0
    ensures x == 0.0
  {
  }

  lemma LogOfProduct(log: real -> real, x: real, y: real)
    requires IsLog(log) && x > 0.0 && y > 0.0
    ensures log(x * y) == log(x) + log(y)
  {
  }

  lemma LogKeepsOrder(log: real -> real, x: real, y: real)
    requires IsLog(log) && 0.0 < x <= y
    ensures log(x) <= log(y)
  {
  }

  lemma LogOfInverse(log: real -> real, x: real, y: real)
    requires IsLog(log) && x > 0.0 && y > 0.0 && x * y == 1.0
    ensures log(y) == -log(x)
  {
    LogOfProduct(log, x, y);
    LogOfProduct(log, 1.0, 1.0);
    hide IsLog;
    assert 1.0 * 1.0 == 1.0;
  }

  /** A better rate never estimates lower, and the complementary rate estimates the negation. */
  lemma DeltaEloLaws(log: real -> real, r: real, s: real)
    requires IsLog(log) && 0.0 < r <= s < 1.0
    ensures DeltaElo(log, r).Some? && DeltaElo(log, s).Some? && DeltaElo(log, 1.0 - r).Some?
    ensures DeltaElo(log, r).value <= DeltaElo(log, s).value
    ensures DeltaElo(log, 1.0 - r).value == -DeltaElo(log, r).value
  {
    hide IsLog;
    Odds(r);
    Odds(s);
    Odds(1.0 - r);
    OddsFall(r, s);
    OddsMirror(r);
    LogKeepsOrder(log, 1.0 / s - 1.0, 1.0 / r - 1.0);
    LogOfInverse(log, 1.0 / r - 1.0, 1.0 / (1.0 - r) - 1.0);
  }

  /** No clamped rate estimates further than 400 log10(2 games + 1) from zero. */
  lemma DeltaEloBounded(log: real -> real, r: real, games: nat)
    requires IsLog(log) && games > 0 && Margin(games) <= r <= 1.0 - Margin(games)
    ensures var bound := 400.0 * log(2.0 * games as real + 1.0);
            DeltaElo(log, r).Some? && -bound <= DeltaElo(log, r).value <= bound
  {
    hide Margin, IsLog;
    var m := Margin(games);
    MarginBelowHalf(games);
    MarginOdds(games);
    DeltaEloLaws(log, m, r);
    DeltaEloLaws(log, m, 1.0 - r);
    DeltaEloLaws(log, r, r);
  }

  lemma MarginOdds(games: nat)
    ensures Margin(games) > 0.0 && 1.0 / Margin(games) - 1.0 == 2.0 * games as real + 1.0
  {
    MarginSmall(games);
    Inverse(Margin(games), 2.0 * (games as real + 1.0));
  }

  lemma Inverse(m: real, n: real)
    requires m > 0.0 && m * n == 1.0
    ensures 1.0 / m == n
  {
  }

  // ----- the interval ------------------------------------------------------

  lemma SumOver(a: real, b: real, g: real)
    requires g > 0.0
    ensures a / g + b / g == (a + b) / g
  {
    var x, y, s := a / g, b / g, (a + b) / g;
    assert x * g == a && y * g == b && s * g == a + b;
    assert (x + y - s) * g == 0.0;
    CancelZero(x + y - s, g);
  }

  lemma SwappedRate(t: Tally)
    requires t.Games() > 0
    ensures ScoreRate(t.Swapped()) == 1.0 - ScoreRate(t)
  {
    var g := t.Games() as real;
    var a, b := t.wins as real + 0.5 * t.draws as real, t.losses as real + 0.5 * t.draws as real;
    assert a + b == g;
    SumOver(a, b, g);
    assert g / g == 1.0;
  }

  lemma SwappedVariance(t: Tally)
    requires t.Games() > 0
    ensures Variance(t.Swapped()) == Variance(t)
  {
    SwappedRate(t);
    var p := ScoreRate(t);
    var q := ScoreRate(t.Swapped());
    hide ScoreRate, Square;
    SquareEven(1.0 - p);
    SquareEven(0.5 - p);
    SquareEven(0.0 - p);
    assert 1.0 - q == -(0.0 - p) && 0.5 - q == -(0.5 - p) && 0.0 - q == -(1.0 - p);
  }

  lemma SquareEven(x: real)
    ensures Square(-x) == Square(x)
  {
  }

  lemma VarianceNotNegative(t: Tally)
    requires t.Games() > 0
    ensures Variance(t) >= 0.0 && Variance(t) / t.Games() as real >= 0.0
  {
    var p, g := ScoreRate(t), t.Games() as real;
    hide ScoreRate;
    var a, b, c := Square(1.0 - p), Square(0.5 - p), Square(0.0 - p);
    WeightedSum(t, a, b, c);
    Quotient(t.wins as real * a + t.draws as real * b + t.losses as real * c, g);
    Quotient(Variance(t), g);
  }

  lemma WeightedSum(t: Tally, a: real, b: real, c: real)
    requires a >= 0.0 && b >= 0.0 && c >= 0.0
    ensures t.wins as real * a + t.draws as real * b + t.losses as real * c >= 0.0
  {
    Weighted(t.wins as real, a);
    Weighted(t.draws as real, b);
    Weighted(t.losses as real, c);
  }

  lemma Weighted(w: real, x: real)
    requires w >= 0.0 && x >= 0.0
    ensures w * x >= 0.0
  {
  }

  lemma Quotient(x: real, n: real)
    requires x >= 0.0 && n > 0.0
    ensures x / n >= 0.0
  {
  }

  lemma EstimatesInOrder(log: real -> real, p: real, width: real, games: nat)
    requires IsLog(log) && games > 0 && width >= 0.0
    ensures Estimates(log, p, width, games).Some?
    ensures var i := Estimates(log, p, width, games).value;
            var bound := 400.0 * log(2.0 * games as real + 1.0);
            -bound <= i.lo <= i.mid <= i.hi <= bound
            && Estimates(log, p, -width, games) == Some(Interval(i.hi, i.mid, i.lo))
  {
    hide Margin, ClampRate, DeltaElo, IsLog;
    var lo, mid, hi := ClampRate(p - width, games), ClampRate(p, games), ClampRate(p + width, games);
    Clamped(p - width, p, games);
    Clamped(p, p + width, games);
    Clamped(p + width, p, games);
    DeltaEloLaws(log, lo, mid);
    DeltaEloLaws(log, mid, hi);
    DeltaEloBounded(log, lo, games);
    DeltaEloBounded(log, hi, games);
    assert p - -width == p + width && p + -width == p - width;
  }

  lemma EstimatesMirror(log: real -> real, p: real, width: real, games: nat)
    requires IsLog(log) && games > 0
    ensures Estimates(log, p, width, games).Some?
    ensures var i := Estimates(log, p, width, games).value;
            Estimates(log, 1.0 - p, width, games) == Some(Interval(-i.hi, -i.mid, -i.lo))
  {
    hide Margin, ClampRate, DeltaElo, IsLog;
    var a, b := p - width, p + width;
    assert 1.0 - p - width == 1.0 - b && 1.0 - p + width == 1.0 - a;
    Clamped(a, a, games);
    Clamped(p, p, games);
    Clamped(b, b, games);
    DeltaEloLaws(log, ClampRate(a, games), ClampRate(a, games));
    DeltaEloLaws(log, ClampRate(p, games), ClampRate(p, games));
    DeltaEloLaws(log, ClampRate(b, games), ClampRate(b, games));
  }

  /** The bounds of the interval in rising order: a negative z exchanges them. */
  function Ordered(i: Interval, z: real): Interval {
    if z >= 0.0 then i else Interval(i.hi, i.mid, i.lo)
  }

  /** The interval exists exactly when a game was played; then it holds its midpoint and stays within
      400 log10(2 games + 1) of zero. */
  lemma IntervalLaws(log: real -> real, root: real -> real, t: Tally, z: real)
    requires IsLog(log) && IsRoot(root)
    ensures DeltaEloCi(log, root, t, z).Some? <==> t.Games() > 0
    ensures DeltaEloCi(log, root, t, z).Some? ==>
              var i := Ordered(DeltaEloCi(log, root, t, z).value, z);
              var bound := 400.0 * log(2.0 * t.Games() as real + 1.0);
              -bound <= i.lo <= i.mid <= i.hi <= bound
  {
    hide ScoreRate, IsLog, Estimates, Variance;
    if t.Games() > 0 {
      VarianceNotNegative(t);
      var se, size := StandardError(root, t), if z >= 0.0 then z else -z;
      Weighted(size, se);
      EstimatesInOrder(log, ScoreRate(t), size * se, t.Games());
      Negated(z, se);
      assert Width(root, t, z) == if z >= 0.0 then size * se else -(size * se);
    }
  }

  lemma Negated(x: real, y: real)
    ensures -x * y == -(x * y)
  {
  }

  /** From the opponent's side the interval is negated and reversed. */
  lemma IntervalMirror(log: real -> real, root: real -> real, t: Tally, z: real)
    requires IsLog(log) && t.Games() > 0
    ensures DeltaEloCi(log, root, t, z).Some?
    ensures DeltaEloCi(log, root, t.Swapped(), z) ==
            var i := DeltaEloCi(log, root, t, z).value;
            Some(Interval(-i.hi, -i.mid, -i.lo))
  {
    hide ScoreRate, IsLog, Estimates, Variance;
    SwappedRate(t);
    SwappedVariance(t);
    assert Width(root, t.Swapped(), z) == Width(root, t, z);
    EstimatesMirror(log, ScoreRate(t), Width(root, t, z), t.Games());
  }

  /** One result is at least as good as another over the same number of games. */
  predicate Improves(t: Tally, u: Tally) {
    t.Games() == u.Games() && t.wins <= u.wins && u.losses <= t.losses
  }

  /** Turning losses into draws or draws into wins never lowers the estimate. */
  lemma BetterResultsRateHigher(log: real -> real, root: real -> real, t: Tally, u: Tally, z: real)
    requires IsLog(log) && Improves(t, u) && t.Games() > 0
    ensures DeltaEloCi(log, root, t, z).Some? && DeltaEloCi(log, root, u, z).Some?
    ensures DeltaEloCi(log, root, t, z).value.mid <= DeltaEloCi(log, root, u, z).value.mid
  {
    IntervalMirror(log, root, t, z);
    IntervalMirror(log, root, u, z);
    BetterRate(t, u);
    var p, q, g := ScoreRate(t), ScoreRate(u), t.Games();
    hide ScoreRate, StandardError, Margin, ClampRate, DeltaElo, IsLog;
    Clamped(p, q, g);
    Clamped(q, q, g);
    DeltaEloLaws(log, ClampRate(p, g), ClampRate(q, g));
  }

  lemma BetterRate(t: Tally, u: Tally)
    requires Improves(t, u) && t.Games() > 0
    ensures ScoreRate(t) <= ScoreRate(u)
  {
    var g := t.Games() as real;
    var a, b := t.wins as real + 0.5 * t.draws as real, u.wins as real + 0.5 * u.draws as real;
    assert a <= b;
    SumOver(a, b - a, g);
    Quotient(b - a, g);
  }

  // ----- in plain terms --------------------------------------------------------

  /** The variance of the per-game scores 1, one half and 0: the mean of their squares less the square of their mean. */
  lemma VarianceMeans(t: Tally)
    requires t.Games() > 0
    ensures Variance(t) * t.Games() as real ==
            t.wins as real + 0.25 * t.draws as real - ScoreRate(t) * ScoreRate(t) * t.Games() as real
  {
    var w, d, l, g := t.wins as real, t.draws as real, t.losses as real, t.Games() as real;
    var p := ScoreRate(t);
    assert p * g == w + 0.5 * d;
    Spread(w, d, l, p);
    assert Variance(t) * g == w * Square(1.0 - p) + d * Square(0.5 - p) + l * Square(0.0 - p);
  }

  lemma Spread(w: real, d: real, l: real, p: real)
    requires p * (w + d + l) == w + 0.5 * d
    ensures w * Square(1.0 - p) + d * Square(0.5 - p) + l * Square(0.0 - p) == w + 0.25 * d - p * p * (w + d + l)
  {
    assert Square(1.0 - p) == 1.0 - 2.0 * p + p * p;
    assert Square(0.5 - p) == 0.25 - p + p * p;
    assert Square(0.0 - p) == p * p;
    Distribute3(w, d, l, p);
  }

  lemma Distribute3(w: real, d: real, l: real, p: real)
    requires p * (w + d + l) == w + 0.5 * d
    ensures w * (1.0 - 2.0 * p + p * p) + d * (0.25 - p + p * p) + l * (p * p) == w + 0.25 * d - p * p * (w + d + l)
  {
    assert p * (p * (w + d + l)) == p * (w + 0.5 * d);
  }

  /** The estimate is the logistic one: 400 points for each power of ten in the odds. */
  lemma LogisticMeans(log: real -> real, r: real)
    requires IsLog(log) && 0.0 < r < 1.0
    ensures DeltaElo(log, r) == Some(400.0 * (log(r) - log(1.0 - r)))
  {
    Odds(r);
    LogOfProduct(log, 1.0 / r - 1.0, r);
    hide IsLog;
  }

  /** Winning every game estimates 400 log10(2 games + 1). */
  lemma PerfectScore(log: real -> real, games: nat)
    requires IsLog(log) && games > 0
    ensures DeltaElo(log, ClampRate(1.0, games)) == Some(400.0 * log(2.0 * games as real + 1.0))
  {
    MarginBelowHalf(games);
    MarginOdds(games);
    var m := Margin(games);
    assert ClampRate(1.0, games) == 1.0 - m;
    DeltaEloLaws(log, m, m);
  }

  /** The distance of the bounds is z standard errors of the mean. */
  lemma WidthMeans(root: real -> real, t: Tally, z: real)
    requires IsRoot(root) && t.Games() > 0
    ensures Width(root, t, z) * Width(root, t, z) == z * z * (Variance(t) / t.Games() as real)
    ensures z >= 0.0 ==> Width(root, t, z) >= 0.0
  {
    VarianceNotNegative(t);
    var se := StandardError(root, t);
    assert se >= 0.0 && se * se == Variance(t) / t.Games() as real;
    hide Variance, StandardError, IsRoot;
    assert (z * se) * (z * se) == z * z * (se * se);
  }
}

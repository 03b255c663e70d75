/** The coordinates `drawChart` (public/script.js) strokes: temperatures
    spread across the canvas width, scaled into a 140-pixel-high canvas with
    20 pixels free above the line and 10 below. */
module LineChart {
  import opened Seqs

  const CanvasHeight: real := 140.0

  datatype XY = XY(x: real, y: real)

  /** `(w / (temps.length - 1)) * i`; the source divides without a guard. */
  function ChartX(w: real, n: nat, i: nat): real
    requires n >= 2
  {
    (w / (n - 1) as real) * i as real
  }

  /** `h - ((t - min) / (max - min)) * (h - 30) - 10`; the source divides
      without a guard. */
  function ChartY(t: real, lo: real, hi: real): real
    requires lo < hi
  {
    CanvasHeight - ((t - lo) / (hi - lo)) * (CanvasHeight - 30.0) - 10.0
  }

  /** The points of `drawChart(temps)` on a canvas `w` pixels wide. */
  function DrawChartPoints(w: real, temps: seq<real>): (points: seq<XY>)
    requires |temps| >= 2 && SeqMin(temps) < SeqMax(temps)
    ensures |points| == |temps|
  {
    var lo, hi := SeqMin(temps), SeqMax(temps);
    seq(|temps|, i requires 0 <= i < |temps| => XY(ChartX(w, |temps|, i), ChartY(temps[i], lo, hi)))
  }

  /** The minimum maps to y = 130 (10 above the bottom), the maximum to
      y = 20, every value in between stays between them, and a warmer value
      is drawn higher. */
  lemma ChartYScale(t: real, u: real, lo: real, hi: real)
    requires lo < hi
    ensures ChartY(lo, lo, hi) == CanvasHeight - 10.0
    ensures ChartY(hi, lo, hi) == 20.0
    ensures lo <= t <= hi ==> 20.0 <= ChartY(t, lo, hi) <= CanvasHeight - 10.0
    ensures t < u ==> ChartY(u, lo, hi) < ChartY(t, lo, hi)
  {
    var d := hi - lo;
    assert (hi - lo) / d == 1.0;
    if lo <= t <= hi {
      QuotientBounds(t - lo, d, 0.0, 1.0);
    }
    if t < u {
      var f, g := (t - lo) / d, (u - lo) / d;
      assert f * d == t - lo && g * d == u - lo;
      assert (g - f) * d == u - t;
      assert g - f > 0.0;
    }
  }

  /** The first point is at the left edge, the last at the right edge, and
      neighbours are `w / (n - 1)` apart. */
  lemma ChartXSpacing(w: real, n: nat, i: nat)
    requires n >= 2 && i + 1 < n
    ensures ChartX(w, n, 0) == 0.0
    ensures ChartX(w, n, n - 1) == w
    ensures ChartX(w, n, i + 1) - ChartX(w, n, i) == w / (n - 1) as real
  {
    var step := w / (n - 1) as real;
    assert step * (n - 1) as real == w;
    assert step * (i + 1) as real == step * i as real + step;
  }

  /** Every drawn point lies in the band 20 <= y <= 130 and within
      0 <= x <= w; the coldest sample touches the bottom of the band and the
      warmest its top. */
  lemma DrawChartPointsInBand(w: real, temps: seq<real>)
    requires |temps| >= 2 && SeqMin(temps) < SeqMax(temps) && w >= 0.0
    ensures var points := DrawChartPoints(w, temps);
      && (forall i :: 0 <= i < |points| ==> 20.0 <= points[i].y <= CanvasHeight - 10.0)
      && (forall i :: 0 <= i < |points| ==> 0.0 <= points[i].x <= w)
      && (forall i :: 0 <= i < |points| && temps[i] == SeqMin(temps) ==> points[i].y == CanvasHeight - 10.0)
      && (forall i :: 0 <= i < |points| && temps[i] == SeqMax(temps) ==> points[i].y == 20.0)
  {
    var lo, hi, n := SeqMin(temps), SeqMax(temps), |temps|;
    var points := DrawChartPoints(w, temps);
    forall i | 0 <= i < n
      ensures 20.0 <= points[i].y <= CanvasHeight - 10.0
      ensures 0.0 <= points[i].x <= w
      ensures temps[i] == lo ==> points[i].y == CanvasHeight - 10.0
      ensures temps[i] == hi ==> points[i].y == 20.0
    {
      ChartYScale(temps[i], temps[i], lo, hi);
      ChartXWithinWidth(w, n, i);
    }
  }

  lemma ChartXWithinWidth(w: real, n: nat, i: nat)
    requires n >= 2 && i < n && w >= 0.0
    ensures 0.0 <= ChartX(w, n, i) <= w
  {
    var step := w / (n - 1) as real;
    assert step * (n - 1) as real == w;
    assert 0.0 <= step;
    assert step * i as real <= step * (n - 1) as real;
  }
}

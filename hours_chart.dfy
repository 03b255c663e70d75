/** The point mapping of `drawHoursChart` and the `fmtHour` label format
    (public/server.js, a browser script despite its name). */
module HoursChart {
  import opened Seqs

  const Padding: real := 20.0

  /** One entry of the hourly forecast, as far as the chart reads it. */
  datatype Hour = Hour(dt: int, temp: real)

  /** `{x, y, temp: Math.round(pt.temp), dt: pt.dt}`. */
  datatype Point = Point(x: real, y: real, temp: int, dt: int)

  /** `hourly.map(h => Math.round(h.temp))`. */
  function RoundedTemps(hourly: seq<Hour>): (temps: seq<real>)
    ensures |temps| == |hourly|
    ensures forall i :: 0 <= i < |hourly| ==> temps[i] == Round(hourly[i].temp) as real
  {
    seq(|hourly|, i requires 0 <= i < |hourly| => Round(hourly[i].temp) as real)
  }

  /** `Math.max(1, maxT - minT)`. */
  function TempRange(hourly: seq<Hour>): real
    requires |hourly| > 0
  {
    RealMax(1.0, SeqMax(RoundedTemps(hourly)) - SeqMin(RoundedTemps(hourly)))
  }

  /** `w / Math.max(1, hourly.length - 1)`. */
  function StepX(w: real, n: nat): real
  {
    w / RealMax(1.0, n as real - 1.0)
  }

  /** `padding + i * stepX`. */
  function PlotX(i: nat, stepX: real): real
  {
    Padding + i as real * stepX
  }

  /** `padding + (1 - (temp - minT) / range) * h`. */
  function PlotY(temp: real, minT: real, range: real, h: real): real
    requires range >= 1.0
  {
    Padding + (1.0 - (temp - minT) / range) * h
  }

  /** `points` of `drawHoursChart(hourly)` on a canvas whose bounding box
      is `width` by `height`; the source dereferences `points[0]`, so it
      needs at least one entry. */
  function PlotPoints(hourly: seq<Hour>, width: real, height: real): (points: seq<Point>)
    requires |hourly| > 0
    ensures |points| == |hourly|
    ensures forall i :: 0 <= i < |hourly| ==>
      points[i].dt == hourly[i].dt && points[i].temp == Round(hourly[i].temp)
  {
    var w, h := width - 2.0 * Padding, height - 2.0 * Padding;
    var minT := SeqMin(RoundedTemps(hourly));
    var range := TempRange(hourly);
    var stepX := StepX(w, |hourly|);
    seq(|hourly|, i requires 0 <= i < |hourly| =>
      Point(PlotX(i, stepX), PlotY(hourly[i].temp, minT, range, h),
            Round(hourly[i].temp), hourly[i].dt))
  }

  /** Neither division can be by zero: both divisors are at least 1. */
  lemma DivisorsAtLeastOne(hourly: seq<Hour>)
    requires |hourly| > 0
    ensures TempRange(hourly) >= 1.0
    ensures RealMax(1.0, |hourly| as real - 1.0) >= 1.0
    ensures |hourly| >= 2 ==> RealMax(1.0, |hourly| as real - 1.0) == |hourly| as real - 1.0
  {
  }

  lemma StepXSpan(w: real, n: nat)
    requires n >= 1
    ensures n >= 2 ==> StepX(w, n) * (n as real - 1.0) == w
    ensures w > 0.0 ==> StepX(w, n) > 0.0
  {
    var d := RealMax(1.0, n as real - 1.0);
    assert StepX(w, n) * d == w;
  }

  lemma LastPlotX(w: real, n: nat)
    requires n >= 2
    ensures PlotX(n - 1, StepX(w, n)) == Padding + w
  {
    var d := n as real - 1.0;
    var step := StepX(w, n);
    assert step == w / d;
    assert step * d == w;
    assert (n - 1) as real == d;
  }

  lemma PlotXIncreasing(stepX: real, i: nat, j: nat)
    requires stepX > 0.0 && i < j
    ensures PlotX(i, stepX) < PlotX(j, stepX)
  {
    assert (j - i) as real * stepX > 0.0;
    assert j as real * stepX == i as real * stepX + (j - i) as real * stepX;
  }

  /** The first point sits at the left padding, the last (for two or more
      points) at `padding + w`, and on a canvas wider than the two paddings
      x grows strictly from point to point. */
  lemma PlotXPositions(hourly: seq<Hour>, width: real, height: real)
    requires |hourly| > 0
    ensures var points, n := PlotPoints(hourly, width, height), |hourly|;
      && points[0].x == Padding
      && (n >= 2 ==> points[n - 1].x == Padding + (width - 2.0 * Padding))
      && (width > 2.0 * Padding ==> forall i, j :: 0 <= i < j < n ==> points[i].x < points[j].x)
  {
    var points, n := PlotPoints(hourly, width, height), |hourly|;
    var w := width - 2.0 * Padding;
    var stepX := StepX(w, n);
    StepXSpan(w, n);
    if n >= 2 {
      LastPlotX(w, n);
    }
    if width > 2.0 * Padding {
      forall i, j | 0 <= i < j < n ensures points[i].x < points[j].x {
        PlotXIncreasing(stepX, i, j);
      }
    }
  }

  predicate IsWhole(t: real)
  {
    t == t.Floor as real
  }

  /** For a temperature inside [minT, minT + range] the point lies between
      the top padding and the bottom of the plot area. */
  lemma PlotYBand(temp: real, minT: real, range: real, h: real)
    requires range >= 1.0 && h >= 0.0 && minT <= temp <= minT + range
    ensures Padding <= PlotY(temp, minT, range, h) <= Padding + h
    ensures temp == minT ==> PlotY(temp, minT, range, h) == Padding + h
    ensures temp == minT + range ==> PlotY(temp, minT, range, h) == Padding
  {
    var f := (temp - minT) / range;
    QuotientBounds(temp - minT, range, 0.0, 1.0);
    assert 0.0 <= f <= 1.0;
    assert (1.0 - f) * h <= h;
    assert 0.0 <= (1.0 - f) * h;
    if temp == minT + range {
      assert f == 1.0;
    }
  }

  /** With whole-degree temperatures every point lies inside the plot area;
      the coldest entry is drawn at its bottom and, when the temperatures
      differ, the warmest at its top. */
  lemma PlotYWholeDegrees(hourly: seq<Hour>, width: real, height: real)
    requires |hourly| > 0 && height >= 2.0 * Padding
    requires forall i :: 0 <= i < |hourly| ==> IsWhole(hourly[i].temp)
    ensures var points, temps := PlotPoints(hourly, width, height), RoundedTemps(hourly);
      var h, minT, maxT := height - 2.0 * Padding, SeqMin(temps), SeqMax(temps);
      && (forall i :: 0 <= i < |points| ==> Padding <= points[i].y <= Padding + h)
      && (forall i :: 0 <= i < |points| && hourly[i].temp == minT ==> points[i].y == Padding + h)
      && (forall i :: 0 <= i < |points| && maxT > minT && hourly[i].temp == maxT ==> points[i].y == Padding)
  {
    var points, temps := PlotPoints(hourly, width, height), RoundedTemps(hourly);
    var h, minT, maxT := height - 2.0 * Padding, SeqMin(temps), SeqMax(temps);
    var range := TempRange(hourly);
    forall i | 0 <= i < |points|
      ensures Padding <= points[i].y <= Padding + h
      ensures hourly[i].temp == minT ==> points[i].y == Padding + h
      ensures maxT > minT && hourly[i].temp == maxT ==> points[i].y == Padding
    {
      var t := hourly[i].temp;
      assert Round(t) == t.Floor by { RoundIntegral(t.Floor); }
      assert temps[i] == t;
      if maxT > minT {
        var a :| 0 <= a < |temps| && temps[a] == maxT;
        var b :| 0 <= b < |temps| && temps[b] == minT;
        assert Round(hourly[a].temp) > Round(hourly[b].temp);
        assert maxT - minT >= 1.0;
        assert range == maxT - minT;
      }
      PlotYBand(t, minT, range, h);
    }
  }

  /** When every entry has the same temperature, every point has the same y. */
  lemma PlotEqualTemps(hourly: seq<Hour>, width: real, height: real)
    requires |hourly| > 0
    requires forall i :: 0 <= i < |hourly| ==> hourly[i].temp == hourly[0].temp
    ensures var points := PlotPoints(hourly, width, height);
      forall i :: 0 <= i < |points| ==> points[i].y == points[0].y
  {
  }

  /** The band does not hold for fractional temperatures: minT and maxT are
      taken over rounded values while y uses the raw one, so 0.4 and 1.4
      degrees put the second point above the top padding. */
  lemma FractionalTempLeavesBand()
    ensures PlotPoints([Hour(0, 0.4), Hour(3600, 1.4)], 140.0, 140.0)[1].y < Padding
  {
    var hourly := [Hour(0, 0.4), Hour(3600, 1.4)];
    var temps := RoundedTemps(hourly);
    assert Round(0.4) == 0 && Round(1.4) == 1;
    assert temps == [0.0, 1.0];
    assert SeqMin(temps) == 0.0 && SeqMax(temps) == 1.0;
    assert TempRange(hourly) == 1.0;
    assert PlotY(1.4, 0.0, 1.0, 100.0) == -20.0;
  }

  /** `n.toString()` for a whole number. */
  function NatToString(n: nat): (s: string)
    ensures |s| >= 1
    ensures forall i :: 0 <= i < |s| ==> '0' <= s[i] <= '9'
  {
    if n < 10 then [DigitChar(n)] else NatToString(n / 10) + [DigitChar(n % 10)]
  }

  function DigitChar(d: nat): (c: char)
    requires d < 10
    ensures '0' <= c <= '9'
  {
    ('0' as int + d) as char
  }

  function DigitValue(c: char): int
  {
    c as int - '0' as int
  }

  /** `s.padStart(2, '0')`. */
  function PadStart2(s: string): (r: string)
    ensures |r| == if |s| >= 2 then |s| else 2
    ensures r[|r| - |s|..] == s
    ensures forall i :: 0 <= i < |r| - |s| ==> r[i] == '0'
  {
    if |s| >= 2 then s else seq(2 - |s|, _ => '0') + s
  }

  /** `fmtHour`, given the hours and minutes its `Date` yields. */
  function FmtHour(hours: nat, minutes: nat): string
  {
    PadStart2(NatToString(hours)) + ":" + PadStart2(NatToString(minutes))
  }

  lemma TwoDigits(n: nat)
    requires n < 100
    ensures PadStart2(NatToString(n)) == [DigitChar(n / 10), DigitChar(n % 10)]
  {
    if n < 10 {
      assert NatToString(n) == [DigitChar(n)];
      assert PadStart2([DigitChar(n)]) == ['0'] + [DigitChar(n)];
    } else {
      assert NatToString(n / 10) == [DigitChar(n / 10)];
      assert NatToString(n) == [DigitChar(n / 10), DigitChar(n % 10)];
    }
  }

  /** For a clock time, `fmtHour` gives `HH:MM`: five characters, two
      zero-padded digits on each side of the colon, which read back as the
      hours and minutes. */
  lemma FmtHourFormat(hours: nat, minutes: nat)
    requires hours < 24 && minutes < 60
    ensures var r := FmtHour(hours, minutes);
      && |r| == 5 && r[2] == ':'
      && (forall i :: 0 <= i < 5 && i != 2 ==> '0' <= r[i] <= '9')
      && DigitValue(r[0]) * 10 + DigitValue(r[1]) == hours
      && DigitValue(r[3]) * 10 + DigitValue(r[4]) == minutes
  {
    FmtHourDigits(hours, minutes);
    ClockDigits(hours, minutes);
  }

  /** Below 100, `fmtHour` writes each field as its tens and units digit. */
  lemma FmtHourDigits(hours: nat, minutes: nat)
    requires hours < 100 && minutes < 100
    ensures FmtHour(hours, minutes)
         == [DigitChar(hours / 10), DigitChar(hours % 10), ':', DigitChar(minutes / 10), DigitChar(minutes % 10)]
  {
    TwoDigits(hours);
    TwoDigits(minutes);
    JoinPairs([DigitChar(hours / 10), DigitChar(hours % 10)], [DigitChar(minutes / 10), DigitChar(minutes % 10)]);
  }

  lemma JoinPairs(a: string, b: string)
    requires |a| == 2 && |b| == 2
    ensures a + ":" + b == [a[0], a[1], ':', b[0], b[1]]
  {
  }

  /** Two two-digit numbers written `HH:MM`. */
  lemma ClockDigits(hours: nat, minutes: nat)
    requires hours < 100 && minutes < 100
    ensures var r := [DigitChar(hours / 10), DigitChar(hours % 10), ':', DigitChar(minutes / 10), DigitChar(minutes % 10)];
      && (forall i :: 0 <= i < 5 && i != 2 ==> '0' <= r[i] <= '9')
      && DigitValue(r[0]) * 10 + DigitValue(r[1]) == hours
      && DigitValue(r[3]) * 10 + DigitValue(r[4]) == minutes
  {
    ReadBack(hours);
    ReadBack(minutes);
  }

  /** The two digits of a number below 100 read back as that number. */
  lemma ReadBack(n: nat)
    requires n < 100
    ensures DigitValue(DigitChar(n / 10)) * 10 + DigitValue(DigitChar(n % 10)) == n
  {
    assert DigitValue(DigitChar(n / 10)) == n / 10;
    assert DigitValue(DigitChar(n % 10)) == n % 10;
  }
}

/** `updateLast8Hours` (public/script.js): the first four 3-hourly samples
    become an hourly series by linear interpolation, and the last eight
    points of that series are shown. */
module HourlyForecast {
  import opened Seqs
  import opened ForecastList

  datatype HourPoint = HourPoint(time: int, temp: real, icon: string)

  const SamplesRead: nat := 4
  const WindowSize: nat := 8
  const HourMs: int := 3600 * 1000

  /** `t1 + (t2 - t1) * (h / 3)` for the step h of a 3-hour segment. */
  function Interpolate(t1: real, t2: real, h: nat): (t: real)
    requires h < 3
    ensures h == 0 ==> t == t1
    ensures t1 <= t2 ==> t1 <= t <= t2
    ensures t2 <= t1 ==> t2 <= t <= t1
  {
    assert h == 0 || h == 1 || h == 2;
    t1 + (t2 - t1) * (h as real / 3.0)
  }

  /** The point pushed for step h of the segment from `a` to `b`. */
  function Step(a: Sample, b: Sample, h: nat): (point: HourPoint)
    requires h < 3
    ensures a.temp <= b.temp ==> a.temp <= point.temp <= b.temp
    ensures b.temp <= a.temp ==> b.temp <= point.temp <= a.temp
    ensures point.icon == a.icon || point.icon == b.icon
  {
    HourPoint(a.time + h * HourMs, Interpolate(a.temp, b.temp, h), if h < 2 then a.icon else b.icon)
  }

  function Segment(a: Sample, b: Sample): seq<HourPoint>
  {
    [Step(a, b, 0), Step(a, b, 1), Step(a, b, 2)]
  }

  /** The hourly series: three points for each adjacent pair of samples, so
      3(n - 1) points for n samples and none for n <= 1. */
  function Hourly(raw: seq<Sample>): (hourly: seq<HourPoint>)
    ensures |hourly| == if |raw| <= 1 then 0 else 3 * (|raw| - 1)
  {
    if |raw| <= 1 then []
    else Hourly(raw[..|raw| - 1]) + Segment(raw[|raw| - 2], raw[|raw| - 1])
  }

  /** What the hourly strip and its chart show for a forecast list. */
  function Last8Hours(list: seq<Sample>): seq<HourPoint>
  {
    SliceBack(Hourly(SliceFront(list, SamplesRead)), WindowSize)
  }

  /** The inner loop of `updateLast8Hours`: the points at hours 0, 1 and 2
      after sample `a`, pushed onto `hourly`. */
  method PushSegment(hourly: seq<HourPoint>, a: Sample, b: Sample) returns (pushed: seq<HourPoint>)
    ensures pushed == hourly + Segment(a, b)
  {
    var t1, t2 := a.temp, b.temp;
    var time1 := a.time;
    var iconA, iconB := a.icon, b.icon;
    pushed := hourly;
    var h := 0;
    while h < 3
      invariant 0 <= h <= 3
      invariant pushed == hourly + Segment(a, b)[..h]
    {
      var hourTime := time1 + h * 3600 * 1000;
      var temp := t1 + ((t2 - t1) * (h as real / 3.0));
      var icon := if h < 2 then iconA else iconB;
      assert hourTime == a.time + h * 3600 * 1000;
      assert temp == a.temp + ((b.temp - a.temp) * (h as real / 3.0));
      assert icon == if h < 2 then a.icon else b.icon;
      SegmentStep(hourly, a, b, h);
      pushed := pushed + [HourPoint(hourTime, temp, icon)];
      h := h + 1;
    }
    assert Segment(a, b)[..3] == Segment(a, b);
  }

  /** The nested loops of `updateLast8Hours`, ending with `hourly.slice(-8)`. */
  method UpdateLast8Hours(list: seq<Sample>) returns (last8: seq<HourPoint>)
    ensures last8 == Last8Hours(list)
  {
    var raw := SliceFront(list, SamplesRead);
    var hourly: seq<HourPoint> := [];
    var i := 0;
    while i < |raw| - 1
      invariant 0 <= i <= if |raw| == 0 then 0 else |raw| - 1
      invariant |raw| == 0 ==> hourly == []
      invariant |raw| > 0 ==> hourly == Hourly(raw[..i + 1])
    {
      hourly := PushSegment(hourly, raw[i], raw[i + 1]);
      HourlyOfPrefixStep(raw, i);
      i := i + 1;
    }
    if |raw| > 0 {
      assert raw[..i + 1] == raw;
    }
    assert hourly == Hourly(raw);
    last8 := SliceBack(hourly, WindowSize);
  }

  /** The inner loop's push, written as the source computes it, extends the
      segment by its next point. */
  lemma SegmentStep(done: seq<HourPoint>, a: Sample, b: Sample, h: nat)
    requires h < 3
    ensures done + Segment(a, b)[..h]
      + [HourPoint(a.time + h * 3600 * 1000, a.temp + ((b.temp - a.temp) * (h as real / 3.0)), if h < 2 then a.icon else b.icon)]
      == done + Segment(a, b)[..h + 1]
  {
    var point := HourPoint(a.time + h * 3600 * 1000, a.temp + ((b.temp - a.temp) * (h as real / 3.0)), if h < 2 then a.icon else b.icon);
    assert Interpolate(a.temp, b.temp, h) == point.temp;
    assert a.time + h * HourMs == point.time;
    assert Step(a, b, h) == point;
    assert Segment(a, b)[h] == point by { assert h == 0 || h == 1 || h == 2; }
    assert Segment(a, b)[..h + 1] == Segment(a, b)[..h] + [point];
  }

  /** The outer loop's step: one more sample adds its segment. */
  lemma HourlyOfPrefixStep(raw: seq<Sample>, i: nat)
    requires i + 1 < |raw|
    ensures Hourly(raw[..i + 2]) == Hourly(raw[..i + 1]) + Segment(raw[i], raw[i + 1])
  {
    assert raw[..i + 2][..i + 1] == raw[..i + 1];
  }

  /** Point k of the series is step k % 3 of segment k / 3. */
  lemma {:induction false} HourlyAt(raw: seq<Sample>, k: nat)
    requires |raw| >= 2 && k < 3 * (|raw| - 1)
    ensures Hourly(raw)[k] == Step(raw[k / 3], raw[k / 3 + 1], k % 3)
  {
    var init := raw[..|raw| - 1];
    if k < 3 * (|raw| - 2) {
      HourlyAt(init, k);
    }
  }

  /** Each hourly point: its temperature lies between the two bounding
      samples' and equals the earlier one's at step 0; its icon is the
      earlier sample's for steps 0 and 1 and the later one's for step 2. */
  lemma HourlyPointProperties(raw: seq<Sample>, k: nat)
    requires |raw| >= 2 && k < 3 * (|raw| - 1)
    ensures var p, a, b := Hourly(raw)[k], raw[k / 3], raw[k / 3 + 1];
      && (a.temp <= b.temp ==> a.temp <= p.temp <= b.temp)
      && (b.temp <= a.temp ==> b.temp <= p.temp <= a.temp)
      && (k % 3 == 0 ==> p.temp == a.temp && p.time == a.time)
      && p.time == a.time + (k % 3) * HourMs
      && p.icon == (if k % 3 < 2 then a.icon else b.icon)
  {
    HourlyAt(raw, k);
  }

  /** The series' times never go backwards when consecutive samples are at
      least two hours apart, which the 3-hourly feed gives: each segment
      spans hours 0 to 2 after its earlier sample. */
  lemma {:induction false} TimesOrdered(raw: seq<Sample>, k: nat)
    requires |raw| >= 2 && k + 1 < 3 * (|raw| - 1)
    requires forall i :: 0 <= i < |raw| - 1 ==> raw[i + 1].time >= raw[i].time + 2 * HourMs
    ensures Hourly(raw)[k].time <= Hourly(raw)[k + 1].time
  {
    assert (k + 1) / 3 == k / 3 + (if k % 3 == 2 then 1 else 0);
    assert (k + 1) % 3 == (if k % 3 == 2 then 0 else k % 3 + 1);
    HourlyPointProperties(raw, k);
    HourlyPointProperties(raw, k + 1);
  }

  /** The loops assume 3-hour spacing. With samples one hour apart the
      series goes back in time after each segment, and the point stamped
      with the third sample's time carries the first segment's temperature,
      not that sample's. */
  lemma OneHourSamplesGoBack()
    ensures var raw := [Sample("", 0, 10.0, "01d"), Sample("", HourMs, 10.0, "01d"), Sample("", 2 * HourMs, 20.0, "01d")];
      && Hourly(raw)[2].time > Hourly(raw)[3].time
      && Hourly(raw)[2].time == raw[2].time
      && Hourly(raw)[2].temp != raw[2].temp
  {
    var raw := [Sample("", 0, 10.0, "01d"), Sample("", HourMs, 10.0, "01d"), Sample("", 2 * HourMs, 20.0, "01d")];
    HourlyAt(raw, 2);
    HourlyAt(raw, 3);
  }

  /** The shown window has min(8, |hourly|) points and is a suffix of the
      series, in order; the series has 0, 3, 6 or 9 points, so the window has
      0, 3, 6 or 8. */
  lemma Last8Window(list: seq<Sample>)
    ensures var raw := SliceFront(list, SamplesRead);
      var hourly, shown := Hourly(raw), Last8Hours(list);
      && |shown| == MinNat(WindowSize, |hourly|)
      && shown == hourly[|hourly| - |shown|..]
      && |shown| in {0, 3, 6, 8}
      && (|list| >= 2 <==> |shown| >= 2)
  {
  }

  /** With four or more samples the series has nine points and the window
      drops the first: raw[0]'s own temperature is not shown. */
  lemma FourSamplesDropFirstPoint(list: seq<Sample>)
    requires |list| >= SamplesRead
    ensures var raw := list[..SamplesRead];
      && |Hourly(raw)| == 9
      && Last8Hours(list) == Hourly(raw)[1..]
      && Last8Hours(list)[0] == Step(raw[0], raw[1], 1)
  {
    var raw := list[..SamplesRead];
    assert SliceFront(list, SamplesRead) == raw;
    HourlyAt(raw, 1);
  }
}

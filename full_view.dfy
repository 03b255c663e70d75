/** `renderFullData` (public/server.js): which forecast entries reach the
    hourly cards, the chart and the daily cards, and the defaults for
    missing fields. Text built for the page (place, description, URLs) is
    not modelled. */
module FullView {
  import opened Seqs
  import HoursChart

  const HoursTaken: nat := 12
  const HoursShown: nat := 8
  const DaysShown: nat := 7

  datatype HourlyEntry = HourlyEntry(dt: int, temp: real, description: string)
  datatype DailyEntry = DailyEntry(dt: int, maxTemp: real, minTemp: real, icon: string, pop: Option<real>)

  /** The fields of the forecast response that `renderFullData` reads. */
  datatype Full = Full(timezoneOffset: Option<int>, hourly: Option<seq<HourlyEntry>>, daily: Option<seq<DailyEntry>>)

  /** An hourly card: the instant handed to `fmtHour` (seconds, already
      shifted by the offset), the description and the rounded temperature. */
  datatype HourCard = HourCard(shiftedDt: int, description: string, temp: int)

  /** A day card: the instant handed to `fmtDay`, the icon, the rounded
      maximum and minimum, and the precipitation percentage. */
  datatype DayCard = DayCard(shiftedDt: int, icon: string, maxTemp: int, minTemp: int, popPercent: int)

  datatype View = View(hourCards: seq<HourCard>, chart: seq<HoursChart.Point>, dayCards: seq<DayCard>)

  /** The page after `renderFullData`: either everything is drawn, or
      `drawHoursChart` threw on `points[0]` of an empty series, after the
      (empty) hourly list was drawn and before any day card was. */
  datatype Outcome = Drawn(view: View) | ChartThrew(hourCards: seq<HourCard>)

  /** `full.timezone_offset || 0`. */
  function TzOffset(full: Full): (offset: int)
    ensures full.timezoneOffset.None? ==> offset == 0
    ensures full.timezoneOffset.Some? ==> offset == full.timezoneOffset.value
  {
    match full.timezoneOffset
    case Some(v) => v
    case None => 0
  }

  /** `Math.round((pop || 0) * 100)`. */
  function PopPercent(pop: Option<real>): (percent: int)
    ensures pop.None? ==> percent == 0
    ensures pop.Some? && 0.0 <= pop.value <= 1.0 ==> 0 <= percent <= 100
  {
    var p := match pop case Some(v) => v case None => 0.0;
    Round(p * 100.0)
  }

  /** `(full.hourly || []).slice(0, 12).slice(0, 8)`. */
  function ShownHours(full: Full): seq<HourlyEntry>
  {
    var all := match full.hourly case Some(h) => h case None => [];
    SliceFront(SliceFront(all, HoursTaken), HoursShown)
  }

  /** `(full.daily || []).slice(0, 7)`. */
  function ShownDays(full: Full): seq<DailyEntry>
  {
    var all := match full.daily case Some(d) => d case None => [];
    SliceFront(all, DaysShown)
  }

  /** The hourly cards and the chart use the first min(8, n) hourly
      entries, in order; the day cards the first min(7, n) daily ones. */
  lemma DisplayWindows(full: Full)
    ensures var hours := match full.hourly case Some(h) => h case None => [];
      && |ShownHours(full)| == MinNat(HoursShown, |hours|)
      && ShownHours(full) == hours[..|ShownHours(full)|]
    ensures var days := match full.daily case Some(d) => d case None => [];
      && |ShownDays(full)| == MinNat(DaysShown, |days|)
      && ShownDays(full) == days[..|ShownDays(full)|]
  {
  }

  function HourCardOf(h: HourlyEntry, offset: int): HourCard
  {
    HourCard(h.dt + offset, h.description, Round(h.temp))
  }

  function DayCardOf(d: DailyEntry, offset: int): DayCard
  {
    DayCard(d.dt + offset, d.icon, Round(d.maxTemp), Round(d.minTemp), PopPercent(d.pop))
  }

  function ChartInput(hours: seq<HourlyEntry>): (chart: seq<HoursChart.Hour>)
    ensures |chart| == |hours|
    ensures forall i :: 0 <= i < |hours| ==> chart[i] == HoursChart.Hour(hours[i].dt, hours[i].temp)
  {
    seq(|hours|, i requires 0 <= i < |hours| => HoursChart.Hour(hours[i].dt, hours[i].temp))
  }

  /** `renderFullData(curData, full)` on a chart canvas of the given size. */
  function RenderFullData(full: Full, width: real, height: real): (outcome: Outcome)
    ensures outcome.Drawn? <==> |ShownHours(full)| > 0
  {
    var offset := TzOffset(full);
    var hours := ShownHours(full);
    var hourCards := seq(|hours|, i requires 0 <= i < |hours| => HourCardOf(hours[i], offset));
    if |hours| == 0 then ChartThrew(hourCards)
    else
      var chart := HoursChart.PlotPoints(ChartInput(hours), width, height);
      var days := ShownDays(full);
      Drawn(View(hourCards, chart, seq(|days|, i requires 0 <= i < |days| => DayCardOf(days[i], offset))))
  }

  /** What a drawn page shows: card i of each strip is entry i of the
      forecast, with its time shifted by the offset (0 when missing); the
      chart has one point per hourly card, carrying that entry's time and
      rounded temperature; a day card shows its entry's icon, rounded
      maximum and minimum, and `PopPercent` of its `pop` (0% without one). */
  lemma RenderedCards(full: Full, width: real, height: real)
    requires |ShownHours(full)| > 0
    ensures var view, hours, days := RenderFullData(full, width, height).view, ShownHours(full), ShownDays(full);
      && |view.hourCards| == |hours| && |view.chart| == |hours| && |view.dayCards| == |days|
      && (forall i :: 0 <= i < |hours| ==>
            && view.hourCards[i].shiftedDt == hours[i].dt + TzOffset(full)
            && view.hourCards[i].description == hours[i].description
            && view.hourCards[i].temp == Round(hours[i].temp)
            && view.chart[i].dt == hours[i].dt
            && view.chart[i].temp == view.hourCards[i].temp)
      && (forall i :: 0 <= i < |days| ==>
            && view.dayCards[i].shiftedDt == days[i].dt + TzOffset(full)
            && view.dayCards[i].icon == days[i].icon
            && view.dayCards[i].maxTemp == Round(days[i].maxTemp)
            && view.dayCards[i].minTemp == Round(days[i].minTemp)
            && view.dayCards[i].popPercent == PopPercent(days[i].pop)
            && (days[i].pop.None? ==> view.dayCards[i].popPercent == 0))
  {
  }
}

/** One entry of the 3-hourly forecast list as the dashboard reads it
    (public/script.js). Date parsing is a browser library call, so an entry
    carries both its `dt_txt` text and the instant it parses to, in
    milliseconds. */
module ForecastList {
  import opened Seqs

  datatype Sample = Sample(dtTxt: string, time: int, temp: real, icon: string)

  /** `item.dt_txt.slice(0, 10)`: the `YYYY-MM-DD` day key. */
  function DayKey(item: Sample): (key: string)
    ensures |key| == MinNat(10, |item.dtTxt|)
    ensures forall i :: 0 <= i < |key| ==> key[i] == item.dtTxt[i]
  {
    SliceFront(item.dtTxt, 10)
  }

  function DayKeys(list: seq<Sample>): (keys: seq<string>)
    ensures |keys| == |list|
    ensures forall i :: 0 <= i < |list| ==> keys[i] == DayKey(list[i])
  {
    seq(|list|, i requires 0 <= i < |list| => DayKey(list[i]))
  }

  function Temps(list: seq<Sample>): (temps: seq<real>)
    ensures |temps| == |list|
    ensures forall i :: 0 <= i < |list| ==> temps[i] == list[i].temp
  {
    seq(|list|, i requires 0 <= i < |list| => list[i].temp)
  }

  function Icons(list: seq<Sample>): (icons: seq<string>)
    ensures |icons| == |list|
    ensures forall i :: 0 <= i < |list| ==> icons[i] == list[i].icon
  {
    seq(|list|, i requires 0 <= i < |list| => list[i].icon)
  }
}

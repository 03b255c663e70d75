# Weather dashboard forecast shaping, modelled in Dafny

The dashboard is a browser page over a small proxy to a weather provider.
This model covers the page's forecast shaping:

- `public/script.js` turns the 3-hourly forecast list into an hourly strip
  (`updateLast8Hours`) and five day cards (`update5Days`).
- The same file picks a page background from the weather description
  (`updateBackground`, with the night override of `updateCurrent`).
- It also computes the coordinates of the hourly line chart (`drawChart`).
- `public/server.js` is, despite its name, the browser script of the
  one-call variant of the page. The model covers its chart point mapping
  (`drawHoursChart`), its `HH:MM` labels (`fmtHour`), and the windows and
  defaults of `renderFullData`.

Temperatures are exact reals. `Math.round` is modelled exactly as
floor(x + 1/2). Dates are inputs: a forecast entry carries its `dt_txt`
text and the instant it parses to, and `fmtHour` takes the hours and
minutes its `Date` yields.

Files:

- `seqs.dfy`: the JavaScript built-ins used (`slice`, a `reduce` sum,
  `Math.min`/`Math.max` of a spread array, `Math.round`), and `Distinct`,
  the first-insertion order in which an object lists its keys.
- `forecast_list.dfy`: a forecast list entry and its `YYYY-MM-DD` day key.
- `hourly.dfy`: `updateLast8Hours`. Its nested loops are a method proved
  against the function `Hourly`.
- `daily.dfy`: `update5Days`. Its grouping and counting loops are methods
  proved against `DailyOf`, `Distinct` and `IconCounts`.
- `background.dfy`: the classifier, and `document.body` as a class whose
  methods update its class list.
- `line_chart.dfy`: the `drawChart` coordinates.
- `hours_chart.dfy`: the `drawHoursChart` points and `fmtHour`.
- `full_view.dfy`: `renderFullData`.

Behaviour of the code a reader might not expect:

- The hourly strip is the LAST eight points (`hourly.slice(-8)`) of a
  series built from the first four samples. It is not a window of a given
  length taken from the start. With four samples, the first sample's own
  point is dropped.
- `update5Days` computes only the most frequent icon and the mean
  temperature of a day. It does not compute a minimum, a maximum or a
  precipitation value. It groups days by the text prefix of `dt_txt`, not
  by a date shifted by the time-zone offset.
- `drawChart` does not guard its divisions. `drawHoursChart` throws on an
  empty series instead of drawing nothing. With no hourly entries,
  `renderFullData` therefore stops before it draws any day card.
- A night icon sets `document.body.className = "bg-night"`. This replaces
  every class of the body, not only the background ones.
- `updateLast8Hours` assumes the samples are three hours apart: it steps
  `h * 3600 * 1000` and interpolates by `h / 3` whatever the real spacing.
  The series' times never go backwards when consecutive samples are at
  least two hours apart. With samples one hour apart they do go back after
  each segment, and the point stamped with a sample's time does not carry
  that sample's temperature.

## Model

| member | source | states |
|---|---|---|
| `Seqs.SliceFront` | public/server.js:150-151 | `slice(0, n)` keeps the first min(n, length) elements, unchanged and in order |
| `Seqs.SliceBack` | public/script.js:148 | `slice(-n)` keeps the last min(n, length) elements, unchanged and in order |
| `Seqs.SeqMax` | public/script.js:177 | `Math.max(...temps)` is one of the values and no value exceeds it |
| `Seqs.SeqMin` | public/script.js:178 | `Math.min(...temps)` is one of the values and no value is below it |
| `Seqs.Round` | public/server.js:59 | `Math.round(x)` is within one half of x (x - 1/2 < r <= x + 1/2) |
| `Seqs.Distinct` | public/script.js:198-202 | the keys of an object filled one entry at a time are the distinct values, each once, and every value is among them |
| `Seqs.DistinctInFirstOccurrenceOrder` | public/script.js:202 | `Object.keys` lists the keys in the order of their first occurrence in the list |
| `Seqs.AverageWithinExtremes` | public/script.js:216 | the mean of a non-empty list lies between its minimum and its maximum |
| `Seqs.Sum` | public/script.js:216 | the `reduce` sum from 0; `Seqs.SumBounds` proves n * lo <= sum <= n * hi when every value lies in [lo, hi] |
| `Seqs.SumBounds` | public/script.js:216 | a sum of n values in [lo, hi] lies in [n * lo, n * hi] |
| `Seqs.Average` | public/script.js:216 | the sum divided by the length; `Seqs.AverageWithinExtremes` proves it lies between the minimum and the maximum |
| `ForecastList.DayKey` | public/script.js:197 | the day key is the first min(10, length) characters of `dt_txt` |
| `HourlyForecast.Interpolate` | public/script.js:134-135 | the interpolated temperature equals t1 at step 0 and lies between t1 and t2 at every step |
| `HourlyForecast.Step` | public/script.js:131-144 | the point pushed at step h has a temperature between the two samples' and the icon of one of the two samples (`HourlyForecast.HourlyPointProperties` gives the exact time and icon rule) |
| `HourlyForecast.Hourly` | public/script.js:119-146 | n samples give 3(n - 1) hourly points, and none when n <= 1 |
| `HourlyForecast.PushSegment` | public/script.js:131-144 | the inner loop pushes exactly the segment from `a` to `b`: its points at hours 0, 1 and 2 |
| `HourlyForecast.UpdateLast8Hours` | public/script.js:114-148 | the nested loops over the first four samples, followed by `slice(-8)`, produce exactly `Last8Hours(list)` |
| `HourlyForecast.Last8Hours` | public/script.js:115-148 | `slice(-8)` of the series built from `slice(0, 4)`; `HourlyForecast.Last8Window` and `HourlyForecast.FourSamplesDropFirstPoint` state what it keeps |
| `HourlyForecast.HourlyAt` | public/script.js:119-145 | point k of the series is step k % 3 of the segment from sample k / 3 to sample k / 3 + 1 |
| `HourlyForecast.HourlyPointProperties` | public/script.js:123-138 | each point's temperature lies between its two samples' temperatures; at step 0 it equals the earlier sample's temperature and time; the time advances one hour per step; the icon is the earlier sample's for steps 0 and 1 and the later sample's for step 2 |
| `HourlyForecast.TimesOrdered` | public/script.js:119-135 | when consecutive samples are at least two hours apart, each point's time is at most the next point's time |
| `HourlyForecast.OneHourSamplesGoBack` | public/script.js:131-135 | with samples one hour apart (10, 10 and 20 degrees), the series' time goes back from point 2 to point 3, and point 2 has the third sample's time but not its temperature |
| `HourlyForecast.Last8Window` | public/script.js:148 | the shown strip has min(8, |hourly|) points, is an order-preserving suffix of the series, has 0, 3, 6 or 8 points, and has at least two points exactly when there are at least two samples |
| `HourlyForecast.FourSamplesDropFirstPoint` | public/script.js:115-148 | with four or more samples the series has 9 points, the strip is the series without its first point, and the strip starts one hour after the first sample |
| `DailyForecast.Group` | public/script.js:196-200 | every entry of a day's group has that day key, and the group is non-empty exactly when the day occurs in the list |
| `DailyForecast.GroupByDay` | public/script.js:194-202 | the `forEach` fills the object with `DailyOf(list)`, and its key order is `Distinct` of the day keys |
| `DailyForecast.GroupsPartitionList` | public/script.js:196-202 | the groups, taken in key order, hold every entry of the list exactly once (multiset equality) |
| `DailyForecast.GroupOfPrefix` | public/script.js:196-200 | the group of a prefix of the list is a prefix of the group, so each group keeps list order |
| `DailyForecast.CountIcons` | public/script.js:207-212 | the counting loop leaves the map `IconCounts(arr)` and lists its keys as `Distinct` of the icons, so in first-seen order |
| `DailyForecast.IconCountsDomain` | public/script.js:207-212 | an icon has a count exactly when some entry of the day shows it |
| `DailyForecast.IconCountsAreMultiplicities` | public/script.js:207-212 | each icon's count is its number of occurrences among the day's entries |
| `DailyForecast.TopIndex` | public/script.js:214 | the first element of the stable descending sort by count has the largest count, and every key before it in insertion order has a strictly smaller count |
| `DailyForecast.MostUsedIcon` | public/script.js:207-214 | the first key of the stable sort by descending count; `DailyForecast.MostUsedIconIsMode` proves it is an icon of the day and the most frequent one, ties going to the first seen |
| `DailyForecast.MostUsedIconIsMode` | public/script.js:207-214 | the shown icon occurs in the day, no icon occurs more often, and an equally frequent icon was first seen later |
| `DailyForecast.DayAverageWithinExtremes` | public/script.js:216 | a day's `avgTemp` lies between that day's lowest and highest temperature |
| `DailyForecast.DayCardFor` | public/script.js:204-216 | the callback for one day's non-empty entries yields `CardOf(day, arr)`: the most used icon and the mean temperature |
| `DailyForecast.DrawCards` | public/script.js:204-226 | one card per listed day, in order, card i drawn from `daily[days[i]]` |
| `DailyForecast.Update5Days` | public/script.js:192-216 | one card for each of the first min(5, days) days in first-occurrence order; each card has that day's most used icon and mean temperature |
| `Background.ClassFor` | public/script.js:86-111 | the chosen class is one of the nine background classes and is never `bg-night` |
| `Background.ClassForLower` | public/script.js:88-111 | on a lower-cased description the chain yields one of the nine background classes and never `bg-night` |
| `Background.ToLower` | public/script.js:86 | `toLowerCase` keeps the length and lower-cases each character (ASCII letters) |
| `Background.Includes` | public/script.js:88-107 | `includes`, defined on prefixes of the tails; `Background.IncludesMeansOccurs` proves it means occurrence at an index |
| `Background.IncludesMeansOccurs` | public/script.js:88-107 | `s.includes(sub)` holds exactly when s[i..i + |sub|] == sub for some index i |
| `Background.FirstMatch` | public/script.js:88-111 | the chosen rule matches the description, and no rule of higher priority matches it |
| `Background.ClassForIsFirstMatchingRule` | public/script.js:86-111 | the if/else chain equals the priority table thunderstorm, rain, drizzle, snow, mist/fog/haze, cloud, clear, with `bg-default` when no keyword occurs |
| `Background.ClassForIgnoresCase` | public/script.js:86 | the choice depends only on the lower-cased description |
| `Background.Without` | public/script.js:81-84 | `classList.remove` leaves exactly the classes of the list that are not removed (each such class stays, no removed class remains) and no class twice |
| `Background.WithBackground` | public/script.js:81-111 | the class list after `updateBackground`; `Background.WithBackgroundHasOneBackground` and `Background.WithBackgroundKeepsOtherClasses` state its contents |
| `Background.WithoutKeepsOrder` | public/script.js:81-84 | the classes that stay keep their relative order from the original list |
| `Background.Body.UpdateBackground` | public/script.js:80-111 | the class list becomes `WithBackground(old classes, condition)` and still holds no class twice |
| `Background.IsNightIcon` | public/script.js:68 | the icon's last character is `n`; an empty icon is not a night icon |
| `Background.Body.UpdateCurrent` | public/script.js:64-70 | a night icon leaves exactly `["bg-night"]`; otherwise the list is the `updateBackground` result |
| `Background.WithBackgroundHasOneBackground` | public/script.js:81-111 | after the update exactly one background class is present, the chosen one, added last |
| `Background.WithBackgroundKeepsOtherClasses` | public/script.js:81-84 | a class outside the nine background classes is present after the update exactly when it was present before, and the non-background classes form the same sequence as before |
| `Background.WithBackgroundValidAndIdempotent` | public/script.js:80-111 | the update keeps classes unique, and repeating it with the same description changes nothing |
| `LineChart.DrawChartPoints` | public/script.js:177-187 | `drawChart` computes one point per temperature |
| `LineChart.ChartX` | public/script.js:182 | `(w / (n - 1)) * i`; `LineChart.ChartXSpacing` and `LineChart.ChartXWithinWidth` state its spacing and range |
| `LineChart.ChartXWithinWidth` | public/script.js:182 | every x lies in [0, w] |
| `LineChart.ChartY` | public/script.js:183 | `h - ((t - min) / (max - min)) * (h - 30) - 10`; `LineChart.ChartYScale` states its endpoints, band and direction |
| `LineChart.ChartYScale` | public/script.js:183 | the minimum maps to y = h - 10 = 130 and the maximum to y = 20; values in between stay in [20, 130]; a higher temperature is drawn higher |
| `LineChart.ChartXSpacing` | public/script.js:182 | x starts at 0, ends at w, and consecutive points are w / (n - 1) apart |
| `LineChart.DrawChartPointsInBand` | public/script.js:177-187 | every point lies in 0 <= x <= w and 20 <= y <= 130, the coldest at y = 130 and the warmest at y = 20 |
| `HoursChart.RoundedTemps` | public/server.js:59 | `temps` holds each entry's rounded temperature, in order |
| `HoursChart.TempRange` | public/server.js:60-62 | `Math.max(1, maxT - minT)`; `HoursChart.DivisorsAtLeastOne` proves it is at least 1 |
| `HoursChart.StepX` | public/server.js:64 | `w / Math.max(1, n - 1)`; `HoursChart.StepXSpan` proves (n - 1) steps span w |
| `HoursChart.PlotX` | public/server.js:66 | `padding + i * stepX`; `HoursChart.PlotXPositions` proves its first and last values and that it increases |
| `HoursChart.PlotY` | public/server.js:67 | `padding + (1 - (temp - minT) / range) * h`; `HoursChart.PlotYBand` proves the band and both endpoints |
| `HoursChart.PlotPoints` | public/server.js:55-69 | there is one point per entry, in input order; each point keeps its `dt`, and its label is `Math.round(temp)` |
| `HoursChart.DivisorsAtLeastOne` | public/server.js:62-64 | the vertical range and the x-step divisor are both at least 1, so neither division is by zero |
| `HoursChart.StepXSpan` | public/server.js:64 | for two or more points, (n - 1) steps span the plot width w; the step is positive when w is |
| `HoursChart.PlotXPositions` | public/server.js:55-66 | the first x is `padding`, the last is padding + w for n >= 2, and x increases strictly when width > 40 |
| `HoursChart.PlotYBand` | public/server.js:67 | a temperature in [minT, minT + range] maps into [padding, padding + h], minT to the bottom and minT + range to the top |
| `HoursChart.PlotYWholeDegrees` | public/server.js:59-67 | with whole-degree temperatures every y lies in [padding, padding + h], minT maps to the bottom, and maxT maps to the top when maxT > minT |
| `HoursChart.PlotEqualTemps` | public/server.js:59-67 | equal temperatures give every point the same y |
| `HoursChart.FractionalTempLeavesBand` | public/server.js:59-67 | with temperatures 0.4 and 1.4 the second point is drawn above the top padding, because the bounds use rounded values and y uses the raw one |
| `HoursChart.NatToString` | public/server.js:32 | `toString()` of a whole number is a non-empty string of decimal digits |
| `HoursChart.PadStart2` | public/server.js:32 | `padStart(2, '0')` gives max(2, length) characters: the string itself at the end, preceded by zeros |
| `HoursChart.FmtHour` | public/server.js:30-33 | the padded hours, a `:` and the padded minutes; `HoursChart.FmtHourFormat` proves it is `HH:MM` for clock values |
| `HoursChart.FmtHourDigits` | public/server.js:32 | for fields below 100 the label is the tens and units digit of the hours, `:`, then those of the minutes |
| `HoursChart.TwoDigits` | public/server.js:32 | a number below 100, converted and padded, is its tens digit followed by its units digit |
| `HoursChart.FmtHourFormat` | public/server.js:30-33 | for hours 0..23 and minutes 0..59 the label is `HH:MM`: five characters, digits around a `:` at index 2, reading back as the hours and minutes |
| `FullView.TzOffset` | public/server.js:141 | a missing `timezone_offset` gives 0; a present one is used as is |
| `FullView.PopPercent` | public/server.js:175 | a missing `pop` shows 0%; a probability in [0, 1] shows 0..100% |
| `FullView.DisplayWindows` | public/server.js:150-165 | the hourly cards and the chart use the first min(8, n) hourly entries, the day cards the first min(7, n) daily entries, both in order; a missing array counts as empty |
| `FullView.ShownHours` | public/server.js:150-151 | `(full.hourly || []).slice(0, 12).slice(0, 8)`; `FullView.DisplayWindows` proves it is the first min(8, n) entries |
| `FullView.ShownDays` | public/server.js:165 | `(full.daily || []).slice(0, 7)`; `FullView.DisplayWindows` proves it is the first min(7, n) entries |
| `FullView.HourCardOf` | public/server.js:157-159 | the fields of one hour card; `FullView.RenderedCards` states them per entry |
| `FullView.DayCardOf` | public/server.js:171-175 | the fields of one day card; `FullView.RenderedCards` states them per entry |
| `FullView.RenderFullData` | public/server.js:140-180 | the page is drawn exactly when at least one hourly entry is shown; otherwise `drawHoursChart` throws before any day card is built |
| `FullView.RenderedCards` | public/server.js:150-179 | hour card i shows entry i's offset-shifted time, description and rounded temperature; the chart has one point per hourly card with that entry's `dt` and rounded temperature; day card i shows entry i's shifted time, icon, rounded maximum and minimum, and `PopPercent` of its `pop` (0% without one) |

## Left out

- `LineChart.DrawChartPoints` requires at least two temperatures and max > min. `drawChart` divides by (n - 1) and by (max - min) without a guard. In JavaScript those inputs give NaN or infinite coordinates, which the model does not represent.
- `HoursChart.PlotPoints` requires a non-empty series, because the source dereferences `points[0]`. The empty case is modelled one level up, in `FullView.RenderFullData`, as the thrown error.
- `HoursChart.PlotYWholeDegrees`: the band is proved for whole-degree temperatures only. For fractional ones it does not hold, as `HoursChart.FractionalTempLeavesBand` shows.
- `Background.ClassFor`: `toLowerCase` is modelled for the ASCII letters only. Full Unicode case mapping is library behaviour.
- Date handling is not modelled. This covers `new Date(dt_txt)`, `toLocaleDateString` and `toDateString`. Instants and clock fields are inputs, and cards carry the shifted instant `dt + tzOffset` in place of its text.
- `fmtHour`/`fmtDay` read the shifted instant with `getHours`/`getMinutes` and `toLocaleDateString`, which use the browser's own time zone. This adds the browser's offset on top of `tzOffset`, so outside UTC the label is shifted twice. The model keeps only the `dt + tzOffset` shift.
- Floating point is not modelled: temperatures are exact reals, and `Math.round` is exact on reals.
- Canvas and DOM side effects are not modelled: `ctx.*` calls, `innerHTML`, `createElement`, icon URLs, the entrance-animation reflow, and the card text, including `Math.round(avgTemp)` on day cards and the `HH:00` hour labels of `updateLast8Hours`.
- The current-conditions text of `updateCurrent`, `updateDetails` and `renderFullData` (place, temperature, description, humidity, wind, the precipitation line) is display only.
- `getWeather`, `loadWeather`, `searchCity`, the geolocation handler, the event listeners and `setLoading` are not modelled. They are `fetch`/`await`, alert and event-loop plumbing.
- The Express proxy in `server.js` (forwarding to the provider, configuration, `listen`) is I/O. Its only check, a missing `city` answered with `{error: "City required"}`, is not modelled.
- Object key order: an object lists integer-like keys before the others. Day keys (`YYYY-MM-DD`) and icon codes (`01d`, ...) are never integer-like, so the model uses plain insertion order.

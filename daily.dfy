/** `update5Days` (public/script.js): forecast entries are grouped by the
    day prefix of `dt_txt`, the first five days are kept, and each day shows
    its most frequent icon and its mean temperature. */
module DailyForecast {
  import opened Seqs
  import opened ForecastList

  const DaysShown: nat := 5

  datatype DayCard = DayCard(day: string, icon: string, avgTemp: real)

  /** `daily[day]`: the entries whose day key is `day`, in list order. */
  function Group(list: seq<Sample>, day: string): (group: seq<Sample>)
    ensures forall i :: 0 <= i < |group| ==> DayKey(group[i]) == day
    ensures |group| > 0 <==> day in DayKeys(list)
  {
    if |list| == 0 then []
    else
      var init, last := list[..|list| - 1], list[|list| - 1];
      assert DayKeys(list) == DayKeys(init) + [DayKey(last)];
      Group(init, day) + (if DayKey(last) == day then [last] else [])
  }

  /** The groups of `days`, one after the other. */
  function ConcatGroups(list: seq<Sample>, days: seq<string>): seq<Sample>
  {
    if |days| == 0 then []
    else ConcatGroups(list, days[..|days| - 1]) + Group(list, days[|days| - 1])
  }

  /** The `daily` object after the entries of `list` were added. */
  function DailyOf(list: seq<Sample>): map<string, seq<Sample>>
  {
    map k | k in DayKeys(list) :: Group(list, k)
  }

  lemma DailyOfSnoc(t: seq<Sample>, x: Sample)
    ensures var k := DayKey(x);
      DailyOf(t + [x]) == DailyOf(t)[k := (if k in DailyOf(t) then DailyOf(t)[k] else []) + [x]]
  {
    var k := DayKey(x);
    var before := DailyOf(t);
    var rhs := before[k := (if k in before then before[k] else []) + [x]];
    DailyOfSnocKeys(t, x);
    DailyOfSnocValues(t, x);
    SameEntries(DailyOf(t + [x]), rhs);
  }

  /** Two maps with the same keys and the same value at each key are equal. */
  lemma SameEntries(a: map<string, seq<Sample>>, b: map<string, seq<Sample>>)
    requires a.Keys == b.Keys
    requires forall k :: k in a ==> a[k] == b[k]
    ensures a == b
  {
  }

  lemma DailyOfSnocKeys(t: seq<Sample>, x: Sample)
    ensures var k, before := DayKey(x), DailyOf(t);
      DailyOf(t + [x]).Keys == before[k := (if k in before then before[k] else []) + [x]].Keys
  {
    DailyOfDomainSnoc(t, x);
  }

  lemma DailyOfSnocValues(t: seq<Sample>, x: Sample)
    ensures var k, before, after := DayKey(x), DailyOf(t), DailyOf(t + [x]);
      forall d :: d in after ==> after[d] == before[k := (if k in before then before[k] else []) + [x]][d]
  {
    forall d | d in DailyOf(t + [x])
      ensures var k, before := DayKey(x), DailyOf(t);
        DailyOf(t + [x])[d] == before[k := (if k in before then before[k] else []) + [x]][d]
    {
      DailyOfSnocAt(t, x, d);
    }
  }

  /** One day's array after the entry `x` is pushed. */
  lemma DailyOfSnocAt(t: seq<Sample>, x: Sample, d: string)
    requires d in DailyOf(t + [x])
    ensures DailyOf(t + [x])[d] == (if d in DailyOf(t) then DailyOf(t)[d] else []) + (if DayKey(x) == d then [x] else [])
  {
    GroupSnoc(t, x, d);
    if d !in DailyOf(t) {
      assert |Group(t, d)| == 0;
    }
  }

  lemma DailyOfDomainSnoc(t: seq<Sample>, x: Sample)
    ensures DailyOf(t + [x]).Keys == DailyOf(t).Keys + {DayKey(x)}
  {
    DayKeysSnoc(t, x);
  }

  /** One step of the grouping loop, stated on the specification. */
  lemma GroupStep(seen: seq<Sample>, item: Sample)
    ensures var day, keys, daily := DayKey(item), Distinct(DayKeys(seen)), DailyOf(seen);
      && (day in daily <==> day in keys)
      && Distinct(DayKeys(seen + [item])) == (if day in keys then keys else keys + [day])
      && DailyOf(seen + [item]) == daily[day := (if day in daily then daily[day] else []) + [item]]
  {
    var day := DayKey(item);
    DailyOfKeys(seen, day);
    DistinctKeysSnoc(seen, item);
    DailyOfSnoc(seen, item);
  }

  lemma DistinctKeysSnoc(seen: seq<Sample>, item: Sample)
    ensures var day, keys := DayKey(item), Distinct(DayKeys(seen));
      Distinct(DayKeys(seen + [item])) == (if day in keys then keys else keys + [day])
  {
    DayKeysSnoc(seen, item);
    DistinctSnoc(DayKeys(seen), DayKey(item));
  }

  /** The object has a key exactly when `Object.keys` lists it. */
  lemma DailyOfKeys(seen: seq<Sample>, day: string)
    ensures day in DailyOf(seen) <==> day in Distinct(DayKeys(seen))
  {
    DistinctSnoc(DayKeys(seen), day);
  }

  /** The `forEach` that fills the `daily` object. The object is its key
      order (`Object.keys(daily)`) together with the map from key to array. */
  method GroupByDay(list: seq<Sample>) returns (keys: seq<string>, daily: map<string, seq<Sample>>)
    ensures keys == Distinct(DayKeys(list))
    ensures daily == DailyOf(list)
  {
    keys, daily := [], map[];
    for i := 0 to |list|
      invariant keys == Distinct(DayKeys(list[..i]))
      invariant daily == DailyOf(list[..i])
    {
      var item := list[i];
      var day := DayKey(item);
      assert list[..i + 1] == list[..i] + [item];
      GroupStep(list[..i], item);
      // `if (!daily[day]) daily[day] = []` adds the key, then the push
      if day !in daily {
        keys := keys + [day];
      }
      var bucket := if day in daily then daily[day] else [];
      daily := daily[day := bucket + [item]];
    }
    assert list[..|list|] == list;
  }

  lemma DayKeysSnoc(t: seq<Sample>, x: Sample)
    ensures DayKeys(t + [x]) == DayKeys(t) + [DayKey(x)]
  {
  }

  lemma GroupSnoc(t: seq<Sample>, x: Sample, day: string)
    ensures Group(t + [x], day) == Group(t, day) + (if DayKey(x) == day then [x] else [])
  {
    assert (t + [x])[..|t|] == t;
  }

  lemma {:induction false} ConcatGroupsSnoc(t: seq<Sample>, x: Sample, days: seq<string>)
    requires NoDuplicates(days)
    ensures multiset(ConcatGroups(t + [x], days))
         == multiset(ConcatGroups(t, days)) + (if DayKey(x) in days then multiset{x} else multiset{})
  {
    if |days| > 0 {
      var init, d := days[..|days| - 1], days[|days| - 1];
      assert days == init + [d];
      assert NoDuplicates(init);
      ConcatGroupsSnoc(t, x, init);
      GroupSnoc(t, x, d);
      assert d !in init;
    }
  }

  /** Every entry lands in exactly one day group: the groups, taken in key
      order, hold exactly the entries of the list. */
  lemma {:induction false} GroupsPartitionList(list: seq<Sample>)
    ensures multiset(ConcatGroups(list, Distinct(DayKeys(list)))) == multiset(list)
  {
    if |list| == 0 {
      assert Distinct(DayKeys(list)) == [];
    } else {
      var t, x := list[..|list| - 1], list[|list| - 1];
      assert multiset(ConcatGroups(list, Distinct(DayKeys(list)))) == multiset(list) by {
        assert list == t + [x];
        GroupsPartitionList(t);
        PartitionStep(t, x);
      }
    }
  }

  /** The induction step: pushing one more entry adds exactly that entry
      to the groups. */
  lemma PartitionStep(t: seq<Sample>, x: Sample)
    ensures multiset(ConcatGroups(t + [x], Distinct(DayKeys(t + [x]))))
         == multiset(ConcatGroups(t, Distinct(DayKeys(t)))) + multiset{x}
  {
    if DayKey(x) in Distinct(DayKeys(t)) {
      SameDayStep(t, x);
    } else {
      NewDayStep(t, x);
    }
  }

  /** The entry joins the group of a day already seen. */
  lemma SameDayStep(t: seq<Sample>, x: Sample)
    requires DayKey(x) in Distinct(DayKeys(t))
    ensures multiset(ConcatGroups(t + [x], Distinct(DayKeys(t + [x]))))
         == multiset(ConcatGroups(t, Distinct(DayKeys(t)))) + multiset{x}
  {
    DistinctKeysSnoc(t, x);
    ConcatGroupsSnoc(t, x, Distinct(DayKeys(t)));
  }

  /** The entry opens the group of a new day, placed after the others. */
  lemma NewDayStep(t: seq<Sample>, x: Sample)
    requires DayKey(x) !in Distinct(DayKeys(t))
    ensures multiset(ConcatGroups(t + [x], Distinct(DayKeys(t + [x]))))
         == multiset(ConcatGroups(t, Distinct(DayKeys(t)))) + multiset{x}
  {
    DistinctKeysSnoc(t, x);
    ConcatGroupsSnoc(t, x, Distinct(DayKeys(t)));
    ConcatGroupsNewDay(t, x);
  }

  /** An entry with a day not seen before opens a group holding only it. */
  lemma ConcatGroupsNewDay(t: seq<Sample>, x: Sample)
    requires DayKey(x) !in Distinct(DayKeys(t))
    ensures var ks, k := Distinct(DayKeys(t)), DayKey(x);
      multiset(ConcatGroups(t + [x], ks + [k])) == multiset(ConcatGroups(t + [x], ks)) + multiset{x}
  {
    var ks, k := Distinct(DayKeys(t)), DayKey(x);
    assert Group(t + [x], k) == [x] by {
      assert k !in DayKeys(t);
      GroupSnoc(t, x, k);
    }
    assert ConcatGroups(t + [x], ks + [k]) == ConcatGroups(t + [x], ks) + [x] by {
      assert (ks + [k])[..|ks|] == ks;
    }
  }

  /** Grouping keeps list order within a group: the group of a prefix of the
      list is a prefix of the group. */
  lemma {:induction false} GroupOfPrefix(list: seq<Sample>, p: nat, day: string)
    requires p <= |list|
    ensures Group(list[..p], day) <= Group(list, day)
  {
    if p < |list| {
      var init := list[..|list| - 1];
      GroupOfPrefix(init, p, day);
      assert init[..p] == list[..p];
    } else {
      assert list[..p] == list;
    }
  }

  /** `iconCount` as the `forEach` over a day's entries leaves it: each
      entry adds one to its icon's count, starting from 0. */
  function IconCounts(arr: seq<Sample>): map<string, nat>
  {
    if |arr| == 0 then map[]
    else
      var c, icon := IconCounts(arr[..|arr| - 1]), arr[|arr| - 1].icon;
      c[icon := (if icon in c then c[icon] else 0) + 1]
  }

  /** An icon has a count exactly when some entry shows it. */
  lemma {:induction false} IconCountsDomain(arr: seq<Sample>)
    ensures forall k :: k in IconCounts(arr) <==> k in Icons(arr)
  {
    if |arr| > 0 {
      var t := arr[..|arr| - 1];
      IconCountsDomain(t);
      assert Icons(arr) == Icons(t) + [arr[|arr| - 1].icon];
    }
  }

  /** Every icon's count is its number of occurrences among the entries. */
  lemma {:induction false} IconCountsAreMultiplicities(arr: seq<Sample>)
    ensures forall k :: k in IconCounts(arr) ==> IconCounts(arr)[k] == multiset(Icons(arr))[k]
  {
    if |arr| > 0 {
      var t, icon := arr[..|arr| - 1], arr[|arr| - 1].icon;
      IconCountsAreMultiplicities(t);
      IconCountsDomain(t);
      assert Icons(arr) == Icons(t) + [icon];
      forall k | k in IconCounts(arr) ensures IconCounts(arr)[k] == multiset(Icons(arr))[k] {
        if k == icon && k !in IconCounts(t) {
          assert multiset(Icons(t))[k] == 0;
        }
      }
    }
  }

  lemma IconCountsSnoc(t: seq<Sample>, x: Sample)
    ensures var c := IconCounts(t);
      IconCounts(t + [x]) == c[x.icon := (if x.icon in c then c[x.icon] else 0) + 1]
  {
    assert (t + [x])[..|t|] == t;
  }

  /** One step of the counting loop, stated on the specification. */
  lemma IconSnoc(seen: seq<Sample>, item: Sample)
    ensures var icon, order, counts := item.icon, Distinct(Icons(seen)), IconCounts(seen);
      && Distinct(Icons(seen + [item])) == (if icon in counts then order else order + [icon])
      && IconCounts(seen + [item]) == counts[icon := (if icon in counts then counts[icon] else 0) + 1]
  {
    assert Icons(seen + [item]) == Icons(seen) + [item.icon];
    DistinctSnoc(Icons(seen), item.icon);
    IconCountsDomain(seen);
    IconCountsSnoc(seen, item);
  }

  /** The counting `forEach` of `update5Days`; `order` is
      `Object.keys(iconCount)`. */
  method CountIcons(arr: seq<Sample>) returns (order: seq<string>, iconCount: map<string, nat>)
    ensures order == Distinct(Icons(arr))
    ensures iconCount == IconCounts(arr)
  {
    order, iconCount := [], map[];
    for i := 0 to |arr|
      invariant order == Distinct(Icons(arr[..i]))
      invariant iconCount == IconCounts(arr[..i])
    {
      var icon := arr[i].icon;
      assert arr[..i + 1] == arr[..i] + [arr[i]];
      IconSnoc(arr[..i], arr[i]);
      // `if (!iconCount[icon]) iconCount[icon] = 0` adds the key, then `++`
      var n := if icon in iconCount then iconCount[icon] else 0;
      order := if icon in iconCount then order else order + [icon];
      iconCount := iconCount[icon := n + 1];
    }
    assert arr[..|arr|] == arr;
  }

  /** `Object.keys(iconCount).sort((a, b) => iconCount[b] - iconCount[a])[0]`.
      The sort is stable, so its first element is the first key, in key
      order, whose count is largest; this is its position. */
  function TopIndex(keys: seq<string>, count: map<string, nat>): (t: nat)
    requires |keys| > 0
    requires forall i :: 0 <= i < |keys| ==> keys[i] in count
    ensures t < |keys|
    ensures forall j :: 0 <= j < |keys| ==> count[keys[j]] <= count[keys[t]]
    ensures forall j :: 0 <= j < t ==> count[keys[j]] < count[keys[t]]
  {
    if |keys| == 1 then 0
    else
      var init := keys[..|keys| - 1];
      assert forall i :: 0 <= i < |init| ==> init[i] == keys[i];
      var j := TopIndex(init, count);
      if count[keys[|keys| - 1]] > count[keys[j]] then |keys| - 1 else j
  }

  /** The icon shown on a day card. */
  function MostUsedIcon(arr: seq<Sample>): string
    requires |arr| > 0
  {
    var order := Distinct(Icons(arr));
    assert Icons(arr)[0] in order;
    IconCountsDomain(arr);
    order[TopIndex(order, IconCounts(arr))]
  }

  /** The shown icon occurs in the day's entries at least as often as any
      other icon, and an icon occurring as often was seen later. */
  lemma MostUsedIconIsMode(arr: seq<Sample>)
    requires |arr| > 0
    ensures var icons, m := Icons(arr), MostUsedIcon(arr);
      && m in icons
      && (forall x :: x in icons ==> multiset(icons)[x] <= multiset(icons)[m])
      && (forall x :: x in icons && x != m && multiset(icons)[x] == multiset(icons)[m] ==>
            FirstIndex(icons, m) < FirstIndex(icons, x))
  {
    var icons, order := Icons(arr), Distinct(Icons(arr));
    assert icons[0] in order;
    var counts := IconCounts(arr);
    IconCountsDomain(arr);
    IconCountsAreMultiplicities(arr);
    var t := TopIndex(order, counts);
    var m := order[t];
    forall x | x in icons
      ensures multiset(icons)[x] <= multiset(icons)[m]
      ensures x != m && multiset(icons)[x] == multiset(icons)[m] ==> FirstIndex(icons, m) < FirstIndex(icons, x)
    {
      assert x in order by { assert icons[FirstIndex(icons, x)] == x; }
      var j := FirstIndex(order, x);
      assert counts[order[j]] <= counts[m];
      if x != m && multiset(icons)[x] == multiset(icons)[m] {
        assert j != t;
        assert !(j < t);
        DistinctInFirstOccurrenceOrder(icons, t, j);
      }
    }
  }

  /** The card drawn for a day from its entries `arr`. */
  function CardOf(day: string, arr: seq<Sample>): DayCard
    requires |arr| > 0
  {
    DayCard(day, MostUsedIcon(arr), Average(Temps(arr)))
  }

  /** The card `update5Days` draws for a day that occurs in the list. */
  function DayCardOf(list: seq<Sample>, day: string): DayCard
    requires day in DayKeys(list)
  {
    CardOf(day, Group(list, day))
  }

  /** A day's mean temperature lies between its lowest and highest. */
  lemma DayAverageWithinExtremes(list: seq<Sample>, day: string)
    requires day in DayKeys(list)
    ensures var temps := Temps(Group(list, day));
      SeqMin(temps) <= DayCardOf(list, day).avgTemp <= SeqMax(temps)
  {
    AverageWithinExtremes(Temps(Group(list, day)));
  }

  /** The `days.forEach` callback of `update5Days` for one day's entries:
      count the icons, take the first of the sorted keys, average the
      temperatures. */
  method DayCardFor(day: string, arr: seq<Sample>) returns (card: DayCard)
    requires |arr| > 0
    ensures card == CardOf(day, arr)
  {
    var order, iconCount := CountIcons(arr);
    assert Icons(arr)[0] in order;
    IconCountsDomain(arr);
    var mostUsedIcon := order[TopIndex(order, iconCount)];
    var avgTemp := Sum(Temps(arr)) / |arr| as real;
    card := DayCard(day, mostUsedIcon, avgTemp);
  }

  /** `days.forEach(...)`: one card per day, in order, each drawn from
      `daily[day]`. */
  method DrawCards(days: seq<string>, daily: map<string, seq<Sample>>) returns (cards: seq<DayCard>)
    requires forall i :: 0 <= i < |days| ==> days[i] in daily && |daily[days[i]]| > 0
    ensures |cards| == |days|
    ensures forall e :: 0 <= e < |days| ==> cards[e] == CardOf(days[e], daily[days[e]])
  {
    cards := [];
    for d := 0 to |days|
      invariant |cards| == d
      invariant forall e :: 0 <= e < d ==> cards[e] == CardOf(days[e], daily[days[e]])
    {
      var card := DayCardFor(days[d], daily[days[d]]);
      cards := cards + [card];
    }
  }

  /** `update5Days`: one card for each of the first five days, in order of
      each day's first entry. */
  method Update5Days(list: seq<Sample>) returns (cards: seq<DayCard>)
    ensures var days := Distinct(DayKeys(list));
      && |cards| == MinNat(DaysShown, |days|)
      && forall d :: 0 <= d < |cards| ==> cards[d] == DayCardOf(list, days[d])
  {
    var keys, daily := GroupByDay(list);
    var days := SliceFront(keys, DaysShown);
    forall i | 0 <= i < |days| ensures days[i] in daily && |daily[days[i]]| > 0 {
      assert days[i] == keys[i] && days[i] in DayKeys(list);
    }
    cards := DrawCards(days, daily);
  }
}

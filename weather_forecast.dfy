/** weather-forecast.1m.js: the icon and text helpers and the selection of
    forecast items (today's hours, one item per coming day) behind the
    weather menu. Local-time conversion is an input: `local` maps a forecast
    timestamp to its local date key (`Date.prototype.toDateString`) and hour
    (`getHours`). */
module WeatherForecast {
  import opened Wrappers
  import opened Sequences

  // ---------------------------------------------------------------------------
  // getWeatherIcon

  const WeatherIcons: map<string, string> := map[
    "01d" := "☀️", "01n" := "🌙",
    "02d" := "⛅", "02n" := "☁️",
    "03d" := "☁️", "03n" := "☁️",
    "04d" := "☁️", "04n" := "☁️",
    "09d" := "🌧️", "09n" := "🌧️",
    "10d" := "🌦️", "10n" := "🌧️",
    "11d" := "⛈️", "11n" := "⛈️",
    "13d" := "🌨️", "13n" := "🌨️",
    "50d" := "🌫️", "50n" := "🌫️"]

  const DefaultIcon: string := "🌤️"

  /** `WEATHER_ICONS[iconCode] || '🌤️'`: no mapped icon is empty, so the
      default stands exactly for an unmapped code. */
  function GetWeatherIcon(iconCode: string): (icon: string)
    ensures iconCode in WeatherIcons ==> icon == WeatherIcons[iconCode]
    ensures iconCode !in WeatherIcons ==> icon == DefaultIcon
  {
    if iconCode in WeatherIcons then WeatherIcons[iconCode] else DefaultIcon
  }

  /** The default icon is none of the mapped ones, so it is shown exactly for
      the codes the table does not list. */
  lemma DefaultIconIffUnmapped(iconCode: string)
    ensures GetWeatherIcon(iconCode) == DefaultIcon <==> iconCode !in WeatherIcons
  {
    forall c | c in WeatherIcons ensures WeatherIcons[c] != DefaultIcon {
      assert c in {"01d", "01n", "02d", "02n", "03d", "03n", "04d", "04n", "09d", "09n",
        "10d", "10n", "11d", "11n", "13d", "13n", "50d", "50n"};
    }
  }

  // ---------------------------------------------------------------------------
  // capitalizeFirst

  /** `str.charAt(0).toUpperCase() + str.slice(1)`; `upper` is
      `String.prototype.toUpperCase`, which may change the length of what it
      is given. */
  function CapitalizeFirst(s: string, upper: string -> string): (r: string)
    ensures s == [] ==> r == []
    ensures s != [] ==> |r| >= |s| - 1 && r[|r| - (|s| - 1)..] == s[1..]
    ensures s != [] ==> r[..|r| - (|s| - 1)] == upper(s[..1])
  {
    if s == [] then [] else upper(s[..1]) + s[1..]
  }

  // ---------------------------------------------------------------------------
  // Forecast items

  /** A forecast list entry: its timestamp in seconds and the rest of the
      entry, which the selection only carries along. */
  datatype ForecastItem = ForecastItem(dt: int, details: string)

  datatype LocalTime = LocalTime(dateKey: string, hour: int)

  /** `getTodayHourlyForecast`: the items dated today, in list order. */
  function TodayHourly(items: seq<ForecastItem>, local: int -> LocalTime, today: string): (r: seq<ForecastItem>)
    ensures |r| <= |items|
    ensures forall x :: x in r <==> x in items && local(x.dt).dateKey == today
  {
    if items == [] then []
    else
      var last := items[|items| - 1];
      assert forall x :: x in items <==> x in items[..|items| - 1] || x == last;
      TodayHourly(items[..|items| - 1], local, today) + Kept(last, local, today)
  }

  function Kept(x: ForecastItem, local: int -> LocalTime, today: string): seq<ForecastItem>
  {
    if local(x.dt).dateKey == today then [x] else []
  }

  lemma TodayHourlySnoc(a: seq<ForecastItem>, x: ForecastItem, local: int -> LocalTime, today: string)
    ensures TodayHourly(a + [x], local, today) == TodayHourly(a, local, today) + Kept(x, local, today)
  {
    assert (a + [x])[..|a|] == a;
  }

  /** Filtering keeps the order: the items of a concatenation are those of its
      parts, one after the other. */
  lemma {:induction false} TodayHourlyAppend(a: seq<ForecastItem>, b: seq<ForecastItem>, local: int -> LocalTime, today: string)
    ensures TodayHourly(a + b, local, today) == TodayHourly(a, local, today) + TodayHourly(b, local, today)
  {
    if b == [] {
      assert a + b == a;
    } else {
      var init, last := b[..|b| - 1], b[|b| - 1];
      assert a + b == (a + init) + [last];
      assert b == init + [last];
      TodayHourlyAppend(a, init, local, today);
      TodayHourlySnoc(a + init, last, local, today);
      TodayHourlySnoc(init, last, local, today);
    }
  }

  // ---------------------------------------------------------------------------
  // processForecast

  predicate InWindow(t: LocalTime)
  {
    11 <= t.hour <= 14
  }

  /** The `dailyData` object: its keys in insertion order (the order
      `Object.values` follows for keys that are not array indices) and its
      members. */
  datatype Daily = Daily(keys: seq<string>, byKey: map<string, ForecastItem>)

  /** One step of the `forEach`: an item in the 11-14 window is stored under
      its day when the day has none yet or when it is the 12 o'clock item;
      replacing a member does not move its key. */
  function Step(d: Daily, item: ForecastItem, local: int -> LocalTime): Daily
  {
    var t := local(item.dt);
    if InWindow(t) && (t.dateKey !in d.byKey || t.hour == 12) then
      Daily(if t.dateKey in d.byKey then d.keys else d.keys + [t.dateKey], d.byKey[t.dateKey := item])
    else d
  }

  /** `dailyData` after the whole list. */
  function DailyData(items: seq<ForecastItem>, local: int -> LocalTime): Daily
  {
    if items == [] then Daily([], map[])
    else Step(DailyData(items[..|items| - 1], local), items[|items| - 1], local)
  }

  /** The members listed in key order. */
  function Values(keys: seq<string>, byKey: map<string, ForecastItem>): seq<ForecastItem>
  {
    if keys == [] then []
    else (if keys[0] in byKey then [byKey[keys[0]]] else []) + Values(keys[1..], byKey)
  }

  /** `.slice(0, 5)`. */
  function FirstFive(s: seq<ForecastItem>): (r: seq<ForecastItem>)
    ensures |r| <= 5 && |r| <= |s| && r == s[..|r|]
    ensures |s| >= 5 ==> |r| == 5
    ensures |s| < 5 ==> r == s
  {
    if |s| <= 5 then s else s[..5]
  }

  /** `processForecast`: groups the list by day and returns at most five of
      the chosen items. */
  method ProcessForecast(items: seq<ForecastItem>, local: int -> LocalTime) returns (result: seq<ForecastItem>)
    ensures result == FirstFive(Values(DailyData(items, local).keys, DailyData(items, local).byKey))
  {
    var keys: seq<string> := [];
    var dailyData: map<string, ForecastItem> := map[];
    for i := 0 to |items|
      invariant Daily(keys, dailyData) == DailyData(items[..i], local)
    {
      var item := items[i];
      var date := local(item.dt);
      if date.hour >= 11 && date.hour <= 14 {
        if date.dateKey !in dailyData || date.hour == 12 {
          if date.dateKey !in dailyData {
            keys := keys + [date.dateKey];
          }
          dailyData := dailyData[date.dateKey := item];
        }
      }
      assert items[..i + 1][..i] == items[..i];
    }
    assert items[..|items|] == items;
    var values := Values(keys, dailyData);
    result := if |values| <= 5 then values else values[..5];
  }

  // ---------------------------------------------------------------------------
  // What the selection keeps

  /** The day keys of the in-window items, in list order. */
  function WindowKeys(items: seq<ForecastItem>, local: int -> LocalTime): seq<string>
  {
    if items == [] then []
    else
      var t := local(items[|items| - 1].dt);
      WindowKeys(items[..|items| - 1], local) + (if InWindow(t) then [t.dateKey] else [])
  }

  /** The first in-window item of a day, if any. */
  function FirstInWindow(items: seq<ForecastItem>, local: int -> LocalTime, key: string): Option<ForecastItem>
  {
    if items == [] then None
    else
      var earlier := FirstInWindow(items[..|items| - 1], local, key);
      var t := local(items[|items| - 1].dt);
      if earlier.None? && InWindow(t) && t.dateKey == key then Some(items[|items| - 1]) else earlier
  }

  /** The last 12 o'clock item of a day, if any. */
  function LastNoon(items: seq<ForecastItem>, local: int -> LocalTime, key: string): Option<ForecastItem>
  {
    if items == [] then None
    else
      var t := local(items[|items| - 1].dt);
      if t.hour == 12 && t.dateKey == key then Some(items[|items| - 1])
      else LastNoon(items[..|items| - 1], local, key)
  }

  /** The item a day should end up with: its last 12 o'clock item if it has
      one, else its first in-window item. */
  function Chosen(items: seq<ForecastItem>, local: int -> LocalTime, key: string): Option<ForecastItem>
  {
    if LastNoon(items, local, key).Some? then LastNoon(items, local, key) else FirstInWindow(items, local, key)
  }

  function Lookup(m: map<string, ForecastItem>, key: string): Option<ForecastItem>
  {
    if key in m then Some(m[key]) else None
  }

  /** The grouping's keys are the days of the in-window items in order of
      first appearance, each once, and exactly the days that have a member. */
  lemma {:induction false} DailyKeys(items: seq<ForecastItem>, local: int -> LocalTime)
    ensures DailyData(items, local).keys == Dedup(WindowKeys(items, local))
    ensures forall k :: k in DailyData(items, local).byKey <==> k in DailyData(items, local).keys
  {
    if items != [] {
      var init, item := items[..|items| - 1], items[|items| - 1];
      var t := local(item.dt);
      DailyKeys(init, local);
      assert DailyData(items, local) == Step(DailyData(init, local), item, local);
      if InWindow(t) {
        assert WindowKeys(items, local) == WindowKeys(init, local) + [t.dateKey];
        DedupSnoc(WindowKeys(init, local), t.dateKey);
      } else {
        assert WindowKeys(items, local) == WindowKeys(init, local);
      }
    }
  }

  /** A 12 o'clock item is an in-window item of its day. */
  lemma {:induction false} NoonIsInWindow(items: seq<ForecastItem>, local: int -> LocalTime, key: string)
    ensures LastNoon(items, local, key).Some? ==> FirstInWindow(items, local, key).Some?
  {
    if items != [] {
      NoonIsInWindow(items[..|items| - 1], local, key);
    }
  }

  /** Each day's member is its last 12 o'clock item if it has one and its
      first in-window item otherwise; days without in-window items have none. */
  lemma {:induction false} DailyMembers(items: seq<ForecastItem>, local: int -> LocalTime, key: string)
    ensures Lookup(DailyData(items, local).byKey, key) == Chosen(items, local, key)
  {
    if items != [] {
      var init := items[..|items| - 1];
      var item := items[|items| - 1];
      var t := local(item.dt);
      var d := DailyData(init, local);
      DailyMembers(init, local, key);
      NoonIsInWindow(init, local, key);
      assert DailyData(items, local) == Step(d, item, local);
      if key != t.dateKey {
        assert LastNoon(items, local, key) == LastNoon(init, local, key);
        assert FirstInWindow(items, local, key) == FirstInWindow(init, local, key);
      } else if t.hour == 12 {
        assert LastNoon(items, local, key) == Some(item);
      } else if !InWindow(t) || key in d.byKey {
        assert LastNoon(items, local, key) == LastNoon(init, local, key);
        assert FirstInWindow(items, local, key) == FirstInWindow(init, local, key);
        assert DailyData(items, local) == d;
      } else {
        assert LastNoon(items, local, key) == None;
        assert FirstInWindow(items, local, key) == Some(item);
        assert DailyData(items, local).byKey == d.byKey[key := item];
      }
    }
  }

  /** The item stored for a day belongs to that day and lies in the window. */
  lemma {:induction false} ChosenItemOfDay(items: seq<ForecastItem>, local: int -> LocalTime, key: string)
    requires key in DailyData(items, local).byKey
    ensures local(DailyData(items, local).byKey[key].dt).dateKey == key
    ensures InWindow(local(DailyData(items, local).byKey[key].dt))
  {
    if items != [] {
      var init := items[..|items| - 1];
      if key in DailyData(init, local).byKey {
        ChosenItemOfDay(init, local, key);
      }
    }
  }

  /** Listing members along keys that all have members gives one member per
      key, in key order. */
  lemma {:induction false} ValuesAlongKeys(keys: seq<string>, byKey: map<string, ForecastItem>)
    requires forall k :: k in keys ==> k in byKey
    ensures |Values(keys, byKey)| == |keys|
    ensures forall i :: 0 <= i < |keys| ==> Values(keys, byKey)[i] == byKey[keys[i]]
  {
    if keys != [] {
      ValuesAlongKeys(keys[1..], byKey);
    }
  }

  /** The grouping lists one item per day, in order of the days' first
      in-window items; each is in the window, belongs to its day and is the
      day's chosen item. */
  lemma DaysInOrder(items: seq<ForecastItem>, local: int -> LocalTime)
    ensures var days := Dedup(WindowKeys(items, local));
      var v := Values(DailyData(items, local).keys, DailyData(items, local).byKey);
      && |v| == |days|
      && forall i :: 0 <= i < |v| ==>
           local(v[i].dt).dateKey == days[i] && InWindow(local(v[i].dt)) && Some(v[i]) == Chosen(items, local, days[i])
  {
    var d := DailyData(items, local);
    DailyKeys(items, local);
    ValuesAlongKeys(d.keys, d.byKey);
    AllMembers(items, local);
  }

  /** What `processForecast` returns: at most five items, each in the 11-14
      window, at most one per day; the i-th belongs to the i-th day in order
      of first in-window appearance and is that day's chosen item. */
  lemma ProcessForecastSpec(items: seq<ForecastItem>, local: int -> LocalTime)
    ensures var days := Dedup(WindowKeys(items, local));
      var r := FirstFive(Values(DailyData(items, local).keys, DailyData(items, local).byKey));
      && |r| == (if |days| < 5 then |days| else 5)
      && (forall i :: 0 <= i < |r| ==>
            local(r[i].dt).dateKey == days[i] && InWindow(local(r[i].dt))
            && Some(r[i]) == Chosen(items, local, days[i]))
      && (forall i, j :: 0 <= i < j < |r| ==> local(r[i].dt).dateKey != local(r[j].dt).dateKey)
  {
    DaysInOrder(items, local);
  }

  lemma AllMembers(items: seq<ForecastItem>, local: int -> LocalTime)
    ensures forall k :: k in DailyData(items, local).byKey ==>
      && local(DailyData(items, local).byKey[k].dt).dateKey == k
      && InWindow(local(DailyData(items, local).byKey[k].dt))
      && Some(DailyData(items, local).byKey[k]) == Chosen(items, local, k)
  {
    forall k | k in DailyData(items, local).byKey
      ensures local(DailyData(items, local).byKey[k].dt).dateKey == k
      ensures InWindow(local(DailyData(items, local).byKey[k].dt))
      ensures Some(DailyData(items, local).byKey[k]) == Chosen(items, local, k)
    {
      ChosenItemOfDay(items, local, k);
      DailyMembers(items, local, k);
    }
  }
}

/** `get_stops` of bus_frequency/src/gtfs.rs: reading the GTFS Schedule files
    trips.txt, calendar.txt, stops.txt and stop_times.txt (already parsed into rows)
    and bucketing every stop's arrival times by day of the week. Times of day are
    seconds since midnight. */
module Gtfs {
  import opened Outcomes
  import Text

  datatype Day = Monday | Tuesday | Wednesday | Thursday | Friday | Saturday | Sunday

  /** The discriminant of `Day`, which indexes `times_per_day`. */
  function DayIndex(d: Day): (i: nat)
    ensures i < 7
  {
    match d
    case Monday => 0
    case Tuesday => 1
    case Wednesday => 2
    case Thursday => 3
    case Friday => 4
    case Saturday => 5
    case Sunday => 6
  }

  const WEEK: seq<Day> := [Monday, Tuesday, Wednesday, Thursday, Friday, Saturday, Sunday]

  lemma WeekIndexed()
    ensures |WEEK| == 7
    ensures forall k :: 0 <= k < 7 ==> DayIndex(WEEK[k]) == k
    ensures forall d: Day :: WEEK[DayIndex(d)] == d
  {
  }

  datatype TripRow = TripRow(tripId: string, serviceId: string)

  /** A calendar.txt row: one availability flag per day of the week. */
  datatype CalendarRow = CalendarRow(
    serviceId: string,
    monday: nat, tuesday: nat, wednesday: nat, thursday: nat, friday: nat, saturday: nat, sunday: nat)

  function Flag(row: CalendarRow, d: Day): nat {
    match d
    case Monday => row.monday
    case Tuesday => row.tuesday
    case Wednesday => row.wednesday
    case Thursday => row.thursday
    case Friday => row.friday
    case Saturday => row.saturday
    case Sunday => row.sunday
  }

  datatype StopRow = StopRow(stopId: string, stopName: string, lon: real, lat: real)

  datatype StopTimeRow = StopTimeRow(tripId: string, stopId: string, arrivalTime: string)

  /** A stop with its arrival times, one list per day, Monday first. */
  datatype Stop = Stop(name: string, lon: real, lat: real, timesPerDay: seq<seq<int>>)

  /** The days among `ds` whose flag is exactly 1, in the order of `ds`. */
  function DaysIn(row: CalendarRow, ds: seq<Day>): seq<Day> {
    if ds == [] then []
    else DaysIn(row, ds[..|ds| - 1]) + (if Flag(row, ds[|ds| - 1]) == 1 then [ds[|ds| - 1]] else [])
  }

  predicate Increasing(days: seq<Day>) {
    forall i, j :: 0 <= i < j < |days| ==> DayIndex(days[i]) < DayIndex(days[j])
  }

  lemma {:induction false} DaysInMeaning(row: CalendarRow, ds: seq<Day>)
    requires Increasing(ds)
    ensures forall d :: d in DaysIn(row, ds) <==> d in ds && Flag(row, d) == 1
    ensures Increasing(DaysIn(row, ds))
  {
    if ds != [] {
      var init := ds[..|ds| - 1];
      DaysInMeaning(row, init);
      var last := ds[|ds| - 1];
      assert forall d :: d in init ==> DayIndex(d) < DayIndex(last);
      assert ds == init + [last];
    }
  }

  /** A calendar row's days are exactly those flagged 1, Monday to Sunday, each once. */
  lemma CalendarDaysMeaning(row: CalendarRow)
    ensures forall d :: d in DaysIn(row, WEEK) <==> Flag(row, d) == 1
    ensures Increasing(DaysIn(row, WEEK))
  {
    DaysInMeaning(row, WEEK);
    WeekIndexed();
  }

  /** The inner loop over the seven `(day, include)` pairs. */
  method CalendarDays(row: CalendarRow) returns (days: seq<Day>)
    ensures days == DaysIn(row, WEEK)
  {
    days := [];
    for k := 0 to 7
      invariant days == DaysIn(row, WEEK[..k])
    {
      assert WEEK[..k + 1][..k] == WEEK[..k];
      if Flag(row, WEEK[k]) == 1 {
        days := days + [WEEK[k]];
      }
    }
    assert WEEK[..7] == WEEK;
  }

  /** Every service's days are listed once each, Monday first. */
  lemma {:induction false} CalendarMapIncreasing(rows: seq<CalendarRow>)
    ensures forall s :: s in CalendarMap(rows) ==> Increasing(CalendarMap(rows)[s])
  {
    if rows != [] {
      CalendarMapIncreasing(rows[..|rows| - 1]);
      CalendarDaysMeaning(rows[|rows| - 1]);
    }
  }

  /** trip_id to service_id; a later row for the same trip overwrites an earlier one. */
  function TripMap(trips: seq<TripRow>): map<string, string> {
    if trips == [] then map[]
    else TripMap(trips[..|trips| - 1])[trips[|trips| - 1].tripId := trips[|trips| - 1].serviceId]
  }

  /** service_id to its days. */
  function CalendarMap(rows: seq<CalendarRow>): map<string, seq<Day>> {
    if rows == [] then map[]
    else CalendarMap(rows[..|rows| - 1])[rows[|rows| - 1].serviceId := DaysIn(rows[|rows| - 1], WEEK)]
  }

  /** stop_id to a stop with seven empty day lists. */
  function StopMap(rows: seq<StopRow>): map<string, Stop> {
    if rows == [] then map[]
    else
      var r := rows[|rows| - 1];
      StopMap(rows[..|rows| - 1])[r.stopId := Stop(r.stopName, r.lon, r.lat, seq(7, _ => []))]
  }

  /** Row `i` is the last trip row for its trip id, the one whose value a map built by
      inserting in order ends up holding. */
  predicate LastTrip(trips: seq<TripRow>, i: int) {
    0 <= i < |trips| && forall j :: i < j < |trips| ==> trips[j].tripId != trips[i].tripId
  }

  /** Duplicate trip ids: the last row wins. */
  lemma {:induction false} TripMapLastWins(trips: seq<TripRow>, i: int)
    requires LastTrip(trips, i)
    ensures trips[i].tripId in TripMap(trips) && TripMap(trips)[trips[i].tripId] == trips[i].serviceId
  {
    var n := |trips|;
    if i < n - 1 {
      var init := trips[..n - 1];
      assert trips[i] == init[i];
      assert LastTrip(init, i);
      TripMapLastWins(init, i);
    }
  }

  /** A trip id is known iff some row names it. */
  lemma {:induction false} TripMapKeys(trips: seq<TripRow>)
    ensures forall k :: k in TripMap(trips) <==> exists i :: 0 <= i < |trips| && trips[i].tripId == k
  {
    if trips != [] {
      var init := trips[..|trips| - 1];
      TripMapKeys(init);
      assert forall i :: 0 <= i < |init| ==> init[i] == trips[i];
    }
  }

  predicate LastStop(rows: seq<StopRow>, i: int) {
    0 <= i < |rows| && forall j :: i < j < |rows| ==> rows[j].stopId != rows[i].stopId
  }

  /** A stop id is known iff some row names it, and every stop starts with seven empty lists. */
  lemma {:induction false} StopMapKeys(rows: seq<StopRow>)
    ensures forall k :: k in StopMap(rows) <==> exists i :: 0 <= i < |rows| && rows[i].stopId == k
    ensures forall k :: k in StopMap(rows) ==> StopMap(rows)[k].timesPerDay == seq(7, _ => [])
  {
    if rows != [] {
      var init := rows[..|rows| - 1];
      StopMapKeys(init);
      assert forall i :: 0 <= i < |init| ==> init[i] == rows[i];
    }
  }

  /** Duplicate stop ids: the last row wins. */
  lemma {:induction false} StopMapLastWins(rows: seq<StopRow>, i: int)
    requires LastStop(rows, i)
    ensures rows[i].stopId in StopMap(rows)
    ensures var s := StopMap(rows)[rows[i].stopId];
      s.name == rows[i].stopName && s.lon == rows[i].lon && s.lat == rows[i].lat
  {
    var n := |rows|;
    if i < n - 1 {
      var init := rows[..n - 1];
      assert rows[i] == init[i];
      assert LastStop(init, i);
      StopMapLastWins(init, i);
    }
  }

  function ParseField(s: string, limit: nat): Option<nat> {
    if 1 <= |s| <= 2 && Text.AllDigits(s) && Text.DigitsValue(s) < limit then Some(Text.DigitsValue(s)) else None
  }

  /** `NaiveTime::parse_from_str(s, "%H:%M:%S")`, as seconds since midnight: an hour
      below 24, a minute and a second below 60, each written with one or two digits. */
  function ParseTime(s: string): (r: Option<int>)
    ensures r.Some? ==> 0 <= r.value < 24 * 3600
  {
    var parts := Text.Split(s, ":");
    if |parts| != 3 then None
    else
      match (ParseField(parts[0], 24), ParseField(parts[1], 60), ParseField(parts[2], 60))
      case (Some(h), Some(m), Some(sec)) => Some(h * 3600 + m * 60 + sec)
      case _ => None
  }

  /** "07:13:00" is 7 * 3600 + 13 * 60 seconds past midnight. */
  lemma ParseTimeExample(s: string)
    requires s == "07:13:00"
    ensures ParseTime(s) == Some(25980)
  {
    SplitTimeExample(s);
    var parts := Text.Split(s, ":");
    assert parts == ["07", "13", "00"];
    DigitPair('0', '7');
    DigitPair('1', '3');
    DigitPair('0', '0');
    assert ParseField(parts[0], 24) == Some(7);
    assert ParseField(parts[1], 60) == Some(13);
    assert ParseField(parts[2], 60) == Some(0);
  }

  /** The value of a two-digit string. */
  lemma DigitPair(a: char, b: char)
    requires Text.IsDigit(a) && Text.IsDigit(b)
    ensures Text.AllDigits([a, b]) && Text.DigitsValue([a, b]) == (a as int - '0' as int) * 10 + (b as int - '0' as int)
  {
    var s := [a, b];
    assert s[..1] == [a] && [a][..0] == [];
    assert Text.DigitsValue([a]) == a as int - '0' as int;
    assert Text.DigitsValue(s) == Text.DigitsValue(s[..1]) * 10 + (b as int - '0' as int);
  }

  lemma SplitTimeExample(s: string)
    requires s == "07:13:00"
    ensures Text.Split(s, ":") == ["07", "13", "00"]
  {
    SplitField(s);
    SplitField(s[3..]);
    assert s[3..][3..] == s[6..];
    SplitLastField(s[6..]);
    assert s[..2] == "07" && s[3..][..2] == "13" && s[6..] == "00";
  }

  /** Two characters, then a colon: the first part is those two characters. */
  lemma SplitField(t: string)
    requires |t| >= 3 && t[0] != ':' && t[1] != ':' && t[2] == ':'
    ensures Text.Split(t, ":") == [t[..2]] + Text.Split(t[3..], ":")
  {
    assert t[0..1] == [t[0]] && t[1..2] == [t[1]] && t[2..3] == [t[2]];
    assert !Text.OccursAt(t, ":", 0) && !Text.OccursAt(t, ":", 1) && Text.OccursAt(t, ":", 2);
    assert Text.IndexOf(t, ":", 0) == Some(2);
  }

  /** Two characters without a colon: the last part. */
  lemma SplitLastField(t: string)
    requires |t| == 2 && t[0] != ':' && t[1] != ':'
    ensures Text.Split(t, ":") == [t]
  {
    assert t[0..1] == [t[0]] && t[1..2] == [t[1]];
    assert !Text.OccursAt(t, ":", 0) && !Text.OccursAt(t, ":", 1);
    assert Text.IndexOf(t, ":", 0) == None;
  }

  /** GTFS allows arrival times past midnight such as "25:10:00"; the parser rejects them. */
  lemma ParseTimeRejectsPastMidnight(s: string)
    requires s == "25:10:00"
    ensures ParseTime(s) == None
  {
    SplitField(s);
    var parts := Text.Split(s, ":");
    assert parts[0] == s[..2] == "25";
    DigitPair('2', '5');
    assert ParseField(parts[0], 24) == None;
  }

  /** What happens to one stop_times.txt row. */
  datatype Fate = Skip | Add(time: int, days: seq<Day>) | Crash(reason: string)

  function RowFate(row: StopTimeRow, trips: map<string, string>, calendar: map<string, seq<Day>>, stops: set<string>): Fate {
    match ParseTime(row.arrivalTime)
    case None => Skip
    case Some(t) =>
      if row.stopId !in stops then Crash("unknown stop_id")
      else if row.tripId !in trips then Crash("unknown trip_id")
      else if trips[row.tripId] !in calendar then Skip
      else Add(t, calendar[trips[row.tripId]])
  }

  /** The arrival times at `stop` on `day` contributed by `rows`, in row order. */
  function Bucket(rows: seq<StopTimeRow>, trips: map<string, string>, calendar: map<string, seq<Day>>,
                  stops: set<string>, stop: string, day: Day): seq<int>
  {
    if rows == [] then []
    else
      var last := rows[|rows| - 1];
      var fate := RowFate(last, trips, calendar, stops);
      Bucket(rows[..|rows| - 1], trips, calendar, stops, stop, day) +
        (if fate.Add? && last.stopId == stop && day in fate.days then [fate.time] else [])
  }

  /** The number of rows skipped. */
  function Skipped(rows: seq<StopTimeRow>, trips: map<string, string>, calendar: map<string, seq<Day>>, stops: set<string>): nat {
    if rows == [] then 0
    else Skipped(rows[..|rows| - 1], trips, calendar, stops) + (if RowFate(rows[|rows| - 1], trips, calendar, stops).Skip? then 1 else 0)
  }

  /** The first row that panics, if any. */
  function FirstCrash(rows: seq<StopTimeRow>, trips: map<string, string>, calendar: map<string, seq<Day>>, stops: set<string>): (k: nat)
    ensures k <= |rows|
    ensures forall i :: 0 <= i < k ==> !RowFate(rows[i], trips, calendar, stops).Crash?
    ensures k < |rows| ==> RowFate(rows[k], trips, calendar, stops).Crash?
    decreases |rows|
  {
    if rows == [] || RowFate(rows[0], trips, calendar, stops).Crash? then 0
    else 1 + FirstCrash(rows[1..], trips, calendar, stops)
  }

  /** The inner loop pushing one arrival time onto the list of each of its days. */
  method PushDays(times: seq<seq<int>>, t: int, days: seq<Day>) returns (out: seq<seq<int>>)
    requires |times| == 7 && Increasing(days)
    ensures |out| == 7
    ensures forall d: Day :: out[DayIndex(d)] == times[DayIndex(d)] + (if d in days then [t] else [])
  {
    out := times;
    WeekDayIndexInjective();
    for k := 0 to |days|
      invariant |out| == 7
      invariant forall d: Day :: out[DayIndex(d)] == times[DayIndex(d)] + (if d in days[..k] then [t] else [])
    {
      assert days[..k + 1] == days[..k] + [days[k]];
      assert days[k] !in days[..k];
      out := out[DayIndex(days[k]) := out[DayIndex(days[k])] + [t]];
    }
    assert days[..|days|] == days;
  }

  /** The state of the stops after the rows of `rows`, none of which panics. */
  predicate ScrapedUpTo(stops: map<string, Stop>, stops0: map<string, Stop>, rows: seq<StopTimeRow>,
                        trips: map<string, string>, calendar: map<string, seq<Day>>)
  {
    && stops.Keys == stops0.Keys
    && forall k :: k in stops ==>
      && stops[k].name == stops0[k].name && stops[k].lon == stops0[k].lon && stops[k].lat == stops0[k].lat
      && |stops[k].timesPerDay| == 7
      && |stops0[k].timesPerDay| == 7
      && forall d: Day :: (stops[k].timesPerDay[DayIndex(d)] ==
           stops0[k].timesPerDay[DayIndex(d)] + Bucket(rows, trips, calendar, stops0.Keys, k, d))
  }

  lemma ScrapedStart(stops0: map<string, Stop>, trips: map<string, string>, calendar: map<string, seq<Day>>)
    requires forall k :: k in stops0 ==> |stops0[k].timesPerDay| == 7
    ensures ScrapedUpTo(stops0, stops0, [], trips, calendar)
  {
    forall k, d: Day | k in stops0 ensures stops0[k].timesPerDay[DayIndex(d)] + [] == stops0[k].timesPerDay[DayIndex(d)] {
    }
  }

  /** A row that adds nothing leaves the state as it was. */
  lemma ScrapedSkip(stops: map<string, Stop>, stops0: map<string, Stop>, rows: seq<StopTimeRow>, i: nat,
                    trips: map<string, string>, calendar: map<string, seq<Day>>)
    requires i < |rows| && RowFate(rows[i], trips, calendar, stops0.Keys).Skip?
    requires ScrapedUpTo(stops, stops0, rows[..i], trips, calendar)
    ensures ScrapedUpTo(stops, stops0, rows[..i + 1], trips, calendar)
    ensures Skipped(rows[..i + 1], trips, calendar, stops0.Keys) == Skipped(rows[..i], trips, calendar, stops0.Keys) + 1
  {
    var prefix := rows[..i + 1];
    assert prefix[..i] == rows[..i] && prefix[i] == rows[i];
    forall k, d: Day
      ensures Bucket(prefix, trips, calendar, stops0.Keys, k, d) == Bucket(rows[..i], trips, calendar, stops0.Keys, k, d)
    {
      assert Bucket(prefix, trips, calendar, stops0.Keys, k, d) == Bucket(rows[..i], trips, calendar, stops0.Keys, k, d) + [];
    }
  }

  /** A row that adds a time extends its stop's lists for its days. */
  lemma ScrapedAdd(stops: map<string, Stop>, stops0: map<string, Stop>, rows: seq<StopTimeRow>, i: nat,
                   trips: map<string, string>, calendar: map<string, seq<Day>>, times: seq<seq<int>>)
    requires i < |rows| && RowFate(rows[i], trips, calendar, stops0.Keys).Add?
    requires ScrapedUpTo(stops, stops0, rows[..i], trips, calendar)
    requires rows[i].stopId in stops && |times| == 7
    requires var fate := RowFate(rows[i], trips, calendar, stops0.Keys);
      forall d: Day :: times[DayIndex(d)] ==
        stops[rows[i].stopId].timesPerDay[DayIndex(d)] + (if d in fate.days then [fate.time] else [])
    ensures ScrapedUpTo(stops[rows[i].stopId := stops[rows[i].stopId].(timesPerDay := times)], stops0, rows[..i + 1], trips, calendar)
    ensures Skipped(rows[..i + 1], trips, calendar, stops0.Keys) == Skipped(rows[..i], trips, calendar, stops0.Keys)
  {
    assert rows[..i + 1][..i] == rows[..i];
  }

  /** The stop_times.txt loop: each parsed time goes into its stop's list for every
      day of its trip's service. `scraped` and `skipped` count the rows; an unknown
      stop or trip panics. */
  method ScrapeStopTimes(rows: seq<StopTimeRow>, trips: map<string, string>, calendar: map<string, seq<Day>>,
                         stops0: map<string, Stop>)
    returns (r: Result<map<string, Stop>>, scraped: nat, skipped: nat)
    requires forall k :: k in stops0 ==> |stops0[k].timesPerDay| == 7
    requires forall s :: s in calendar ==> Increasing(calendar[s])
    ensures var k := FirstCrash(rows, trips, calendar, stops0.Keys);
      && (r.Err? <==> k < |rows|)
      && (r.Err? ==> r.error == Panic(RowFate(rows[k], trips, calendar, stops0.Keys).reason))
    ensures r.Ok? ==> scraped + skipped == |rows| && skipped == Skipped(rows, trips, calendar, stops0.Keys)
    ensures r.Ok? ==> ScrapedUpTo(r.value, stops0, rows, trips, calendar)
  {
    var stops := stops0;
    scraped, skipped := 0, 0;
    ghost var ids := stops0.Keys;
    ScrapedStart(stops0, trips, calendar);
    for i := 0 to |rows|
      invariant scraped + skipped == i && skipped == Skipped(rows[..i], trips, calendar, ids)
      invariant forall j :: 0 <= j < i ==> !RowFate(rows[j], trips, calendar, ids).Crash?
      invariant ScrapedUpTo(stops, stops0, rows[..i], trips, calendar)
    {
      var crash, added;
      crash, stops, added := ScrapeRow(stops, stops0, rows, i, trips, calendar);
      if crash.Some? {
        FirstCrashIs(rows, trips, calendar, ids, i);
        return Err(Panic(crash.value)), scraped, skipped;
      }
      assert !RowFate(rows[i], trips, calendar, ids).Crash?;
      if added {
        scraped := scraped + 1;
      } else {
        skipped := skipped + 1;
      }
    }
    assert rows[..|rows|] == rows;
    FirstCrashIs(rows, trips, calendar, ids, |rows|);
    r := Ok(stops);
  }

  /** One row of the loop: the panic it raises, or the stops with its time added and
      whether it was added rather than skipped. */
  method ScrapeRow(stops: map<string, Stop>, stops0: map<string, Stop>, rows: seq<StopTimeRow>, i: nat,
                   trips: map<string, string>, calendar: map<string, seq<Day>>)
    returns (crash: Option<string>, out: map<string, Stop>, added: bool)
    requires i < |rows| && ScrapedUpTo(stops, stops0, rows[..i], trips, calendar)
    requires forall s :: s in calendar ==> Increasing(calendar[s])
    ensures var fate := RowFate(rows[i], trips, calendar, stops0.Keys);
      && (crash.Some? <==> fate.Crash?)
      && (crash.Some? ==> crash.value == fate.reason)
      && (crash.None? ==> added == fate.Add? && ScrapedUpTo(out, stops0, rows[..i + 1], trips, calendar))
      && (crash.None? ==>
            Skipped(rows[..i + 1], trips, calendar, stops0.Keys) ==
            Skipped(rows[..i], trips, calendar, stops0.Keys) + (if added then 0 else 1))
  {
    crash, out, added := None, stops, false;
    var row := rows[i];
    var arrival := ParseTime(row.arrivalTime);
    if arrival.None? {
      ScrapedSkip(stops, stops0, rows, i, trips, calendar);
      return None, out, added;
    }
    if row.stopId !in stops {
      return Some("unknown stop_id"), out, added;
    }
    var stop := stops[row.stopId];
    if row.tripId !in trips {
      return Some("unknown trip_id"), out, added;
    }
    var service := trips[row.tripId];
    if service !in calendar {
      ScrapedSkip(stops, stops0, rows, i, trips, calendar);
      return None, out, added;
    }
    var times := PushDays(stop.timesPerDay, arrival.value, calendar[service]);
    ScrapedAdd(stops, stops0, rows, i, trips, calendar, times);
    out := stops[row.stopId := stop.(timesPerDay := times)];
    added := true;
  }

  /** A time is listed for a stop on a day iff some row at that stop parsed to it and
      belongs to a service running that day. */
  predicate Contributes(row: StopTimeRow, trips: map<string, string>, calendar: map<string, seq<Day>>,
                        stops: set<string>, stop: string, day: Day, t: int)
  {
    var fate := RowFate(row, trips, calendar, stops);
    row.stopId == stop && fate.Add? && fate.time == t && day in fate.days
  }

  lemma BucketStep(rows: seq<StopTimeRow>, trips: map<string, string>, calendar: map<string, seq<Day>>,
                   stops: set<string>, stop: string, day: Day, t: int)
    requires rows != []
    ensures t in Bucket(rows, trips, calendar, stops, stop, day) <==>
      t in Bucket(rows[..|rows| - 1], trips, calendar, stops, stop, day) ||
      Contributes(rows[|rows| - 1], trips, calendar, stops, stop, day, t)
  {
  }

  /** A time in the bucket comes from a contributing row. */
  lemma {:induction false} BucketSound(rows: seq<StopTimeRow>, trips: map<string, string>, calendar: map<string, seq<Day>>,
                                       stops: set<string>, stop: string, day: Day, t: int) returns (i: nat)
    requires t in Bucket(rows, trips, calendar, stops, stop, day)
    ensures i < |rows| && Contributes(rows[i], trips, calendar, stops, stop, day, t)
  {
    var n := |rows| - 1;
    BucketStep(rows, trips, calendar, stops, stop, day, t);
    if Contributes(rows[n], trips, calendar, stops, stop, day, t) {
      i := n;
    } else {
      i := BucketSound(rows[..n], trips, calendar, stops, stop, day, t);
      assert rows[..n][i] == rows[i];
    }
  }

  /** Every contributing row puts its time in the bucket. */
  lemma {:induction false} BucketComplete(rows: seq<StopTimeRow>, trips: map<string, string>, calendar: map<string, seq<Day>>,
                                          stops: set<string>, stop: string, day: Day, t: int, i: nat)
    requires i < |rows| && Contributes(rows[i], trips, calendar, stops, stop, day, t)
    ensures t in Bucket(rows, trips, calendar, stops, stop, day)
  {
    var n := |rows| - 1;
    BucketStep(rows, trips, calendar, stops, stop, day, t);
    if i < n {
      assert rows[..n][i] == rows[i];
      BucketComplete(rows[..n], trips, calendar, stops, stop, day, t, i);
    }
  }

  lemma BucketMembers(rows: seq<StopTimeRow>, trips: map<string, string>, calendar: map<string, seq<Day>>,
                      stops: set<string>, stop: string, day: Day, t: int)
    ensures t in Bucket(rows, trips, calendar, stops, stop, day) <==>
      exists i :: 0 <= i < |rows| && Contributes(rows[i], trips, calendar, stops, stop, day, t)
  {
    if t in Bucket(rows, trips, calendar, stops, stop, day) {
      var i := BucketSound(rows, trips, calendar, stops, stop, day, t);
    } else if exists i :: 0 <= i < |rows| && Contributes(rows[i], trips, calendar, stops, stop, day, t) {
      var i :| 0 <= i < |rows| && Contributes(rows[i], trips, calendar, stops, stop, day, t);
      BucketComplete(rows, trips, calendar, stops, stop, day, t, i);
    }
  }



  /** `get_stops`: the trips, calendar and stops files become maps (a later row with
      the same id replacing an earlier one), then stop_times.txt fills in each stop's
      times, day by day. */
  method GetStops(tripRows: seq<TripRow>, calendarRows: seq<CalendarRow>, stopRows: seq<StopRow>,
                  stopTimeRows: seq<StopTimeRow>)
    returns (r: Result<map<string, Stop>>)
    ensures r.Err? <==>
      FirstCrash(stopTimeRows, TripMap(tripRows), CalendarMap(calendarRows), StopMap(stopRows).Keys) < |stopTimeRows|
    ensures r.Ok? ==> r.value.Keys == StopMap(stopRows).Keys
    ensures r.Ok? ==> forall k :: k in r.value ==>
      && k in StopMap(stopRows)
      && r.value[k].name == StopMap(stopRows)[k].name
      && r.value[k].lon == StopMap(stopRows)[k].lon && r.value[k].lat == StopMap(stopRows)[k].lat
      && |r.value[k].timesPerDay| == 7
      && forall d: Day :: r.value[k].timesPerDay[DayIndex(d)] ==
           Bucket(stopTimeRows, TripMap(tripRows), CalendarMap(calendarRows), StopMap(stopRows).Keys, k, d)
  {
    var tripToService: map<string, string> := map[];
    for i := 0 to |tripRows|
      invariant tripToService == TripMap(tripRows[..i])
    {
      assert tripRows[..i + 1][..i] == tripRows[..i];
      tripToService := tripToService[tripRows[i].tripId := tripRows[i].serviceId];
    }
    assert tripRows[..|tripRows|] == tripRows;

    var serviceToDays: map<string, seq<Day>> := map[];
    for i := 0 to |calendarRows|
      invariant serviceToDays == CalendarMap(calendarRows[..i])
    {
      assert calendarRows[..i + 1][..i] == calendarRows[..i];
      var days := CalendarDays(calendarRows[i]);
      serviceToDays := serviceToDays[calendarRows[i].serviceId := days];
    }
    assert calendarRows[..|calendarRows|] == calendarRows;
    CalendarMapIncreasing(calendarRows);

    var stops: map<string, Stop> := map[];
    for i := 0 to |stopRows|
      invariant stops == StopMap(stopRows[..i])
    {
      assert stopRows[..i + 1][..i] == stopRows[..i];
      var row := stopRows[i];
      stops := stops[row.stopId := Stop(row.stopName, row.lon, row.lat, seq(7, _ => []))];
    }
    assert stopRows[..|stopRows|] == stopRows;
    StopMapKeys(stopRows);

    var scraped, skipped;
    r, scraped, skipped := ScrapeStopTimes(stopTimeRows, tripToService, serviceToDays, stops);
    if r.Ok? {
      forall k, d: Day | k in r.value
        ensures r.value[k].timesPerDay[DayIndex(d)] == Bucket(stopTimeRows, tripToService, serviceToDays, stops.Keys, k, d)
      {
        assert stops[k].timesPerDay[DayIndex(d)] == [];
      }
    }
  }

  lemma WeekDayIndexInjective()
    ensures forall d, e: Day :: DayIndex(d) == DayIndex(e) ==> d == e
  {
  }

  lemma FirstCrashIs(rows: seq<StopTimeRow>, trips: map<string, string>, calendar: map<string, seq<Day>>, stops: set<string>, i: nat)
    requires i <= |rows|
    requires forall j :: 0 <= j < i ==> !RowFate(rows[j], trips, calendar, stops).Crash?
    requires i < |rows| ==> RowFate(rows[i], trips, calendar, stops).Crash?
    ensures FirstCrash(rows, trips, calendar, stops) == i
  {
  }
}

/** The workout records: the shared fields of `Workout`, the two variants
    `Running` and `Cycling` with their derived metric, the description
    label and the timestamp-based id, all fixed at construction. */
module Workouts {
  import opened Wrappers
  import opened Digits

  /** `[lat, lng]` */
  type Coords = (real, real)

  /** What `new Date()` and `Date.now()` read when a workout is created:
      milliseconds since the epoch, the zero-based month and the day of
      the month. */
  datatype Instant = Instant(millis: nat, month: nat, day: nat)

  /** A reading a clock can give: `getMonth()` is 0..11, `getDate()` 1..31. */
  predicate ValidInstant(t: Instant) {
    t.month < 12 && 1 <= t.day <= 31
  }

  /** A workout as a plain record of fields; the variant is the `type`
      field, and each variant carries its own input and derived metric. */
  datatype Workout =
    | Running(id: string, date: Instant, coords: Coords, distance: real, duration: real,
              description: string, cadence: real, pace: real)
    | Cycling(id: string, date: Instant, coords: Coords, distance: real, duration: real,
              description: string, elevationGain: real, speed: real)
  {
    /** The `type` field: "running" exactly for a run, "cycling" exactly
        for a ride. */
    function Type(): (t: string)
      ensures t == RunningType <==> Running?
      ensures t == CyclingType <==> Cycling?
    {
      if Running? then RunningType else CyclingType
    }
  }

  const RunningType: string := "running"
  const CyclingType: string := "cycling"

  const Months: seq<string> :=
    ["January", "February", "March", "April", "May", "June", "July",
     "August", "September", "October", "November", "December"]

  /** The id: the last ten characters of the decimal string of the
      creation timestamp (the whole string when it is shorter). */
  function IdOf(millis: nat): (id: string)
    ensures 1 <= |id| <= 10 && IsDigits(id)
    ensures |id| == if |NatToString(millis)| <= 10 then |NatToString(millis)| else 10
    ensures NatToString(millis) == NatToString(millis)[..|NatToString(millis)| - |id|] + id
  {
    Suffix(NatToString(millis), 10)
  }

  /** ASCII upper-casing of one character. */
  function UpperCase(c: char): (u: char)
    ensures 'a' <= c <= 'z' ==> 'A' <= u <= 'Z' && u as int == c as int - 32
    ensures !('a' <= c <= 'z') ==> u == c
  {
    if 'a' <= c <= 'z' then (c as int - 32) as char else c
  }

  /** `s[0].toUpperCase() + s.slice(1)` */
  function Capitalize(s: string): (c: string)
    requires |s| > 0
    ensures |c| == |s| && c[1..] == s[1..]
    ensures 'a' <= s[0] <= 'z' ==> 'A' <= c[0] <= 'Z' && c[0] as int == s[0] as int - 32
    ensures !('a' <= s[0] <= 'z') ==> c == s
  {
    [UpperCase(s[0])] + s[1..]
  }

  /** The description label: the type capitalised, " on ", the month's
      name and the day of the month. */
  function Describe(typeName: string, date: Instant): (d: string)
    requires |typeName| > 0 && date.month < 12
    ensures |typeName| + 4 < |d| && d[..|typeName| + 4] == Capitalize(typeName) + " on "
    ensures var day := NatToString(date.day);
      |day| < |d| && d[|d| - |day|..] == day && Value(day) == date.day && d[|d| - |day| - 1] == ' '
  {
    ValueOfNatToString(date.day);
    Capitalize(typeName) + " on " + Months[date.month] + " " + NatToString(date.day)
  }

  /** Are distance/duration-derived metrics what the constructors compute?
      True of every constructed workout; a stored record need not satisfy it. */
  predicate MetricsDerived(w: Workout) {
    match w
    case Running(_, _, _, distance, duration, _, _, pace) =>
      distance != 0.0 && pace == CalcPace(distance, duration)
    case Cycling(_, _, _, distance, duration, _, _, speed) =>
      duration != 0.0 && speed == CalcSpeed(distance, duration)
  }

  /** `new Running(coords, distance, duration, cadence)` at time `now`. */
  function NewRunning(coords: Coords, distance: real, duration: real, cadence: real,
                      now: Instant): (w: Workout)
    requires distance != 0.0
    requires ValidInstant(now)
    ensures w.Running? && w.Type() == RunningType
    ensures w.coords == coords && w.distance == distance && w.duration == duration
    ensures w.cadence == cadence && w.date == now
    ensures w.pace == CalcPace(distance, duration)
    ensures w.id == IdOf(now.millis)
    ensures w.description == Describe(RunningType, now)
    ensures MetricsDerived(w)
  {
    Running(IdOf(now.millis), now, coords, distance, duration,
            Describe(RunningType, now), cadence, CalcPace(distance, duration))
  }

  /** `new Cycling(coords, distance, duration, elevationGain)` at time `now`. */
  function NewCycling(coords: Coords, distance: real, duration: real, elevationGain: real,
                      now: Instant): (w: Workout)
    requires duration != 0.0
    requires ValidInstant(now)
    ensures w.Cycling? && w.Type() == CyclingType
    ensures w.coords == coords && w.distance == distance && w.duration == duration
    ensures w.elevationGain == elevationGain && w.date == now
    ensures w.speed == CalcSpeed(distance, duration)
    ensures w.id == IdOf(now.millis)
    ensures w.description == Describe(CyclingType, now)
    ensures MetricsDerived(w)
  {
    Cycling(IdOf(now.millis), now, coords, distance, duration,
            Describe(CyclingType, now), elevationGain, CalcSpeed(distance, duration))
  }

  // ---------------------------------------------------------------------
  // Derived metrics

  /** `calcPace`: minutes per km. */
  function CalcPace(distance: real, duration: real): (pace: real)
    requires distance != 0.0
    ensures pace * distance == duration
  {
    duration / distance
  }

  /** `calcSpeed`: km per hour, from a duration in minutes. */
  function CalcSpeed(distance: real, duration: real): (speed: real)
    requires duration != 0.0
    ensures speed * duration == 60.0 * distance
  {
    var hours := duration / 60.0;
    assert hours != 0.0 && hours * 60.0 == duration;
    assert (distance / hours) * hours == distance;
    distance / hours
  }

  /** With a positive distance and duration, pace and speed are positive. */
  lemma DerivedMetricsPositive(w: Workout)
    requires MetricsDerived(w) && w.distance > 0.0 && w.duration > 0.0
    ensures w.Running? ==> w.pace > 0.0
    ensures w.Cycling? ==> w.speed > 0.0
  {
  }

  /** Pace (min/km) and speed (km/h) are reciprocal up to the factor 60:
      the same distance and duration give pace * speed == 60. */
  lemma PaceTimesSpeed(coords: Coords, distance: real, duration: real, cadence: real,
                       elevationGain: real, now: Instant)
    requires distance > 0.0 && duration > 0.0 && ValidInstant(now)
    ensures NewRunning(coords, distance, duration, cadence, now).pace
          * NewCycling(coords, distance, duration, elevationGain, now).speed == 60.0
  {
  }

  /** The example run at [30, 78]: 5.2 km in 24 min gives 60/13 min/km,
      about 4.615. */
  lemma RunningExample(now: Instant)
    requires ValidInstant(now)
    ensures NewRunning((30.0, 78.0), 5.2, 24.0, 178.0, now).pace == 60.0 / 13.0
    ensures 4.615 < NewRunning((30.0, 78.0), 5.2, 24.0, 178.0, now).pace < 4.616
  {
  }

  /** 20 km in 60 min is 20 km/h. */
  lemma CyclingExample(now: Instant)
    requires ValidInstant(now)
    ensures NewCycling((30.0, 78.0), 20.0, 60.0, 300.0, now).speed == 20.0
  {
  }

  // ---------------------------------------------------------------------
  // Ids

  /** For a timestamp of ten or more digits the id is its last ten digits,
      zero-padded, and denotes the timestamp modulo 10^10. */
  lemma IdOfLongTimestamp(millis: nat)
    requires millis >= Pow10(9)
    ensures IdOf(millis) == PadDigits(millis, 10)
    ensures |IdOf(millis)| == 10 && Value(IdOf(millis)) == millis % Pow10(10)
  {
    AtLeastDigits(millis, 10);
    SuffixOfNatToString(millis, 10);
    ValueOfPadDigits(millis, 10);
  }

  /** For a timestamp of fewer than ten digits the id is the whole decimal
      string, which reads back as the timestamp. */
  lemma IdOfShortTimestamp(millis: nat)
    requires millis < Pow10(9)
    ensures IdOf(millis) == NatToString(millis) && Value(IdOf(millis)) == millis
  {
    AtLeastDigits(millis, 10);
    ValueOfNatToString(millis);
  }

  /** Two timestamps of ten or more digits get the same id exactly when
      they agree modulo 10^10 ms: ids are not unique across that period. */
  lemma IdsEqualIff(a: nat, b: nat)
    requires a >= Pow10(9) && b >= Pow10(9)
    ensures IdOf(a) == IdOf(b) <==> a % Pow10(10) == b % Pow10(10)
  {
    IdOfLongTimestamp(a);
    IdOfLongTimestamp(b);
    PadDigitsEqual(a, b, 10);
  }

  /** Workouts created 10^10 ms (about 115.7 days) apart share an id. */
  lemma IdsRepeat(millis: nat)
    requires millis >= Pow10(9)
    ensures IdOf(millis + Pow10(10)) == IdOf(millis)
  {
    var period := Pow10(10);
    DivModUnique(millis + period, period, millis / period + 1, millis % period);
    IdsEqualIff(millis + period, millis);
  }

  // ---------------------------------------------------------------------
  // Descriptions, with a parser that reads a description back

  /** The first index of a space in s. */
  function FirstSpace(s: string): (r: Option<nat>)
    ensures r.Some? ==> r.value < |s| && s[r.value] == ' ' && ' ' !in s[..r.value]
    ensures r.None? ==> ' ' !in s
  {
    if s == [] then None
    else if s[0] == ' ' then Some(0)
    else match FirstSpace(s[1..])
      case None => None
      case Some(i) => Some(i + 1)
  }

  /** The zero-based number of a month name. */
  function MonthIndex(name: string): (r: Option<nat>)
    ensures r.Some? ==> r.value < 12 && Months[r.value] == name
    ensures r.None? ==> name !in Months
  {
    if name == "January" then Some(0)
    else if name == "February" then Some(1)
    else if name == "March" then Some(2)
    else if name == "April" then Some(3)
    else if name == "May" then Some(4)
    else if name == "June" then Some(5)
    else if name == "July" then Some(6)
    else if name == "August" then Some(7)
    else if name == "September" then Some(8)
    else if name == "October" then Some(9)
    else if name == "November" then Some(10)
    else if name == "December" then Some(11)
    else None
  }

  /** Reads "<Type> on <Month> <day>" back into the type name, the
      zero-based month and the day; the day must be plain decimal, with
      no leading zero, as `getDate()` is written into the label. */
  function ParseDescription(s: string): Option<(string, nat, nat)> {
    if |s| >= 11 && s[..11] == "Running on " then ParseDate(RunningType, s[11..])
    else if |s| >= 11 && s[..11] == "Cycling on " then ParseDate(CyclingType, s[11..])
    else None
  }

  function ParseDate(typeName: string, rest: string): Option<(string, nat, nat)> {
    match FirstSpace(rest)
    case None => None
    case Some(i) =>
      var day := rest[i + 1..];
      match MonthIndex(rest[..i])
      case None => None
      case Some(month) =>
        if day != [] && IsDigits(day) && (|day| == 1 || day[0] != '0') then Some((typeName, month, Value(day)))
        else None
  }

  lemma MonthNamesHaveNoSpace(m: nat)
    requires m < 12
    ensures ' ' !in Months[m]
  {
  }

  lemma {:induction false} FirstSpaceAfter(a: string, b: string)
    requires ' ' !in a
    ensures FirstSpace(a + " " + b) == Some(|a|)
  {
    if a != [] {
      assert (a + " " + b)[1..] == a[1..] + " " + b;
      FirstSpaceAfter(a[1..], b);
    }
  }

  /** The description determines the workout's type, month and day: it
      reads back as exactly what it was built from. */
  lemma DescribeParses(typeName: string, date: Instant)
    requires typeName == RunningType || typeName == CyclingType
    requires date.month < 12
    ensures ParseDescription(Describe(typeName, date)) == Some((typeName, date.month, date.day))
  {
    var rest := Months[date.month] + " " + NatToString(date.day);
    var head := Capitalize(typeName) + " on ";
    assert Describe(typeName, date) == head + rest;
    ParseAfterHead(typeName, rest);
    ParseDateOfRest(typeName, date);
  }

  /** After the "<Type> on " head, parsing goes on with the rest. */
  lemma ParseAfterHead(typeName: string, rest: string)
    requires typeName == RunningType || typeName == CyclingType
    ensures ParseDescription(Capitalize(typeName) + " on " + rest) == ParseDate(typeName, rest)
  {
    var head := Capitalize(typeName) + " on ";
    var s := head + rest;
    assert s[..11] == head && s[11..] == rest;
    CapitalizedTypes();
    if typeName == RunningType {
      assert head == "Running on ";
    } else {
      assert head == "Cycling on ";
      assert head[0] != "Running on "[0];
    }
  }

  lemma ParseDateOfRest(typeName: string, date: Instant)
    requires date.month < 12
    ensures ParseDate(typeName, Months[date.month] + " " + NatToString(date.day))
         == Some((typeName, date.month, date.day))
  {
    var name, day := Months[date.month], NatToString(date.day);
    var rest := name + " " + day;
    MonthNamesHaveNoSpace(date.month);
    FirstSpaceAfter(name, day);
    assert rest[..|name|] == name;
    assert rest[|name| + 1..] == day;
    assert MonthIndex(name) == Some(date.month);
    ValueOfNatToString(date.day);
    NatToStringNoLeadingZero(date.day);
  }

  lemma CapitalizedTypes()
    ensures Capitalize(RunningType) == "Running"
    ensures Capitalize(CyclingType) == "Cycling"
  {
  }

  /** A zero-padded day, such as "April 014", is not a label's day. */
  lemma PaddedDayRejected(typeName: string, month: nat, day: string)
    requires month < 12
    requires |day| > 1 && day[0] == '0'
    ensures ParseDate(typeName, Months[month] + " " + day) == None
  {
    var name := Months[month];
    var rest := name + " " + day;
    MonthNamesHaveNoSpace(month);
    FirstSpaceAfter(name, day);
    assert rest[|name| + 1..] == day;
  }

  /** The label of the example: a run on 14 April. */
  lemma DescribeExample(millis: nat)
    ensures Describe(RunningType, Instant(millis, 3, 14)) == "Running on April 14"
  {
  }
}

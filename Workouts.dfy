/**
  The workout records: a running or a cycling entry with its coordinates,
  distance (km) and duration (min), the metric derived from them (pace or
  speed), a description built from its type and creation date, and an id cut
  from the creation timestamp.

  Records are never changed after construction, so they are values here.
  Numbers are exact reals, not IEEE doubles.
*/
module Workouts {
  import opened Wrappers
  import opened Decimal

  /** `[lat, lng]` of the map click the record was made for. */
  type Coords = (real, real)

  /** `Date.getMonth()`: 0 for January up to 11 for December. */
  type MonthIndex = m: nat | m < 12

  /** `Date.getDate()`: the day of the month. */
  type DayOfMonth = d: nat | 1 <= d <= 31 witness 1

  datatype CalendarDate = CalendarDate(month: MonthIndex, day: DayOfMonth)

  /**
    What the two clock reads of a construction return: `Date.now()` in
    milliseconds (for the id) and the calendar date of `new Date()`.
  */
  datatype Clock = Clock(now: nat, date: CalendarDate)

  datatype WorkoutType = Running | Cycling {
    /** The `type` field of the record. */
    function Name(): string {
      match this
      case Running => "running"
      case Cycling => "cycling"
    }
  }

  /** The fields only one variant has: cadence and pace, or elevation gain and speed. */
  datatype Metrics =
    | RunningMetrics(cadence: real, pace: real)
    | CyclingMetrics(elevationGain: real, speed: real)

  datatype Workout = Workout(
    id: string,
    date: CalendarDate,
    coords: Coords,
    dist: real,
    duration: real,
    clicks: nat,
    description: string,
    metrics: Metrics)
  {
    function Type(): WorkoutType {
      if metrics.RunningMetrics? then Running else Cycling
    }
  }

  const Months: seq<string> := ["January", "February", "March", "April", "May", "June",
    "July", "August", "September", "October", "November", "December"]

  function MonthName(m: MonthIndex): string {
    Months[m]
  }

  /** `toUpperCase` on the letters a-z; every other character is kept. */
  function Upper(c: char): (u: char)
    ensures 'a' <= c <= 'z' ==> 'A' <= u <= 'Z' && u as int == c as int - 32
    ensures !('a' <= c <= 'z') ==> u == c
  {
    if 'a' <= c <= 'z' then (c as int - 32) as char else c
  }

  /** `t[0].toUpperCase() + t.slice(1)`. */
  function Capitalize(t: string): (r: string)
    requires |t| > 0
    ensures |r| == |t| && r[0] == Upper(t[0]) && r[1..] == t[1..]
  {
    [Upper(t[0])] + t[1..]
  }

  /** `_setDescription`: "<Type> on <Month> <day>". */
  function Description(kind: WorkoutType, date: CalendarDate): string {
    Capitalize(kind.Name()) + " on " + MonthName(date.month) + " " + NatToDecimal(date.day)
  }

  /** The `id` field: `(Date.now() + "").slice(-10)`. */
  function WorkoutId(now: nat): string {
    Suffix(NatToDecimal(now), 10)
  }

  /** `calcPace`: minutes per kilometre. */
  function Pace(dist: real, duration: real): (pace: real)
    requires dist != 0.0
    ensures pace * dist == duration
  {
    duration / dist
  }

  /** `calcSpeed`: kilometres per hour. */
  function Speed(dist: real, duration: real): (speed: real)
    requires duration != 0.0
    ensures speed * duration == 60.0 * dist
  {
    dist / (duration / 60.0)
  }

  /** What every constructed record satisfies: the derived fields agree with the stored ones. */
  predicate WellFormed(w: Workout) {
    && w.clicks == 0
    && w.description == Description(w.Type(), w.date)
    && match w.metrics
       case RunningMetrics(_, pace) => w.dist != 0.0 && pace == Pace(w.dist, w.duration)
       case CyclingMetrics(_, speed) => w.duration != 0.0 && speed == Speed(w.dist, w.duration)
  }

  /** `new Running(coords, dist, duration, cadence)`. */
  function NewRunning(coords: Coords, dist: real, duration: real, cadence: real, clock: Clock): (w: Workout)
    requires dist != 0.0
    ensures WellFormed(w) && w.Type() == Running
    ensures w.coords == coords && w.dist == dist && w.duration == duration
    ensures w.metrics == RunningMetrics(cadence, Pace(dist, duration))
    ensures w.id == WorkoutId(clock.now) && w.date == clock.date
  {
    Workout(WorkoutId(clock.now), clock.date, coords, dist, duration, 0,
            Description(Running, clock.date), RunningMetrics(cadence, Pace(dist, duration)))
  }

  /** `new Cycling(coords, dist, duration, elevationGain)`. */
  function NewCycling(coords: Coords, dist: real, duration: real, elevationGain: real, clock: Clock): (w: Workout)
    requires duration != 0.0
    ensures WellFormed(w) && w.Type() == Cycling
    ensures w.coords == coords && w.dist == dist && w.duration == duration
    ensures w.metrics == CyclingMetrics(elevationGain, Speed(dist, duration))
    ensures w.id == WorkoutId(clock.now) && w.date == clock.date
  {
    Workout(WorkoutId(clock.now), clock.date, coords, dist, duration, 0,
            Description(Cycling, clock.date), CyclingMetrics(elevationGain, Speed(dist, duration)))
  }

  /** Calling `calcPace` again on a running record returns the pace it already stores. */
  lemma CalcPaceAgrees(w: Workout)
    requires WellFormed(w) && w.Type() == Running
    ensures w.dist != 0.0 && Pace(w.dist, w.duration) == w.metrics.pace
    ensures w.metrics.pace * w.dist == w.duration
  {
  }

  /** Calling `calcSpeed` again on a cycling record returns the speed it already stores. */
  lemma CalcSpeedAgrees(w: Workout)
    requires WellFormed(w) && w.Type() == Cycling
    ensures w.duration != 0.0 && Speed(w.dist, w.duration) == w.metrics.speed
    ensures w.metrics.speed * w.duration == 60.0 * w.dist
  {
  }

  // ---------------------------------------------------------------------------
  // Description

  /** The description reads "Running on <Month> <day>" or "Cycling on <Month> <day>". */
  lemma DescriptionText(kind: WorkoutType, date: CalendarDate)
    ensures Description(kind, date) ==
      (if kind == Running then "Running" else "Cycling") + " on " + MonthName(date.month) + " " + NatToDecimal(date.day)
  {
    var c := Capitalize(kind.Name());
    if kind == Running {
      assert c == "Running";
    } else {
      assert c == "Cycling";
    }
  }

  /** The last index of `c` in `s`, if any. */
  function LastIndexOf(s: string, c: char): (r: Option<nat>)
    ensures r.Some? ==> r.value < |s| && s[r.value] == c
    ensures r.Some? ==> forall j :: r.value < j < |s| ==> s[j] != c
    ensures r.None? ==> forall j :: 0 <= j < |s| ==> s[j] != c
  {
    if s == [] then None
    else if s[|s| - 1] == c then Some(|s| - 1)
    else LastIndexOf(s[..|s| - 1], c)
  }

  /** The position of a month name in the table, if it is one. */
  function MonthIndexOf(name: string): (r: Option<MonthIndex>)
    ensures r.Some? ==> MonthName(r.value) == name
    ensures r.None? ==> forall m: MonthIndex :: MonthName(m) != name
  {
    FindMonthFrom(name, 0)
  }

  function FindMonthFrom(name: string, from: nat): (r: Option<MonthIndex>)
    requires from <= 12
    ensures r.Some? ==> from <= r.value && MonthName(r.value) == name
    ensures r.None? ==> forall m: MonthIndex :: from <= m ==> MonthName(m) != name
    decreases 12 - from
  {
    if from == 12 then None
    else if Months[from] == name then Some(from)
    else FindMonthFrom(name, from + 1)
  }

  /** No two months share a name. */
  lemma MonthNamesDistinct(i: MonthIndex, j: MonthIndex)
    requires MonthName(i) == MonthName(j)
    ensures i == j
  {
  }

  /** Reads "<Month> <day>" back into a calendar date; None for any other text. */
  function ParseDate(s: string): Option<CalendarDate> {
    var space := LastIndexOf(s, ' ');
    if space.None? then None
    else
      var month := MonthIndexOf(s[..space.value]);
      var digits := s[space.value + 1..];
      if month.None? || digits == [] || !IsDigits(digits) then None
      else
        var day := DecimalValue(digits);
        if 1 <= day <= 31 then Some(CalendarDate(month.value, day)) else None
  }

  /**
    Reads a description back into the type and the calendar date it was made
    from; None for text that is not a description.
  */
  function ParseDescription(s: string): Option<(WorkoutType, CalendarDate)> {
    if |s| < 11 || s[7..11] != " on " then None
    else if s[..7] != "Running" && s[..7] != "Cycling" then None
    else
      var kind := if s[..7] == "Running" then Running else Cycling;
      match ParseDate(s[11..])
      case None => None
      case Some(date) => Some((kind, date))
  }

  /** The last space of `a + " " + b` is the one after `a` when `b` has none. */
  lemma LastSpaceAfter(a: string, b: string)
    requires forall j :: 0 <= j < |b| ==> b[j] != ' '
    ensures LastIndexOf(a + " " + b, ' ') == Some(|a|)
  {
    var s := a + " " + b;
    var r := LastIndexOf(s, ' ');
    assert s[|a|] == ' ';
    assert r.Some?;
    if r.value > |a| {
      assert false;
    }
  }

  lemma MonthRoundTrip(m: MonthIndex)
    ensures MonthIndexOf(MonthName(m)) == Some(m)
  {
    var r := MonthIndexOf(MonthName(m));
    MonthNamesDistinct(r.value, m);
  }

  /** The "<Month> <day>" tail of a description reads back to its date. */
  lemma DateRoundTrip(date: CalendarDate)
    ensures ParseDate(MonthName(date.month) + " " + NatToDecimal(date.day)) == Some(date)
  {
    var name, digits := MonthName(date.month), NatToDecimal(date.day);
    var s := name + " " + digits;
    LastSpaceAfter(name, digits);
    assert s[..|name|] == name;
    assert s[|name| + 1..] == digits;
    MonthRoundTrip(date.month);
    DecimalRoundTrip(date.day);
  }

  /** The description determines the type and the creation date it was built from. */
  lemma DescriptionRoundTrip(kind: WorkoutType, date: CalendarDate)
    ensures ParseDescription(Description(kind, date)) == Some((kind, date))
  {
    var name := if kind == Running then "Running" else "Cycling";
    var rest := MonthName(date.month) + " " + NatToDecimal(date.day);
    var s := Description(kind, date);
    DescriptionText(kind, date);
    assert s == name + " on " + rest;
    ThreePartSlices(name, " on ", rest);
    DateRoundTrip(date);
  }

  /** The three parts of `a + b + c` are its slices at |a| and |a| + |b|. */
  lemma ThreePartSlices(a: string, b: string, c: string)
    ensures var s := a + b + c;
      s[..|a|] == a && s[|a|..|a| + |b|] == b && s[|a| + |b|..] == c
  {
  }

  /** Two records described alike have the same type and creation date. */
  lemma DescriptionInjective(k1: WorkoutType, d1: CalendarDate, k2: WorkoutType, d2: CalendarDate)
    requires Description(k1, d1) == Description(k2, d2)
    ensures k1 == k2 && d1 == d2
  {
    DescriptionRoundTrip(k1, d1);
    DescriptionRoundTrip(k2, d2);
  }

  // ---------------------------------------------------------------------------
  // Id

  /** The id is 1 to 10 decimal digits, exactly 10 once the timestamp has 10 digits. */
  lemma IdShape(now: nat)
    ensures IsDigits(WorkoutId(now)) && 1 <= |WorkoutId(now)| <= 10
    ensures now >= Pow10(9) ==> |WorkoutId(now)| == 10
  {
    var s := NatToDecimal(now);
    SuffixValue(now, 10);
    if now >= Pow10(9) && |s| < 10 {
      Pow10Monotone(|s|, 9);
      assert false;
    }
  }

  /** The id spells the timestamp modulo 10^10. */
  lemma IdValue(now: nat)
    ensures IsDigits(WorkoutId(now)) && DecimalValue(WorkoutId(now)) == now % Pow10(10)
  {
    SuffixValue(now, 10);
  }

  /** Records created less than 10^10 ms (about 115 days) apart get different ids. */
  lemma IdsDistinct(a: nat, b: nat)
    requires a < b < a + Pow10(10)
    ensures WorkoutId(a) != WorkoutId(b)
  {
    IdValue(a);
    IdValue(b);
    ModDistinctWhenClose(a, b, Pow10(10));
  }
}

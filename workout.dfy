/**
 * The workout record: the `Workout` base class and its two subclasses
 * `Running` and `Cycling`, as one tagged datatype. The derived fields
 * (`description`, and `pace` or `speed`) are computed once, by the
 * constructors, and no other operation here recomputes them.
 */
module Workouts {
  import opened Text

  /** `[lat, lng]` of the clicked map position. */
  type Coords = (real, real)

  /** `Date.prototype.getMonth()`: 0 is January. */
  type Month = m: int | 0 <= m < 12

  /** `Date.prototype.getDate()`: the day of the month. */
  type Day = d: int | 1 <= d <= 31 witness 1

  /** The part of the construction-time `new Date()` that the record uses. */
  datatype Date = Date(month: Month, day: Day)

  /** The value of the `type` class field, and of the form's type selector. */
  datatype WorkoutType = RunningType | CyclingType

  /** Fields every workout has (class `Workout`); distance in km, duration in min. */
  datatype Base = Base(
    date: Date,
    id: string,
    clicks: nat,
    coords: Coords,
    distance: real,
    duration: real,
    description: string)

  /** `Running` adds cadence (steps/min) and pace (min/km); `Cycling` adds elevation gain (m) and speed (km/h). */
  datatype Workout =
    | Running(base: Base, cadence: real, pace: real)
    | Cycling(base: Base, elevationGain: real, speed: real)

  function TypeOf(w: Workout): WorkoutType
  {
    if w.Running? then RunningType else CyclingType
  }

  /** The string stored in the `type` field. */
  function TypeName(t: WorkoutType): string
  {
    match t
    case RunningType => "running"
    case CyclingType => "cycling"
  }

  const MonthNames: seq<string> := [
    "January", "February", "March", "April", "May", "June", "July",
    "August", "September", "October", "November", "December"]

  /** `_setDescription`: the type with its first letter upper-cased, " on ", the month name, " ", the day. */
  function Description(typeName: string, date: Date): (d: string)
    requires |typeName| > 0
    ensures |typeName| + 4 < |d| && d[..|typeName|] == Capitalize(typeName)
    ensures d[|typeName|..|typeName| + 4] == " on "
    ensures d[|d| - |NatToString(date.day)|..] == NatToString(date.day)
  {
    Capitalize(typeName) + " on " + MonthNames[date.month] + " " + NatToString(date.day)
  }

  /** The capitalised type as it appears at the head of a description. */
  function Label(t: WorkoutType): string
  {
    match t
    case RunningType => "Running"
    case CyclingType => "Cycling"
  }

  /** `calcPace`: minutes per km. */
  function Pace(distance: real, duration: real): (pace: real)
    requires distance != 0.0
    ensures pace * distance == duration
    ensures distance > 0.0 && duration > 0.0 ==> pace > 0.0
  {
    duration / distance
  }

  /** `calcSpeed`: km per hour, the duration being in minutes. */
  function Speed(distance: real, duration: real): (speed: real)
    requires duration != 0.0
    ensures speed * duration == 60.0 * distance
    ensures distance > 0.0 && duration > 0.0 ==> speed > 0.0
  {
    distance / (duration / 60.0)
  }

  /** `new Running(coords, distance, duration, cadence)`, with the clock's id and date passed in. */
  function NewRunning(coords: Coords, distance: real, duration: real, cadence: real, id: string, date: Date): (w: Workout)
    requires distance != 0.0
    ensures TypeOf(w) == RunningType && w.cadence == cadence
    ensures w.base.id == id && w.base.date == date && w.base.clicks == 0 && w.base.coords == coords
    ensures w.base.distance == distance && w.base.duration == duration
    ensures w.base.description == Description(TypeName(RunningType), date)
    ensures w.pace * distance == duration
    ensures distance > 0.0 && duration > 0.0 ==> w.pace > 0.0
  {
    var base := Base(date, id, 0, coords, distance, duration, Description(TypeName(RunningType), date));
    Running(base, cadence, Pace(distance, duration))
  }

  /** `new Cycling(coords, distance, duration, elevationGain)`, with the clock's id and date passed in. */
  function NewCycling(coords: Coords, distance: real, duration: real, elevationGain: real, id: string, date: Date): (w: Workout)
    requires duration != 0.0
    ensures TypeOf(w) == CyclingType && w.elevationGain == elevationGain
    ensures w.base.id == id && w.base.date == date && w.base.clicks == 0 && w.base.coords == coords
    ensures w.base.distance == distance && w.base.duration == duration
    ensures w.base.description == Description(TypeName(CyclingType), date)
    ensures w.speed * duration == 60.0 * distance
    ensures distance > 0.0 && duration > 0.0 ==> w.speed > 0.0
  {
    var base := Base(date, id, 0, coords, distance, duration, Description(TypeName(CyclingType), date));
    Cycling(base, elevationGain, Speed(distance, duration))
  }

  /** `click()`: one more click, and nothing else about the record changes. */
  function Click(w: Workout): (r: Workout)
    ensures r.base.clicks == w.base.clicks + 1
    ensures r.base.(clicks := w.base.clicks) == w.base
    ensures r.(base := w.base) == w
  {
    w.(base := w.base.(clicks := w.base.clicks + 1))
  }

  /** The form values an edit writes back, after `+value` coercion. */
  datatype EditInput = EditInput(distance: real, duration: real, cadence: real, elevation: real)

  /**
   * The overwrite `_updateWorkout` performs on one entry: distance and
   * duration, then cadence for a running entry or elevation gain for a
   * cycling one. Pace, speed and description keep their old values.
   */
  function Overwrite(w: Workout, e: EditInput): (r: Workout)
    ensures TypeOf(r) == TypeOf(w)
    ensures r.base == w.base.(distance := e.distance, duration := e.duration)
    ensures r.Running? ==> r.cadence == e.cadence && r.pace == w.pace
    ensures r.Cycling? ==> r.elevationGain == e.elevation && r.speed == w.speed
  {
    var base := w.base.(distance := e.distance, duration := e.duration);
    match w
    case Running(_, _, pace) => Running(base, e.cadence, pace)
    case Cycling(_, _, speed) => Cycling(base, e.elevation, speed)
  }

  /** The description of a new workout reads "Running on <month> <day>" or "Cycling on <month> <day>". */
  lemma DescriptionFormat(t: WorkoutType, date: Date)
    ensures Description(TypeName(t), date)
         == Label(t) + " on " + MonthNames[date.month] + " " + NatToString(date.day)
  {
  }

  /** The example: a run on the 5th of March. */
  lemma DescriptionExample()
    ensures Description(TypeName(RunningType), Date(2, 5)) == "Running on March 5"
  {
  }

  lemma MonthNamesHaveNoSpace(m: Month)
    ensures ' ' !in MonthNames[m]
  {
  }

  lemma MonthNamesDistinct(m: Month, n: Month)
    requires MonthNames[m] == MonthNames[n]
    ensures m == n
  {
  }

  lemma LabelThenRest(t: WorkoutType, m: string, day: string)
    ensures |Label(t) + " on "| == 11
    ensures Label(t) + " on " + m + " " + day == (Label(t) + " on ") + (m + " " + day)
  {
  }

  /** A description determines the type, the month and the day it was built from. */
  lemma {:induction false} DescriptionDetermines(t: WorkoutType, d: Date, u: WorkoutType, e: Date)
    requires Description(TypeName(t), d) == Description(TypeName(u), e)
    ensures t == u && d == e
  {
    DescriptionFormat(t, d);
    DescriptionFormat(u, e);
    var rest := MonthNames[d.month] + " " + NatToString(d.day);
    var rest' := MonthNames[e.month] + " " + NatToString(e.day);
    LabelThenRest(t, MonthNames[d.month], NatToString(d.day));
    LabelThenRest(u, MonthNames[e.month], NatToString(e.day));
    SplitAtLength(Label(t) + " on ", rest, Label(u) + " on ", rest');
    assert Label(t) == (Label(t) + " on ")[..7];
    assert Label(u) == (Label(u) + " on ")[..7];
    MonthNamesHaveNoSpace(d.month);
    MonthNamesHaveNoSpace(e.month);
    SplitAtSpace(MonthNames[d.month], NatToString(d.day), MonthNames[e.month], NatToString(e.day));
    MonthNamesDistinct(d.month, e.month);
    NatToStringInjective(d.day, e.day);
  }

  /** The two examples of a new running and a new cycling workout. */
  lemma MetricExamples(coords: Coords, id: string, date: Date)
    ensures NewRunning(coords, 5.2, 24.0, 178.0, id, date).pace == 60.0 / 13.0
    ensures NewCycling(coords, 27.0, 95.0, 523.0, id, date).speed == 324.0 / 19.0
  {
  }

  /**
   * Editing does not keep the derived metric in step with the new values:
   * a 5 km run of 25 min has pace 5; edited to 10 km it still has pace 5.
   */
  lemma EditLeavesPaceStale(coords: Coords, id: string, date: Date)
    ensures var w := Overwrite(NewRunning(coords, 5.0, 25.0, 170.0, id, date), EditInput(10.0, 25.0, 170.0, 0.0));
            w.pace == 5.0 && w.pace * w.base.distance != w.base.duration
  {
  }
}

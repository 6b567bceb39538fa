/**
 * What `_setLocalStorage` writes and `_getLocalStorage` reads back. The JSON
 * text itself is not modelled: a stored entry is a plain record carrying its
 * `type` tag, the shared fields, and the two numbers its variant owns.
 */
module Storage {
  import opened Wrappers
  import opened Workouts

  /**
   * A plain object as `JSON.parse` returns it: `attribute` is the cadence or
   * the elevation gain, `metric` the pace or the speed.
   */
  datatype Record = Record(tag: string, base: Base, attribute: real, metric: real)

  /** One workout as `JSON.stringify` writes it. */
  function ToRecord(w: Workout): (r: Record)
    ensures r.base == w.base
    ensures w.Running? ==> r.tag == "running" && r.attribute == w.cadence && r.metric == w.pace
    ensures w.Cycling? ==> r.tag == "cycling" && r.attribute == w.elevationGain && r.metric == w.speed
  {
    match w
    case Running(base, cadence, pace) => Record(TypeName(RunningType), base, cadence, pace)
    case Cycling(base, elevationGain, speed) => Record(TypeName(CyclingType), base, elevationGain, speed)
  }

  /** The stored list: one plain record per workout, in list order. */
  function Serialize(ws: seq<Workout>): (rs: seq<Record>)
    ensures |rs| == |ws|
    ensures forall i :: 0 <= i < |ws| ==> rs[i] == ToRecord(ws[i])
  {
    seq(|ws|, i requires 0 <= i < |ws| => ToRecord(ws[i]))
  }

  predicate KnownTag(tag: string)
  {
    tag == TypeName(RunningType) || tag == TypeName(CyclingType)
  }

  /**
   * The callback of the `map` in `_getLocalStorage`: `Object.assign` onto a
   * fresh `Running` or `Cycling` chosen by the tag; any other tag gives
   * `undefined`.
   */
  function Retag(r: Record): (w: Option<Workout>)
    ensures w.Some? <==> KnownTag(r.tag)
    ensures w.Some? ==> TypeName(TypeOf(w.value)) == r.tag && ToRecord(w.value) == r
  {
    if r.tag == TypeName(RunningType) then Some(Running(r.base, r.attribute, r.metric))
    else if r.tag == TypeName(CyclingType) then Some(Cycling(r.base, r.attribute, r.metric))
    else None
  }

  /** The `map` itself: same length, same order, entry `i` re-tagged from record `i`. */
  function RetagAll(rs: seq<Record>): (ws: seq<Option<Workout>>)
    ensures |ws| == |rs|
    ensures forall i :: 0 <= i < |rs| ==> ws[i] == Retag(rs[i])
  {
    seq(|rs|, i requires 0 <= i < |rs| => Retag(rs[i]))
  }

  /**
   * The list the application keeps after loading: defined when every entry
   * was re-tagged; an `undefined` entry makes the rendering that follows the
   * load throw, which the model reports as `None`.
   */
  function Restore(rs: seq<Record>): (r: Option<seq<Workout>>)
    ensures r.Some? <==> forall i :: 0 <= i < |rs| ==> KnownTag(rs[i].tag)
    ensures r.Some? ==> Serialize(r.value) == rs
  {
    var ws := RetagAll(rs);
    if forall i :: 0 <= i < |ws| ==> ws[i].Some?
    then Some(seq(|ws|, i requires 0 <= i < |ws| => ws[i].value))
    else None
  }

  /** Re-tagging a stored workout gives that workout back. */
  lemma RetagToRecord(w: Workout)
    ensures Retag(ToRecord(w)) == Some(w)
  {
  }

  /** Storing a list and loading it again gives the same list, entry for entry. */
  lemma RestoreSerialize(ws: seq<Workout>)
    ensures Restore(Serialize(ws)) == Some(ws)
  {
    var rs := Serialize(ws);
    forall i | 0 <= i < |rs|
      ensures RetagAll(rs)[i] == Some(ws[i])
    {
      RetagToRecord(ws[i]);
    }
    var back := Restore(rs).value;
    assert |back| == |ws| && forall i :: 0 <= i < |ws| ==> back[i] == ws[i];
    assert back == ws;
  }
}

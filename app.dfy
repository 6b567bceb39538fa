/**
 * The `App` controller's list of workouts (`#workouts`) and the operations
 * its event handlers perform on it, together with the `localStorage` entry
 * every mutating handler writes. Map, DOM and rendering calls are not part
 * of this model.
 */
module Mapty {
  import opened Wrappers
  import opened Workouts
  import opened Validation
  import opened Storage

  /**
   * The workout `_newWorkout` builds from a submitted form, or `None` when
   * the check for the selected type fails and the handler returns early.
   */
  function Submit(f: Form, coords: Coords, id: string, date: Date): (r: Option<Workout>)
    ensures r.Some? <==> FormValid(f)
    ensures r.Some? ==> TypeOf(r.value) == f.workoutType
    ensures r.Some? ==> r.value.base.id == id && r.value.base.coords == coords && r.value.base.clicks == 0
    ensures r.Some? ==> r.value.base.date == date
    ensures r.Some? ==> r.value.base.distance == f.distance.value && r.value.base.duration == f.duration.value
    ensures r.Some? ==> r.value.base.description == Description(TypeName(f.workoutType), date)
    ensures r.Some? && r.value.Running? ==>
              r.value.cadence == f.cadence.value && r.value.pace > 0.0
              && r.value.pace * r.value.base.distance == r.value.base.duration
    ensures r.Some? && r.value.Cycling? ==>
              r.value.elevationGain == f.elevation.value && r.value.speed > 0.0
              && r.value.speed * r.value.base.duration == 60.0 * r.value.base.distance
  {
    match f.workoutType
    case RunningType =>
      if !RunningInputsValid(f.distance, f.duration, f.cadence) then None
      else Some(NewRunning(coords, f.distance.value, f.duration.value, f.cadence.value, id, date))
    case CyclingType =>
      if !CyclingInputsValid(f.distance, f.duration, f.elevation) then None
      else Some(NewCycling(coords, f.distance.value, f.duration.value, f.elevation.value, id, date))
  }

  /** No two entries share an id. */
  predicate UniqueIds(ws: seq<Workout>)
  {
    forall i, j :: 0 <= i < j < |ws| ==> ws[i].base.id != ws[j].base.id
  }

  /** `workouts.filter(workout => workout.id !== workoutId)`. */
  function WithoutId(ws: seq<Workout>, id: string): (r: seq<Workout>)
    ensures |r| <= |ws|
    ensures forall w :: w in r <==> w in ws && w.base.id != id
  {
    if ws == [] then []
    else if ws[0].base.id != id then [ws[0]] + WithoutId(ws[1..], id)
    else WithoutId(ws[1..], id)
  }

  /** Filtering a one-entry list keeps the entry exactly when its id differs. */
  lemma WithoutIdSingle(w: Workout, id: string)
    ensures WithoutId([w], id) == if w.base.id != id then [w] else []
  {
    assert [w][1..] == [];
  }

  /**
   * Filtering distributes over concatenation; with WithoutIdSingle this fixes
   * the result entry by entry: the kept entries, each as often as it occurs, in
   * their original order, whether or not ids are unique.
   */
  lemma {:induction false} WithoutIdConcat(a: seq<Workout>, b: seq<Workout>, id: string)
    ensures WithoutId(a + b, id) == WithoutId(a, id) + WithoutId(b, id)
    decreases |a|
  {
    if a == [] {
      assert a + b == b;
    } else {
      assert (a + b)[0] == a[0] && (a + b)[1..] == a[1..] + b;
      WithoutIdConcat(a[1..], b, id);
    }
  }

  /** Deleting by a shared id: `[a, b, a]` without `b`'s id keeps both copies of `a`. */
  lemma WithoutIdKeepsDuplicates(x: Workout, y: Workout)
    requires x.base.id != y.base.id
    ensures WithoutId([x, y, x], y.base.id) == [x, x]
  {
    WithoutIdConcat([x], [y, x], y.base.id);
    WithoutIdConcat([y], [x], y.base.id);
    WithoutIdSingle(x, y.base.id);
    WithoutIdSingle(y, y.base.id);
    assert [x, y, x] == [x] + ([y] + [x]);
  }

  /** `workouts.find(w => w.id === id)`: the first entry with that id, if any. */
  function FindById(ws: seq<Workout>, id: string): (r: Option<Workout>)
    ensures r.None? <==> forall k :: 0 <= k < |ws| ==> ws[k].base.id != id
    ensures r.Some? ==> exists k :: 0 <= k < |ws| && ws[k] == r.value && r.value.base.id == id
                                    && forall j :: 0 <= j < k ==> ws[j].base.id != id
  {
    if ws == [] then None
    else if ws[0].base.id == id then Some(ws[0])
    else FindById(ws[1..], id)
  }

  /** Deleting an id that no entry has leaves the list as it is. */
  lemma {:induction false} WithoutIdAbsent(ws: seq<Workout>, id: string)
    requires forall k :: 0 <= k < |ws| ==> ws[k].base.id != id
    ensures WithoutId(ws, id) == ws
  {
    if ws != [] {
      WithoutIdAbsent(ws[1..], id);
      assert [ws[0]] + ws[1..] == ws;
    }
  }

  /** With unique ids, deleting the id of entry `k` removes that entry and keeps the others in order. */
  lemma {:induction false} WithoutIdRemovesOne(ws: seq<Workout>, k: nat)
    requires UniqueIds(ws) && k < |ws|
    ensures WithoutId(ws, ws[k].base.id) == ws[..k] + ws[k + 1..]
  {
    var id := ws[k].base.id;
    if k == 0 {
      WithoutIdAbsent(ws[1..], id);
    } else {
      var tail := ws[1..];
      assert tail[k - 1] == ws[k];
      WithoutIdRemovesOne(tail, k - 1);
      assert ws[..k] + ws[k + 1..] == [ws[0]] + (tail[..k - 1] + tail[k..]);
    }
  }

  /** With unique ids, a delete shortens the list by one exactly when the id is present. */
  lemma DeleteLength(ws: seq<Workout>, id: string)
    requires UniqueIds(ws)
    ensures (exists k :: 0 <= k < |ws| && ws[k].base.id == id) ==> |WithoutId(ws, id)| == |ws| - 1
    ensures (forall k :: 0 <= k < |ws| ==> ws[k].base.id != id) ==> WithoutId(ws, id) == ws
  {
    if k :| 0 <= k < |ws| && ws[k].base.id == id {
      WithoutIdRemovesOne(ws, k);
    } else {
      WithoutIdAbsent(ws, id);
    }
  }

  /** The application state this model keeps: the list and its stored copy. */
  class App {
    /** `#workouts`. */
    var workouts: seq<Workout>
    /** The `workouts` key of `localStorage`: absent, or the stored list of plain records. */
    var stored: Option<seq<Record>>

    /** The stored list equals the in-memory list (and nothing is stored only while the list is empty). */
    ghost predicate Persisted()
      reads this
    {
      match stored
      case None => workouts == []
      case Some(rs) => rs == Serialize(workouts)
    }

    /** The field initialiser `#workouts = []`; `storage` is what a previous session left. */
    constructor(storage: Option<seq<Record>>)
      ensures workouts == [] && stored == storage
    {
      workouts := [];
      stored := storage;
    }

    /**
     * `_getLocalStorage`: nothing stored leaves the list alone; otherwise the
     * records are re-tagged, and `ok` is false when one of them had neither tag.
     */
    method Load() returns (ok: bool)
      modifies this
      ensures stored == old(stored)
      ensures ok <==> stored.None? || Restore(stored.value).Some?
      ensures ok && stored.Some? ==> workouts == Restore(stored.value).value && Persisted()
      ensures !ok || stored.None? ==> workouts == old(workouts)
    {
      if stored.None? {
        return true;
      }
      var restored := Restore(stored.value);
      if restored.None? {
        return false;
      }
      workouts := restored.value;
      ok := true;
    }

    /**
     * `_newWorkout`: a form that fails its check changes nothing; a valid one
     * appends exactly one workout at the end and stores the new list.
     */
    method NewWorkout(f: Form, coords: Coords, id: string, date: Date) returns (created: bool)
      modifies this
      ensures created <==> FormValid(f)
      ensures created ==> workouts == old(workouts) + [Submit(f, coords, id, date).value]
                          && stored == Some(Serialize(workouts)) && Persisted()
      ensures !created ==> workouts == old(workouts) && stored == old(stored)
    {
      var w := Submit(f, coords, id, date);
      if w.None? {
        return false;
      }
      workouts := workouts + [w.value];
      stored := Some(Serialize(workouts));
      created := true;
    }

    /** The lookup in `_moveToPopup`: the position the map is centred on. */
    method MoveToPopup(id: string) returns (center: Option<Coords>)
      ensures center.Some? <==> exists k :: 0 <= k < |workouts| && workouts[k].base.id == id
      ensures center.Some? ==> exists k :: 0 <= k < |workouts| && workouts[k].base.id == id
                                           && center.value == workouts[k].base.coords
                                           && forall j :: 0 <= j < k ==> workouts[j].base.id != id
    {
      var w := FindById(workouts, id);
      center := if w.Some? then Some(w.value.base.coords) else None;
    }

    /** The `forEach` of `_editWorkout`: the indices, in order, whose entry has the clicked id. */
    method EditTargets(id: string) returns (indices: seq<nat>)
      ensures forall k: nat :: k in indices <==> k < |workouts| && workouts[k].base.id == id
      ensures forall a, b :: 0 <= a < b < |indices| ==> indices[a] < indices[b]
      ensures UniqueIds(workouts) ==> |indices| <= 1
    {
      indices := [];
      var i := 0;
      while i < |workouts|
        invariant 0 <= i <= |workouts|
        invariant forall k: nat :: k in indices <==> k < i && workouts[k].base.id == id
        invariant forall a :: 0 <= a < |indices| ==> indices[a] < i
        invariant forall a, b :: 0 <= a < b < |indices| ==> indices[a] < indices[b]
      {
        if workouts[i].base.id == id {
          indices := indices + [i];
        }
        i := i + 1;
      }
      if |indices| > 1 {
        assert indices[0] in indices && indices[1] in indices;
        assert workouts[indices[0]].base.id == workouts[indices[1]].base.id;
      }
    }

    /**
     * The submit listener `_updateWorkout(index)` installs: overwrite the
     * entry at `index` (derived fields untouched), store the list.
     */
    method UpdateWorkout(index: nat, e: EditInput)
      requires index < |workouts|
      modifies this
      ensures workouts == old(workouts)[index := Overwrite(old(workouts)[index], e)]
      ensures stored == Some(Serialize(workouts)) && Persisted()
    {
      workouts := workouts[index := Overwrite(workouts[index], e)];
      stored := Some(Serialize(workouts));
    }

    /**
     * One edit: `_editWorkout` installs a listener for every entry with the
     * id, and the form's submission runs them all. Entries with other ids
     * are untouched; the list is stored when at least one entry matched.
     */
    method EditWorkout(id: string, e: EditInput)
      modifies this
      ensures |workouts| == |old(workouts)|
      ensures forall k :: 0 <= k < |workouts| ==>
                workouts[k] == if old(workouts)[k].base.id == id then Overwrite(old(workouts)[k], e) else old(workouts)[k]
      ensures (exists k :: 0 <= k < |workouts| && old(workouts)[k].base.id == id) ==> stored == Some(Serialize(workouts))
      ensures (forall k :: 0 <= k < |workouts| ==> old(workouts)[k].base.id != id) ==> stored == old(stored)
    {
      var targets := EditTargets(id);
      ghost var before := workouts;
      var j := 0;
      while j < |targets|
        invariant 0 <= j <= |targets|
        invariant |workouts| == |before|
        invariant forall k :: 0 <= k < |workouts| ==>
                    workouts[k] == if k in targets[..j] then Overwrite(before[k], e) else before[k]
        invariant j > 0 ==> stored == Some(Serialize(workouts))
        invariant j == 0 ==> stored == old(stored)
      {
        var t := targets[j];
        assert t in targets && t !in targets[..j];
        UpdateWorkout(t, e);
        assert targets[..j + 1] == targets[..j] + [t];
        j := j + 1;
      }
      assert targets[..j] == targets;
      if |targets| > 0 {
        assert targets[0] in targets;
      }
      if exists k :: 0 <= k < |workouts| && before[k].base.id == id {
        var k :| 0 <= k < |workouts| && before[k].base.id == id;
        assert k in targets;
      }
    }

    /** `_deleteWorkout`: keep the entries whose id differs, store the list. */
    method DeleteWorkout(id: string)
      modifies this
      ensures workouts == WithoutId(old(workouts), id)
      ensures stored == Some(Serialize(workouts)) && Persisted()
    {
      workouts := WithoutId(workouts, id);
      stored := Some(Serialize(workouts));
    }

    /** `_resetApp`: remove the stored list and empty the in-memory one. */
    method Reset()
      modifies this
      ensures workouts == [] && stored == None && Persisted()
    {
      stored := None;
      workouts := [];
    }

    /**
     * `location.reload()` after a handler: a new application loads what was
     * stored. When the stored list equals the in-memory one, loading succeeds
     * and gives back the same list.
     */
    method Reload() returns (next: App, ok: bool)
      ensures fresh(next) && next.stored == stored
      ensures ok <==> stored.None? || Restore(stored.value).Some?
      ensures ok && stored.Some? ==> next.workouts == Restore(stored.value).value
      ensures stored.None? ==> next.workouts == []
      ensures Persisted() ==> ok && next.workouts == workouts
    {
      next := new App(stored);
      ok := next.Load();
      if stored.Some? {
        RestoreSerialize(workouts);
      }
    }
  }
}

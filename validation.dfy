/**
 * Input validation of a new workout (`_newWorkout`): the form's values after
 * `+value` coercion, checked by `validateInputs` (every value finite) and
 * `allPositive` (every value greater than zero).
 */
module Validation {
  import opened Workouts

  /** A JavaScript number as coercion can produce it: finite, NaN, or an infinity. */
  datatype Num = Finite(value: real) | NaN | PositiveInfinity | NegativeInfinity

  /** `Number.isFinite`. */
  predicate IsFinite(n: Num)
  {
    n.Finite?
  }

  /** `n > 0` in JavaScript: false for NaN and for negative infinity, true for positive infinity. */
  predicate IsPositive(n: Num)
  {
    match n
    case Finite(v) => v > 0.0
    case PositiveInfinity => true
    case _ => false
  }

  /** `validateInputs(...inputs)`: `every` input is finite. */
  predicate AllFinite(inputs: seq<Num>)
    ensures AllFinite(inputs) <==> forall i :: 0 <= i < |inputs| ==>
              inputs[i] != NaN && inputs[i] != PositiveInfinity && inputs[i] != NegativeInfinity
  {
    forall i :: 0 <= i < |inputs| ==> IsFinite(inputs[i])
  }

  /** `allPositive(...inputs)`: `every` input is greater than zero. */
  predicate AllPositive(inputs: seq<Num>)
    ensures AllPositive(inputs) ==> forall i :: 0 <= i < |inputs| ==> inputs[i] != NaN && inputs[i] != NegativeInfinity
    ensures AllFinite(inputs) ==>
              (AllPositive(inputs) <==> forall i :: 0 <= i < |inputs| ==> inputs[i].Finite? && inputs[i].value > 0.0)
  {
    forall i :: 0 <= i < |inputs| ==> IsPositive(inputs[i])
  }

  /** The running check: distance, duration and cadence finite and positive. */
  function RunningInputsValid(distance: Num, duration: Num, cadence: Num): (ok: bool)
    ensures ok <==> distance.Finite? && duration.Finite? && cadence.Finite?
                    && distance.value > 0.0 && duration.value > 0.0 && cadence.value > 0.0
  {
    var inputs := [distance, duration, cadence];
    assert inputs[0] == distance && inputs[1] == duration && inputs[2] == cadence;
    AllFinite(inputs) && AllPositive(inputs)
  }

  /** The cycling check: all three finite, but only distance and duration positive. */
  function CyclingInputsValid(distance: Num, duration: Num, elevation: Num): (ok: bool)
    ensures ok <==> distance.Finite? && duration.Finite? && elevation.Finite?
                    && distance.value > 0.0 && duration.value > 0.0
  {
    var inputs := [distance, duration, elevation];
    var positives := [distance, duration];
    assert inputs[0] == positives[0] == distance && inputs[1] == positives[1] == duration && inputs[2] == elevation;
    AllFinite(inputs) && AllPositive(positives)
  }

  /** The submitted form: the type selector and the four coerced number inputs. */
  datatype Form = Form(workoutType: WorkoutType, distance: Num, duration: Num, cadence: Num, elevation: Num)

  /** The check `_newWorkout` applies for the selected type. */
  function FormValid(f: Form): (ok: bool)
    ensures ok ==> f.distance.Finite? && f.duration.Finite?
                   && f.distance.value > 0.0 && f.duration.value > 0.0
  {
    match f.workoutType
    case RunningType => RunningInputsValid(f.distance, f.duration, f.cadence)
    case CyclingType => CyclingInputsValid(f.distance, f.duration, f.elevation)
  }

  /** A cycling entry with zero or negative elevation gain passes the check; a running one with such a cadence does not. */
  lemma ElevationNeedNotBePositive(distance: real, duration: real, x: real)
    requires distance > 0.0 && duration > 0.0 && x <= 0.0
    ensures CyclingInputsValid(Finite(distance), Finite(duration), Finite(x))
    ensures !RunningInputsValid(Finite(distance), Finite(duration), Finite(x))
  {
  }
}

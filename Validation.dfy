/**
  The checks `_newWorkout` applies to a form submission, and the record a
  submission produces when they pass.

  A form field reaches the check as a JavaScript Number (`+input.value`);
  that conversion is not modelled, so a field is given here as the Number it
  converts to: a finite real, NaN, or one of the two infinities. An empty
  field converts to `Finite(0.0)`.
*/
module Validation {
  import opened Wrappers
  import opened Workouts

  datatype Num = Finite(value: real) | NaN | Infinity | NegInfinity

  /** `Number.isFinite(x)`. */
  predicate IsFinite(x: Num) {
    x.Finite?
  }

  /** `x > 0`: NaN and -Infinity compare false, +Infinity compares true. */
  predicate IsPositive(x: Num) {
    match x
    case Finite(v) => v > 0.0
    case Infinity => true
    case _ => false
  }

  /** `validInputs(...inputs)`: `every` input, taken from the first, is finite. */
  function ValidInputs(inputs: seq<Num>): (ok: bool)
    ensures ok <==> forall i :: 0 <= i < |inputs| ==> IsFinite(inputs[i])
  {
    inputs == [] || (IsFinite(inputs[0]) && ValidInputs(inputs[1..]))
  }

  /** `allPositive(...inputs)`: `every` input, taken from the first, is greater than zero. */
  function AllPositive(inputs: seq<Num>): (ok: bool)
    ensures ok <==> forall i :: 0 <= i < |inputs| ==> IsPositive(inputs[i])
  {
    inputs == [] || (IsPositive(inputs[0]) && AllPositive(inputs[1..]))
  }

  /** How the two tests treat each kind of Number: only a finite real above zero passes both. */
  lemma NumberTests(x: Num)
    ensures !IsFinite(NaN) && !IsPositive(NaN)
    ensures !IsFinite(Infinity) && IsPositive(Infinity)
    ensures !IsFinite(NegInfinity) && !IsPositive(NegInfinity)
    ensures IsFinite(x) && IsPositive(x) <==> x.Finite? && x.value > 0.0
  {
  }

  /**
    The guard of the running branch: a running submission passes exactly
    when distance, duration and cadence are finite reals above zero.
  */
  function RunningInputAccepted(distance: Num, duration: Num, cadence: Num): (ok: bool)
    ensures ok <==>
      && distance.Finite? && duration.Finite? && cadence.Finite?
      && distance.value > 0.0 && duration.value > 0.0 && cadence.value > 0.0
  {
    var inputs := [distance, duration, cadence];
    assert inputs[0] == distance && inputs[1] == duration && inputs[2] == cadence;
    ValidInputs(inputs) && AllPositive(inputs)
  }

  /**
    The guard of the cycling branch: a cycling submission passes exactly when
    all three fields are finite and distance and duration are above zero; the
    elevation may be any finite number, zero and negative included.
  */
  function CyclingInputAccepted(distance: Num, duration: Num, elevation: Num): (ok: bool)
    ensures ok <==>
      && distance.Finite? && duration.Finite? && elevation.Finite?
      && distance.value > 0.0 && duration.value > 0.0
  {
    var inputs := [distance, duration, elevation];
    assert inputs[0] == distance && inputs[1] == duration && inputs[2] == elevation;
    assert inputs[..2] == [distance, duration];
    ValidInputs(inputs) && AllPositive(inputs[..2])
  }

  /** Why a submission adds nothing. */
  datatype SubmitError =
    /** No map click yet: reading `#mapEvent.latlng` throws before any check. */
    | NoPendingClick
    /** The "Inputs have to be positive number" alert. */
    | InvalidInput

  /**
    The outcome of `_newWorkout` for the workout type, the three numeric
    fields (cadence for running, elevation for cycling as `extra`), the
    pending map click and the clock: the new record, or why there is none.
  */
  function Submit(pending: Option<Coords>, kind: WorkoutType, distance: Num, duration: Num, extra: Num, clock: Clock)
    : (r: Result<Workout, SubmitError>)
    ensures pending.None? <==> r == Err(NoPendingClick)
    ensures pending.Some? && kind == Running ==>
      (r.Ok? <==> && distance.Finite? && duration.Finite? && extra.Finite?
                  && distance.value > 0.0 && duration.value > 0.0 && extra.value > 0.0)
    ensures pending.Some? && kind == Cycling ==>
      (r.Ok? <==> && distance.Finite? && duration.Finite? && extra.Finite?
                  && distance.value > 0.0 && duration.value > 0.0)
    ensures r.Err? ==> r.error == NoPendingClick || r.error == InvalidInput
    ensures r.Ok? ==>
      && pending.Some? && distance.Finite? && duration.Finite? && extra.Finite?
      && WellFormed(r.value) && r.value.Type() == kind
      && r.value.coords == pending.value
      && r.value.dist == distance.value && r.value.duration == duration.value
      && r.value.metrics == (if kind == Running
                             then RunningMetrics(extra.value, Pace(distance.value, duration.value))
                             else CyclingMetrics(extra.value, Speed(distance.value, duration.value)))
      && r.value.id == WorkoutId(clock.now) && r.value.date == clock.date
  {
    if pending.None? then Err(NoPendingClick)
    else
      match kind
      case Running =>
        if !RunningInputAccepted(distance, duration, extra) then Err(InvalidInput)
        else Ok(NewRunning(pending.value, distance.value, duration.value, extra.value, clock))
      case Cycling =>
        if !CyclingInputAccepted(distance, duration, extra) then Err(InvalidInput)
        else Ok(NewCycling(pending.value, distance.value, duration.value, extra.value, clock))
  }

  /** A form whose inputs were all emptied (each reads as 0) is refused, whatever its type. */
  lemma ClearedInputsRefused(pending: Coords, kind: WorkoutType, clock: Clock)
    ensures Submit(Some(pending), kind, Finite(0.0), Finite(0.0), Finite(0.0), clock) == Err(InvalidInput)
  {
  }
}

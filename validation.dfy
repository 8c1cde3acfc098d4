/** The acceptance rule `_newWorkout` applies to the numbers read from the
    form before it constructs a workout. */
module Validation {
  import opened Wrappers
  import opened Workouts

  /** A number read from a form field with unary `+`: a finite value, or
      one of NaN, Infinity, -Infinity. */
  datatype Num = Finite(value: real) | NonFinite

  /** The submitted form: the chosen type and the numbers of its fields. */
  datatype Form =
    | RunningForm(distance: Num, duration: Num, cadence: Num)
    | CyclingForm(distance: Num, duration: Num, elevation: Num)

  predicate Positive(x: Num) {
    x.Finite? && x.value > 0.0
  }

  /** `validInputs(...inputs)`: `inputs.every(inp => Number.isFinite(inp))`. */
  function AllFinite(inputs: seq<Num>): (b: bool)
    ensures b <==> forall i :: 0 <= i < |inputs| ==> inputs[i].Finite?
  {
    if inputs == [] then true
    else
      assert forall i :: 1 <= i < |inputs| ==> inputs[i] == inputs[1..][i - 1];
      inputs[0].Finite? && AllFinite(inputs[1..])
  }

  /** `allPositives(...inputs)`: `inputs.every(inp => inp > 0)`. Only
      reached when the inputs are all finite, since `||` stops at a failed
      `validInputs`. */
  function AllPositive(inputs: seq<Num>): (b: bool)
    requires AllFinite(inputs)
    ensures b <==> forall i :: 0 <= i < |inputs| ==> Positive(inputs[i])
  {
    if inputs == [] then true
    else
      assert forall i :: 1 <= i < |inputs| ==> inputs[i] == inputs[1..][i - 1];
      inputs[0].value > 0.0 && AllPositive(inputs[1..])
  }

  /** The rule of script.js:184-188 and 198-202: a running form needs all
      three numbers finite and positive; a cycling form needs all three
      finite but only distance and duration positive, so the elevation may
      have any sign. */
  function Accepts(form: Form): (accepted: bool)
    ensures form.RunningForm? ==>
      (accepted <==> Positive(form.distance) && Positive(form.duration) && Positive(form.cadence))
    ensures form.CyclingForm? ==>
      (accepted <==> Positive(form.distance) && Positive(form.duration) && form.elevation.Finite?)
  {
    match form
    case RunningForm(distance, duration, cadence) =>
      var inputs := [distance, duration, cadence];
      assert inputs[0] == distance && inputs[1] == duration && inputs[2] == cadence;
      AllFinite(inputs) && AllPositive(inputs)
    case CyclingForm(distance, duration, elevation) =>
      var inputs, checked := [distance, duration, elevation], [distance, duration];
      assert inputs[0] == checked[0] == distance && inputs[1] == checked[1] == duration;
      assert inputs[2] == elevation;
      AllFinite(inputs) && AllPositive(checked)
  }

  /** Steps 2-4 of `_newWorkout`: check the form and construct the workout
      at the clicked coordinates, or reject the form (the alert). */
  function CreateFromForm(form: Form, coords: Coords, now: Instant): (r: Option<Workout>)
    requires ValidInstant(now)
    ensures r.Some? <==> Accepts(form)
    ensures r.Some? ==> MetricsDerived(r.value) && r.value.distance > 0.0 && r.value.duration > 0.0
    ensures r.Some? ==> r.value.Running? == form.RunningForm?
    ensures r.Some? ==> r.value.coords == coords && r.value.date == now && r.value.id == IdOf(now.millis)
    ensures r.Some? ==> r.value.description == Describe(r.value.Type(), now)
    ensures r.Some? ==> form.distance == Finite(r.value.distance) && form.duration == Finite(r.value.duration)
    ensures r.Some? && form.RunningForm? ==> form.cadence == Finite(r.value.cadence)
    ensures r.Some? && form.CyclingForm? ==> form.elevation == Finite(r.value.elevationGain)
  {
    match form
    case RunningForm(distance, duration, cadence) =>
      if !Accepts(form) then None
      else Some(NewRunning(coords, distance.value, duration.value, cadence.value, now))
    case CyclingForm(distance, duration, elevation) =>
      if !Accepts(form) then None
      else Some(NewCycling(coords, distance.value, duration.value, elevation.value, now))
  }

  /** An accepted running form builds exactly `new Running(...)` of its
      numbers. */
  lemma RunningFormBuilds(coords: Coords, distance: real, duration: real, cadence: real,
                          now: Instant)
    requires distance > 0.0 && duration > 0.0 && cadence > 0.0 && ValidInstant(now)
    ensures CreateFromForm(RunningForm(Finite(distance), Finite(duration), Finite(cadence)), coords, now)
         == Some(NewRunning(coords, distance, duration, cadence, now))
  {
  }

  /** An accepted cycling form builds exactly `new Cycling(...)` of its
      numbers. */
  lemma CyclingFormBuilds(coords: Coords, distance: real, duration: real, elevation: real,
                          now: Instant)
    requires distance > 0.0 && duration > 0.0 && ValidInstant(now)
    ensures CreateFromForm(CyclingForm(Finite(distance), Finite(duration), Finite(elevation)), coords, now)
         == Some(NewCycling(coords, distance, duration, elevation, now))
  {
  }

  /** A descent is a valid ride: negative elevation is accepted. */
  lemma NegativeElevationAccepted(distance: real, duration: real, elevation: real)
    requires distance > 0.0 && duration > 0.0
    ensures Accepts(CyclingForm(Finite(distance), Finite(duration), Finite(elevation)))
  {
  }

  /** A cadence of zero or below is rejected, whatever distance and
      duration are. */
  lemma NonPositiveCadenceRejected(distance: Num, duration: Num, cadence: real)
    requires cadence <= 0.0
    ensures !Accepts(RunningForm(distance, duration, Finite(cadence)))
  {
  }
}

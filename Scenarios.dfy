/**
  Sessions of the application, from page load to a saved workout, with what
  the model guarantees at each step. `now` is the
  `Date.now()` reading at the submission.
*/
module Scenarios {
  import opened Wrappers
  import opened Workouts
  import opened Validation
  import opened Mapty
  import opened Decimal

  /** Month index 3 (April), day 3. */
  const April3 := CalendarDate(3, 3)

  /** A click at (51.5, -0.12) and a run of 5 km in 24 min at cadence 178. */
  method RunningSession(now: nat) {
    var form := new Form(true, Running);
    var store := new LocalStore(None);
    var app := new App(form, store);
    assert app.workouts == [];

    app.ShowForm((51.5, -0.12));
    assert !form.hidden;
    form.distance, form.duration, form.cadence := Finite(5.0), Finite(24.0), Finite(178.0);
    assert form.kind == Running && form.Extra() == Finite(178.0) && app.mapEvent == Some((51.5, -0.12));
    var r := app.NewWorkout(Clock(now, April3));
    assert r.Ok?;
    assert |app.workouts| == 1 && app.workouts[0] == r.value;
    assert r.value.coords == (51.5, -0.12);
    assert r.value.metrics == RunningMetrics(178.0, Pace(5.0, 24.0));
    assert Pace(5.0, 24.0) == 4.8;
    April3Description();
    assert r.value.description == "Running on April 3";
    assert form.hidden && form.Cleared();
    assert store.workouts == Some(app.workouts);
  }

  /**
    After a run is saved, submitting again with the same pending click is
    refused, because `_hideForm` emptied the inputs.
  */
  method ResubmitSession(now: nat, later: nat) {
    var form := new Form(true, Running);
    var store := new LocalStore(None);
    var app := new App(form, store);
    app.ShowForm((51.5, -0.12));
    form.distance, form.duration, form.cadence := Finite(5.0), Finite(24.0), Finite(178.0);
    assert form.kind == Running && form.Extra() == Finite(178.0);
    var r := app.NewWorkout(Clock(now, April3));
    assert r.Ok? && app.workouts == [r.value];

    assert form.Cleared() && form.kind == Running && app.mapEvent == Some((51.5, -0.12));
    ClearedInputsRefused((51.5, -0.12), Running, Clock(later, April3));
    var again := app.NewWorkout(Clock(later, April3));
    assert again == Err(InvalidInput);
    assert app.workouts == [r.value];
  }

  /** A page load with that run in storage restores it, and clicking its row centres the map on it. */
  method ReloadSession(now: nat) {
    var run := NewRunning((51.5, -0.12), 5.0, 24.0, 178.0, Clock(now, April3));
    var store := new LocalStore(Some([run]));
    var form := new Form(true, Running);
    var app := new App(form, store);
    assert app.workouts == [run] && app.mapEvent == None;

    var center := app.MoveToPopup(Some(run.id));
    assert app.workouts[0].id == run.id;
    assert center == Some((51.5, -0.12));
    var outside := app.MoveToPopup(None);
    assert outside == None;
  }

  /** The description of a run on April 3. */
  lemma April3Description()
    ensures Description(Running, April3) == "Running on April 3"
  {
    DescriptionText(Running, April3);
    assert NatToDecimal(3) == "3";
  }

  /** A ride of 20 km in 60 min with a negative elevation gain is accepted. */
  method CyclingSession(now: nat) {
    var form := new Form(true, Cycling);
    var store := new LocalStore(None);
    var app := new App(form, store);
    app.ShowForm((51.5, -0.12));
    form.distance, form.duration, form.elevation := Finite(20.0), Finite(60.0), Finite(-10.0);
    assert form.kind == Cycling && form.Extra() == Finite(-10.0) && app.mapEvent == Some((51.5, -0.12));
    var r := app.NewWorkout(Clock(now, April3));
    assert r.Ok? && r.value.metrics == CyclingMetrics(-10.0, 20.0);
    assert app.workouts == [r.value];
  }

  /** An empty cadence field converts to 0 and the run is refused; nothing changes. */
  method EmptyCadenceSession(now: nat) {
    var form := new Form(true, Running);
    var store := new LocalStore(None);
    var app := new App(form, store);
    app.ShowForm((51.5, -0.12));
    form.distance, form.duration := Finite(5.0), Finite(24.0);
    assert form.kind == Running && form.Extra() == Finite(0.0);
    var r := app.NewWorkout(Clock(now, April3));
    assert r == Err(InvalidInput);
    assert app.workouts == [];
    assert store.workouts == None;
    assert !form.hidden && form.distance == Finite(5.0);
  }

  /** Submitting before any map click throws before any check, whatever the fields hold. */
  method SubmitBeforeClick(now: nat) {
    var form := new Form(false, Running);
    var store := new LocalStore(None);
    var app := new App(form, store);
    form.distance, form.duration, form.cadence := NaN, Finite(24.0), Finite(178.0);
    assert app.mapEvent == None;
    var r := app.NewWorkout(Clock(now, April3));
    assert r == Err(NoPendingClick);
    assert app.workouts == [];
  }
}

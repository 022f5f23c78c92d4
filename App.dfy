/**
  The application controller: the list of workouts, the pending map click,
  the entry form it shows and hides, the local-storage key it saves to and
  restores from, and the lookup behind a click on a list row.

  The map widget, geolocation and rendering are not part of this model; a
  re-centring of the map is returned as the coordinates it would centre on.
*/
module Mapty {
  import opened Wrappers
  import opened Workouts
  import opened Validation

  /**
    The entry form: whether it is hidden, the selected workout type, and its
    four numeric inputs, each given as the Number `+input.value` converts it
    to (an empty input converts to 0).
  */
  class Form {
    var hidden: bool
    var kind: WorkoutType
    var distance: Num
    var duration: Num
    var cadence: Num
    var elevation: Num

    /** A form showing `kind` with every input empty. */
    constructor(hidden: bool, kind: WorkoutType)
      ensures this.hidden == hidden && this.kind == kind && Cleared()
    {
      this.hidden := hidden;
      this.kind := kind;
      distance, duration, cadence, elevation := Finite(0.0), Finite(0.0), Finite(0.0), Finite(0.0);
    }

    /** Every input is empty, so each converts to 0. */
    predicate Cleared()
      reads this
    {
      distance == Finite(0.0) && duration == Finite(0.0) && cadence == Finite(0.0) && elevation == Finite(0.0)
    }

    /** The third input `_newWorkout` reads: cadence for a run, elevation for a ride. */
    function Extra(): Num
      reads this
    {
      if kind == Running then cadence else elevation
    }
  }

  /** The `"workouts"` key of the browser's local storage; None when nothing is stored. */
  class LocalStore {
    var workouts: Option<seq<Workout>>

    constructor(saved: Option<seq<Workout>>)
      ensures workouts == saved
    {
      workouts := saved;
    }
  }

  /**
    The first position in `ws` whose record has id `id`, or None when no
    record has it: the `find` behind `_moveToPopup`.
  */
  function FindIndex(ws: seq<Workout>, id: string): (r: Option<nat>)
    ensures r.Some? ==> r.value < |ws| && ws[r.value].id == id
    ensures r.Some? ==> forall j :: 0 <= j < r.value ==> ws[j].id != id
    ensures r.None? <==> forall j :: 0 <= j < |ws| ==> ws[j].id != id
  {
    if ws == [] then None
    else if ws[0].id == id then Some(0)
    else
      match FindIndex(ws[1..], id)
      case None => None
      case Some(k) => Some(k + 1)
  }

  /** No two records in `ws` share an id. */
  predicate DistinctIds(ws: seq<Workout>) {
    forall i, j :: 0 <= i < j < |ws| ==> ws[i].id != ws[j].id
  }

  /** With distinct ids, looking a record up by its own id finds that very record. */
  lemma {:induction false} FindIndexOfDistinct(ws: seq<Workout>, i: nat)
    requires DistinctIds(ws) && i < |ws|
    ensures FindIndex(ws, ws[i].id) == Some(i)
  {
  }

  /** Appending a record keeps the earlier matches: the first match is found in the old prefix if it is there. */
  lemma {:induction false} FindIndexAppend(ws: seq<Workout>, w: Workout, id: string)
    ensures FindIndex(ws + [w], id) ==
      if FindIndex(ws, id).Some? then FindIndex(ws, id)
      else if w.id == id then Some(|ws|)
      else None
  {
    var s := ws + [w];
    assert forall j :: 0 <= j < |ws| ==> s[j] == ws[j];
    var old_r, new_r := FindIndex(ws, id), FindIndex(s, id);
    if old_r.Some? {
      assert s[old_r.value].id == id;
    } else if w.id == id {
      assert s[|ws|] == w;
    }
  }

  /** Every record in `ws` satisfies the construction invariant. */
  predicate AllWellFormed(ws: seq<Workout>) {
    forall i :: 0 <= i < |ws| ==> WellFormed(ws[i])
  }

  class App {
    const form: Form
    const store: LocalStore
    /** `#mapEvent`: the latest map click, None before the first one. */
    var mapEvent: Option<Coords>
    /** `#workouts`, in the order the records were added. */
    var workouts: seq<Workout>

    /** `new App()`: no click yet, and the list restored from storage when something is stored. */
    constructor(form: Form, store: LocalStore)
      ensures this.form == form && this.store == store
      ensures mapEvent == None
      ensures workouts == if store.workouts.Some? then store.workouts.value else []
    {
      this.form := form;
      this.store := store;
      mapEvent := None;
      workouts := [];
      new;
      GetLocalStorage();
    }

    /** `_getLocalStorage`: keep the list when nothing is stored, otherwise replace it by what is stored. */
    method GetLocalStorage()
      modifies this
      ensures workouts == if store.workouts.Some? then store.workouts.value else old(workouts)
      ensures mapEvent == old(mapEvent)
    {
      var data := store.workouts;
      if data.None? {
        return;
      }
      workouts := data.value;
    }

    /** `_setLocalStorage`: the stored list becomes the current list. */
    method SetLocalStorage()
      modifies store
      ensures store.workouts == Some(workouts)
    {
      store.workouts := Some(workouts);
    }

    /** `_showForm`: the click becomes the pending one, replacing any earlier click, and the form shows. */
    method ShowForm(click: Coords)
      modifies this`mapEvent, form`hidden
      ensures mapEvent == Some(click) && !form.hidden
      ensures workouts == old(workouts)
    {
      mapEvent := Some(click);
      form.hidden := false;
    }

    /** `_hideForm`: all four inputs emptied and the form hidden; the type and the pending click are kept. */
    method HideForm()
      modifies form`distance, form`duration, form`cadence, form`elevation, form`hidden
      ensures form.Cleared() && form.hidden
    {
      form.distance, form.elevation, form.duration, form.cadence := Finite(0.0), Finite(0.0), Finite(0.0), Finite(0.0);
      form.hidden := true;
    }

    /**
      `_newWorkout`: the form's type and inputs are checked against the
      pending click; on a valid submission the new record is appended, the
      form is cleared and hidden and the list is saved; otherwise nothing
      changes.
    */
    method NewWorkout(clock: Clock) returns (r: Result<Workout, SubmitError>)
      modifies this`workouts, form, store
      ensures r == Submit(old(mapEvent), old(form.kind), old(form.distance), old(form.duration),
                          if old(form.kind) == Running then old(form.cadence) else old(form.elevation), clock)
      ensures r.Ok? ==> workouts == old(workouts) + [r.value]
      ensures r.Ok? ==> form.Cleared() && form.hidden && form.kind == old(form.kind)
      ensures r.Ok? ==> store.workouts == Some(workouts)
      ensures r.Err? ==> workouts == old(workouts) && unchanged(form, store)
      ensures AllWellFormed(old(workouts)) ==> AllWellFormed(workouts)
    {
      r := Submit(mapEvent, form.kind, form.distance, form.duration, form.Extra(), clock);
      if r.Err? {
        return;
      }
      workouts := workouts + [r.value];
      HideForm();
      SetLocalStorage();
    }

    /**
      `_moveToPopup`: a click outside every row does nothing; a click on a row
      centres the map on the first record with that row's id. When no record
      has it, reading the record's coordinates throws and the map stays put.
    */
    method MoveToPopup(rowId: Option<string>) returns (center: Option<Coords>)
      ensures rowId.None? ==> center.None?
      ensures rowId.Some? ==>
        (center.Some? <==> exists i :: 0 <= i < |workouts| && workouts[i].id == rowId.value)
      ensures center.Some? ==> exists i ::
        && 0 <= i < |workouts| && workouts[i].id == rowId.value && center.value == workouts[i].coords
        && forall j :: 0 <= j < i ==> workouts[j].id != rowId.value
    {
      if rowId.None? {
        return None;
      }
      var found := FindIndex(workouts, rowId.value);
      if found.None? {
        return None;
      }
      center := Some(workouts[found.value].coords);
    }
  }
}

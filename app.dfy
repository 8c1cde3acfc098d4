/** The application object's workout list and the browser's local-storage
    slot it mirrors the list into. */
module Application {
  import opened Wrappers
  import opened Workouts
  import opened Validation

  /** The single local-storage key the list is saved under. */
  const StorageKey: string := "workouts"

  /** Local storage, with the saved JSON text abstracted to the records it
      encodes: parsing the text written for a list gives back that list,
      field for field. */
  type Storage = map<string, seq<Workout>>

  /** `App`: the list of workouts, oldest first, and the storage slot. */
  class App {
    var workouts: seq<Workout>
    var storage: Storage

    /** `new App()` on page load: start empty, then load what is stored. */
    constructor (stored: Storage)
      ensures storage == stored
      ensures workouts == if StorageKey in stored then stored[StorageKey] else []
    {
      workouts := [];
      storage := stored;
      new;
      GetLocalStorage();
    }

    /** Does the storage slot hold exactly the in-memory list? */
    predicate Saved()
      reads this
    {
      StorageKey in storage && storage[StorageKey] == workouts
    }

    /** `_newWorkout`: a rejected form changes nothing; an accepted one is
        built into a workout that is appended after all earlier ones, and
        the whole list is then saved. */
    method NewWorkout(form: Form, coords: Coords, now: Instant) returns (accepted: bool)
      requires ValidInstant(now)
      modifies this
      ensures accepted <==> Accepts(form)
      ensures !accepted ==> workouts == old(workouts) && storage == old(storage)
      ensures accepted ==> |workouts| == |old(workouts)| + 1
      ensures accepted ==> workouts[..|old(workouts)|] == old(workouts)
      ensures accepted ==> CreateFromForm(form, coords, now) == Some(workouts[|old(workouts)|])
      ensures accepted ==> Saved() && storage == old(storage)[StorageKey := workouts]
    {
      var created := CreateFromForm(form, coords, now);
      if created.None? {
        return false;
      }
      workouts := workouts + [created.value];
      SetLocalStorage();
      accepted := true;
    }

    /** `this.#workouts.find(work => work.id === id)`: the first workout in
        list order with the given id, or nothing. */
    method FindById(id: string) returns (found: Option<Workout>)
      ensures found.None? <==> forall i :: 0 <= i < |workouts| ==> workouts[i].id != id
      ensures found.Some? ==>
        exists i :: 0 <= i < |workouts| && workouts[i] == found.value && workouts[i].id == id &&
          forall j :: 0 <= j < i ==> workouts[j].id != id
    {
      var i := 0;
      while i < |workouts|
        invariant 0 <= i <= |workouts|
        invariant forall j :: 0 <= j < i ==> workouts[j].id != id
      {
        if workouts[i].id == id {
          return Some(workouts[i]);
        }
        i := i + 1;
      }
      return None;
    }

    /** `_moveToPopup`: a click outside every workout entry does nothing;
        a click on an entry gives the coordinates of the first workout with
        that entry's id, where the map is panned to. */
    method MoveToPopup(clickedId: Option<string>) returns (target: Option<Coords>)
      ensures clickedId.None? ==> target.None?
      ensures clickedId.Some? ==>
        (target.None? <==> forall i :: 0 <= i < |workouts| ==> workouts[i].id != clickedId.value)
      ensures target.Some? ==>
        exists i :: 0 <= i < |workouts| && workouts[i].coords == target.value &&
          workouts[i].id == clickedId.value && forall j :: 0 <= j < i ==> workouts[j].id != clickedId.value
    {
      if clickedId.None? {
        return None;
      }
      var found := FindById(clickedId.value);
      if found.None? {
        return None;
      }
      return Some(found.value.coords);
    }

    /** `_setLocalstorage`: overwrite the slot with the whole list. */
    method SetLocalStorage()
      modifies this`storage
      ensures storage == old(storage)[StorageKey := workouts]
      ensures Saved()
    {
      storage := storage[StorageKey := workouts];
    }

    /** `_getLocalStorage`: with nothing stored the list is left as it is;
        otherwise it becomes the stored records verbatim, pace and speed
        included, without running the constructors again. */
    method GetLocalStorage()
      modifies this`workouts
      ensures StorageKey !in storage ==> workouts == old(workouts)
      ensures StorageKey in storage ==> workouts == storage[StorageKey] && Saved()
    {
      if StorageKey !in storage {
        return;
      }
      workouts := storage[StorageKey];
    }

    /** `reset`: remove the key from storage; the page reload that follows
        starts over with an empty list. */
    method Reset()
      modifies this
      ensures storage == old(storage) - {StorageKey}
      ensures StorageKey !in storage
      ensures workouts == []
    {
      storage := storage - {StorageKey};
      workouts := [];
    }
  }

  /** Save, then reload the page: the new App holds the same list, field
      for field. */
  method SaveAndReload(app: App) returns (reloaded: App)
    modifies app
    ensures fresh(reloaded)
    ensures reloaded.workouts == old(app.workouts)
    ensures reloaded.storage == app.storage && reloaded.Saved()
  {
    app.SetLocalStorage();
    reloaded := new App(app.storage);
  }

  /** Reset, then reload the page: nothing is loaded and the list is empty. */
  method ResetAndReload(app: App) returns (reloaded: App)
    modifies app
    ensures fresh(reloaded)
    ensures StorageKey !in reloaded.storage && reloaded.workouts == []
  {
    app.Reset();
    reloaded := new App(app.storage);
  }

  /** A run and a ride are entered, then the page is reloaded: both come
      back in order, with the run's pace and the ride's speed. */
  method RunAndRideScenario(now: Instant) returns (reloaded: App)
    requires ValidInstant(now)
    ensures |reloaded.workouts| == 2
    ensures reloaded.workouts[0].Running? && reloaded.workouts[0].pace == 60.0 / 13.0
    ensures reloaded.workouts[1].Cycling? && reloaded.workouts[1].speed == 20.0
  {
    var app := new App(map[]);
    var run := RunningForm(Finite(5.2), Finite(24.0), Finite(178.0));
    var ride := CyclingForm(Finite(20.0), Finite(60.0), Finite(300.0));
    RunningFormBuilds((30.0, 78.0), 5.2, 24.0, 178.0, now);
    CyclingFormBuilds((30.0, 78.0), 20.0, 60.0, 300.0, now);
    var ranOk := app.NewWorkout(run, (30.0, 78.0), now);
    var rodeOk := app.NewWorkout(ride, (30.0, 78.0), now);
    assert app.workouts == [NewRunning((30.0, 78.0), 5.2, 24.0, 178.0, now),
                            NewCycling((30.0, 78.0), 20.0, 60.0, 300.0, now)];
    RunningExample(now);
    CyclingExample(now);
    reloaded := new App(app.storage);
  }

  /** A stored run whose pace was edited so that it no longer matches its
      distance and duration is loaded with the edited pace. */
  method LoadKeepsEditedPace(now: Instant) returns (app: App)
    requires ValidInstant(now)
    ensures |app.workouts| == 1 && app.workouts[0].Running? && app.workouts[0].pace == 99.0
    ensures !MetricsDerived(app.workouts[0])
  {
    var run := NewRunning((30.0, 78.0), 5.2, 24.0, 178.0, now);
    var edited := run.(pace := 99.0);
    RunningExample(now);
    app := new App(map[StorageKey := [edited]]);
  }
}

/**
 * The base class of every iGibson scene: a load-once lifecycle and the
 * registration of objects that the scene tracks.
 *
 * The abstract hooks of the base class (`_load`, `_add_object`,
 * `get_objects`) are fixed here as: `_load` returns body ids supplied by the
 * caller (the physics engine is not modelled), `_add_object` appends the
 * object to `objects`, and `get_objects` returns `objects`.
 */
module SceneBase {
  import opened Wrappers

  /** A body id handed out by the physics engine. */
  type BodyId = int

  /** Stands for the `isinstance` tests against the object class hierarchy. */
  datatype ObjectKind = Regular | VisualMarker | VisualShape | Particle

  /** An object state such as being cooked, sliced or toggled on. */
  datatype ObjectState = ObjectState(name: string)

  /**
   * A simulated object. `states` is `None` for an object that has no `states`
   * attribute at all.
   */
  datatype SimObject = SimObject(kind: ObjectKind, states: Option<set<ObjectState>>)

  /**
   * What the engine answers when an object's own `load()` is called: the
   * body id or ids it created (a single id is a one-element sequence), or an
   * exception.
   */
  datatype ObjectLoad = BodiesLoaded(bodyIds: seq<BodyId>) | LoadRaised

  /**
   * The errors a scene call can end with: the three `ValueError`s the base
   * class raises itself, and the exception of an object's own `load()`,
   * which `add_object` lets through.
   */
  datatype SceneError =
    | AlreadyLoaded           // the scene was loaded before
    | NotCalledFromSimulator  // a loaded scene takes objects only from the simulator
    | VisualOnlyObject        // visual markers, visual shapes and particles go to the simulator
    | ObjectLoadFailed        // the object's own load() raised

  /** Objects that must be added straight to the simulator, never to a scene. */
  predicate IsVisualOnly(o: SimObject)
  {
    o.kind.VisualMarker? || o.kind.VisualShape? || o.kind.Particle?
  }

  /** The object has a `states` collection, and it contains `s`. */
  predicate HasState(o: SimObject, s: ObjectState)
  {
    o.states.Some? && s in o.states.value
  }

  /**
   * The observable state of a scene. `loadedSeparately` records, in order,
   * the objects that `add_object` loaded on their own because the scene was
   * already loaded, and whose own `load()` returned body ids (a load that
   * raised is not recorded, since the object is then not registered).
   */
  datatype SceneState = SceneState(
    loaded: bool,
    floorBodyIds: seq<BodyId>,
    objects: seq<SimObject>,
    loadedSeparately: seq<SimObject>)

  /** The new state after one call, and what the call returned or raised. */
  datatype Step<+T> = Step(next: SceneState, result: Result<T, SceneError>)

  // ---------------------------------------------------------------------
  // The operations, as functions of the state

  /** `Scene.__init__` */
  function InitialState(): SceneState
  {
    SceneState(false, [], [], [])
  }

  /** `Scene.load`: `sceneBodyIds` is what the subclass's `_load` returns. */
  function LoadStep(st: SceneState, sceneBodyIds: seq<BodyId>): Step<seq<BodyId>>
  {
    if st.loaded then Step(st, Err(AlreadyLoaded))
    else Step(st.(loaded := true), Ok(sceneBodyIds))
  }

  /**
   * `Scene.add_object`: the guards in the source's order, then the optional
   * separate load, then the registration. `objectLoad` is what the object's
   * own `load()` would answer; it is consulted only when the scene is loaded.
   * When that load raises, the object is not registered.
   */
  function AddObjectStep(st: SceneState, obj: SimObject, objectLoad: ObjectLoad, fromSimulator: bool)
    : Step<Option<seq<BodyId>>>
  {
    if st.loaded && !fromSimulator then Step(st, Err(NotCalledFromSimulator))
    else if IsVisualOnly(obj) then Step(st, Err(VisualOnlyObject))
    else if st.loaded then
      match objectLoad
      case LoadRaised => Step(st, Err(ObjectLoadFailed))
      case BodiesLoaded(ids) =>
        Step(st.(objects := st.objects + [obj], loadedSeparately := st.loadedSeparately + [obj]), Ok(Some(ids)))
    else
      Step(st.(objects := st.objects + [obj]), Ok(None))
  }

  /**
   * The invariant every reachable scene state keeps: no visual-only object
   * is ever registered, nothing is loaded separately before the scene is
   * loaded, and the separately loaded objects are exactly the most recently
   * registered ones (those registered after the scene was loaded).
   */
  predicate Consistent(st: SceneState)
  {
    && (forall o :: o in st.objects ==> !IsVisualOnly(o))
    && (!st.loaded ==> st.loadedSeparately == [])
    && |st.loadedSeparately| <= |st.objects|
    && st.objects[|st.objects| - |st.loadedSeparately|..] == st.loadedSeparately
  }

  // ---------------------------------------------------------------------
  // Properties of the lifecycle

  lemma InitialStateConsistent()
    ensures Consistent(InitialState())
    ensures !InitialState().loaded && InitialState().floorBodyIds == [] && InitialState().objects == []
  {
  }

  /** A load succeeds on an unloaded scene and fails, changing nothing, on a loaded one. */
  lemma LoadOnce(st: SceneState, sceneBodyIds: seq<BodyId>)
    ensures LoadStep(st, sceneBodyIds).result.Ok? <==> !st.loaded
    ensures LoadStep(st, sceneBodyIds).next.loaded
    ensures st.loaded ==> LoadStep(st, sceneBodyIds) == Step(st, Err(AlreadyLoaded))
    ensures !st.loaded ==> LoadStep(st, sceneBodyIds).result == Ok(sceneBodyIds)
    ensures LoadStep(st, sceneBodyIds).next.objects == st.objects
    ensures LoadStep(st, sceneBodyIds).next.loadedSeparately == st.loadedSeparately
    ensures LoadStep(st, sceneBodyIds).next.floorBodyIds == st.floorBodyIds
  {
  }

  /** Loading twice in a row: the second load always raises. */
  lemma SecondLoadFails(st: SceneState, first: seq<BodyId>, second: seq<BodyId>)
    ensures LoadStep(LoadStep(st, first).next, second).result == Err(AlreadyLoaded)
  {
  }

  lemma LoadPreservesConsistent(st: SceneState, sceneBodyIds: seq<BodyId>)
    requires Consistent(st)
    ensures Consistent(LoadStep(st, sceneBodyIds).next)
  {
  }

  // ---------------------------------------------------------------------
  // Properties of object registration

  /** A loaded scene refuses callers other than the simulator and changes nothing. */
  lemma AddToLoadedSceneNeedsSimulator(st: SceneState, obj: SimObject, objectLoad: ObjectLoad)
    requires st.loaded
    ensures AddObjectStep(st, obj, objectLoad, false) == Step(st, Err(NotCalledFromSimulator))
  {
  }

  /**
   * A visual-only object is always refused and changes nothing; the
   * simulator-only error takes precedence because it is checked first.
   */
  lemma AddVisualOnlyFails(st: SceneState, obj: SimObject, objectLoad: ObjectLoad, fromSimulator: bool)
    requires IsVisualOnly(obj)
    ensures AddObjectStep(st, obj, objectLoad, fromSimulator).next == st
    ensures AddObjectStep(st, obj, objectLoad, fromSimulator).result
         == Err(if st.loaded && !fromSimulator then NotCalledFromSimulator else VisualOnlyObject)
  {
  }

  /**
   * Adding to an unloaded scene returns `None`, loads nothing (whatever the
   * object's own `load()` would answer, the outcome is the same), and
   * appends exactly the object after the previous ones.
   */
  lemma AddToUnloadedSceneDefersLoading(st: SceneState, obj: SimObject, objectLoad: ObjectLoad, fromSimulator: bool)
    requires !st.loaded && !IsVisualOnly(obj)
    ensures AddObjectStep(st, obj, objectLoad, fromSimulator).result == Ok(None)
    ensures AddObjectStep(st, obj, objectLoad, fromSimulator).next.objects == st.objects + [obj]
    ensures AddObjectStep(st, obj, objectLoad, fromSimulator).next.loadedSeparately == st.loadedSeparately
    ensures !AddObjectStep(st, obj, objectLoad, fromSimulator).next.loaded
    ensures forall other: ObjectLoad ::
      AddObjectStep(st, obj, other, fromSimulator) == AddObjectStep(st, obj, objectLoad, fromSimulator)
  {
  }

  /**
   * The simulator adding to a loaded scene gets back what the object's own
   * `load()` returns; the object is loaded once and registered at the end.
   */
  lemma AddToLoadedSceneLoadsObject(st: SceneState, obj: SimObject, ids: seq<BodyId>)
    requires st.loaded && !IsVisualOnly(obj)
    ensures AddObjectStep(st, obj, BodiesLoaded(ids), true).result == Ok(Some(ids))
    ensures AddObjectStep(st, obj, BodiesLoaded(ids), true).next.objects == st.objects + [obj]
    ensures AddObjectStep(st, obj, BodiesLoaded(ids), true).next.loadedSeparately == st.loadedSeparately + [obj]
    ensures AddObjectStep(st, obj, BodiesLoaded(ids), true).next.loaded
  {
  }

  /**
   * When the object's own `load()` raises, the exception reaches the caller
   * and the object is not registered: loading comes before registration.
   * The record of successful separate loads is unchanged too.
   */
  lemma AddObjectLoadFailureRegistersNothing(st: SceneState, obj: SimObject)
    requires st.loaded && !IsVisualOnly(obj)
    ensures AddObjectStep(st, obj, LoadRaised, true) == Step(st, Err(ObjectLoadFailed))
  {
  }

  /**
   * Exactly when `add_object` succeeds, and what it never touches: the
   * `loaded` flag and the floor body ids. On failure nothing changes.
   */
  lemma AddObjectOutcome(st: SceneState, obj: SimObject, objectLoad: ObjectLoad, fromSimulator: bool)
    ensures AddObjectStep(st, obj, objectLoad, fromSimulator).result.Ok?
        <==> (!st.loaded || fromSimulator) && !IsVisualOnly(obj) && (st.loaded ==> objectLoad.BodiesLoaded?)
    ensures AddObjectStep(st, obj, objectLoad, fromSimulator).result.Err?
        ==> AddObjectStep(st, obj, objectLoad, fromSimulator).next == st
    ensures AddObjectStep(st, obj, objectLoad, fromSimulator).result == Ok(None)
        <==> AddObjectStep(st, obj, objectLoad, fromSimulator).result.Ok? && !st.loaded
    ensures AddObjectStep(st, obj, objectLoad, fromSimulator).next.loaded == st.loaded
    ensures AddObjectStep(st, obj, objectLoad, fromSimulator).next.floorBodyIds == st.floorBodyIds
  {
  }

  lemma AddObjectPreservesConsistent(st: SceneState, obj: SimObject, objectLoad: ObjectLoad, fromSimulator: bool)
    requires Consistent(st)
    ensures Consistent(AddObjectStep(st, obj, objectLoad, fromSimulator).next)
  {
    var st' := AddObjectStep(st, obj, objectLoad, fromSimulator).next;
    if AddObjectStep(st, obj, objectLoad, fromSimulator).result.Ok? {
      forall o | o in st'.objects ensures !IsVisualOnly(o) {
        if o != obj {
          assert o in st.objects;
        }
      }
      if st.loaded {
        var n := |st.objects| - |st.loadedSeparately|;
        assert st'.objects[n..] == st.objects[n..] + [obj];
      } else {
        assert st'.objects[|st'.objects|..] == [];
      }
    }
  }

  // ---------------------------------------------------------------------
  // get_objects_with_state

  /** The registered objects that have state `s`, in their original order. */
  function ObjectsWithState(objs: seq<SimObject>, s: ObjectState): (r: seq<SimObject>)
    ensures |r| <= |objs|
    ensures forall o :: o in r <==> o in objs && HasState(o, s)
  {
    if objs == [] then []
    else (if HasState(objs[0], s) then [objs[0]] else []) + ObjectsWithState(objs[1..], s)
  }

  /**
   * `a` is `b` with some elements dropped, the others kept in order:
   * `idx` says where in `b` each element of `a` comes from.
   */
  ghost predicate IsSubsequenceAt<T>(a: seq<T>, b: seq<T>, idx: seq<nat>)
  {
    && |idx| == |a|
    && (forall k :: 0 <= k < |idx| ==> idx[k] < |b| && a[k] == b[idx[k]])
    && (forall k, l :: 0 <= k < l < |idx| ==> idx[k] < idx[l])
  }

  ghost predicate IsSubsequence<T>(a: seq<T>, b: seq<T>)
  {
    exists idx :: IsSubsequenceAt(a, b, idx)
  }

  /** Every index moved one place to the right. */
  ghost function Shift(idx: seq<nat>): seq<nat>
  {
    seq(|idx|, k requires 0 <= k < |idx| => idx[k] + 1)
  }

  lemma SubsequenceSkip<T>(a: seq<T>, b: seq<T>, idx: seq<nat>, x: T)
    requires IsSubsequenceAt(a, b, idx)
    ensures IsSubsequenceAt(a, [x] + b, Shift(idx))
  {
    var sh := Shift(idx);
    forall k | 0 <= k < |sh| ensures sh[k] < |[x] + b| && a[k] == ([x] + b)[sh[k]] {
      assert ([x] + b)[idx[k] + 1] == b[idx[k]];
    }
  }

  lemma SubsequenceKeep<T>(a: seq<T>, b: seq<T>, idx: seq<nat>, x: T)
    requires IsSubsequenceAt(a, b, idx)
    ensures IsSubsequenceAt([x] + a, [x] + b, [0] + Shift(idx))
  {
    SubsequenceSkip(a, b, idx, x);
    var sh := Shift(idx);
    var ix := [0] + sh;
    forall k | 0 < k < |ix| ensures ix[k] < |[x] + b| && ([x] + a)[k] == ([x] + b)[ix[k]] {
      assert ix[k] == sh[k - 1];
    }
  }

  /** The filter keeps its elements in the order they are registered in. */
  lemma {:induction false} ObjectsWithStateIsSubsequence(objs: seq<SimObject>, s: ObjectState)
    ensures IsSubsequence(ObjectsWithState(objs, s), objs)
  {
    var r := ObjectsWithState(objs, s);
    if objs == [] {
      assert IsSubsequenceAt(r, objs, []);
    } else {
      var tail := ObjectsWithState(objs[1..], s);
      ObjectsWithStateIsSubsequence(objs[1..], s);
      var rest :| IsSubsequenceAt(tail, objs[1..], rest);
      assert objs == [objs[0]] + objs[1..];
      if HasState(objs[0], s) {
        assert r == [objs[0]] + tail;
        SubsequenceKeep(tail, objs[1..], rest, objs[0]);
        assert IsSubsequenceAt(r, objs, [0] + Shift(rest));
      } else {
        assert r == tail;
        SubsequenceSkip(tail, objs[1..], rest, objs[0]);
        assert IsSubsequenceAt(r, objs, Shift(rest));
      }
    }
  }

  /**
   * Each object with state `s` is kept as many times as it is registered,
   * every other object is dropped.
   */
  lemma {:induction false} ObjectsWithStateMultiplicity(objs: seq<SimObject>, s: ObjectState)
    ensures forall o :: multiset(ObjectsWithState(objs, s))[o] == if HasState(o, s) then multiset(objs)[o] else 0
  {
    if objs != [] {
      ObjectsWithStateMultiplicity(objs[1..], s);
      assert objs == [objs[0]] + objs[1..];
    }
  }

  /** The result is empty exactly when no registered object has state `s`. */
  lemma ObjectsWithStateEmpty(objs: seq<SimObject>, s: ObjectState)
    ensures ObjectsWithState(objs, s) == [] <==> forall o :: o in objs ==> !HasState(o, s)
  {
    if ObjectsWithState(objs, s) != [] {
      assert ObjectsWithState(objs, s)[0] in ObjectsWithState(objs, s);
    }
  }

  /** Registering one more object extends the filter by that object when it has the state. */
  lemma {:induction false} ObjectsWithStateAppend(objs: seq<SimObject>, o: SimObject, s: ObjectState)
    ensures ObjectsWithState(objs + [o], s) == ObjectsWithState(objs, s) + (if HasState(o, s) then [o] else [])
  {
    var last := if HasState(o, s) then [o] else [];
    if objs == [] {
      assert objs + [o] == [o];
      assert [o][1..] == [];
      assert ObjectsWithState([o], s) == last + ObjectsWithState([], s);
    } else {
      var xs := objs + [o];
      var head := if HasState(objs[0], s) then [objs[0]] else [];
      assert xs[0] == objs[0];
      assert xs[1..] == objs[1..] + [o];
      ObjectsWithStateAppend(objs[1..], o, s);
      calc {
        ObjectsWithState(xs, s);
        head + ObjectsWithState(objs[1..] + [o], s);
        head + (ObjectsWithState(objs[1..], s) + last);
        (head + ObjectsWithState(objs[1..], s)) + last;
        ObjectsWithState(objs, s) + last;
      }
    }
  }

  // ---------------------------------------------------------------------
  // The scene object

  /**
   * A scene object. Its fields are the scene state; `Load` and `AddObject`
   * update them in place as the source's methods do. `loadedSeparately` is
   * a ghost record, kept for the specification only, of the separate loads
   * that returned body ids.
   */
  class Scene {
    var loaded: bool
    var floorBodyIds: seq<BodyId>
    var objects: seq<SimObject>
    ghost var loadedSeparately: seq<SimObject>

    ghost function State(): SceneState
      reads this
    {
      SceneState(loaded, floorBodyIds, objects, loadedSeparately)
    }

    ghost predicate Valid()
      reads this
    {
      Consistent(State())
    }

    /** A fresh scene is not loaded, has no floor body ids and no objects. */
    constructor ()
      ensures Valid()
      ensures State() == InitialState()
      ensures !loaded && floorBodyIds == [] && objects == [] && loadedSeparately == []
    {
      loaded := false;
      floorBodyIds := [];
      objects := [];
      loadedSeparately := [];
      new;
      assert State() == InitialState();
      InitialStateConsistent();
    }

    /** `load()`; `sceneBodyIds` stands for what the engine-side `_load()` returns. */
    method Load(sceneBodyIds: seq<BodyId>) returns (r: Result<seq<BodyId>, SceneError>)
      requires Valid()
      modifies this
      ensures Valid()
      ensures Step(State(), r) == LoadStep(old(State()), sceneBodyIds)
      ensures loaded
      ensures old(loaded) ==> r == Err(AlreadyLoaded)
      ensures !old(loaded) ==> r == Ok(sceneBodyIds)
      ensures objects == old(objects) && loadedSeparately == old(loadedSeparately)
      ensures floorBodyIds == old(floorBodyIds)
    {
      if loaded {
        return Err(AlreadyLoaded);
      }
      loaded := true;
      r := Ok(sceneBodyIds);
    }

    /**
     * `add_object(obj, _is_call_from_simulator)`: returns the body ids of the
     * object if the scene was loaded (the object is then loaded on its own),
     * `None` if it was not (the object will be loaded with the scene).
     * `objectLoad` stands for what the object's own engine-side `load()`
     * answers.
     */
    method AddObject(obj: SimObject, objectLoad: ObjectLoad, fromSimulator: bool := false)
      returns (r: Result<Option<seq<BodyId>>, SceneError>)
      requires Valid()
      modifies this
      ensures Valid()
      ensures Step(State(), r) == AddObjectStep(old(State()), obj, objectLoad, fromSimulator)
      ensures loaded == old(loaded) && floorBodyIds == old(floorBodyIds)
      ensures r.Ok? <==> (!old(loaded) || fromSimulator) && !IsVisualOnly(obj) && (old(loaded) ==> objectLoad.BodiesLoaded?)
      ensures r.Ok? ==> objects == old(objects) + [obj]
      ensures r.Err? ==> objects == old(objects) && loadedSeparately == old(loadedSeparately)
      ensures r == Ok(None) <==> r.Ok? && !old(loaded)
    {
      if loaded && !fromSimulator {
        return Err(NotCalledFromSimulator);
      }
      if IsVisualOnly(obj) {
        return Err(VisualOnlyObject);
      }
      var bodyIdOrIds: Option<seq<BodyId>> := None;
      if loaded {
        match objectLoad {
          case LoadRaised => return Err(ObjectLoadFailed);
          case BodiesLoaded(ids) => bodyIdOrIds := Some(ids);
        }
        loadedSeparately := loadedSeparately + [obj];
      }
      AddObjectPreservesConsistent(old(State()), obj, objectLoad, fromSimulator);
      objects := objects + [obj];
      r := Ok(bodyIdOrIds);
    }

    /** `get_objects_with_state(state)` over the registered objects. */
    function GetObjectsWithState(s: ObjectState): (r: seq<SimObject>)
      reads this
      ensures forall o :: o in r <==> o in objects && HasState(o, s)
      ensures IsSubsequence(r, objects)
      ensures forall o :: multiset(r)[o] == if HasState(o, s) then multiset(objects)[o] else 0
    {
      ObjectsWithStateIsSubsequence(objects, s);
      ObjectsWithStateMultiplicity(objects, s);
      ObjectsWithState(objects, s)
    }

    /**
     * `get_random_floor()`: the scenes built on this base have a single
     * floor, so the floor index is one that is valid for any floor count.
     */
    function GetRandomFloor(): (floor: nat)
      ensures forall numberOfFloors: nat :: 1 <= numberOfFloors ==> IsFloorIndex(floor, numberOfFloors)
    {
      0
    }
  }

  /** A floor index lies between 0 and NumberOfFloors - 1. */
  predicate IsFloorIndex(floor: nat, numberOfFloors: nat)
  {
    floor < numberOfFloors
  }
}

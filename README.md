# iGibson scene base: load-once lifecycle and object registration

This project models the base class that every iGibson scene derives from
(`igibson/scenes/scene_base.py`):

- A scene starts out unloaded, with no floor body ids. `load()` succeeds only
  once. A second call raises `AlreadyLoaded`.
- `add_object(obj, _is_call_from_simulator)` checks its guards in this order:
  1. A loaded scene accepts objects only from the simulator.
  2. Visual markers, visual shapes and particles are always refused.
  Then, if the scene is already loaded, the object is loaded on its own; if
  that load raises, the exception reaches the caller and the object is not
  registered. Otherwise the object is registered, and the call returns the
  object's body ids, or `None` if the scene was not yet loaded.
- `get_objects_with_state(state)` returns the registered objects that have that
  state, in order.
- `get_random_floor()` always gives floor 0.

The model has three files:

- `wrappers.dfy`: `Option` and `Result`.
- `scene_base.dfy`: module `SceneBase`. It holds the data model. Each
  operation is a function from the old scene state to the new one plus a
  result (`LoadStep`, `AddObjectStep`). The `Scene` class has the same fields
  and methods that update them in place, each proved equal to its step
  function. The filter `ObjectsWithState` and its lemmas are here too.
- `scene_trace.dfy`: module `SceneTrace`. It covers any sequence of `load` and
  `add_object` calls: loading succeeds at most once, registration only appends,
  and the scene invariant `Consistent` holds in every state reached.

The base class leaves its hooks abstract. This model fixes them as follows:

- `_load()` returns body ids, passed in as the `sceneBodyIds` parameter of
  `Load`.
- `_add_object(obj)` appends `obj` to `objects`.
- `get_objects()` returns `objects`.

The object class hierarchy is replaced by a kind enumeration: `Regular`,
`VisualMarker`, `VisualShape`, `Particle`. Having no `states` attribute is
modelled as `states == None`. An object's `load()` is an engine call; its
answer is a parameter of `AddObject` (`objectLoad`): either the body ids it
created or an exception. Python returns either one body id or a list of
them. The model always uses a sequence, which may hold a single id. The
parameter `fromSimulator` defaults to `false`, as `_is_call_from_simulator`
does.

The ghost field `loadedSeparately` is a record, kept for the specification
only and in call order, of the objects that `add_object` loaded on their own
and whose own `load()` returned body ids. A load that raised is not in it,
because such an object is not registered. It is how the model states that
adding to an unloaded scene never loads the object.

## Model

| member | source | states |
|---|---|---|
| `SceneBase.Scene.constructor` | igibson/scenes/scene_base.py:16-19 | A new scene is not loaded, has no floor body ids and no objects, and satisfies the scene invariant. |
| `SceneBase.Scene.Load` | igibson/scenes/scene_base.py:31-42 | On an unloaded scene: sets `loaded` and returns what `_load` gives. On a loaded scene: raises AlreadyLoaded. Either way `loaded` ends true. Since `_load` is modelled as writing nothing to the scene, the objects and floor ids stay as they were. |
| `SceneBase.Scene.AddObject` | igibson/scenes/scene_base.py:63-92 | Succeeds exactly when the scene is unloaded or the caller is the simulator, the object is not visual-only, and (on a loaded scene) the object's own load does not raise. On success the object is appended; on failure nothing changes. Never changes `loaded` or the floor ids. Returns `None` exactly when it succeeds on an unloaded scene. The new state equals `AddObjectStep`. |
| `SceneBase.Scene.GetObjectsWithState` | igibson/scenes/scene_base.py:48-49 | Returns exactly the registered objects that have the state. The result is a subsequence of the registered objects, and each matching object appears as often as it is registered. |
| `SceneBase.Scene.GetRandomFloor` | igibson/scenes/scene_base.py:94-102 | The returned floor is a valid index (between 0 and NumberOfFloors - 1) for any floor count of at least one. |
| `SceneBase.InitialStateConsistent` | igibson/scenes/scene_base.py:16-19 | The initial state is unloaded, has no floor ids, no objects, and is consistent. |
| `SceneBase.LoadOnce` | igibson/scenes/scene_base.py:39-42 | `load` succeeds if and only if the scene is unloaded. On failure it raises AlreadyLoaded and changes nothing. On success the result is `_load`'s ids. Afterwards the scene is always loaded; with `_load` writing nothing to the scene, its objects and floor ids are untouched. |
| `SceneBase.SecondLoadFails` | igibson/scenes/scene_base.py:39-40 | Two loads in a row: the second always raises AlreadyLoaded. |
| `SceneBase.LoadPreservesConsistent` | igibson/scenes/scene_base.py:39-42 | `load` keeps the scene invariant. |
| `SceneBase.AddToLoadedSceneNeedsSimulator` | igibson/scenes/scene_base.py:76-77 | On a loaded scene, a caller other than the simulator gets NotCalledFromSimulator and the state is unchanged. |
| `SceneBase.AddVisualOnlyFails` | igibson/scenes/scene_base.py:76-82 | A visual marker, visual shape or particle is always refused and the state is unchanged. The error is NotCalledFromSimulator when that guard fires first, VisualOnlyObject otherwise. |
| `SceneBase.AddToUnloadedSceneDefersLoading` | igibson/scenes/scene_base.py:84-92 | Adding a regular object to an unloaded scene returns `None`, and the record of separate loads is unchanged. The outcome is the same whatever the object's own load would answer, so it is never called. The object list becomes the old list plus that object. The scene stays unloaded. |
| `SceneBase.AddToLoadedSceneLoadsObject` | igibson/scenes/scene_base.py:86-92 | The simulator adding a regular object to a loaded scene gets back the object's own load result. The object is loaded once and appended to the object list. |
| `SceneBase.AddObjectLoadFailureRegistersNothing` | igibson/scenes/scene_base.py:86-90 | When the simulator adds a regular object to a loaded scene and the object's own load raises, that error is returned and the state is unchanged: the object is not registered. |
| `SceneBase.AddObjectOutcome` | igibson/scenes/scene_base.py:76-92 | `add_object` succeeds if and only if neither guard fires and, on a loaded scene, the object's own load does not raise. On failure the state is unchanged. The result is `None` exactly when the call succeeded on an unloaded scene. It never changes `loaded` or the floor ids. |
| `SceneBase.AddObjectPreservesConsistent` | igibson/scenes/scene_base.py:76-90 | `add_object` keeps the scene invariant: no visual-only object is registered, nothing is loaded separately before the scene is loaded, and the separately loaded objects are the newest registered ones. |
| `SceneBase.ObjectsWithState` | igibson/scenes/scene_base.py:48-49 | The filter is no longer than its input. An object is in it if and only if it is registered and has the state. |
| `SceneBase.ObjectsWithStateIsSubsequence` | igibson/scenes/scene_base.py:48-49 | The filter's result is a subsequence of the objects, so their order is kept. |
| `SceneBase.ObjectsWithStateMultiplicity` | igibson/scenes/scene_base.py:48-49 | Each object with the state occurs in the result as often as in the registered objects. Objects without it do not occur. |
| `SceneBase.ObjectsWithStateEmpty` | igibson/scenes/scene_base.py:48-49 | The result is empty if and only if no registered object has the state. |
| `SceneBase.ObjectsWithStateAppend` | igibson/scenes/scene_base.py:48-49 | Registering one more object extends the filter's result by exactly that object if it has the state, and by nothing otherwise. |
| `SceneTrace.LoadSucceedsAtMostOnce` | igibson/scenes/scene_base.py:39-42 | Over any sequence of calls, at most one load succeeds on an unloaded scene, and none on a loaded one. The scene ends loaded if and only if it started loaded or one load succeeded. |
| `SceneTrace.RunAppendsAcceptedObjects` | igibson/scenes/scene_base.py:63-92 | Over any sequence of calls, the objects at the end are the ones before, followed by the objects whose `add_object` succeeded, in call order. The floor ids never change (no operation of the base class writes them, and `_load` is modelled as writing nothing), and the record of separate loads only grows. |
| `SceneTrace.RunPreservesConsistent` | igibson/scenes/scene_base.py:31-92 | Any sequence of calls keeps the scene invariant. |
| `SceneTrace.FromFreshScene` | igibson/scenes/scene_base.py:16-92 | Starting from a new scene, no visual-only object is ever registered. Nothing is loaded separately while the scene is unloaded, loading succeeds at most once, and the registered objects are exactly the accepted ones. |

## Left out

- The physics engine: the work done inside `_load()` and inside an object's own `load()`, and any effect `load()` has on the object itself.
- `_load()` is modelled as writing nothing to the scene. In subclasses it is where `floor_body_ids` is filled in, and where the objects added before `load()` are loaded together with the scene; the model records neither, so it does not state that a loaded scene has loaded every registered object.
- The failure of `_load()`: the source sets `loaded` before it calls `_load()`, so a scene whose `_load()` raises stays marked as loaded. Here `_load()` always returns.
- The object class hierarchy: `Particle`, `VisualMarker` and `VisualShape` are not part of this model. The `isinstance` tests become the kind enumeration, and subclasses of those three count as the same kind.
- The `build_graph` flag: it is set in the constructor and nothing in the base class reads it.
- `get_random_point` and `get_shortest_path`: the base class only raises `NotImplementedError` from them, and what subclasses do depends on randomness and geometry.
- `get_floor_height`: it returns the floating-point constant 0.0, and floating point is not modelled.
- Concrete subclasses (such as empty, stadium or interactive scenes) and the simulator's `import_object` are not part of this model.

/**
 * Sequences of calls on a scene: what holds after any number of `load` and
 * `add_object` calls, whatever they return.
 */
module SceneTrace {
  import opened SceneBase

  /** One call on a scene's public interface. */
  datatype Call =
    | LoadCall(sceneBodyIds: seq<BodyId>)
    | AddObjectCall(obj: SimObject, objectLoad: ObjectLoad, fromSimulator: bool)

  /** The state after one call; a call that raises leaves the state as it was. */
  function Apply(st: SceneState, c: Call): SceneState
  {
    match c
    case LoadCall(ids) => LoadStep(st, ids).next
    case AddObjectCall(obj, objectLoad, fromSimulator) => AddObjectStep(st, obj, objectLoad, fromSimulator).next
  }

  /** Whether one call returns normally instead of raising. */
  predicate Succeeds(st: SceneState, c: Call)
  {
    match c
    case LoadCall(ids) => LoadStep(st, ids).result.Ok?
    case AddObjectCall(obj, objectLoad, fromSimulator) => AddObjectStep(st, obj, objectLoad, fromSimulator).result.Ok?
  }

  /** The state after the calls, made one after the other. */
  function Run(st: SceneState, calls: seq<Call>): SceneState
    decreases |calls|
  {
    if calls == [] then st else Run(Apply(st, calls[0]), calls[1..])
  }

  /** How many of the calls are loads that return normally. */
  function SuccessfulLoads(st: SceneState, calls: seq<Call>): nat
    decreases |calls|
  {
    if calls == [] then 0
    else (if calls[0].LoadCall? && Succeeds(st, calls[0]) then 1 else 0)
         + SuccessfulLoads(Apply(st, calls[0]), calls[1..])
  }

  /** The objects whose registration returned normally, in call order. */
  function AcceptedObjects(st: SceneState, calls: seq<Call>): seq<SimObject>
    decreases |calls|
  {
    if calls == [] then []
    else (if calls[0].AddObjectCall? && Succeeds(st, calls[0]) then [calls[0].obj] else [])
         + AcceptedObjects(Apply(st, calls[0]), calls[1..])
  }

  /**
   * A scene is loaded at most once: on an unloaded scene at most one load
   * returns normally, on a loaded one none does, and afterwards the scene is
   * loaded exactly when it was before or one load succeeded.
   */
  lemma {:induction false} LoadSucceedsAtMostOnce(st: SceneState, calls: seq<Call>)
    ensures SuccessfulLoads(st, calls) <= if st.loaded then 0 else 1
    ensures Run(st, calls).loaded <==> st.loaded || SuccessfulLoads(st, calls) == 1
    decreases |calls|
  {
    if calls != [] {
      LoadSucceedsAtMostOnce(Apply(st, calls[0]), calls[1..]);
    }
  }

  /**
   * Registration only ever appends: the registered objects afterwards are
   * those before followed by the accepted ones, in call order, and the floor
   * body ids never change.
   */
  lemma {:induction false} RunAppendsAcceptedObjects(st: SceneState, calls: seq<Call>)
    ensures Run(st, calls).objects == st.objects + AcceptedObjects(st, calls)
    ensures Run(st, calls).floorBodyIds == st.floorBodyIds
    ensures st.loadedSeparately <= Run(st, calls).loadedSeparately
    decreases |calls|
  {
    if calls != [] {
      var st' := Apply(st, calls[0]);
      RunAppendsAcceptedObjects(st', calls[1..]);
      var head := if calls[0].AddObjectCall? && Succeeds(st, calls[0]) then [calls[0].obj] else [];
      assert st'.objects == st.objects + head;
      assert st.objects + head + AcceptedObjects(st', calls[1..])
          == st.objects + (head + AcceptedObjects(st', calls[1..]));
    }
  }

  /** Every state any sequence of calls reaches from a consistent one is consistent. */
  lemma {:induction false} RunPreservesConsistent(st: SceneState, calls: seq<Call>)
    requires Consistent(st)
    ensures Consistent(Run(st, calls))
    decreases |calls|
  {
    if calls != [] {
      match calls[0] {
        case LoadCall(ids) => LoadPreservesConsistent(st, ids);
        case AddObjectCall(obj, objectLoad, fromSimulator) => AddObjectPreservesConsistent(st, obj, objectLoad, fromSimulator);
      }
      RunPreservesConsistent(Apply(st, calls[0]), calls[1..]);
    }
  }

  /**
   * From a fresh scene: no visual-only object is ever registered, an object
   * is loaded on its own only after the scene has been loaded, and loading
   * succeeds at most once.
   */
  lemma FromFreshScene(calls: seq<Call>)
    ensures forall o :: o in Run(InitialState(), calls).objects ==> !IsVisualOnly(o)
    ensures !Run(InitialState(), calls).loaded ==> Run(InitialState(), calls).loadedSeparately == []
    ensures SuccessfulLoads(InitialState(), calls) <= 1
    ensures Run(InitialState(), calls).objects == AcceptedObjects(InitialState(), calls)
  {
    InitialStateConsistent();
    RunPreservesConsistent(InitialState(), calls);
    LoadSucceedsAtMostOnce(InitialState(), calls);
    RunAppendsAcceptedObjects(InitialState(), calls);
  }
}

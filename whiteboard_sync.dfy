/** useYjsTldrawStore of client/src/components/Whiteboard.jsx: the rules that
    keep a local canvas store (shapes and bindings) and two shared maps
    (`shapes` and `bindings` of the replicated document) in step. The four
    maps are plain maps here; how the replicated document merges with its
    peers and how the canvas store applies the lists it is handed are not
    part of this model. */
module WhiteboardSync {
  import opened Common

  type RecordId = string

  /** A value read out of a map: a canvas record, or `undefined` when the
      source reads an id the map does not hold. */
  datatype Value = Undefined | Record(data: string)

  type RecordMap = map<RecordId, Value>

  /** store.getShape(id), store.getBinding(id), yShapes.get(id), ... */
  function Get(m: RecordMap, id: RecordId): Value {
    if id in m then m[id] else Undefined
  }

  // ---- Local changes pushed into the shared maps ----

  /** change.type and change.name as the listener reads them. */
  datatype ChangeType = Add | Update | Remove | OtherType
  datatype RecordKind = ShapeKind | BindingKind | OtherKind

  datatype LocalChange = LocalChange(source: string, changeType: ChangeType, name: RecordKind, id: RecordId)

  /** The two shared maps, yShapes and yBindings. */
  datatype Shared = Shared(shapes: RecordMap, bindings: RecordMap)

  /** One turn of changes.forEach in the store listener: changes not made by
      the user return early; an add sets the current local value under its id
      in the matching shared map; an update does so for shapes only; a remove
      deletes the id from the matching shared map. */
  function ApplyLocalChange(sh: Shared, localShapes: RecordMap, localBindings: RecordMap,
                            c: LocalChange): Shared
  {
    if c.source != "user" then sh
    else
      match c.changeType
      case Add =>
        if c.name == ShapeKind then sh.(shapes := sh.shapes[c.id := Get(localShapes, c.id)])
        else if c.name == BindingKind then sh.(bindings := sh.bindings[c.id := Get(localBindings, c.id)])
        else sh
      case Update =>
        if c.name == ShapeKind then sh.(shapes := sh.shapes[c.id := Get(localShapes, c.id)])
        else sh
      case Remove =>
        if c.name == ShapeKind then sh.(shapes := sh.shapes - {c.id})
        else if c.name == BindingKind then sh.(bindings := sh.bindings - {c.id})
        else sh
      case OtherType => sh
  }

  /** The whole forEach, in order. */
  function ApplyLocalChanges(sh: Shared, localShapes: RecordMap, localBindings: RecordMap,
                             changes: seq<LocalChange>): Shared
    decreases |changes|
  {
    if changes == [] then sh
    else ApplyLocalChange(ApplyLocalChanges(sh, localShapes, localBindings, changes[..|changes| - 1]),
                          localShapes, localBindings, changes[|changes| - 1])
  }

  /** Whether change c sets or deletes `id` in the shared map for `kind`. A
      binding update is not such a change. */
  predicate Touches(c: LocalChange, kind: RecordKind, id: RecordId) {
    && c.source == "user" && c.name == kind && c.id == id && kind != OtherKind
    && (c.changeType == Add || c.changeType == Remove || (c.changeType == Update && kind == ShapeKind))
  }

  /** The type of the last change in the list that touches `id` in the map
      for `kind`, if any. */
  function LastTouch(changes: seq<LocalChange>, kind: RecordKind, id: RecordId): (r: Option<ChangeType>)
    ensures r.Some? ==> r.value != OtherType && (kind == BindingKind ==> r.value != Update)
    decreases |changes|
  {
    if changes == [] then None
    else if Touches(changes[|changes| - 1], kind, id) then Some(changes[|changes| - 1].changeType)
    else LastTouch(changes[..|changes| - 1], kind, id)
  }

  /** What a shared map holds for `id` after the listener: the last change
      touching it decides (removed, or the current local value); with no such
      change the entry is as before. */
  predicate Settled(before: RecordMap, after: RecordMap, local: RecordMap, last: Option<ChangeType>, id: RecordId) {
    match last
    case None => (id in after <==> id in before) && Get(after, id) == Get(before, id)
    case Some(t) =>
      if t == Remove then id !in after else id in after && after[id] == Get(local, id)
  }

  lemma {:induction false} ShapeOutcome(sh: Shared, localShapes: RecordMap, localBindings: RecordMap,
                                       changes: seq<LocalChange>, id: RecordId)
    ensures Settled(sh.shapes, ApplyLocalChanges(sh, localShapes, localBindings, changes).shapes,
                    localShapes, LastTouch(changes, ShapeKind, id), id)
    decreases |changes|
  {
    if changes != [] {
      ShapeOutcome(sh, localShapes, localBindings, changes[..|changes| - 1], id);
    }
  }

  lemma {:induction false} BindingOutcome(sh: Shared, localShapes: RecordMap, localBindings: RecordMap,
                                         changes: seq<LocalChange>, id: RecordId)
    ensures Settled(sh.bindings, ApplyLocalChanges(sh, localShapes, localBindings, changes).bindings,
                    localBindings, LastTouch(changes, BindingKind, id), id)
    decreases |changes|
  {
    if changes != [] {
      BindingOutcome(sh, localShapes, localBindings, changes[..|changes| - 1], id);
    }
  }

  /** Changes whose source is not the user leave both shared maps as they are. */
  lemma {:induction false} OthersChangesIgnored(sh: Shared, localShapes: RecordMap, localBindings: RecordMap,
                                               changes: seq<LocalChange>)
    requires forall i :: 0 <= i < |changes| ==> changes[i].source != "user"
    ensures ApplyLocalChanges(sh, localShapes, localBindings, changes) == sh
    decreases |changes|
  {
    if changes != [] {
      OthersChangesIgnored(sh, localShapes, localBindings, changes[..|changes| - 1]);
    }
  }

  /** The shared shapes map is decided by the shape changes and the local
      shapes alone: neither the bindings, shared or local, nor anything else
      reaches it. */
  lemma {:induction false} ShapesIgnoreBindings(sh: Shared, sh': Shared, localShapes: RecordMap,
                                               localBindings: RecordMap, localBindings': RecordMap,
                                               changes: seq<LocalChange>)
    requires sh.shapes == sh'.shapes
    ensures ApplyLocalChanges(sh, localShapes, localBindings, changes).shapes
            == ApplyLocalChanges(sh', localShapes, localBindings', changes).shapes
    decreases |changes|
  {
    if changes != [] {
      var init := changes[..|changes| - 1];
      ShapesIgnoreBindings(sh, sh', localShapes, localBindings, localBindings', init);
      var a := ApplyLocalChanges(sh, localShapes, localBindings, init);
      var b := ApplyLocalChanges(sh', localShapes, localBindings', init);
      assert ApplyLocalChange(a, localShapes, localBindings, changes[|changes| - 1]).shapes
             == ApplyLocalChange(b, localShapes, localBindings', changes[|changes| - 1]).shapes;
    }
  }

  /** Likewise the shared bindings map is decided by the binding changes and
      the local bindings alone. */
  lemma {:induction false} BindingsIgnoreShapes(sh: Shared, sh': Shared, localShapes: RecordMap,
                                               localShapes': RecordMap, localBindings: RecordMap,
                                               changes: seq<LocalChange>)
    requires sh.bindings == sh'.bindings
    ensures ApplyLocalChanges(sh, localShapes, localBindings, changes).bindings
            == ApplyLocalChanges(sh', localShapes', localBindings, changes).bindings
    decreases |changes|
  {
    if changes != [] {
      var init := changes[..|changes| - 1];
      BindingsIgnoreShapes(sh, sh', localShapes, localShapes', localBindings, init);
      var a := ApplyLocalChanges(sh, localShapes, localBindings, init);
      var b := ApplyLocalChanges(sh', localShapes', localBindings, init);
      assert ApplyLocalChange(a, localShapes, localBindings, changes[|changes| - 1]).bindings
             == ApplyLocalChange(b, localShapes', localBindings, changes[|changes| - 1]).bindings;
    }
  }

  // ---- Shared key changes sorted into add / update / remove lists ----

  /** The three actions a key change of a shared map reports. */
  datatype KeyAction = KeyAdd | KeyUpdate | KeyDelete

  datatype KeyChange = KeyChange(id: RecordId, action: KeyAction)

  /** The ids of the key changes with the given action, in their order. */
  function IdsWith(changes: seq<KeyChange>, action: KeyAction): (r: seq<RecordId>)
    ensures |r| <= |changes|
    decreases |changes|
  {
    if changes == [] then []
    else
      IdsWith(changes[..|changes| - 1], action)
      + (if changes[|changes| - 1].action == action then [changes[|changes| - 1].id] else [])
  }

  /** The ids of all the key changes, in their order. */
  function Ids(changes: seq<KeyChange>): (r: seq<RecordId>)
    decreases |changes|
  {
    if changes == [] then [] else Ids(changes[..|changes| - 1]) + [changes[|changes| - 1].id]
  }

  /** The values the map holds for the ids, in order. */
  function ValuesAt(m: RecordMap, ids: seq<RecordId>): (r: seq<Value>)
    ensures |r| == |ids| && forall i :: 0 <= i < |ids| ==> r[i] == Get(m, ids[i])
  {
    seq(|ids|, i requires 0 <= i < |ids| => Get(m, ids[i]))
  }

  /** The loop over event.changes.keys: adds and updates carry the value the
      shared map holds now, deletes carry the id. */
  method Classify(changes: seq<KeyChange>, current: RecordMap)
    returns (added: seq<Value>, updated: seq<Value>, removed: seq<RecordId>)
    ensures added == ValuesAt(current, IdsWith(changes, KeyAdd))
    ensures updated == ValuesAt(current, IdsWith(changes, KeyUpdate))
    ensures removed == IdsWith(changes, KeyDelete)
  {
    added, updated, removed := [], [], [];
    for i := 0 to |changes|
      invariant added == ValuesAt(current, IdsWith(changes[..i], KeyAdd))
      invariant updated == ValuesAt(current, IdsWith(changes[..i], KeyUpdate))
      invariant removed == IdsWith(changes[..i], KeyDelete)
    {
      IdsWithStep(changes, i, KeyAdd);
      IdsWithStep(changes, i, KeyUpdate);
      IdsWithStep(changes, i, KeyDelete);
      var id := changes[i].id;
      match changes[i].action {
        case KeyAdd =>
          ValuesAtAppend(current, IdsWith(changes[..i], KeyAdd), id);
          added := added + [Get(current, id)];
        case KeyUpdate =>
          ValuesAtAppend(current, IdsWith(changes[..i], KeyUpdate), id);
          updated := updated + [Get(current, id)];
        case KeyDelete =>
          removed := removed + [id];
      }
    }
    assert changes[..|changes|] == changes;
  }

  /** One more key change adds its id to the list of its action only. */
  lemma IdsWithStep(changes: seq<KeyChange>, i: nat, action: KeyAction)
    requires i < |changes|
    ensures IdsWith(changes[..i + 1], action)
            == IdsWith(changes[..i], action) + (if changes[i].action == action then [changes[i].id] else [])
  {
    assert changes[..i + 1][..i] == changes[..i];
  }

  /** Reading one more id reads one more value. */
  lemma ValuesAtAppend(m: RecordMap, ids: seq<RecordId>, id: RecordId)
    ensures ValuesAt(m, ids + [id]) == ValuesAt(m, ids) + [Get(m, id)]
  {
    assert (ids + [id])[|ids|] == id;
  }

  /** Every key change lands in exactly one of the three lists: the lists
      together hold each id as often as the key changes report it. */
  lemma {:induction false} ClassifyPartitions(changes: seq<KeyChange>)
    ensures multiset(IdsWith(changes, KeyAdd)) + multiset(IdsWith(changes, KeyUpdate))
            + multiset(IdsWith(changes, KeyDelete)) == multiset(Ids(changes))
    decreases |changes|
  {
    if changes != [] {
      var init := changes[..|changes| - 1];
      var x := changes[|changes| - 1].id;
      ClassifyPartitions(init);
      var add, upd, del := IdsWith(init, KeyAdd), IdsWith(init, KeyUpdate), IdsWith(init, KeyDelete);
      var add', upd', del' := IdsWith(changes, KeyAdd), IdsWith(changes, KeyUpdate), IdsWith(changes, KeyDelete);
      assert Ids(changes) == Ids(init) + [x];
      var step := multiset{x};
      match changes[|changes| - 1].action {
        case KeyAdd =>
          assert add' == add + [x] && upd' == upd && del' == del;
          assert multiset(add') == multiset(add) + step;
        case KeyUpdate =>
          assert add' == add && upd' == upd + [x] && del' == del;
          assert multiset(upd') == multiset(upd) + step;
        case KeyDelete =>
          assert add' == add && upd' == upd && del' == del + [x];
          assert multiset(del') == multiset(del) + step;
      }
      assert multiset(Ids(changes)) == multiset(Ids(init)) + step;
      MultisetShift(multiset(add), multiset(upd), multiset(del), multiset(Ids(init)), step);
    }
  }

  /** Adding the same ids to one part of a sum and to its total keeps the
      equation. */
  lemma MultisetShift(a: multiset<RecordId>, u: multiset<RecordId>, d: multiset<RecordId>,
                      total: multiset<RecordId>, step: multiset<RecordId>)
    requires a + u + d == total
    ensures (a + step) + u + d == total + step
    ensures a + (u + step) + d == total + step
    ensures a + u + (d + step) == total + step
  {
  }

  /** The three lists hold as many entries as there are key changes. */
  lemma {:induction false} ClassifyCounts(changes: seq<KeyChange>)
    ensures |IdsWith(changes, KeyAdd)| + |IdsWith(changes, KeyUpdate)| + |IdsWith(changes, KeyDelete)| == |changes|
    decreases |changes|
  {
    if changes != [] {
      ClassifyCounts(changes[..|changes| - 1]);
    }
  }

  // ---- The hook's state ----

  class YjsTldrawStore {
    /** store.shapes and store.bindings, as the shared side reads them. */
    var localShapes: RecordMap
    var localBindings: RecordMap
    /** yShapes and yBindings. */
    var yShapes: RecordMap
    var yBindings: RecordMap
    var didConnect: bool
    /** Store listeners still registered (the entries of `unsubscribes`). */
    var listeners: nat
    /** observeDeep registrations on each shared map. */
    var observers: nat
    var isReady: bool

    /** The listener and the observers are registered together, once. */
    ghost predicate Valid()
      reads this
    {
      observers == (if didConnect then 1 else 0) && listeners <= observers
    }

    /** The hook's state when the provider first reports: the local store and
        whatever the shared maps hold by then. */
    constructor (shapes: RecordMap, bindings: RecordMap, sharedShapes: RecordMap, sharedBindings: RecordMap)
      ensures Valid()
      ensures localShapes == shapes && localBindings == bindings
      ensures yShapes == sharedShapes && yBindings == sharedBindings
      ensures !didConnect && listeners == 0 && observers == 0 && !isReady
    {
      localShapes, localBindings := shapes, bindings;
      yShapes, yBindings := sharedShapes, sharedBindings;
      didConnect, listeners, observers, isReady := false, 0, 0, false;
    }

    /** The 'sync' handler. On the first connected sync only: when the shared
        shapes map is empty, every local shape and binding is copied into the
        shared maps; then the listener and the observers are registered and
        didConnect is set. isReady always becomes the flag received. */
    method OnSync(isConnected: bool)
      requires Valid()
      modifies this
      ensures Valid()
      ensures isReady == isConnected
      ensures localShapes == old(localShapes) && localBindings == old(localBindings)
      ensures !(isConnected && !old(didConnect)) ==>
        && yShapes == old(yShapes) && yBindings == old(yBindings)
        && didConnect == old(didConnect) && listeners == old(listeners) && observers == old(observers)
      ensures isConnected && !old(didConnect) ==>
        && didConnect && listeners == 1 && observers == 1
        && (|old(yShapes)| == 0 ==> yShapes == localShapes && yBindings == old(yBindings) + localBindings)
        && (|old(yShapes)| != 0 ==> yShapes == old(yShapes) && yBindings == old(yBindings))
    {
      if isConnected && !didConnect {
        if |yShapes| == 0 {
          SeedIntoEmpty(yShapes, localShapes);
          var seededShapes := CopyEntries(yShapes, localShapes);
          var seededBindings := CopyEntries(yBindings, localBindings);
          yShapes, yBindings := seededShapes, seededBindings;
        }
        listeners := listeners + 1;
        observers := observers + 1;
        didConnect := true;
      }
      isReady := isConnected;
    }

    /** A user edit of the canvas store: `shapesNow` and `bindingsNow` are the
        store after the edit, and `changes` its history entries. The store
        listener, once registered, applies the changes in order, reading each
        value from the edited store. */
    method OnLocalChanges(shapesNow: RecordMap, bindingsNow: RecordMap, changes: seq<LocalChange>)
      requires Valid()
      modifies this`localShapes, this`localBindings, this`yShapes, this`yBindings
      ensures localShapes == shapesNow && localBindings == bindingsNow
      ensures listeners == 0 ==> yShapes == old(yShapes) && yBindings == old(yBindings)
      ensures listeners > 0 ==>
        Shared(yShapes, yBindings)
        == ApplyLocalChanges(Shared(old(yShapes), old(yBindings)), shapesNow, bindingsNow, changes)
    {
      localShapes, localBindings := shapesNow, bindingsNow;
      if listeners == 0 {
        return;
      }
      ghost var start := Shared(yShapes, yBindings);
      for i := 0 to |changes|
        invariant localShapes == shapesNow && localBindings == bindingsNow
        invariant Shared(yShapes, yBindings) == ApplyLocalChanges(start, shapesNow, bindingsNow, changes[..i])
      {
        assert changes[..i + 1][..i] == changes[..i];
        var change := changes[i];
        if change.source != "user" {
          continue;
        }
        match change.changeType {
          case Add =>
            if change.name == ShapeKind {
              yShapes := yShapes[change.id := Get(localShapes, change.id)];
            } else if change.name == BindingKind {
              yBindings := yBindings[change.id := Get(localBindings, change.id)];
            }
          case Update =>
            if change.name == ShapeKind {
              yShapes := yShapes[change.id := Get(localShapes, change.id)];
            }
          case Remove =>
            if change.name == ShapeKind {
              yShapes := yShapes - {change.id};
            } else if change.name == BindingKind {
              yBindings := yBindings - {change.id};
            }
          case OtherType =>
        }
      }
      assert changes[..|changes|] == changes;
    }

    /** A remote change of the shared shapes map: `sharedNow` is the map after
        the merge and `keys` the event's key changes. The observer hands
        store.mergeShapes and store.removeShapes lists read from the merged map. */
    method OnSharedShapes(sharedNow: RecordMap, keys: seq<KeyChange>)
      returns (newShapes: seq<Value>, updatedShapes: seq<Value>, removedShapes: seq<RecordId>)
      requires Valid() && observers > 0
      modifies this`yShapes
      ensures yShapes == sharedNow
      ensures newShapes == ValuesAt(sharedNow, IdsWith(keys, KeyAdd))
      ensures updatedShapes == ValuesAt(sharedNow, IdsWith(keys, KeyUpdate))
      ensures removedShapes == IdsWith(keys, KeyDelete)
    {
      yShapes := sharedNow;
      newShapes, updatedShapes, removedShapes := Classify(keys, yShapes);
    }

    /** A remote change of the shared bindings map, for one event. */
    method OnSharedBindings(sharedNow: RecordMap, keys: seq<KeyChange>)
      returns (newBindings: seq<Value>, updatedBindings: seq<Value>, removedBindings: seq<RecordId>)
      requires Valid() && observers > 0
      modifies this`yBindings
      ensures yBindings == sharedNow
      ensures newBindings == ValuesAt(sharedNow, IdsWith(keys, KeyAdd))
      ensures updatedBindings == ValuesAt(sharedNow, IdsWith(keys, KeyUpdate))
      ensures removedBindings == IdsWith(keys, KeyDelete)
    {
      yBindings := sharedNow;
      newBindings, updatedBindings, removedBindings := Classify(keys, yBindings);
    }

    /** The effect's cleanup: every registered listener is unsubscribed. */
    method Teardown()
      requires Valid()
      modifies this`listeners
      ensures Valid() && listeners == 0
    {
      listeners := 0;
    }
  }

  /** A client that connects to an empty room with one local shape, then
      draws a second: the drawn shape reaches the shared map with the value
      the store holds after the edit. */
  method DrawScenario() {
    var hook := new YjsTldrawStore(map["x" := Record("r")], map[], map[], map[]);
    hook.OnSync(true);
    assert hook.yShapes == map["x" := Record("r")];
    var drawn := LocalChange("user", Add, ShapeKind, "s");
    hook.OnLocalChanges(map["x" := Record("r"), "s" := Record("v")], map[], [drawn]);
    assert [drawn][..0] == [];
    assert hook.yShapes == map["x" := Record("r"), "s" := Record("v")];
  }

  /** Copying into an empty map gives the copied map itself. */
  lemma SeedIntoEmpty(target: RecordMap, source: RecordMap)
    requires |target| == 0
    ensures target + source == source
  {
    assert target == map[];
  }

  /** The seeding loop `for (const [id, v] of m.entries()) target.set(id, v)`:
      every entry of the source is set in the target, overriding what the
      target held for that id. */
  method CopyEntries(target: RecordMap, source: RecordMap) returns (r: RecordMap)
    ensures r == target + source
  {
    r := target;
    var pending := source.Keys;
    while pending != {}
      invariant pending <= source.Keys
      invariant r.Keys == target.Keys + (source.Keys - pending)
      invariant forall id :: id in r ==> r[id] == if id in source && id !in pending then source[id] else target[id]
      decreases pending
    {
      var id :| id in pending;
      r := r[id := source[id]];
      pending := pending - {id};
    }
  }
}

/**
 * Properties of PojoEntityManager that relate several operations:
 * back-to-back createEntity calls never hand out an id twice (clear and
 * setNextId can rewind the counter), deactivating and restoring an
 * entity brings back its components, add and save differ only in the order
 * of their notifications, and reads fall back to the global cache while
 * removal never does.
 */
module ManagerProperties {
  import opened Wrappers
  import opened Components
  import opened ManagerSpec

  // ---------------------------------------------------------------------
  // Allocation

  /** `n` successive createEntity() calls, with the ids in the order they were returned. */
  function CreateEntities(m: Manager, n: nat): (r: Step<seq<EntityId>>)
    ensures |r.result| == n
  {
    if n == 0 then Step(m, [])
    else
      var s := CreateEntities(m, n - 1);
      var c := CreateEntity(s.state);
      Step(c.state, s.result + [c.result])
  }

  /**
   * Successive createEntity() calls return strictly increasing, hence
   * distinct, ids; none is NULL_ID, none existed before, each is loaded
   * afterwards, and nothing but the counter and the loaded set changes.
   */
  lemma {:induction false} CreateEntitiesFresh(m: Manager, n: nat)
    ensures
      var r := CreateEntities(m, n);
      && (forall i, j :: 0 <= i < j < n ==> r.result[i] < r.result[j])
      && (forall i :: 0 <= i < n ==>
            && r.result[i] != NULL_ID
            && !IsExistingEntity(m, r.result[i])
            && IsExistingEntity(r.state, r.result[i])
            && IsActiveEntity(r.state, r.result[i]))
      && m.loadedIds <= r.state.loadedIds
      && r.state.nextEntityId >= m.nextEntityId + n
      && r.state == m.(nextEntityId := r.state.nextEntityId, loadedIds := r.state.loadedIds)
    decreases n
  {
    if n > 0 {
      CreateEntitiesFresh(m, n - 1);
      var s := CreateEntities(m, n - 1);
      var c := CreateEntity(s.state);
      assert CreateEntities(m, n).result == s.result + [c.result];
      assert forall i :: 0 <= i < n - 1 ==> s.result[i] < s.state.nextEntityId <= c.result;
    }
  }

  /** An id that was removed still exists, and registerId makes it active again. */
  lemma RemoveThenRegister(m: Manager, id: EntityId)
    requires IsExistingEntity(m, id)
    ensures IsExistingEntity(Remove(m, id), id) && !IsActiveEntity(Remove(m, id), id)
    ensures RegisterId(Remove(m, id), id).result
    ensures RegisterId(Remove(m, id), id).state == m.(loadedIds := m.loadedIds + {id})
  {
  }

  /** registerId refuses exactly the ids createEntity() could still hand out. */
  lemma RegisterRefusesUnallocated(m: Manager, id: EntityId)
    requires Inv(m)
    ensures !RegisterId(m, id).result <==> id >= m.nextEntityId
    ensures !RegisterId(m, id).result ==> id !in m.loadedIds
  {
  }

  /**
   * After clear the counter starts again at 1, so an id handed out before
   * is handed out again; its routing entry is still there.
   */
  lemma ClearReissuesIds(m: Manager)
    requires IsExistingEntity(m, 1)
    ensures IsExistingEntity(m, CreateEntity(Clear(m)).result)
    ensures (1 in m.cacheMap) ==> RoutedCache(CreateEntity(Clear(m)).state, 1) == m.cacheMap[1]
  {
  }

  /** setNextId can rewind the counter, after which createEntity hands out an id again. */
  lemma SetNextIdReissues(m: Manager)
    ensures
      var c := CreateEntity(m);
      CreateEntity(SetNextId(c.state, c.result)).result == c.result
  {
  }

  // ---------------------------------------------------------------------
  // Handles

  /** createEntityRef is idempotent: the second call returns the same handle and changes nothing. */
  lemma CreateEntityRefIdempotent(m: Manager, id: EntityId)
    ensures
      var s := CreateEntityRef(m, id);
      CreateEntityRef(s.state, id) == s
  {
  }

  // ---------------------------------------------------------------------
  // Components

  /**
   * addComponent and saveComponent of the same component leave the same
   * tables, handles and routing; add notifies the subscribers before the
   * events, save after.
   */
  lemma SaveMirrorsAdd(m: Manager, id: EntityId, c: Component)
    ensures
      var a := AddComponent(m, id, Some(c)).state;
      var s := SaveComponent(m, id, c);
      var present := (id, c.Type()) in TableOf(m, RoutedCache(m, id));
      var calls := AddCalls(m.subscribers, RefOf(id), c.Type(), present);
      var events := AddEvents(m.eventSystem, RefOf(id), c, present);
      && a == s.(log := a.log)
      && a.log == m.log + calls + events
      && s.log == m.log + events + calls
  {
    var kind := RoutedCache(m, id);
    var present := (id, c.Type()) in TableOf(m, kind);
    var m1 := PutIn(m, kind, id, c);
    var refs := CreateEntityRef(m1, id).state.globalRefs;
    // add: subscribers first, then the events
    var a2 := NotifyAdd(m1, id, c.Type(), present);
    var a3 := SendAddEventsIfSet(a2, id, c, present);
    assert AddComponent(m, id, Some(c)).state == a3;
    CreateEntityRefIdempotent(m1, id);
    assert a3.globalRefs == refs;
    // save: the events first, then the subscribers
    var s2 := SendAddEventsIfSet(m1, id, c, present);
    var s3 := NotifyAdd(s2, id, c.Type(), present);
    assert SaveComponent(m, id, c) == s3;
    assert s3.globalRefs == refs;
  }

  /**
   * Adding a second component of the same type replaces the first: the
   * subscribers hear Changed (not Added), the event system gets OnChanged,
   * and getComponent returns the second component.
   */
  lemma AddTwiceChanges(m: Manager, id: EntityId, c1: Component, c2: Component)
    requires c1.Type() == c2.Type()
    ensures
      var m1 := AddComponent(m, id, Some(c1)).state;
      var m2 := AddComponent(m1, id, Some(c2)).state;
      && GetComponent(m2, id, c2.Type()) == Some(c2)
      && m2.log == m1.log + FanOut(m1.subscribers, ComponentChanged(RefOf(id), c2.Type()))
                          + (if m.eventSystem then [ToEventSystem(RefOf(id), OnChangedComponent(c2))] else [])
  {
    var m1 := AddComponent(m, id, Some(c1)).state;
    assert StoredInRoute(m, m1, id, c1);
    assert RoutedCache(m1, id) == RoutedCache(m, id);
    assert (id, c2.Type()) in TableOf(m1, RoutedCache(m1, id));
  }

  /**
   * For an entity routed to the sector manager whose component sits only in
   * the sector table, getComponent and hasComponent see it but
   * removeComponent, which consults only the global table, returns nothing
   * and changes nothing.
   */
  lemma RemoveIgnoresRouting(m: Manager, id: EntityId, ty: ComponentType)
    requires id in m.cacheMap && m.cacheMap[id] == SectorCache
    requires (id, ty) in m.sectorTable && (id, ty) !in m.globalTable
    ensures GetComponent(m, id, ty) == Some(m.sectorTable[(id, ty)])
    ensures HasComponent(m, id, ty)
    ensures RemoveComponent(m, id, ty) == Step(m, None)
  {
  }

  /** removeComponent undoes addComponent of a new type for an entity routed to the global cache. */
  lemma AddThenRemove(m: Manager, id: EntityId, c: Component)
    requires RoutedCache(m, id) == GlobalCache && (id, c.Type()) !in m.globalTable
    ensures
      var m1 := AddComponent(m, id, Some(c)).state;
      var r := RemoveComponent(m1, id, c.Type());
      && r.result == Some(c)
      && r.state.globalTable == m.globalTable
      && r.state.sectorTable == m.sectorTable
      && (HasComponent(r.state, id, c.Type()) <==> (id, c.Type()) in m.sectorTable)
  {
    var m1 := AddComponent(m, id, Some(c)).state;
    assert StoredInRoute(m, m1, id, c);
    assert m1.globalTable == m.globalTable[(id, c.Type()) := c];
    assert m1.globalTable - {(id, c.Type())} == m.globalTable;
  }

  /**
   * After clear the routing map still sends a reissued id to the sector
   * manager, so a component created for it in the global table is not
   * visible through getComponent.
   */
  lemma StaleRoutingAfterClear(m: Manager, c: Component)
    requires 1 in m.cacheMap && m.cacheMap[1] == SectorCache
    requires !m.eventSystem
    ensures
      var r := CreateEntityFrom(Clear(m), [c], []);
      && r.result == Ref(1)
      && Lookup(r.state.globalTable, (1, c.Type())) == Some(c)
      && GetComponent(r.state, 1, c.Type()) == None
  {
    var cl := Clear(m);
    assert CreateEntity(cl).result == 1;
    assert LastOfType([c], c.Type()) == Some(c);
    assert PutAll(map[], 1, [c]) == Put(PutAll(map[], 1, []), 1, c);
  }

  /**
   * createEntityWithoutLifecycleEvents still sends BeforeEntityCreated when
   * an event system is set, since it goes through the private createEntity.
   */
  lemma WithoutLifecycleEventsSendsBeforeEntityCreated(m: Manager, components: seq<Component>, eventResult: seq<Component>)
    requires m.eventSystem
    ensures
      var id := CreateEntity(m).result;
      var r := CreateEntityWithoutLifecycleEvents(m, components, eventResult);
      && |r.state.log| > |m.log|
      && r.state.log[|m.log|] == ToEventSystem(Ref(id), BeforeEntityCreated(FirstPrefab(components), components))
  {
    var s := CreateEntityFrom(m, components, eventResult);
    var r := CreateEntityWithoutLifecycleEvents(m, components, eventResult);
    assert r.state.log == s.state.log + FanOutEach(m.subscribers, AddedCalls(s.result, components));
    assert r.state.log[|m.log|] == s.state.log[|m.log|];
  }

  // ---------------------------------------------------------------------
  // Storage

  /**
   * deactivateForStorage followed by createEntityWithId with the snapshot
   * the subscribers were given restores a global entity: the same handle,
   * the same global table, the id active again and still routed globally.
   */
  lemma DeactivateThenRestoreGlobal(m: Manager, entity: EntityRef, order: seq<ComponentType>)
    requires Exists(m, entity)
    requires Lists(order, m.globalTable, entity.Id())
    requires !HasSectorScope(Snapshot(m.globalTable, entity.Id(), order))
    ensures
      var id := entity.Id();
      var d := DeactivateForStorage(m, entity, order);
      var r := CreateEntityWithId(d, id, Snapshot(m.globalTable, id, order));
      && !IsActiveEntity(d, id)
      && r.result == entity
      && r.state.globalTable == m.globalTable
      && r.state.sectorTable == m.sectorTable
      && r.state.loadedIds == m.loadedIds + {id}
      && RoutedCache(r.state, id) == GlobalCache
  {
    var id := entity.Id();
    var snapshot := Snapshot(m.globalTable, id, order);
    var d := DeactivateForStorage(m, entity, order);
    var r := CreateEntityWithId(d, id, snapshot);
    assert r == RestoreInCache(d, GlobalCache, id, snapshot);
    assert r.state.globalTable == PutAll(RemoveEntity(m.globalTable, id), id, snapshot);
    SnapshotRestores(m.globalTable, id, order);
  }

  /**
   * The same round trip for an entity whose snapshot holds a SECTOR-scoped
   * EntityInfo moves its components to the sector table and routes it to
   * the sector manager.
   */
  lemma DeactivateThenRestoreSector(m: Manager, entity: EntityRef, order: seq<ComponentType>)
    requires Exists(m, entity)
    requires Lists(order, m.globalTable, entity.Id())
    requires HasSectorScope(Snapshot(m.globalTable, entity.Id(), order))
    ensures
      var id := entity.Id();
      var snapshot := Snapshot(m.globalTable, id, order);
      var r := CreateEntityWithId(DeactivateForStorage(m, entity, order), id, snapshot);
      && r.result == entity
      && r.state.globalTable == RemoveEntity(m.globalTable, id)
      && r.state.sectorTable == PutAll(m.sectorTable, id, snapshot)
      && (forall ty :: (id, ty) in m.globalTable ==> GetComponent(r.state, id, ty) == Some(m.globalTable[(id, ty)]))
      && RoutedCache(r.state, id) == SectorCache
  {
    var id := entity.Id();
    var snapshot := Snapshot(m.globalTable, id, order);
    var d := DeactivateForStorage(m, entity, order);
    var r := CreateEntityWithId(d, id, snapshot);
    forall ty | (id, ty) in m.globalTable
      ensures GetComponent(r.state, id, ty) == Some(m.globalTable[(id, ty)])
    {
      SnapshotHolds(m.globalTable, id, order, ty);
    }
  }

  /** A snapshot of an entity's components yields, for each held type, the held component as its last of that type. */
  lemma SnapshotHolds(t: Table, id: EntityId, order: seq<ComponentType>, ty: ComponentType)
    requires Lists(order, t, id)
    requires (id, ty) in t
    ensures LastOfType(Snapshot(t, id, order), ty) == Some(t[(id, ty)])
  {
    SnapshotRestores(t, id, order);
    assert Lookup(PutAll(RemoveEntity(t, id), id, Snapshot(t, id, order)), (id, ty)) == Some(t[(id, ty)]);
  }

  // ---------------------------------------------------------------------
  // Subscribers

  /** An unsubscribed subscriber hears nothing of the next notification; the others all do. */
  lemma UnsubscribedHearsNothing(m: Manager, s: SubscriberId, call: SubscriberCall)
    ensures
      var u := Unsubscribe(m, s);
      var r := Notify(u, call);
      && (forall k :: |m.log| <= k < |r.log| ==> r.log[k] != ToSubscriber(s, call))
      && (forall x :: x in m.subscribers && x != s ==> ToSubscriber(x, call) in r.log[|m.log|..])
  {
    var u := Unsubscribe(m, s);
    var r := Notify(u, call);
    forall k | |m.log| <= k < |r.log|
      ensures r.log[k] != ToSubscriber(s, call)
    {
      assert r.log[k] == ToSubscriber(u.subscribers[k - |m.log|], call);
    }
    forall x | x in m.subscribers && x != s
      ensures ToSubscriber(x, call) in r.log[|m.log|..]
    {
      var k :| 0 <= k < |u.subscribers| && u.subscribers[k] == x;
      assert r.log[|m.log|..][k] == ToSubscriber(x, call);
    }
  }

  /** Subscribing twice is the same as subscribing once. */
  lemma SubscribeIdempotent(m: Manager, s: SubscriberId)
    ensures SubscribeForChanges(SubscribeForChanges(m, s), s) == SubscribeForChanges(m, s)
    ensures SubscribeForDestruction(SubscribeForDestruction(m, s), s) == SubscribeForDestruction(m, s)
  {
  }
}

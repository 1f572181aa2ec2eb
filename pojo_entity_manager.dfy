/**
 * PojoEntityManager as a class whose methods update its fields in place.
 * Every method is proved to leave the state (and to return) what the
 * corresponding function of ManagerSpec gives for the old state.
 */
module EntityManager {
  import opened Wrappers
  import opened Components
  import S = ManagerSpec

  class PojoEntityManager {
    /** The id the next createEntity() hands out (nextEntityId). */
    var nextEntityId: nat
    /** The currently loaded ids (loadedIds). */
    var loadedIds: set<EntityId>
    /** The component table of the global cache. */
    var globalTable: Table
    /** The component table of the sector manager. */
    var sectorTable: Table
    /** The ids the global cache holds a handle for. */
    var globalRefs: set<EntityId>
    /** The ids the sector manager holds a handle for. */
    var sectorRefs: set<EntityId>
    /** The id-to-cache routing map (cacheMap). */
    var cacheMap: map<EntityId, CacheKind>
    /** The change subscribers, in registration order. */
    var subscribers: seq<SubscriberId>
    /** The destroy subscribers, in registration order. */
    var destroySubscribers: seq<SubscriberId>
    /** Whether an event system is set. */
    var eventSystem: bool
    /** Every subscriber call and event-system send so far, in order. */
    var log: seq<Notification>

    /** The fields as a ManagerSpec state. */
    function State(): S.Manager
      reads this
    {
      S.Manager(nextEntityId, loadedIds, globalTable, sectorTable, globalRefs, sectorRefs,
                cacheMap, subscribers, destroySubscribers, eventSystem, log)
    }

    ghost predicate Valid()
      reads this
    {
      S.Inv(State())
    }

    /** A new manager: counter at 1, nothing loaded, no routing, no subscribers, no event system. */
    constructor ()
      ensures State() == S.Initial() && Valid()
    {
      nextEntityId := 1;
      loadedIds := {};
      globalTable := map[];
      sectorTable := map[];
      globalRefs := {};
      sectorRefs := {};
      cacheMap := map[];
      subscribers := [];
      destroySubscribers := [];
      eventSystem := false;
      log := [];
    }

    // -------------------------------------------------------------------
    // The id counter and the loaded-id set

    /** isExistingEntity: the id was allocated at some point. */
    function IsExistingEntity(id: EntityId): (b: bool)
      reads this
      ensures b == S.IsExistingEntity(State(), id)
      ensures b <==> id < GetNextId()
    {
      nextEntityId > id
    }

    /** isActiveEntity: the id is currently loaded. */
    function IsActiveEntity(id: EntityId): (b: bool)
      reads this
      ensures b == S.IsActiveEntity(State(), id)
    {
      id in loadedIds
    }

    /** getNextId: no id at or above it exists. */
    function GetNextId(): (n: nat)
      reads this
      ensures forall x: EntityId :: S.IsExistingEntity(State(), x) <==> x < n
    {
      nextEntityId
    }

    /** setNextId. */
    method SetNextId(id: nat)
      modifies this
      ensures old(Valid()) && (forall x :: x in old(loadedIds) ==> x < id) ==> Valid()
      ensures State() == S.SetNextId(old(State()), id)
    {
      nextEntityId := id;
    }

    /** createEntity(): never NULL_ID; the returned id is loaded and below the new counter. */
    method CreateEntity() returns (id: EntityId)
      modifies this
      ensures old(Valid()) ==> Valid()
      ensures State() == S.CreateEntity(old(State())).state && id == S.CreateEntity(old(State())).result
      ensures id != NULL_ID && id in loadedIds && nextEntityId > id
    {
      if nextEntityId == NULL_ID {
        nextEntityId := nextEntityId + 1;
      }
      loadedIds := loadedIds + {nextEntityId};
      id := nextEntityId;
      nextEntityId := nextEntityId + 1;
    }

    /** createEntity(cache): allocate an id and route it to `cache`. */
    method CreateEntityIn(cache: CacheKind) returns (id: EntityId)
      modifies this
      ensures old(Valid()) ==> Valid()
      ensures State() == S.CreateEntityIn(old(State()), cache).state && id == S.CreateEntityIn(old(State()), cache).result
    {
      id := CreateEntity();
      cacheMap := cacheMap[id := cache];
    }

    /** registerId: load an allocated id again; refuse one at or above the counter. */
    method RegisterId(id: EntityId) returns (ok: bool)
      modifies this
      ensures old(Valid()) ==> Valid()
      ensures State() == S.RegisterId(old(State()), id).state && ok == S.RegisterId(old(State()), id).result
    {
      if id >= nextEntityId {
        return false;
      }
      loadedIds := loadedIds + {id};
      return true;
    }

    /** remove: unload an id. */
    method Remove(id: EntityId)
      modifies this
      ensures old(Valid()) ==> Valid()
      ensures State() == S.Remove(old(State()), id)
    {
      loadedIds := loadedIds - {id};
    }

    /** clear: empty both caches, reset the counter to 1, unload everything. */
    method Clear()
      modifies this
      ensures old(Valid()) ==> Valid()
      ensures State() == S.Clear(old(State()))
    {
      globalTable, globalRefs := map[], {};
      sectorTable, sectorRefs := map[], {};
      nextEntityId := 1;
      loadedIds := {};
    }

    // -------------------------------------------------------------------
    // Routing, handles, the event sink and the subscriber fan-out

    /** assignToCache. */
    method AssignToCache(id: EntityId, kind: CacheKind)
      modifies this
      ensures State() == S.AssignToCache(old(State()), id, kind)
    {
      cacheMap := cacheMap[id := kind];
    }

    /** getExistingEntity: the global cache's handle, else the sector manager's, else the null handle. */
    function GetExistingEntity(id: EntityId): (r: EntityRef)
      reads this
      ensures r == S.ExistingEntity(State(), id)
    {
      var entity := if id in globalRefs then RefOf(id) else NullRef;
      if entity == NullRef then (if id in sectorRefs then RefOf(id) else NullRef) else entity
    }

    /** createEntityRef: reuse the registered handle, or register a new one in the global cache. */
    method CreateEntityRef(id: EntityId) returns (entity: EntityRef)
      modifies this
      ensures old(Valid()) ==> Valid()
      ensures State() == S.CreateEntityRef(old(State()), id).state && entity == S.CreateEntityRef(old(State()), id).result
    {
      if id == NULL_ID {
        return NullRef;
      }
      var existing := GetExistingEntity(id);
      if existing != NullRef {
        return existing;
      }
      globalRefs := globalRefs + {id};
      entity := RefOf(id);
    }

    /** getEntity. */
    method GetEntity(id: EntityId) returns (entity: EntityRef)
      modifies this
      ensures old(Valid()) ==> Valid()
      ensures State() == S.CreateEntityRef(old(State()), id).state && entity == RefOf(id)
    {
      entity := CreateEntityRef(id);
    }

    /** putEntity: register a handle in the global cache. */
    method PutEntity(id: EntityId)
      modifies this
      ensures old(Valid()) ==> Valid()
      ensures State() == S.PutEntity(old(State()), id)
    {
      globalRefs := globalRefs + {id};
    }

    /** setEventSystem, with only whether one is set. */
    method SetEventSystem(attached: bool)
      modifies this
      ensures old(Valid()) ==> Valid()
      ensures State() == old(State()).(eventSystem := attached)
    {
      eventSystem := attached;
    }

    /** eventSystem.send. */
    method Send(target: EntityRef, event: LifecycleEvent)
      modifies this
      ensures State() == S.Send(old(State()), target, event)
    {
      log := log + [ToEventSystem(target, event)];
    }

    /** notifyComponentAdded / Removed / Changed, notifyBeforeDeactivation: one call per subscriber. */
    method Notify(call: SubscriberCall)
      modifies this
      ensures old(Valid()) ==> Valid()
      ensures State() == S.Notify(old(State()), call)
    {
      var subs := subscribers;
      for i := 0 to |subs|
        invariant State() == old(State()).(log := log)
        invariant log == old(log) + FanOut(subs[..i], call)
      {
        assert subs[..i + 1][..i] == subs[..i];
        log := log + [ToSubscriber(subs[i], call)];
      }
      assert subs[..|subs|] == subs;
    }

    /** The destroy fan-out: onEntityDestroyed to each destroy subscriber. */
    method NotifyDestroyed(entity: EntityRef)
      modifies this
      ensures old(Valid()) ==> Valid()
      ensures State() == S.NotifyDestroyed(old(State()), entity)
    {
      var subs := destroySubscribers;
      for i := 0 to |subs|
        invariant State() == old(State()).(log := log)
        invariant log == old(log) + FanOut(subs[..i], EntityDestroyed(entity))
      {
        assert subs[..i + 1][..i] == subs[..i];
        log := log + [ToSubscriber(subs[i], EntityDestroyed(entity))];
      }
      assert subs[..|subs|] == subs;
    }

    // -------------------------------------------------------------------
    // Components

    /** The cache an id is routed to, defaulting to the global cache. */
    function RoutedCache(id: EntityId): (kind: CacheKind)
      reads this
      ensures kind == S.RoutedCache(State(), id)
    {
      if id in cacheMap then cacheMap[id] else GlobalCache
    }

    /** getComponent: the routed cache's component, or None. */
    function GetComponent(id: EntityId, ty: ComponentType): (r: Option<Component>)
      reads this
      ensures r == S.GetComponent(State(), id, ty)
    {
      var cache := RoutedCache(id);
      Lookup(if cache == GlobalCache then globalTable else sectorTable, (id, ty))
    }

    /** hasComponent: the global table or the sector manager holds the type. */
    function HasComponent(id: EntityId, ty: ComponentType): (b: bool)
      reads this
      ensures b == S.HasComponent(State(), id, ty)
    {
      Lookup(globalTable, (id, ty)).Some? || (id, ty) in sectorTable
    }

    /** getComponentStore().put on the table of `kind`, returning the component it replaces. */
    method PutInCache(kind: CacheKind, id: EntityId, c: Component) returns (oldComponent: Option<Component>)
      modifies this
      ensures State() == S.PutIn(old(State()), kind, id, c)
      ensures oldComponent == Lookup(S.TableOf(old(State()), kind), (id, c.Type()))
    {
      if kind == GlobalCache {
        oldComponent := Lookup(globalTable, (id, c.Type()));
        globalTable := Put(globalTable, id, c);
      } else {
        oldComponent := Lookup(sectorTable, (id, c.Type()));
        sectorTable := Put(sectorTable, id, c);
      }
    }

    /** The OnAdded and OnActivated, or OnChanged, sends of addComponent and saveComponent. */
    method SendAddEvents(id: EntityId, c: Component, present: bool)
      modifies this
      ensures State() == S.SendAddEvents(old(State()), id, c, present)
    {
      var entityRef := CreateEntityRef(id);
      if !present {
        Send(entityRef, OnAddedComponent(c));
        Send(entityRef, OnActivatedComponent(c));
      } else {
        Send(entityRef, OnChangedComponent(c));
      }
    }

    /** The Added, or Changed, subscriber calls of addComponent and saveComponent. */
    method NotifyAdd(id: EntityId, ty: ComponentType, present: bool)
      modifies this
      ensures State() == S.NotifyAdd(old(State()), id, ty, present)
    {
      var entity := GetEntity(id);
      if !present {
        Notify(ComponentAdded(entity, ty));
      } else {
        Notify(ComponentChanged(entity, ty));
      }
    }

    /** addComponent: a missing component is refused; see ManagerSpec.AddComponent. */
    method AddComponent(id: EntityId, component: Option<Component>) returns (r: Result<Component, S.ManagerError>)
      modifies this
      ensures old(Valid()) ==> Valid()
      ensures State() == S.AddComponent(old(State()), id, component).state
      ensures r == S.AddComponent(old(State()), id, component).result
    {
      if component.None? {
        return Failure(S.NullComponent);
      }
      var c := component.value;
      var cache := RoutedCache(id);
      var oldComponent := PutInCache(cache, id, c);
      NotifyAdd(id, c.Type(), oldComponent.Some?);
      if eventSystem {
        SendAddEvents(id, c, oldComponent.Some?);
      }
      assert State() == S.AddComponent(old(State()), id, component).state;
      return Success(c);
    }

    /** saveComponent: as addComponent, with the events sent before the subscribers hear. */
    method SaveComponent(id: EntityId, c: Component)
      modifies this
      ensures old(Valid()) ==> Valid()
      ensures State() == S.SaveComponent(old(State()), id, c)
    {
      var cache := RoutedCache(id);
      var oldComponent := PutInCache(cache, id, c);
      if eventSystem {
        SendAddEvents(id, c, oldComponent.Some?);
      }
      NotifyAdd(id, c.Type(), oldComponent.Some?);
      assert State() == S.SaveComponent(old(State()), id, c);
    }

    /** removeComponent: only the global table is consulted. */
    method RemoveComponent(id: EntityId, ty: ComponentType) returns (component: Option<Component>)
      modifies this
      ensures old(Valid()) ==> Valid()
      ensures State() == S.RemoveComponent(old(State()), id, ty).state
      ensures component == S.RemoveComponent(old(State()), id, ty).result
    {
      component := Lookup(globalTable, (id, ty));
      if component.Some? {
        if eventSystem {
          var entityRef := CreateEntityRef(id);
          Send(entityRef, BeforeDeactivateComponent(Some(component.value)));
          Send(entityRef, BeforeRemoveComponent(component.value));
        }
        assert State() == S.SendRemoveEventsIfSet(old(State()), id, component.value);
        var entity := GetEntity(id);
        Notify(ComponentRemoved(entity, ty));
        globalTable := globalTable - {(id, ty)};
      }
      assert State() == S.RemoveComponent(old(State()), id, ty).state;
    }

    /**
     * deactivateForStorage. `order` is the global table's enumeration of the
     * entity's components, which the snapshot follows.
     */
    method DeactivateForStorage(entity: EntityRef, order: seq<ComponentType>)
      requires Lists(order, globalTable, entity.Id())
      modifies this
      ensures old(Valid()) ==> Valid()
      ensures State() == S.DeactivateForStorage(old(State()), entity, order)
    {
      if entity.Ref? && IsExistingEntity(entity.id) {
        var id := entity.Id();
        if eventSystem {
          Send(entity, BeforeDeactivateComponent(None));
        }
        var components := Snapshot(globalTable, id, order);
        Notify(BeforeDeactivation(entity, components));
        assert State() == S.NotifyBeforeDeactivation(old(State()), entity, components);
        RemoveEach(id, components);
        loadedIds := loadedIds - {id};
      }
    }

    /** The removal loop of deactivateForStorage: each component's type leaves the global table. */
    method RemoveEach(id: EntityId, components: seq<Component>)
      modifies this
      ensures globalTable == RemoveTypes(old(globalTable), id, TypesOf(components))
      ensures State() == old(State()).(globalTable := globalTable)
    {
      for i := 0 to |components|
        invariant State() == old(State()).(globalTable := globalTable)
        invariant globalTable == RemoveTypes(old(globalTable), id, TypesOf(components[..i]))
      {
        assert TypesOf(components[..i + 1])[..i] == TypesOf(components[..i]);
        globalTable := globalTable - {(id, components[i].Type())};
      }
      assert components[..|components|] == components;
    }

    // -------------------------------------------------------------------
    // Creating and restoring entities

    /** The scan of the private createEntity for the first EntityInfo's prefab. */
    static method FindParentPrefab(components: seq<Component>) returns (prefab: Option<PrefabRef>)
      ensures prefab == S.FirstPrefab(components)
    {
      prefab := None;
      var i := 0;
      while i < |components|
        invariant 0 <= i <= |components|
        invariant forall j :: 0 <= j < i ==> !components[j].EntityInfo?
      {
        if components[i].EntityInfo? {
          prefab := components[i].parentPrefab;
          break;
        }
        i := i + 1;
      }
    }

    /** The scan of createEntityWithId for an EntityInfo with the SECTOR scope. */
    static method IsSectorScoped(components: seq<Component>) returns (sector: bool)
      ensures sector == S.HasSectorScope(components)
    {
      for i := 0 to |components|
        invariant forall j :: 0 <= j < i ==> !(components[j].EntityInfo? && components[j].scope == Sector)
      {
        if components[i].EntityInfo? && components[i].scope == Sector {
          return true;
        }
      }
      return false;
    }

    /**
     * The private createEntity(components). `eventResult` stands for the
     * components BeforeEntityCreated leaves when an event system is set.
     */
    method CreateEntityFrom(components: seq<Component>, eventResult: seq<Component>) returns (entity: EntityRef)
      modifies this
      ensures old(Valid()) ==> Valid()
      ensures State() == S.CreateEntityFrom(old(State()), components, eventResult).state
      ensures entity == S.CreateEntityFrom(old(State()), components, eventResult).result
    {
      var entityId := CreateEntity();
      var prefab := FindParentPrefab(components);
      var finalComponents;
      if eventSystem {
        var tempRef := RefOf(entityId);
        Send(tempRef, BeforeEntityCreated(prefab, components));
        finalComponents := eventResult;
      } else {
        finalComponents := components;
      }
      StoreEach(entityId, finalComponents);
      entity := CreateEntityRef(entityId);
    }

    /** The store loop of the private createEntity: each component is put into the global table in turn. */
    method StoreEach(id: EntityId, components: seq<Component>)
      modifies this
      ensures globalTable == PutAll(old(globalTable), id, components)
      ensures State() == old(State()).(globalTable := globalTable)
    {
      for i := 0 to |components|
        invariant State() == old(State()).(globalTable := globalTable)
        invariant globalTable == PutAll(old(globalTable), id, components[..i])
      {
        assert components[..i + 1][..i] == components[..i];
        globalTable := Put(globalTable, id, components[i]);
      }
      assert components[..|components|] == components;
    }

    /** The loop of createEntityWithoutLifecycleEvents: notifyComponentAdded for each component, in order. */
    method NotifyAddedEach(entity: EntityRef, components: seq<Component>)
      modifies this
      ensures log == old(log) + FanOutEach(old(subscribers), S.AddedCalls(entity, components))
      ensures State() == old(State()).(log := log)
    {
      ghost var calls := S.AddedCalls(entity, components);
      for i := 0 to |components|
        invariant State() == old(State()).(log := log)
        invariant log == old(log) + FanOutEach(old(subscribers), calls[..i])
      {
        FanOutEachStep(old(log), old(subscribers), calls, i);
        ghost var logBefore := log;
        Notify(ComponentAdded(entity, components[i].Type()));
        assert log == logBefore + FanOut(old(subscribers), calls[i]);
      }
      assert calls[..|components|] == calls;
    }

    /** createEntityWithoutLifecycleEvents(components): create, then Added for each given component. */
    method CreateEntityWithoutLifecycleEvents(components: seq<Component>, eventResult: seq<Component>) returns (entity: EntityRef)
      modifies this
      ensures old(Valid()) ==> Valid()
      ensures State() == S.CreateEntityWithoutLifecycleEvents(old(State()), components, eventResult).state
      ensures entity == S.CreateEntityWithoutLifecycleEvents(old(State()), components, eventResult).result
    {
      entity := CreateEntityFrom(components, eventResult);
      NotifyAddedEach(entity, components);
    }

    /** A cache's createEntityWithId, as far as the manager relies on it (see ManagerSpec.RestoreInCache). */
    method RestoreInCache(kind: CacheKind, id: EntityId, components: seq<Component>) returns (entity: EntityRef)
      modifies this
      ensures State() == S.RestoreInCache(old(State()), kind, id, components).state
      ensures entity == S.RestoreInCache(old(State()), kind, id, components).result
    {
      var ok := RegisterId(id);
      if !ok {
        return NullRef;
      }
      AssignToCache(id, kind);
      if kind == GlobalCache {
        globalTable := PutAll(globalTable, id, components);
      } else {
        sectorTable := PutAll(sectorTable, id, components);
      }
      entity := RefOf(id);
    }

    /** createEntityWithId: SECTOR-scoped entities go to the sector manager, the rest to the global cache. */
    method CreateEntityWithId(id: EntityId, components: seq<Component>) returns (entity: EntityRef)
      modifies this
      ensures old(Valid()) ==> Valid()
      ensures State() == S.CreateEntityWithId(old(State()), id, components).state
      ensures entity == S.CreateEntityWithId(old(State()), id, components).result
    {
      var sector := IsSectorScoped(components);
      if sector {
        AssignToCache(id, SectorCache);
        entity := RestoreInCache(SectorCache, id, components);
        return;
      }
      entity := RestoreInCache(GlobalCache, id, components);
    }

    // -------------------------------------------------------------------
    // Subscribers

    /** subscribeForChanges. */
    method SubscribeForChanges(s: SubscriberId)
      modifies this
      ensures old(Valid()) ==> Valid()
      ensures State() == S.SubscribeForChanges(old(State()), s)
    {
      if s !in subscribers {
        subscribers := subscribers + [s];
      }
    }

    /** subscribeForDestruction. */
    method SubscribeForDestruction(s: SubscriberId)
      modifies this
      ensures old(Valid()) ==> Valid()
      ensures State() == S.SubscribeForDestruction(old(State()), s)
    {
      if s !in destroySubscribers {
        destroySubscribers := destroySubscribers + [s];
      }
    }

    /** unsubscribe. */
    method Unsubscribe(s: SubscriberId)
      modifies this
      ensures old(Valid()) ==> Valid()
      ensures State() == S.Unsubscribe(old(State()), s)
    {
      subscribers := Without(subscribers, s);
    }

    /** notifyComponentRemovalAndEntityDestruction; `order` is the table's enumeration of the entity's components. */
    method NotifyComponentRemovalAndEntityDestruction(id: EntityId, entity: EntityRef, order: seq<ComponentType>)
      requires Lists(order, globalTable, id)
      modifies this
      ensures old(Valid()) ==> Valid()
      ensures State() == S.NotifyComponentRemovalAndEntityDestruction(old(State()), id, entity, order)
    {
      var components := Snapshot(globalTable, id, order);
      assert TypesOf(components) == order;
      NotifyRemovedEach(entity, components);
      NotifyDestroyed(entity);
    }

    /** The first loop of notifyComponentRemovalAndEntityDestruction: notifyComponentRemoved for each component. */
    method NotifyRemovedEach(entity: EntityRef, components: seq<Component>)
      modifies this
      ensures log == old(log) + FanOutEach(old(subscribers), S.RemovedCalls(entity, TypesOf(components)))
      ensures State() == old(State()).(log := log)
    {
      ghost var calls := S.RemovedCalls(entity, TypesOf(components));
      for i := 0 to |components|
        invariant State() == old(State()).(log := log)
        invariant log == old(log) + FanOutEach(old(subscribers), calls[..i])
      {
        FanOutEachStep(old(log), old(subscribers), calls, i);
        ghost var logBefore := log;
        Notify(ComponentRemoved(entity, components[i].Type()));
        assert log == logBefore + FanOut(old(subscribers), calls[i]);
      }
      assert calls[..|components|] == calls;
    }
  }
}

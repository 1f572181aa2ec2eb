/**
 * The state of PojoEntityManager as a value, and each of its operations as
 * a function from the old state (and the arguments) to the new state and
 * the result. The class in EntityManager is proved to follow these
 * functions; the properties of the manager are stated and proved here and
 * in ManagerProperties.
 */
module ManagerSpec {
  import opened Wrappers
  import opened Components

  /**
   * The manager's state. The two component tables and the two handle
   * registries stand for the global cache and the sector manager; `log`
   * records, in order, every subscriber call and every event the manager
   * sends through the event system (`eventSystem` says whether one is set).
   */
  datatype Manager = Manager(
    nextEntityId: nat,
    loadedIds: set<EntityId>,
    globalTable: Table,
    sectorTable: Table,
    globalRefs: set<EntityId>,
    sectorRefs: set<EntityId>,
    cacheMap: map<EntityId, CacheKind>,
    subscribers: seq<SubscriberId>,
    destroySubscribers: seq<SubscriberId>,
    eventSystem: bool,
    log: seq<Notification>)

  /** The state after an operation, with what the operation returns. */
  datatype Step<T> = Step(state: Manager, result: T)

  /** The precondition failure of addComponent (Preconditions.checkNotNull). */
  datatype ManagerError = NullComponent

  /**
   * What every operation except setNextId preserves: each loaded id was
   * allocated, the subscriber registries hold no duplicates, and each table
   * stores a component under its own type.
   */
  ghost predicate Inv(m: Manager) {
    && (forall id :: id in m.loadedIds ==> id < m.nextEntityId)
    && Distinct(m.subscribers)
    && Distinct(m.destroySubscribers)
    && WellTyped(m.globalTable)
    && WellTyped(m.sectorTable)
  }

  /** The state of a newly constructed manager (the field initialisers). */
  function Initial(): (m: Manager)
    ensures Inv(m)
    ensures m.loadedIds == {} && m.cacheMap == map[] && m.log == []
    ensures CreateEntity(m).result == 1
  {
    Manager(1, {}, map[], map[], {}, {}, map[], [], [], false, [])
  }

  // ---------------------------------------------------------------------
  // The id counter and the loaded-id set

  /** isExistingEntity: the id has ever been allocated. */
  function IsExistingEntity(m: Manager, id: EntityId): bool {
    id < m.nextEntityId
  }

  /** isActiveEntity: the id is currently loaded. */
  function IsActiveEntity(m: Manager, id: EntityId): bool {
    id in m.loadedIds
  }

  /** createEntity(): allocate the next id, skipping NULL_ID, and mark it loaded. */
  function CreateEntity(m: Manager): (r: Step<EntityId>)
    ensures r.result != NULL_ID
    ensures m.nextEntityId != NULL_ID ==> r.result == m.nextEntityId
    ensures m.nextEntityId == NULL_ID ==> r.result == 1
    ensures r.state.nextEntityId == r.result + 1 > m.nextEntityId
    ensures r.state.loadedIds == m.loadedIds + {r.result}
    ensures r.state == m.(nextEntityId := r.state.nextEntityId, loadedIds := r.state.loadedIds)
    ensures IsExistingEntity(r.state, r.result) && IsActiveEntity(r.state, r.result)
    ensures !IsExistingEntity(m, r.result)
    ensures Inv(m) ==> Inv(r.state)
  {
    var id := if m.nextEntityId == NULL_ID then m.nextEntityId + 1 else m.nextEntityId;
    Step(m.(nextEntityId := id + 1, loadedIds := m.loadedIds + {id}), id)
  }

  /** createEntity(cache): allocate an id as createEntity() does and route it to `cache`. */
  function CreateEntityIn(m: Manager, cache: CacheKind): (r: Step<EntityId>)
    ensures r.result == CreateEntity(m).result
    ensures RoutedCache(r.state, r.result) == cache
    ensures forall x :: x != r.result ==> RoutedCache(r.state, x) == RoutedCache(m, x)
    ensures r.state == CreateEntity(m).state.(cacheMap := r.state.cacheMap)
    ensures Inv(m) ==> Inv(r.state)
  {
    var s := CreateEntity(m);
    Step(AssignToCache(s.state, s.result, cache), s.result)
  }

  /** registerId: mark an already allocated id loaded again; refuse any other id. */
  function RegisterId(m: Manager, id: EntityId): (r: Step<bool>)
    ensures r.result <==> IsExistingEntity(m, id)
    ensures !r.result ==> r.state == m
    ensures r.result ==> r.state == m.(loadedIds := m.loadedIds + {id})
    ensures r.result ==> IsActiveEntity(r.state, id)
    ensures Inv(m) ==> Inv(r.state)
  {
    if id >= m.nextEntityId then Step(m, false)
    else Step(m.(loadedIds := m.loadedIds + {id}), true)
  }

  /** remove: unload an id; it still exists. */
  function Remove(m: Manager, id: EntityId): (r: Manager)
    ensures !IsActiveEntity(r, id)
    ensures forall x :: x != id ==> (IsActiveEntity(r, x) <==> IsActiveEntity(m, x))
    ensures forall x :: IsExistingEntity(r, x) <==> IsExistingEntity(m, x)
    ensures r == m.(loadedIds := r.loadedIds)
    ensures Inv(m) ==> Inv(r)
  {
    m.(loadedIds := m.loadedIds - {id})
  }

  /**
   * clear: empty both caches, reset the counter to 1 and unload every id.
   * The routing map, the subscribers and the event system are kept.
   */
  function Clear(m: Manager): (r: Manager)
    ensures r.loadedIds == {}
    ensures r.globalTable == map[] && r.sectorTable == map[]
    ensures r.globalRefs == {} && r.sectorRefs == {}
    ensures forall x :: IsExistingEntity(r, x) <==> x == NULL_ID
    ensures CreateEntity(r).result == 1
    ensures r.cacheMap == m.cacheMap
    ensures r.subscribers == m.subscribers && r.destroySubscribers == m.destroySubscribers
    ensures r.eventSystem == m.eventSystem && r.log == m.log
    ensures Inv(m) ==> Inv(r)
  {
    m.(globalTable := map[], sectorTable := map[], globalRefs := {}, sectorRefs := {},
       nextEntityId := 1, loadedIds := {})
  }

  /** setNextId: overwrite the counter; existence is then judged against the new value. */
  function SetNextId(m: Manager, id: nat): (r: Manager)
    ensures forall x: EntityId :: IsExistingEntity(r, x) <==> x < id
    ensures r == m.(nextEntityId := id)
    ensures Inv(m) && (forall x :: x in m.loadedIds ==> x < id) ==> Inv(r)
  {
    m.(nextEntityId := id)
  }

  // ---------------------------------------------------------------------
  // Routing, handles and the event sink

  /** The cache an id is routed to; an id without an entry falls back to the global cache. */
  function RoutedCache(m: Manager, id: EntityId): (r: CacheKind)
    ensures id !in m.cacheMap ==> r == GlobalCache
    ensures id in m.cacheMap ==> r == m.cacheMap[id]
  {
    if id in m.cacheMap then m.cacheMap[id] else GlobalCache
  }

  /** The component table of a cache. */
  function TableOf(m: Manager, kind: CacheKind): Table {
    match kind
    case GlobalCache => m.globalTable
    case SectorCache => m.sectorTable
  }

  /** The other cache. */
  function Other(kind: CacheKind): CacheKind {
    match kind
    case GlobalCache => SectorCache
    case SectorCache => GlobalCache
  }

  /** Put a component into the table of `kind`. */
  function PutIn(m: Manager, kind: CacheKind, id: EntityId, c: Component): Manager {
    match kind
    case GlobalCache => m.(globalTable := Put(m.globalTable, id, c))
    case SectorCache => m.(sectorTable := Put(m.sectorTable, id, c))
  }

  /** Put components one after the other into the table of `kind`. */
  function PutAllIn(m: Manager, kind: CacheKind, id: EntityId, cs: seq<Component>): Manager {
    match kind
    case GlobalCache => m.(globalTable := PutAll(m.globalTable, id, cs))
    case SectorCache => m.(sectorTable := PutAll(m.sectorTable, id, cs))
  }

  /** assignToCache: route an id to a cache. */
  function AssignToCache(m: Manager, id: EntityId, kind: CacheKind): (r: Manager)
    ensures RoutedCache(r, id) == kind
    ensures forall x :: x != id ==> RoutedCache(r, x) == RoutedCache(m, x)
    ensures r == m.(cacheMap := r.cacheMap)
  {
    m.(cacheMap := m.cacheMap[id := kind])
  }

  /** getExistingEntity: the handle registered for `id` in the global cache, else in the sector manager. */
  function ExistingEntity(m: Manager, id: EntityId): (r: EntityRef)
    ensures r.Ref? <==> id != NULL_ID && (id in m.globalRefs || id in m.sectorRefs)
    ensures r.Ref? ==> r.id == id
  {
    if id in m.globalRefs || id in m.sectorRefs then RefOf(id) else NullRef
  }

  /**
   * createEntityRef (and getEntity): the null handle for NULL_ID, the
   * registered handle if there is one, else a new handle registered in the
   * global cache.
   */
  function CreateEntityRef(m: Manager, id: EntityId): (r: Step<EntityRef>)
    ensures r.result == RefOf(id)
    ensures id == NULL_ID || id in m.globalRefs || id in m.sectorRefs ==> r.state == m
    ensures id != NULL_ID ==> ExistingEntity(r.state, id) == Ref(id)
    ensures r.state.globalRefs ==
      if id == NULL_ID || id in m.globalRefs || id in m.sectorRefs then m.globalRefs else m.globalRefs + {id}
    ensures r.state == m.(globalRefs := r.state.globalRefs)
  {
    if id == NULL_ID then Step(m, NullRef)
    else
      var existing := ExistingEntity(m, id);
      if existing != NullRef then Step(m, existing)
      else Step(m.(globalRefs := m.globalRefs + {id}), RefOf(id))
  }

  /** putEntity: register a handle for `id` in the global cache. */
  function PutEntity(m: Manager, id: EntityId): (r: Manager)
    ensures id != NULL_ID ==> ExistingEntity(r, id) == Ref(id)
    ensures r == m.(globalRefs := r.globalRefs) && r.globalRefs == m.globalRefs + {id}
  {
    m.(globalRefs := m.globalRefs + {id})
  }

  /** Append one event-system send to the log. */
  function Send(m: Manager, target: EntityRef, event: LifecycleEvent): Manager {
    m.(log := m.log + [ToEventSystem(target, event)])
  }

  /** The notify* methods: every change subscriber, in registration order, receives `call`. */
  function Notify(m: Manager, call: SubscriberCall): (r: Manager)
    ensures r == m.(log := r.log)
    ensures |r.log| == |m.log| + |m.subscribers| && r.log[..|m.log|] == m.log
    ensures forall k :: 0 <= k < |m.subscribers| ==> r.log[|m.log| + k] == ToSubscriber(m.subscribers[k], call)
  {
    m.(log := m.log + FanOut(m.subscribers, call))
  }

  /** The destroy fan-out: every destroy subscriber, in registration order, hears of `entity`. */
  function NotifyDestroyed(m: Manager, entity: EntityRef): (r: Manager)
    ensures r == m.(log := r.log)
    ensures |r.log| == |m.log| + |m.destroySubscribers| && r.log[..|m.log|] == m.log
    ensures forall k :: 0 <= k < |m.destroySubscribers| ==>
      r.log[|m.log| + k] == ToSubscriber(m.destroySubscribers[k], EntityDestroyed(entity))
  {
    m.(log := m.log + FanOut(m.destroySubscribers, EntityDestroyed(entity)))
  }

  // ---------------------------------------------------------------------
  // Components

  /** getComponent: read the routed cache's table, falling back to the global table. */
  function GetComponent(m: Manager, id: EntityId, ty: ComponentType): (r: Option<Component>)
    ensures id !in m.cacheMap ==> r == Lookup(m.globalTable, (id, ty))
    ensures id in m.cacheMap ==> r == Lookup(TableOf(m, m.cacheMap[id]), (id, ty))
    ensures Inv(m) && r.Some? ==> r.value.Type() == ty
  {
    Lookup(TableOf(m, RoutedCache(m, id)), (id, ty))
  }

  /** hasComponent: the global table or the sector table holds the type, whatever the routing. */
  function HasComponent(m: Manager, id: EntityId, ty: ComponentType): (r: bool)
    ensures GetComponent(m, id, ty).Some? ==> r
    ensures r <==> (id, ty) in m.globalTable || (id, ty) in m.sectorTable
  {
    Lookup(m.globalTable, (id, ty)).Some? || (id, ty) in m.sectorTable
  }

  /** The subscriber calls of an add or save: Changed if the type was present, Added otherwise. */
  function AddCalls(subscribers: seq<SubscriberId>, entity: EntityRef, ty: ComponentType, present: bool): seq<Notification> {
    if present then FanOut(subscribers, ComponentChanged(entity, ty))
    else FanOut(subscribers, ComponentAdded(entity, ty))
  }

  /** The events of an add or save: OnChanged if the type was present, OnAdded then OnActivated otherwise. */
  function AddEvents(eventSystem: bool, entity: EntityRef, c: Component, present: bool): seq<Notification> {
    if !eventSystem then []
    else if present then [ToEventSystem(entity, OnChangedComponent(c))]
    else [ToEventSystem(entity, OnAddedComponent(c)), ToEventSystem(entity, OnActivatedComponent(c))]
  }

  /** The events addComponent and saveComponent send, after resolving the handle. */
  function SendAddEvents(m: Manager, id: EntityId, c: Component, present: bool): (r: Manager)
    ensures r.log == m.log + AddEvents(true, RefOf(id), c, present)
    ensures r == CreateEntityRef(m, id).state.(log := r.log)
  {
    var s := CreateEntityRef(m, id);
    if present then Send(s.state, s.result, OnChangedComponent(c))
    else Send(Send(s.state, s.result, OnAddedComponent(c)), s.result, OnActivatedComponent(c))
  }

  /** The events of an add or save, sent only when an event system is set. */
  function SendAddEventsIfSet(m: Manager, id: EntityId, c: Component, present: bool): (r: Manager)
    ensures r.log == m.log + AddEvents(m.eventSystem, RefOf(id), c, present)
    ensures r == m.(globalRefs := r.globalRefs, log := r.log)
    ensures m.globalRefs <= r.globalRefs && r.globalRefs <= m.globalRefs + {id}
    ensures id != NULL_ID && m.eventSystem ==> ExistingEntity(r, id) == Ref(id)
    ensures !m.eventSystem ==> r == m
  {
    if m.eventSystem then SendAddEvents(m, id, c, present) else m
  }

  /** The subscriber calls addComponent and saveComponent make, after resolving the handle. */
  function NotifyAdd(m: Manager, id: EntityId, ty: ComponentType, present: bool): (r: Manager)
    ensures r.log == m.log + AddCalls(m.subscribers, RefOf(id), ty, present)
    ensures r == CreateEntityRef(m, id).state.(log := r.log)
    ensures r == m.(globalRefs := r.globalRefs, log := r.log)
    ensures m.globalRefs <= r.globalRefs && r.globalRefs <= m.globalRefs + {id}
    ensures id != NULL_ID ==> ExistingEntity(r, id) == Ref(id)
  {
    var s := CreateEntityRef(m, id);
    if present then Notify(s.state, ComponentChanged(s.result, ty))
    else Notify(s.state, ComponentAdded(s.result, ty))
  }

  /** What addComponent and saveComponent both do to the routed table. */
  ghost predicate StoredInRoute(m: Manager, r: Manager, id: EntityId, c: Component) {
    var kind := RoutedCache(m, id);
    && TableOf(r, kind) == TableOf(m, kind)[(id, c.Type()) := c]
    && TableOf(r, Other(kind)) == TableOf(m, Other(kind))
    && GetComponent(r, id, c.Type()) == Some(c)
    && (id != NULL_ID ==> ExistingEntity(r, id) == Ref(id))
    && m.globalRefs <= r.globalRefs && r.globalRefs <= m.globalRefs + {id}
    && r == m.(globalTable := r.globalTable, sectorTable := r.sectorTable, globalRefs := r.globalRefs, log := r.log)
  }

  /** A state that differs from the put only in handles (with one for `id`) and log has the component stored in route. */
  lemma StoredAfterPut(m: Manager, m1: Manager, r: Manager, id: EntityId, c: Component)
    requires m1 == PutIn(m, RoutedCache(m, id), id, c)
    requires r == m1.(globalRefs := r.globalRefs, log := r.log)
    requires m.globalRefs <= r.globalRefs && r.globalRefs <= m.globalRefs + {id}
    requires id != NULL_ID ==> ExistingEntity(r, id) == Ref(id)
    ensures StoredInRoute(m, r, id, c)
    ensures Inv(m) ==> Inv(r)
  {
    assert RoutedCache(r, id) == RoutedCache(m, id);
  }

  /**
   * addComponent: reject a missing component; otherwise store it in the
   * routed table, notify the subscribers (Added for a new type, Changed
   * for a replaced one) and then, with an event system, send OnAdded and
   * OnActivated, or OnChanged.
   */
  function AddComponent(m: Manager, id: EntityId, component: Option<Component>): (r: Step<Result<Component, ManagerError>>)
    ensures component.None? ==> r == Step(m, Failure(NullComponent))
    ensures component.Some? ==> r.result == Success(component.value)
    ensures component.Some? ==> StoredInRoute(m, r.state, id, component.value)
    ensures component.Some? ==>
      var c := component.value;
      var present := (id, c.Type()) in TableOf(m, RoutedCache(m, id));
      r.state.log == m.log + AddCalls(m.subscribers, RefOf(id), c.Type(), present)
                           + AddEvents(m.eventSystem, RefOf(id), c, present)
    ensures Inv(m) ==> Inv(r.state)
  {
    match component
    case None => Step(m, Failure(NullComponent))
    case Some(c) =>
      var kind := RoutedCache(m, id);
      var present := (id, c.Type()) in TableOf(m, kind);
      var m1 := PutIn(m, kind, id, c);
      var m2 := NotifyAdd(m1, id, c.Type(), present);
      var m3 := SendAddEventsIfSet(m2, id, c, present);
      StoredAfterPut(m, m1, m3, id, c);
      Step(m3, Success(c))
  }

  /**
   * saveComponent: store the component in the routed table as addComponent
   * does, but send the events first and notify the subscribers after.
   */
  function SaveComponent(m: Manager, id: EntityId, c: Component): (r: Manager)
    ensures StoredInRoute(m, r, id, c)
    ensures
      var present := (id, c.Type()) in TableOf(m, RoutedCache(m, id));
      r.log == m.log + AddEvents(m.eventSystem, RefOf(id), c, present)
                     + AddCalls(m.subscribers, RefOf(id), c.Type(), present)
    ensures Inv(m) ==> Inv(r)
  {
    var kind := RoutedCache(m, id);
    var present := (id, c.Type()) in TableOf(m, kind);
    var m1 := PutIn(m, kind, id, c);
    var m2 := SendAddEventsIfSet(m1, id, c, present);
    var r := NotifyAdd(m2, id, c.Type(), present);
    StoredAfterPut(m, m1, r, id, c);
    r
  }

  /** The events removeComponent sends for a present component. */
  function RemoveEvents(eventSystem: bool, entity: EntityRef, c: Component): seq<Notification> {
    if eventSystem then [ToEventSystem(entity, BeforeDeactivateComponent(Some(c))), ToEventSystem(entity, BeforeRemoveComponent(c))]
    else []
  }

  /** The events of a removal, sent only when an event system is set. */
  function SendRemoveEventsIfSet(m: Manager, id: EntityId, c: Component): (r: Manager)
    ensures r.log == m.log + RemoveEvents(m.eventSystem, RefOf(id), c)
    ensures r == m.(globalRefs := r.globalRefs, log := r.log)
    ensures m.globalRefs <= r.globalRefs && r.globalRefs <= m.globalRefs + {id}
    ensures !m.eventSystem ==> r == m
  {
    if m.eventSystem then
      var s := CreateEntityRef(m, id);
      Send(Send(s.state, s.result, BeforeDeactivateComponent(Some(c))), s.result, BeforeRemoveComponent(c))
    else m
  }

  /** The Removed calls of a removal, after resolving the handle with getEntity. */
  function NotifyRemoved(m: Manager, id: EntityId, ty: ComponentType): (r: Manager)
    ensures r.log == m.log + FanOut(m.subscribers, ComponentRemoved(RefOf(id), ty))
    ensures r == m.(globalRefs := r.globalRefs, log := r.log)
    ensures m.globalRefs <= r.globalRefs && r.globalRefs <= m.globalRefs + {id}
    ensures id != NULL_ID ==> ExistingEntity(r, id) == Ref(id)
  {
    var s := CreateEntityRef(m, id);
    Notify(s.state, ComponentRemoved(s.result, ty))
  }

  /**
   * removeComponent: look only in the global table, whatever the routing.
   * A present component gets BeforeDeactivate and BeforeRemove (with an
   * event system), then the subscribers' Removed, and only then leaves the
   * table; the old component is returned. An absent one changes nothing.
   */
  function RemoveComponent(m: Manager, id: EntityId, ty: ComponentType): (r: Step<Option<Component>>)
    ensures r.result == Lookup(m.globalTable, (id, ty))
    ensures r.result.None? ==> r.state == m
    ensures r.result.Some? ==>
      && r.state.globalTable == m.globalTable - {(id, ty)}
      && r.state.log == m.log + RemoveEvents(m.eventSystem, RefOf(id), r.result.value)
                              + FanOut(m.subscribers, ComponentRemoved(RefOf(id), ty))
      && (id != NULL_ID ==> ExistingEntity(r.state, id) == Ref(id))
      && r.state == m.(globalTable := r.state.globalTable, globalRefs := r.state.globalRefs, log := r.state.log)
    ensures r.state.sectorTable == m.sectorTable
    ensures m.globalRefs <= r.state.globalRefs && r.state.globalRefs <= m.globalRefs + {id}
    ensures Inv(m) ==> Inv(r.state)
  {
    var found := Lookup(m.globalTable, (id, ty));
    match found
    case None => Step(m, None)
    case Some(c) =>
      var m2 := NotifyRemoved(SendRemoveEventsIfSet(m, id, c), id, ty);
      Step(m2.(globalTable := m2.globalTable - {(id, ty)}), found)
  }

  /** entity.exists(), for a handle of this manager: a non-null handle to an allocated id. */
  function Exists(m: Manager, entity: EntityRef): bool {
    entity.Ref? && IsExistingEntity(m, entity.id)
  }

  /** The notifications of deactivation: BeforeDeactivate (with an event system), then the snapshot to each subscriber. */
  function NotifyBeforeDeactivation(m: Manager, entity: EntityRef, components: seq<Component>): (r: Manager)
    ensures r.log == m.log + (if m.eventSystem then [ToEventSystem(entity, BeforeDeactivateComponent(None))] else [])
                           + FanOut(m.subscribers, BeforeDeactivation(entity, components))
    ensures r == m.(log := r.log)
    ensures Inv(m) ==> Inv(r)
  {
    var m1 := if m.eventSystem then Send(m, entity, BeforeDeactivateComponent(None)) else m;
    Notify(m1, BeforeDeactivation(entity, components))
  }

  /** The removal loop of deactivation and the unloading of the id. */
  function Unload(m: Manager, id: EntityId, order: seq<ComponentType>): (r: Manager)
    requires Lists(order, m.globalTable, id)
    ensures r.globalTable == RemoveEntity(m.globalTable, id)
    ensures forall ty :: (id, ty) !in r.globalTable
    ensures r == m.(globalTable := r.globalTable, loadedIds := m.loadedIds - {id})
    ensures Inv(m) ==> Inv(r)
  {
    SnapshotRemoval(m.globalTable, id, order);
    m.(globalTable := RemoveTypes(m.globalTable, id, TypesOf(Snapshot(m.globalTable, id, order))),
       loadedIds := m.loadedIds - {id})
  }

  /**
   * deactivateForStorage: for an existing entity, send BeforeDeactivate
   * (with an event system), snapshot its components, hand the snapshot to
   * the subscribers, remove every snapshotted component from the global
   * table and unload the id. The id stays allocated and keeps its routing.
   */
  function DeactivateForStorage(m: Manager, entity: EntityRef, order: seq<ComponentType>): (r: Manager)
    requires Lists(order, m.globalTable, entity.Id())
    ensures !Exists(m, entity) ==> r == m
    ensures Exists(m, entity) ==>
      var id := entity.Id();
      && (forall ty :: (id, ty) !in r.globalTable)
      && r.globalTable == RemoveEntity(m.globalTable, id)
      && r.loadedIds == m.loadedIds - {id}
      && IsExistingEntity(r, id) && !IsActiveEntity(r, id)
      && r.log == m.log + (if m.eventSystem then [ToEventSystem(entity, BeforeDeactivateComponent(None))] else [])
                        + FanOut(m.subscribers, BeforeDeactivation(entity, Snapshot(m.globalTable, id, order)))
      && r == m.(globalTable := r.globalTable, loadedIds := r.loadedIds, log := r.log)
    ensures Exists(m, entity) ==>
      forall ty :: (entity.Id(), ty) in m.globalTable ==>
        m.globalTable[(entity.Id(), ty)] in Snapshot(m.globalTable, entity.Id(), order)
    ensures Inv(m) ==> Inv(r)
  {
    if !Exists(m, entity) then m
    else
      var id := entity.Id();
      var components := Snapshot(m.globalTable, id, order);
      SnapshotRemoval(m.globalTable, id, order);
      Unload(NotifyBeforeDeactivation(m, entity, components), id, order)
  }

  // ---------------------------------------------------------------------
  // Creating and restoring entities

  /** The parent prefab of the first EntityInfo component, if there is one. */
  function FirstPrefab(cs: seq<Component>): (r: Option<PrefabRef>)
    ensures (forall i :: 0 <= i < |cs| ==> !cs[i].EntityInfo?) ==> r == None
    ensures forall i :: 0 <= i < |cs| && cs[i].EntityInfo? && (forall j :: 0 <= j < i ==> !cs[j].EntityInfo?) ==>
      r == cs[i].parentPrefab
  {
    if cs == [] then None
    else if cs[0].EntityInfo? then cs[0].parentPrefab
    else FirstPrefab(cs[1..])
  }

  /** Some EntityInfo component carries the SECTOR scope. */
  predicate HasSectorScope(cs: seq<Component>) {
    exists i :: 0 <= i < |cs| && cs[i].EntityInfo? && cs[i].scope == Sector
  }

  /**
   * The private createEntity(components): allocate an id (without routing
   * it), send BeforeEntityCreated with the first EntityInfo's prefab when an
   * event system is set, store the resulting components in the global table
   * and return the entity's handle. `eventResult` stands for the components
   * the event's handlers leave; without an event system the given
   * components are stored as they are.
   */
  function CreateEntityFrom(m: Manager, components: seq<Component>, eventResult: seq<Component>): (r: Step<EntityRef>)
    ensures
      var id := CreateEntity(m).result;
      var stored := if m.eventSystem then eventResult else components;
      && r.result == Ref(id)
      && r.state.nextEntityId == id + 1 && r.state.loadedIds == m.loadedIds + {id}
      && r.state.globalTable == PutAll(m.globalTable, id, stored)
      && r.state.log == m.log + (if m.eventSystem then [ToEventSystem(Ref(id), BeforeEntityCreated(FirstPrefab(components), components))] else [])
      && ExistingEntity(r.state, id) == Ref(id)
      && r.state.globalRefs == (if id in m.sectorRefs then m.globalRefs else m.globalRefs + {id})
      && r.state == m.(nextEntityId := r.state.nextEntityId, loadedIds := r.state.loadedIds,
                       globalTable := r.state.globalTable, globalRefs := r.state.globalRefs, log := r.state.log)
    ensures Inv(m) ==> Inv(r.state)
  {
    var s := CreateEntity(m);
    var id := s.result;
    var prefab := FirstPrefab(components);
    var m1 := if s.state.eventSystem then Send(s.state, RefOf(id), BeforeEntityCreated(prefab, components)) else s.state;
    var stored := if s.state.eventSystem then eventResult else components;
    var m2 := m1.(globalTable := PutAll(m1.globalTable, id, stored));
    CreateEntityRef(m2, id)
  }

  /** One Added call per component, in the order of the components. */
  function AddedCalls(entity: EntityRef, cs: seq<Component>): (r: seq<SubscriberCall>)
    ensures |r| == |cs|
    ensures forall i :: 0 <= i < |cs| ==> r[i] == ComponentAdded(entity, cs[i].Type())
  {
    seq(|cs|, i requires 0 <= i < |cs| => ComponentAdded(entity, cs[i].Type()))
  }

  /**
   * createEntityWithoutLifecycleEvents(components): create the entity as
   * the private createEntity does, then tell the subscribers of an Added
   * for each of the given components (not those the event left).
   */
  function CreateEntityWithoutLifecycleEvents(m: Manager, components: seq<Component>, eventResult: seq<Component>): (r: Step<EntityRef>)
    ensures
      var s := CreateEntityFrom(m, components, eventResult);
      && r.result == s.result
      && r.state == s.state.(log := s.state.log + FanOutEach(m.subscribers, AddedCalls(s.result, components)))
    ensures Inv(m) ==> Inv(r.state)
  {
    var s := CreateEntityFrom(m, components, eventResult);
    Step(s.state.(log := s.state.log + FanOutEach(s.state.subscribers, AddedCalls(s.result, components))), s.result)
  }

  /**
   * A cache's createEntityWithId (PojoEntityCache / PojoSectorManager, not
   * part of this model), as far as the manager relies on it: refuse an id
   * registerId refuses; otherwise mark it loaded, route it to the cache and
   * store the components in the cache's table.
   */
  function RestoreInCache(m: Manager, kind: CacheKind, id: EntityId, components: seq<Component>): (r: Step<EntityRef>)
    ensures !IsExistingEntity(m, id) ==> r == Step(m, NullRef)
    ensures IsExistingEntity(m, id) ==>
      && r.result == RefOf(id)
      && IsActiveEntity(r.state, id)
      && RoutedCache(r.state, id) == kind
      && TableOf(r.state, kind) == PutAll(TableOf(m, kind), id, components)
      && TableOf(r.state, Other(kind)) == TableOf(m, Other(kind))
      && r.state == m.(loadedIds := m.loadedIds + {id}, cacheMap := m.cacheMap[id := kind],
                       globalTable := r.state.globalTable, sectorTable := r.state.sectorTable)
    ensures Inv(m) ==> Inv(r.state)
  {
    var reg := RegisterId(m, id);
    if !reg.result then Step(m, NullRef)
    else
      var m1 := AssignToCache(reg.state, id, kind);
      Step(PutAllIn(m1, kind, id, components), RefOf(id))
  }

  /**
   * createEntityWithId: an entity whose components hold an EntityInfo with
   * the SECTOR scope is routed to the sector manager (before the restore
   * is tried) and restored there; any other goes to the global cache.
   */
  function CreateEntityWithId(m: Manager, id: EntityId, components: seq<Component>): (r: Step<EntityRef>)
    ensures HasSectorScope(components) ==> RoutedCache(r.state, id) == SectorCache
    ensures HasSectorScope(components) ==> r == RestoreInCache(AssignToCache(m, id, SectorCache), SectorCache, id, components)
    ensures !HasSectorScope(components) ==> r == RestoreInCache(m, GlobalCache, id, components)
    ensures IsExistingEntity(m, id) ==>
      && r.result == RefOf(id)
      && IsActiveEntity(r.state, id)
      && forall ty :: LastOfType(components, ty).Some? ==> GetComponent(r.state, id, ty) == LastOfType(components, ty)
    ensures !IsExistingEntity(m, id) ==>
      r.result == NullRef && r.state.loadedIds == m.loadedIds && r.state.globalTable == m.globalTable
    ensures r.state.log == m.log && r.state.nextEntityId == m.nextEntityId
    ensures Inv(m) ==> Inv(r.state)
  {
    if HasSectorScope(components) then
      RestoreInCache(AssignToCache(m, id, SectorCache), SectorCache, id, components)
    else
      RestoreInCache(m, GlobalCache, id, components)
  }

  // ---------------------------------------------------------------------
  // Subscribers

  /** subscribeForChanges: append a subscriber unless it is already registered. */
  function SubscribeForChanges(m: Manager, s: SubscriberId): (r: Manager)
    ensures s in r.subscribers
    ensures m.subscribers <= r.subscribers && |r.subscribers| <= |m.subscribers| + 1
    ensures s in m.subscribers ==> r == m
    ensures r == m.(subscribers := r.subscribers)
    ensures Inv(m) ==> Inv(r)
  {
    if s in m.subscribers then m else m.(subscribers := m.subscribers + [s])
  }

  /** subscribeForDestruction: append a destroy subscriber unless it is already registered. */
  function SubscribeForDestruction(m: Manager, s: SubscriberId): (r: Manager)
    ensures s in r.destroySubscribers
    ensures m.destroySubscribers <= r.destroySubscribers && |r.destroySubscribers| <= |m.destroySubscribers| + 1
    ensures s in m.destroySubscribers ==> r == m
    ensures r == m.(destroySubscribers := r.destroySubscribers)
    ensures Inv(m) ==> Inv(r)
  {
    if s in m.destroySubscribers then m else m.(destroySubscribers := m.destroySubscribers + [s])
  }

  /** unsubscribe: drop a change subscriber, keeping the order of the others. */
  function Unsubscribe(m: Manager, s: SubscriberId): (r: Manager)
    ensures s !in r.subscribers
    ensures forall x :: x != s ==> (x in r.subscribers <==> x in m.subscribers)
    ensures s !in m.subscribers ==> r == m
    ensures Distinct(m.subscribers) && s in m.subscribers ==>
      var k := IndexOf(m.subscribers, s);
      r.subscribers == m.subscribers[..k] + m.subscribers[k + 1..]
    ensures r == m.(subscribers := r.subscribers)
    ensures Inv(m) ==> Inv(r)
  {
    m.(subscribers := Without(m.subscribers, s))
  }

  /** One Removed call per component type, in the given order. */
  function RemovedCalls(entity: EntityRef, tys: seq<ComponentType>): (r: seq<SubscriberCall>)
    ensures |r| == |tys|
    ensures forall i :: 0 <= i < |tys| ==> r[i] == ComponentRemoved(entity, tys[i])
  {
    seq(|tys|, i requires 0 <= i < |tys| => ComponentRemoved(entity, tys[i]))
  }

  /**
   * notifyComponentRemovalAndEntityDestruction: a Removed call to the
   * subscribers for each of the entity's components in the global table,
   * then EntityDestroyed to each destroy subscriber.
   */
  function NotifyComponentRemovalAndEntityDestruction(m: Manager, id: EntityId, entity: EntityRef, order: seq<ComponentType>): (r: Manager)
    requires Lists(order, m.globalTable, id)
    ensures r == m.(log := r.log)
    ensures r.log == m.log + FanOutEach(m.subscribers, RemovedCalls(entity, order))
                           + FanOut(m.destroySubscribers, EntityDestroyed(entity))
    ensures forall k :: 0 <= k < |m.destroySubscribers| ==>
      r.log[|r.log| - |m.destroySubscribers| + k] == ToSubscriber(m.destroySubscribers[k], EntityDestroyed(entity))
  {
    var components := Snapshot(m.globalTable, id, order);
    assert TypesOf(components) == order;
    var m1 := m.(log := m.log + FanOutEach(m.subscribers, RemovedCalls(entity, TypesOf(components))));
    NotifyDestroyed(m1, entity)
  }
}

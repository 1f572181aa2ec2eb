# PojoEntityManager, modelled in Dafny

Terasology's `PojoEntityManager` is the engine's entity manager. It hands
out entity ids from a counter that skips the reserved `NULL_ID` (0) and
keeps the set of loaded ids. It routes each id to the cache that owns it:
the global cache, or the sector manager. It reads and writes each
entity's components in the owner's component table. On every change it
tells its change subscribers, and the event system when one is set.

This project models that manager in two layers:

- `ManagerSpec` (manager_spec.dfy) holds the manager's state as a value
  (`Manager`). Each operation is a function from the old state and the
  arguments to the new state and the result. The properties of one call
  are stated as `ensures` on these functions.
- `EntityManager.PojoEntityManager` (pojo_entity_manager.dfy) is a class
  with the same fields. Its methods update the fields in place and keep
  the source's loops, with their invariants. Each method is proved to
  produce exactly the state and result of its `ManagerSpec` function
  (`State() == S.Op(old(State()), ...)`). Every public mutator also keeps
  `Valid()`, the manager's invariant (`ManagerSpec.Inv`). setNextId keeps
  it only when every loaded id lies below the new counter.
- `ManagerProperties` (manager_properties.dfy) proves properties that span
  several operations. Examples: back-to-back createEntity calls never
  hand out an id twice (clear and setNextId can rewind the counter),
  deactivation followed by restoration brings back every component, and
  add and save differ only in the order of their notifications.
- `Components` (components.dfy) holds the vocabulary: ids, component
  types and components, entity handles, the subscriber calls and
  lifecycle events, and component tables. `Wrappers` holds `Option` and
  `Result`.

Modelling choices:

- A component table is a `map<(EntityId, ComponentType), Component>`.
- An entity handle (`EntityRef`) is the null handle or the id it refers
  to. The handles the global cache and the sector manager hold are
  modelled as two sets of ids.
- Every call to a change or destroy subscriber, and every event sent to
  the event system, is appended to one ordered `log`. The event system
  itself is a flag saying whether one is set.
- Two things live in code outside this file: the order in which a table
  lists an entity's components, and the components a `BeforeEntityCreated`
  event leaves behind. Both are parameters (`order`, `eventResult`).
  `order` must list exactly the entity's component types (`Lists`).

Points where the code behaves in a way a caller may not expect, which the
model follows:

- saveComponent sends its events before it tells the subscribers
  (PojoEntityManager.java lines 589-602). addComponent does the reverse.
- removeComponent and deactivateForStorage always use the global table.
  They never consult the routing map.
- createEntityWithoutLifecycleEvents is documented as sending no events
  (lines 309-311), but it creates through the private createEntity, which
  sends BeforeEntityCreated when an event system is set (lines 188-191).
  What it skips are the OnAdded and OnActivated events
  (`ManagerProperties.WithoutLifecycleEventsSendsBeforeEntityCreated`).
- clear empties both caches but keeps the routing map. An id handed out
  again after clear is still routed where it was before
  (`ManagerProperties.StaleRoutingAfterClear`).

## Model

| member | source | states |
|---|---|---|
| Components.PutAll | engine/src/main/java/org/terasology/entitySystem/entity/internal/PojoEntityManager.java:198-200 | storing components one after another leaves, for each type, the last component of that type given, and leaves every other entry untouched; a well-typed table stays well-typed |
| Components.FanOut | engine/src/main/java/org/terasology/entitySystem/entity/internal/PojoEntityManager.java:635-651 | one call per subscriber, in registration order, each the same call |
| Components.Without | engine/src/main/java/org/terasology/entitySystem/entity/internal/PojoEntityManager.java:387-389 | removal from the insertion-ordered subscriber set drops exactly the given subscriber, is a no-op when it is absent, keeps the rest duplicate-free, and for a duplicate-free registry leaves the others in their registration order (the sequence with the subscriber's one position cut out) |
| Components.SnapshotRestores | engine/src/main/java/org/terasology/entitySystem/entity/internal/PojoEntityManager.java:414-419 | storing the snapshot of an entity's components back into the table with that entity removed gives the original table |
| Components.SnapshotRemoval | engine/src/main/java/org/terasology/entitySystem/entity/internal/PojoEntityManager.java:414-419 | removing the types of an entity's snapshot removes exactly that entity's entries, and the snapshot holds every component the entity had |
| ManagerSpec.Initial | engine/src/main/java/org/terasology/entitySystem/entity/internal/PojoEntityManager.java:65-78 | a new manager satisfies the invariant, has nothing loaded or routed and an empty log, and its first createEntity returns 1 |
| ManagerSpec.CreateEntity | engine/src/main/java/org/terasology/entitySystem/entity/internal/PojoEntityManager.java:141-147 | the id is never NULL_ID, did not exist before, is loaded and existing afterwards, and is the counter (or 1 when the counter is NULL_ID); the counter ends one past it; nothing else changes; the invariant is kept |
| ManagerSpec.CreateEntityIn | engine/src/main/java/org/terasology/entitySystem/entity/internal/PojoEntityManager.java:149-153 | allocates as createEntity does and routes the new id to the given cache, leaving every other id's route alone |
| ManagerSpec.RegisterId | engine/src/main/java/org/terasology/entitySystem/entity/internal/PojoEntityManager.java:732-739 | succeeds exactly for ids below the counter; a success loads the id, a refusal changes nothing |
| ManagerSpec.Remove | engine/src/main/java/org/terasology/entitySystem/entity/internal/PojoEntityManager.java:745-747 | the id is no longer active, every other id keeps its activity, existence is unchanged |
| ManagerSpec.Clear | engine/src/main/java/org/terasology/entitySystem/entity/internal/PojoEntityManager.java:105-110 | both tables and handle sets are empty, nothing is loaded, only NULL_ID exists, the next id is 1; routing, subscribers, event system and log are kept |
| ManagerSpec.SetNextId | engine/src/main/java/org/terasology/entitySystem/entity/internal/PojoEntityManager.java:430-432 | existence is judged against the new counter; the invariant survives when every loaded id is below it |
| ManagerSpec.RoutedCache | engine/src/main/java/org/terasology/entitySystem/entity/internal/PojoEntityManager.java:499-505 | an id with a routing entry uses that cache, any other id the global cache |
| ManagerSpec.AssignToCache | engine/src/main/java/org/terasology/entitySystem/entity/internal/PojoEntityManager.java:615-617 | the id is routed to the cache; every other route and all other state are unchanged |
| ManagerSpec.ExistingEntity | engine/src/main/java/org/terasology/entitySystem/entity/internal/PojoEntityManager.java:274-280 | a handle is found exactly when the global cache or the sector manager holds one for a non-null id |
| ManagerSpec.CreateEntityRef | engine/src/main/java/org/terasology/entitySystem/entity/internal/PojoEntityManager.java:619-633 | returns the null handle for NULL_ID and a handle to the id otherwise; a registered handle is reused without change; otherwise the global handle set gains exactly this id (and nothing for NULL_ID); the sector handle set never changes |
| ManagerSpec.PutEntity | engine/src/main/java/org/terasology/entitySystem/entity/internal/PojoEntityManager.java:347-349 | the id has a handle afterwards; the global handle set becomes the old one plus this id, and nothing else changes |
| ManagerSpec.Notify | engine/src/main/java/org/terasology/entitySystem/entity/internal/PojoEntityManager.java:635-670 | appends exactly one entry per change subscriber, in registration order, each carrying the call; nothing else changes |
| ManagerSpec.NotifyDestroyed | engine/src/main/java/org/terasology/entitySystem/entity/internal/PojoEntityManager.java:486-488 | appends one EntityDestroyed entry per destroy subscriber, in registration order |
| ManagerSpec.GetComponent | engine/src/main/java/org/terasology/entitySystem/entity/internal/PojoEntityManager.java:498-507 | reads the routed cache's table, the global table for an unrouted id; under the invariant the result has the requested type |
| ManagerSpec.HasComponent | engine/src/main/java/org/terasology/entitySystem/entity/internal/PojoEntityManager.java:445-448 | true exactly when either table holds the type, whatever the routing; implied by a successful getComponent |
| ManagerSpec.SendAddEvents | engine/src/main/java/org/terasology/entitySystem/entity/internal/PojoEntityManager.java:536-544 | appends OnAdded then OnActivated for a new type, OnChanged for a replaced one, after resolving the handle |
| ManagerSpec.SendAddEventsIfSet | engine/src/main/java/org/terasology/entitySystem/entity/internal/PojoEntityManager.java:536-544 | appends the add events only when an event system is set; otherwise changes nothing; the global handle set gains at most this id |
| ManagerSpec.NotifyAdd | engine/src/main/java/org/terasology/entitySystem/entity/internal/PojoEntityManager.java:531-535 | tells every subscriber Added for a new type or Changed for a replaced one, after resolving the handle with getEntity; the global handle set gains at most this id |
| ManagerSpec.StoredAfterPut | engine/src/main/java/org/terasology/entitySystem/entity/internal/PojoEntityManager.java:521-526 | a put into the routed table, followed only by handle registration and logging, leaves the component readable through getComponent with the other table untouched |
| ManagerSpec.AddComponent | engine/src/main/java/org/terasology/entitySystem/entity/internal/PojoEntityManager.java:519-546 | a missing component is refused with no change; otherwise the component is stored in the routed table, returned, readable through getComponent, and the log gains the subscriber calls and then the events; the global handle set gains at most this id |
| ManagerSpec.SaveComponent | engine/src/main/java/org/terasology/entitySystem/entity/internal/PojoEntityManager.java:578-603 | stores as addComponent does, but the log gains the events first and the subscriber calls after; the global handle set gains at most this id |
| ManagerSpec.RemoveComponent | engine/src/main/java/org/terasology/entitySystem/entity/internal/PojoEntityManager.java:556-568 | looks only in the global table; an absent type changes nothing; a present one is returned and removed, the log gains BeforeDeactivate and BeforeRemove (with an event system) and then Removed for each subscriber; the sector table never changes and the global handle set gains at most this id |
| ManagerSpec.SendRemoveEventsIfSet | engine/src/main/java/org/terasology/entitySystem/entity/internal/PojoEntityManager.java:559-563 | with an event system, appends BeforeDeactivate then BeforeRemove carrying the component; otherwise changes nothing; the global handle set gains at most this id |
| ManagerSpec.NotifyRemoved | engine/src/main/java/org/terasology/entitySystem/entity/internal/PojoEntityManager.java:564 | every subscriber hears Removed for the type, after the handle is resolved with getEntity; the global handle set gains at most this id |
| ManagerSpec.DeactivateForStorage | engine/src/main/java/org/terasology/entitySystem/entity/internal/PojoEntityManager.java:408-422 | a handle that does not exist changes nothing; otherwise every global component of the entity is gone, the id is unloaded but still exists, the subscribers receive the snapshot holding each removed component, and routing and the sector table are kept |
| ManagerSpec.NotifyBeforeDeactivation | engine/src/main/java/org/terasology/entitySystem/entity/internal/PojoEntityManager.java:411-416 | appends BeforeDeactivate (with an event system) and then the snapshot to each subscriber; nothing else changes |
| ManagerSpec.Unload | engine/src/main/java/org/terasology/entitySystem/entity/internal/PojoEntityManager.java:417-420 | removes all of the entity's components from the global table and unloads the id; nothing else changes |
| ManagerSpec.FirstPrefab | engine/src/main/java/org/terasology/entitySystem/entity/internal/PojoEntityManager.java:178-185 | the parent prefab of the first EntityInfo component, none when there is no EntityInfo |
| ManagerSpec.CreateEntityFrom | engine/src/main/java/org/terasology/entitySystem/entity/internal/PojoEntityManager.java:175-202 | allocates an id as createEntity does, sends BeforeEntityCreated with the first prefab when an event system is set, stores the resulting components in the global table and returns a registered handle to the id; the global handle set gains exactly this id unless the sector manager already holds one |
| ManagerSpec.AddedCalls | engine/src/main/java/org/terasology/entitySystem/entity/internal/PojoEntityManager.java:314-316 | one Added call per given component, in order, with that component's type |
| ManagerSpec.CreateEntityWithoutLifecycleEvents | engine/src/main/java/org/terasology/entitySystem/entity/internal/PojoEntityManager.java:312-318 | creates as the private createEntity does, then the subscribers hear Added for each given component in order |
| ManagerSpec.RestoreInCache | engine/src/main/java/org/terasology/entitySystem/entity/internal/PojoEntityManager.java:368-373 | a cache's restore refuses an unallocated id with no change; otherwise the id is active, routed to that cache, and its components are stored in that cache's table only |
| ManagerSpec.CreateEntityWithId | engine/src/main/java/org/terasology/entitySystem/entity/internal/PojoEntityManager.java:362-374 | a SECTOR-scoped EntityInfo routes the id to the sector manager (even if the restore is refused) and restores there, anything else restores in the global cache; for an allocated id getComponent then returns the last given component of every type; the manager itself neither advances the counter nor logs anything |
| ManagerSpec.SubscribeForChanges | engine/src/main/java/org/terasology/entitySystem/entity/internal/PojoEntityManager.java:377-379 | the subscriber is registered afterwards; an already registered one changes nothing; a new one is appended |
| ManagerSpec.SubscribeForDestruction | engine/src/main/java/org/terasology/entitySystem/entity/internal/PojoEntityManager.java:382-384 | the same for destroy subscribers |
| ManagerSpec.Unsubscribe | engine/src/main/java/org/terasology/entitySystem/entity/internal/PojoEntityManager.java:387-389 | the subscriber is gone, every other subscriber is kept in its registration order, and nothing else changes |
| ManagerSpec.RemovedCalls | engine/src/main/java/org/terasology/entitySystem/entity/internal/PojoEntityManager.java:483-485 | one Removed call per component type, in the table's order |
| ManagerSpec.NotifyComponentRemovalAndEntityDestruction | engine/src/main/java/org/terasology/entitySystem/entity/internal/PojoEntityManager.java:482-489 | the log gains Removed for each of the entity's global components, then EntityDestroyed for each destroy subscriber, the latter forming the log's tail; no state but the log changes |
| EntityManager.PojoEntityManager.constructor | engine/src/main/java/org/terasology/entitySystem/entity/internal/PojoEntityManager.java:65-78 | the fields start as ManagerSpec.Initial |
| EntityManager.PojoEntityManager.IsExistingEntity | engine/src/main/java/org/terasology/entitySystem/entity/internal/PojoEntityManager.java:451-453 | an id exists exactly when it is below getNextId |
| EntityManager.PojoEntityManager.IsActiveEntity | engine/src/main/java/org/terasology/entitySystem/entity/internal/PojoEntityManager.java:460-462 | an id is active exactly when it is loaded |
| EntityManager.PojoEntityManager.GetNextId | engine/src/main/java/org/terasology/entitySystem/entity/internal/PojoEntityManager.java:425-427 | the returned number bounds existence: an id exists exactly when it is below it |
| EntityManager.PojoEntityManager.SetNextId | engine/src/main/java/org/terasology/entitySystem/entity/internal/PojoEntityManager.java:430-432 | the fields become ManagerSpec.SetNextId of the old state |
| EntityManager.PojoEntityManager.CreateEntity | engine/src/main/java/org/terasology/entitySystem/entity/internal/PojoEntityManager.java:141-147 | the fields and result follow ManagerSpec.CreateEntity; the id is non-null, loaded and below the counter |
| EntityManager.PojoEntityManager.CreateEntityIn | engine/src/main/java/org/terasology/entitySystem/entity/internal/PojoEntityManager.java:149-153 | follows ManagerSpec.CreateEntityIn |
| EntityManager.PojoEntityManager.RegisterId | engine/src/main/java/org/terasology/entitySystem/entity/internal/PojoEntityManager.java:732-739 | follows ManagerSpec.RegisterId |
| EntityManager.PojoEntityManager.Remove | engine/src/main/java/org/terasology/entitySystem/entity/internal/PojoEntityManager.java:745-747 | follows ManagerSpec.Remove |
| EntityManager.PojoEntityManager.Clear | engine/src/main/java/org/terasology/entitySystem/entity/internal/PojoEntityManager.java:105-110 | follows ManagerSpec.Clear |
| EntityManager.PojoEntityManager.AssignToCache | engine/src/main/java/org/terasology/entitySystem/entity/internal/PojoEntityManager.java:615-617 | follows ManagerSpec.AssignToCache |
| EntityManager.PojoEntityManager.GetExistingEntity | engine/src/main/java/org/terasology/entitySystem/entity/internal/PojoEntityManager.java:274-280 | agrees with ManagerSpec.ExistingEntity on the current fields |
| EntityManager.PojoEntityManager.CreateEntityRef | engine/src/main/java/org/terasology/entitySystem/entity/internal/PojoEntityManager.java:619-633 | follows ManagerSpec.CreateEntityRef |
| EntityManager.PojoEntityManager.GetEntity | engine/src/main/java/org/terasology/entitySystem/entity/internal/PojoEntityManager.java:220-222 | follows ManagerSpec.CreateEntityRef and returns a handle to the id |
| EntityManager.PojoEntityManager.PutEntity | engine/src/main/java/org/terasology/entitySystem/entity/internal/PojoEntityManager.java:347-349 | follows ManagerSpec.PutEntity |
| EntityManager.PojoEntityManager.SetEventSystem | engine/src/main/java/org/terasology/entitySystem/entity/internal/PojoEntityManager.java:392-394 | only whether an event system is set changes |
| EntityManager.PojoEntityManager.Send | engine/src/main/java/org/terasology/entitySystem/entity/internal/PojoEntityManager.java:189-191 | one event-system send is appended to the log |
| EntityManager.PojoEntityManager.Notify | engine/src/main/java/org/terasology/entitySystem/entity/internal/PojoEntityManager.java:635-670 | the loop over the subscribers leaves the fields as ManagerSpec.Notify |
| EntityManager.PojoEntityManager.NotifyDestroyed | engine/src/main/java/org/terasology/entitySystem/entity/internal/PojoEntityManager.java:486-488 | the loop over the destroy subscribers leaves the fields as ManagerSpec.NotifyDestroyed |
| EntityManager.PojoEntityManager.RoutedCache | engine/src/main/java/org/terasology/entitySystem/entity/internal/PojoEntityManager.java:499-505 | agrees with ManagerSpec.RoutedCache |
| EntityManager.PojoEntityManager.GetComponent | engine/src/main/java/org/terasology/entitySystem/entity/internal/PojoEntityManager.java:498-507 | agrees with ManagerSpec.GetComponent |
| EntityManager.PojoEntityManager.HasComponent | engine/src/main/java/org/terasology/entitySystem/entity/internal/PojoEntityManager.java:445-448 | agrees with ManagerSpec.HasComponent |
| EntityManager.PojoEntityManager.PutInCache | engine/src/main/java/org/terasology/entitySystem/entity/internal/PojoEntityManager.java:526 | stores in the given cache's table and returns the component of that type it replaced, if any |
| EntityManager.PojoEntityManager.SendAddEvents | engine/src/main/java/org/terasology/entitySystem/entity/internal/PojoEntityManager.java:536-544 | follows ManagerSpec.SendAddEvents |
| EntityManager.PojoEntityManager.NotifyAdd | engine/src/main/java/org/terasology/entitySystem/entity/internal/PojoEntityManager.java:531-535 | follows ManagerSpec.NotifyAdd |
| EntityManager.PojoEntityManager.AddComponent | engine/src/main/java/org/terasology/entitySystem/entity/internal/PojoEntityManager.java:519-546 | follows ManagerSpec.AddComponent, result included |
| EntityManager.PojoEntityManager.SaveComponent | engine/src/main/java/org/terasology/entitySystem/entity/internal/PojoEntityManager.java:578-603 | follows ManagerSpec.SaveComponent |
| EntityManager.PojoEntityManager.RemoveComponent | engine/src/main/java/org/terasology/entitySystem/entity/internal/PojoEntityManager.java:556-568 | follows ManagerSpec.RemoveComponent, result included |
| EntityManager.PojoEntityManager.DeactivateForStorage | engine/src/main/java/org/terasology/entitySystem/entity/internal/PojoEntityManager.java:408-422 | the removal loop over the snapshot leaves the fields as ManagerSpec.DeactivateForStorage |
| EntityManager.PojoEntityManager.RemoveEach | engine/src/main/java/org/terasology/entitySystem/entity/internal/PojoEntityManager.java:417-419 | the removal loop takes each snapshotted type out of the global table and changes nothing else |
| EntityManager.PojoEntityManager.FindParentPrefab | engine/src/main/java/org/terasology/entitySystem/entity/internal/PojoEntityManager.java:178-185 | the scan with early exit finds ManagerSpec.FirstPrefab |
| EntityManager.PojoEntityManager.IsSectorScoped | engine/src/main/java/org/terasology/entitySystem/entity/internal/PojoEntityManager.java:364-372 | the scan returns true exactly when some EntityInfo has the SECTOR scope |
| EntityManager.PojoEntityManager.CreateEntityFrom | engine/src/main/java/org/terasology/entitySystem/entity/internal/PojoEntityManager.java:175-202 | the put loop leaves the fields, and the handle, as ManagerSpec.CreateEntityFrom |
| EntityManager.PojoEntityManager.StoreEach | engine/src/main/java/org/terasology/entitySystem/entity/internal/PojoEntityManager.java:198-200 | the store loop leaves the global table as PutAll of the components, and changes nothing else |
| EntityManager.PojoEntityManager.CreateEntityWithoutLifecycleEvents | engine/src/main/java/org/terasology/entitySystem/entity/internal/PojoEntityManager.java:312-318 | the notify loop leaves the fields, and the handle, as ManagerSpec.CreateEntityWithoutLifecycleEvents |
| EntityManager.PojoEntityManager.NotifyAddedEach | engine/src/main/java/org/terasology/entitySystem/entity/internal/PojoEntityManager.java:314-316 | the loop appends an Added fan-out for each component, in order, and changes nothing else |
| EntityManager.PojoEntityManager.RestoreInCache | engine/src/main/java/org/terasology/entitySystem/entity/internal/PojoEntityManager.java:368-373 | follows ManagerSpec.RestoreInCache |
| EntityManager.PojoEntityManager.CreateEntityWithId | engine/src/main/java/org/terasology/entitySystem/entity/internal/PojoEntityManager.java:362-374 | follows ManagerSpec.CreateEntityWithId |
| EntityManager.PojoEntityManager.SubscribeForChanges | engine/src/main/java/org/terasology/entitySystem/entity/internal/PojoEntityManager.java:377-379 | follows ManagerSpec.SubscribeForChanges |
| EntityManager.PojoEntityManager.SubscribeForDestruction | engine/src/main/java/org/terasology/entitySystem/entity/internal/PojoEntityManager.java:382-384 | follows ManagerSpec.SubscribeForDestruction |
| EntityManager.PojoEntityManager.Unsubscribe | engine/src/main/java/org/terasology/entitySystem/entity/internal/PojoEntityManager.java:387-389 | follows ManagerSpec.Unsubscribe |
| EntityManager.PojoEntityManager.NotifyComponentRemovalAndEntityDestruction | engine/src/main/java/org/terasology/entitySystem/entity/internal/PojoEntityManager.java:482-489 | the two notify loops leave the fields as ManagerSpec.NotifyComponentRemovalAndEntityDestruction |
| EntityManager.PojoEntityManager.NotifyRemovedEach | engine/src/main/java/org/terasology/entitySystem/entity/internal/PojoEntityManager.java:483-485 | the loop appends a Removed fan-out for each component's type, in order, and changes nothing else |
| ManagerProperties.CreateEntities | engine/src/main/java/org/terasology/entitySystem/entity/internal/PojoEntityManager.java:141-147 | n successive createEntity calls return n ids |
| ManagerProperties.CreateEntitiesFresh | engine/src/main/java/org/terasology/entitySystem/entity/internal/PojoEntityManager.java:141-147 | successive createEntity calls return strictly increasing ids, none NULL_ID, none existing before, all loaded and existing afterwards; only the counter and the loaded set change |
| ManagerProperties.RemoveThenRegister | engine/src/main/java/org/terasology/entitySystem/entity/internal/PojoEntityManager.java:732-747 | a removed id still exists, is inactive, and registerId loads it again |
| ManagerProperties.RegisterRefusesUnallocated | engine/src/main/java/org/terasology/entitySystem/entity/internal/PojoEntityManager.java:732-739 | registerId refuses exactly the ids at or above the counter, and under the invariant a refused id was not loaded |
| ManagerProperties.ClearReissuesIds | engine/src/main/java/org/terasology/entitySystem/entity/internal/PojoEntityManager.java:105-110 | after clear, createEntity hands out an id that existed before, and that id keeps its old route |
| ManagerProperties.CreateEntityRefIdempotent | engine/src/main/java/org/terasology/entitySystem/entity/internal/PojoEntityManager.java:619-633 | resolving a handle twice gives the same handle and the second call changes nothing |
| ManagerProperties.SaveMirrorsAdd | engine/src/main/java/org/terasology/entitySystem/entity/internal/PojoEntityManager.java:519-603 | add and save leave the same tables, handles and routing; add logs calls then events, save events then calls |
| ManagerProperties.AddTwiceChanges | engine/src/main/java/org/terasology/entitySystem/entity/internal/PojoEntityManager.java:526-544 | a second add of the same type makes getComponent return the second component and produces Changed calls and OnChanged, not Added |
| ManagerProperties.RemoveIgnoresRouting | engine/src/main/java/org/terasology/entitySystem/entity/internal/PojoEntityManager.java:556-568 | for a sector-routed component absent from the global table, getComponent and hasComponent see it but removeComponent returns nothing and changes nothing |
| ManagerProperties.AddThenRemove | engine/src/main/java/org/terasology/entitySystem/entity/internal/PojoEntityManager.java:519-568 | for a globally routed entity, removing a newly added type returns it and restores both tables |
| ManagerProperties.StaleRoutingAfterClear | engine/src/main/java/org/terasology/entitySystem/entity/internal/PojoEntityManager.java:105-110 | when id 1 was routed to the sector manager, an entity created after clear gets id 1, its component is in the global table, and getComponent cannot see it |
| ManagerProperties.DeactivateThenRestoreGlobal | engine/src/main/java/org/terasology/entitySystem/entity/internal/PojoEntityManager.java:362-422 | deactivating an entity and restoring it with createEntityWithId from the snapshot gives back the same handle, the same global and sector tables, the id active again and routed globally |
| ManagerProperties.DeactivateThenRestoreSector | engine/src/main/java/org/terasology/entitySystem/entity/internal/PojoEntityManager.java:362-422 | with a SECTOR-scoped snapshot the round trip moves the components to the sector table, routes the id there, and getComponent returns each original component |
| ManagerProperties.SnapshotHolds | engine/src/main/java/org/terasology/entitySystem/entity/internal/PojoEntityManager.java:414-419 | the snapshot holds each of the entity's components as the last (indeed only) of its type |
| ManagerProperties.SetNextIdReissues | engine/src/main/java/org/terasology/entitySystem/entity/internal/PojoEntityManager.java:430-432 | setting the counter back to an id just handed out makes the next createEntity hand out that id again |
| ManagerProperties.WithoutLifecycleEventsSendsBeforeEntityCreated | engine/src/main/java/org/terasology/entitySystem/entity/internal/PojoEntityManager.java:309-318 | with an event system set, createEntityWithoutLifecycleEvents does send an event: the first entry it logs is BeforeEntityCreated for the new id, carrying the first prefab and the given components |
| ManagerProperties.UnsubscribedHearsNothing | engine/src/main/java/org/terasology/entitySystem/entity/internal/PojoEntityManager.java:387-389 | after unsubscribe, the next notification reaches every other subscriber and never the removed one |
| ManagerProperties.SubscribeIdempotent | engine/src/main/java/org/terasology/entitySystem/entity/internal/PojoEntityManager.java:377-384 | subscribing the same subscriber twice is the same as once, for both registries |

## Left out

- copy and copyComponents (lines 236-254): they need prefab and component copying from the component library, which is not part of this model.
- newBuilder, create(...) overloads, create(prefab, position, rotation), createEntityRefWithId and createEntityWithoutLifecycleEvents(prefabName / prefab) (lines 113-130, 155-168, 204-217, 224-232, 304-306, 324-344): they only delegate to the global cache or the prefab manager, which are not part of this model.
- createSectorEntity (lines 133-138): the sector manager's create and setScope are not part of this model.
- getAllEntities, getEntitiesWith, getActiveEntityCount, getCountOfEntitiesWith, listComponents and iterateComponents: they return views and counts computed by the caches, which are not part of this model.
- destroy and destroyEntityWithoutEvents (lines 357-359, 476-478): they delegate to the global cache; the manager's own part of destruction, notifyComponentRemovalAndEntityDestruction, is modelled.
- notifyReactivation (lines 656-660): private and never called in this file.
- idLoaded (lines 741-743): the same query as isActiveEntity.
- Getters and setters of the component library, prefab manager, type serializer library, ref strategy and sector manager: configuration only.
- EntityRef handles: the ref strategy, tempRef.invalidate() and handle identity are not modelled; a handle is its id.
- The event system: it is a flag, and each send is a log entry. Dispatch to handlers is not modelled. BeforeEntityCreated's result components are the `eventResult` parameter.
- The order in which a component table lists an entity's components is the `order` parameter.
- entity.exists() is modelled as a non-null handle whose id exists in this manager.
- A cache's createEntityWithId (PojoEntityCache, PojoSectorManager) is modelled only as far as the manager relies on it: registerId's check, routing, and storing the components (ManagerSpec.RestoreInCache). Any events, subscriber calls or handle registration the cache's restore performs are not modelled, so the unchanged counter and log that ManagerSpec.CreateEntityWithId states cover only the manager's own part of the call.
- ManagerSpec.SaveComponent: the case of a null component is not modelled, because saveComponent does not check for one and the outcome depends on the component table, which is not part of this model.
- ManagerSpec.SetNextId: the invariant that every loaded id is below the counter is kept only when the new counter lies above every loaded id, as in the source, which does not check.
- The sector manager's hasComponent and getExistingEntity are modelled as lookups in the sector table and the sector handle set; PojoSectorManager is not part of this model.
- The long counter's overflow and negative ids: ids are natural numbers.
- Logging (logger.error) and the absence of locking (MapMaker concurrency, reentrant subscribers) are not modelled.

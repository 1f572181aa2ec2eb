/**
 * Entity ids, components, entity handles, lifecycle notifications and the
 * component tables of the entity system, as values.
 */
module Components {
  import opened Wrappers

  /** Entity ids. The source uses a Java long; here they are unbounded. */
  type EntityId = nat

  /** The id reserved for "no entity" (PojoEntityManager.NULL_ID). */
  const NULL_ID: EntityId := 0

  /** An id other than NULL_ID: the only ids a live handle can carry. */
  type LiveId = id: EntityId | id != NULL_ID witness 1

  /** Identity of a lifecycle subscriber; the source compares subscribers by object identity. */
  type SubscriberId = nat

  /** The scope tag an EntityInfoComponent carries (EntityData.Entity.Scope). */
  datatype Scope = Global | Sector

  /** The two caches an id can be routed to: the global cache and the sector manager. */
  datatype CacheKind = GlobalCache | SectorCache

  /** A prefab, known only by name. */
  datatype PrefabRef = PrefabRef(name: string)

  /** The type of a component: the Java class of the component object. */
  datatype ComponentType = EntityInfoType | UserType(name: string)

  /**
   * A component. EntityInfo is the one component the manager looks inside
   * (for its parent prefab and its scope); every other component is an
   * opaque payload identified by its type name.
   */
  datatype Component =
    | EntityInfo(parentPrefab: Option<PrefabRef>, scope: Scope)
    | UserComponent(name: string, payload: int)
  {
    /** The type tag the component tables key the component by. */
    function Type(): ComponentType {
      match this
      case EntityInfo(_, _) => EntityInfoType
      case UserComponent(name, _) => UserType(name)
    }
  }

  /** An entity handle, modelled as the id it resolves to; NullRef is EntityRef.NULL. */
  datatype EntityRef = NullRef | Ref(id: LiveId) {
    /** EntityRef.getId(): the null handle answers NULL_ID. */
    function Id(): EntityId {
      if NullRef? then NULL_ID else id
    }
  }

  /** The handle for an id: the null handle for NULL_ID, a live one otherwise. */
  function RefOf(id: EntityId): (r: EntityRef)
    ensures r.Id() == id
    ensures r.NullRef? <==> id == NULL_ID
  {
    if id == NULL_ID then NullRef else Ref(id)
  }

  /** A call the manager makes on a subscriber (EntityChangeSubscriber / EntityDestroySubscriber). */
  datatype SubscriberCall =
    | ComponentAdded(entity: EntityRef, componentType: ComponentType)
    | ComponentChanged(entity: EntityRef, componentType: ComponentType)
    | ComponentRemoved(entity: EntityRef, componentType: ComponentType)
    | BeforeDeactivation(entity: EntityRef, components: seq<Component>)
    | EntityDestroyed(entity: EntityRef)

  /** A lifecycle event the manager sends through the event system. */
  datatype LifecycleEvent =
    | BeforeEntityCreated(prefab: Option<PrefabRef>, components: seq<Component>)
    | OnAddedComponent(component: Component)
    | OnActivatedComponent(component: Component)
    | OnChangedComponent(component: Component)
    | BeforeDeactivateComponent(target: Option<Component>)
    | BeforeRemoveComponent(component: Component)

  /** One entry of the notification log: a subscriber call or an event-system send. */
  datatype Notification =
    | ToSubscriber(subscriber: SubscriberId, call: SubscriberCall)
    | ToEventSystem(target: EntityRef, event: LifecycleEvent)

  /** No subscriber is registered twice (the registries are insertion-ordered sets). */
  predicate Distinct(s: seq<SubscriberId>) {
    forall i, j :: 0 <= i < j < |s| ==> s[i] != s[j]
  }

  /** The log entries of one fan-out: each subscriber, in registration order, receives `call`. */
  function FanOut(subscribers: seq<SubscriberId>, call: SubscriberCall): (r: seq<Notification>)
    ensures |r| == |subscribers|
    ensures forall k :: 0 <= k < |r| ==> r[k] == ToSubscriber(subscribers[k], call)
  {
    if subscribers == [] then []
    else FanOut(subscribers[..|subscribers| - 1], call) + [ToSubscriber(subscribers[|subscribers| - 1], call)]
  }

  /** One fan-out per call, in the order of `calls`. */
  function FanOutEach(subscribers: seq<SubscriberId>, calls: seq<SubscriberCall>): (r: seq<Notification>)
    ensures forall n :: n in r ==> n.ToSubscriber? && n.subscriber in subscribers && n.call in calls
    ensures subscribers != [] ==> |r| >= |calls|
  {
    if calls == [] then []
    else FanOutEach(subscribers, calls[..|calls| - 1]) + FanOut(subscribers, calls[|calls| - 1])
  }

  /** FanOutEach over one more call adds that call's fan-out at the end of a log. */
  lemma FanOutEachStep(log: seq<Notification>, subscribers: seq<SubscriberId>, calls: seq<SubscriberCall>, i: nat)
    requires i < |calls|
    ensures log + FanOutEach(subscribers, calls[..i]) + FanOut(subscribers, calls[i])
         == log + FanOutEach(subscribers, calls[..i + 1])
  {
    assert calls[..i + 1][..i] == calls[..i];
  }

  /** The first position of `x` in `s`. */
  function IndexOf(s: seq<SubscriberId>, x: SubscriberId): (k: nat)
    requires x in s
    ensures k < |s| && s[k] == x
    ensures x !in s[..k]
  {
    if s[0] == x then 0
    else
      var k := 1 + IndexOf(s[1..], x);
      assert s[..k] == [s[0]] + s[1..][..k - 1];
      k
  }

  /** `s` with `x` taken out, keeping the order of the rest (LinkedHashSet.remove). */
  function Without(s: seq<SubscriberId>, x: SubscriberId): (r: seq<SubscriberId>)
    ensures x !in r
    ensures forall y :: y != x ==> (y in r <==> y in s)
    ensures x !in s ==> r == s
    ensures Distinct(s) ==> Distinct(r)
    ensures Distinct(s) && x in s ==> r == s[..IndexOf(s, x)] + s[IndexOf(s, x) + 1..]
    ensures |r| <= |s|
  {
    if s == [] then []
    else if s[0] == x then
      var rest := Without(s[1..], x);
      assert Distinct(s) ==> s[0] !in s[1..];
      rest
    else
      var rest := Without(s[1..], x);
      assert Distinct(s) ==> s[0] !in s[1..];
      if Distinct(s) && x in s then
        ConsSplit(s, rest, IndexOf(s[1..], x));
        [s[0]] + rest
      else
        [s[0]] + rest
  }

  /** Taking out position `j` of the tail is taking out position `j + 1` of the whole. */
  lemma ConsSplit(s: seq<SubscriberId>, rest: seq<SubscriberId>, j: nat)
    requires 0 < |s| && j < |s| - 1 && rest == s[1..][..j] + s[1..][j + 1..]
    ensures [s[0]] + rest == s[..j + 1] + s[j + 1 + 1..]
  {
    assert s[..j + 1] == [s[0]] + s[1..][..j];
    assert s[j + 1 + 1..] == s[1..][j + 1..];
  }

  /** A component table key: an entity and a component type. */
  type Key = (EntityId, ComponentType)

  /** ComponentTable: at most one component per entity and type. */
  type Table = map<Key, Component>

  /** The table's get: the stored component, or None where the source returns null. */
  function Lookup(t: Table, k: Key): Option<Component> {
    if k in t then Some(t[k]) else None
  }

  /** ComponentTable.put: the component is stored under its own type, replacing any previous one. */
  function Put(t: Table, id: EntityId, c: Component): Table {
    t[(id, c.Type()) := c]
  }

  /** Every stored component sits under its own type. */
  ghost predicate WellTyped(t: Table) {
    forall k :: k in t ==> t[k].Type() == k.1
  }

  /** The last component of type `ty` in `cs`, if there is one. */
  function LastOfType(cs: seq<Component>, ty: ComponentType): (r: Option<Component>)
    ensures r.Some? ==> r.value in cs && r.value.Type() == ty
    ensures r.None? <==> forall i :: 0 <= i < |cs| ==> cs[i].Type() != ty
  {
    if cs == [] then None
    else if cs[|cs| - 1].Type() == ty then Some(cs[|cs| - 1])
    else LastOfType(cs[..|cs| - 1], ty)
  }

  /**
   * Putting `cs` into the table one after the other, as the source's put-loops do:
   * for each type, the last component of that type in `cs` wins, and
   * the rest of the table is untouched.
   */
  function PutAll(t: Table, id: EntityId, cs: seq<Component>): (r: Table)
    ensures forall k :: Lookup(r, k) == if k.0 == id && LastOfType(cs, k.1).Some? then LastOfType(cs, k.1) else Lookup(t, k)
    ensures WellTyped(t) ==> WellTyped(r)
  {
    if cs == [] then t else Put(PutAll(t, id, cs[..|cs| - 1]), id, cs[|cs| - 1])
  }

  /** Removing the keys (id, ty) for each ty of `tys` one after the other, as a removal loop does. */
  function RemoveTypes(t: Table, id: EntityId, tys: seq<ComponentType>): (r: Table)
    ensures forall k :: k in r <==> k in t && !(k.0 == id && k.1 in tys)
    ensures forall k :: k in r ==> r[k] == t[k]
  {
    if tys == [] then t else RemoveTypes(t, id, tys[..|tys| - 1]) - {(id, tys[|tys| - 1])}
  }

  /** The table without any component of entity `id`. */
  function RemoveEntity(t: Table, id: EntityId): Table {
    map k | k in t && k.0 != id :: t[k]
  }

  /**
   * `order` is an enumeration of the types entity `id` holds in `t`: each
   * type once, and exactly the held ones. It stands for the iteration order
   * of the table, which belongs to ComponentTable and is not part of this model.
   */
  ghost predicate Lists(order: seq<ComponentType>, t: Table, id: EntityId) {
    && (forall i, j :: 0 <= i < j < |order| ==> order[i] != order[j])
    && (forall i :: 0 <= i < |order| ==> (id, order[i]) in t && t[(id, order[i])].Type() == order[i])
    && (forall ty :: (id, ty) in t ==> ty in order)
  }

  /** The components of `id`, in the enumeration `order` (getComponentsInNewList). */
  function Snapshot(t: Table, id: EntityId, order: seq<ComponentType>): (r: seq<Component>)
    requires forall i :: 0 <= i < |order| ==> (id, order[i]) in t
    ensures |r| == |order|
    ensures forall i :: 0 <= i < |r| ==> r[i] == t[(id, order[i])]
  {
    seq(|order|, i requires 0 <= i < |order| => t[(id, order[i])])
  }

  /** The types of a list of components, in the same order. */
  function TypesOf(cs: seq<Component>): (r: seq<ComponentType>)
    ensures |r| == |cs|
    ensures forall i :: 0 <= i < |r| ==> r[i] == cs[i].Type()
  {
    seq(|cs|, i requires 0 <= i < |cs| => cs[i].Type())
  }

  /** Two tables with the same lookups are the same table. */
  lemma LookupExtensional(a: Table, b: Table)
    requires forall k :: Lookup(a, k) == Lookup(b, k)
    ensures a == b
  {
    assert a.Keys == b.Keys by {
      forall k ensures k in a <==> k in b {
        assert Lookup(a, k).Some? <==> Lookup(b, k).Some?;
      }
    }
    forall k | k in a ensures a[k] == b[k] {
      assert Lookup(a, k) == Lookup(b, k);
    }
  }

  /** A type that occurs exactly once in `cs` has that occurrence as its last one. */
  lemma {:induction false} LastOfTypeUnique(cs: seq<Component>, ty: ComponentType, i: nat)
    requires i < |cs| && cs[i].Type() == ty
    requires forall j :: 0 <= j < |cs| && j != i ==> cs[j].Type() != ty
    ensures LastOfType(cs, ty) == Some(cs[i])
  {
    if i < |cs| - 1 {
      var prefix := cs[..|cs| - 1];
      assert forall j :: 0 <= j < |prefix| && j != i ==> prefix[j].Type() != ty;
      LastOfTypeUnique(prefix, ty, i);
    }
  }

  /** Removing the snapshot's types removes the entity, and the snapshot holds each of its components. */
  lemma SnapshotRemoval(t: Table, id: EntityId, order: seq<ComponentType>)
    requires Lists(order, t, id)
    ensures RemoveTypes(t, id, TypesOf(Snapshot(t, id, order))) == RemoveEntity(t, id)
    ensures forall ty :: (id, ty) in t ==> t[(id, ty)] in Snapshot(t, id, order)
  {
    var cs := Snapshot(t, id, order);
    assert TypesOf(cs) == order;
    forall ty | (id, ty) in t
      ensures t[(id, ty)] in cs
    {
      var i :| 0 <= i < |order| && order[i] == ty;
      assert cs[i] == t[(id, ty)];
    }
  }

  /**
   * The snapshot of an entity's components, put back into the table without
   * that entity, gives the original table: deactivation followed by
   * restoration from the captured components loses nothing.
   */
  lemma SnapshotRestores(t: Table, id: EntityId, order: seq<ComponentType>)
    requires Lists(order, t, id)
    ensures PutAll(RemoveEntity(t, id), id, Snapshot(t, id, order)) == t
  {
    var cs := Snapshot(t, id, order);
    var r := PutAll(RemoveEntity(t, id), id, cs);
    forall k ensures Lookup(r, k) == Lookup(t, k) {
      if k.0 == id {
        if k in t {
          var i :| 0 <= i < |order| && order[i] == k.1;
          forall j | 0 <= j < |cs| && j != i ensures cs[j].Type() != k.1 {
            assert cs[j].Type() == order[j];
          }
          LastOfTypeUnique(cs, k.1, i);
        } else {
          forall j | 0 <= j < |cs| ensures cs[j].Type() != k.1 {
            assert cs[j].Type() == order[j];
          }
        }
      }
    }
    LookupExtensional(r, t);
  }
}

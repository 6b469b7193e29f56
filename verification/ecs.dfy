/** engine/src/ecs/component.cpp and engine/src/ecs/system.cpp: the
    serializer registry, ComponentManager::clearStorages and the ordered
    system list. Serializers, storages' component values and systems are
    opaque to this code, so they are type parameters or handles here. */
module Ecs {
  import opened Wrappers
  import opened Components

  /** ComponentSerializerRegistry: an unordered_map from component name to
      its serializer. */
  class SerializerRegistry<S> {
    var serializers: map<string, S>

    constructor ()
      ensures serializers == map[]
    {
      serializers := map[];
    }

    /** getSerializer(name): `serializers.at(name)`, which throws
        out_of_range for a name that was never registered. */
    function Get(name: string): (r: Result<S>)
      reads this
      ensures r.Ok? <==> name in serializers
      ensures r.Ok? ==> r.value == serializers[name]
      ensures r.Err? ==> r.error == OutOfRange
    {
      if name in serializers then Ok(serializers[name]) else Err(OutOfRange)
    }

    /** hasSerializer(name): exactly the names getSerializer accepts. */
    predicate Has(name: string)
      reads this
      ensures Has(name) <==> Get(name).Ok?
    {
      name in serializers
    }

    /** registerSerializer(name, s): `serializers[name] = s` inserts or
        overwrites, and no other name's entry changes. */
    method Register(name: string, s: S)
      modifies this
      ensures serializers == old(serializers)[name := s]
      ensures Has(name) && Get(name) == Ok(s)
      ensures forall n | n != name :: Get(n) == old(Get(n))
    {
      serializers := serializers[name := s];
    }
  }

  /** Every storage emptied, the registered component types kept. */
  function Emptied<T, C>(storages: map<T, map<Entity, C>>): (r: map<T, map<Entity, C>>)
    ensures r.Keys == storages.Keys
    ensures forall t | t in r :: r[t] == map[]
  {
    map t | t in storages :: map[]
  }

  /** ComponentManager: the storages, keyed by component type (std::type_index,
      here any type T), each an unordered_map<Entity, C>. */
  class ComponentManager<T(==), C> {
    var storages: map<T, map<Entity, C>>

    constructor ()
      ensures storages == map[]
    {
      storages := map[];
    }

    /** clearStorages(): one pass over the storages calling clear() on each. */
    method ClearStorages()
      modifies this
      ensures storages == Emptied(old(storages))
    {
      var todo := storages.Keys;
      while todo != {}
        invariant todo <= storages.Keys && storages.Keys == old(storages).Keys
        invariant forall t | t in storages && t !in todo :: storages[t] == map[]
        invariant forall t | t in todo :: storages[t] == old(storages)[t]
        decreases todo
      {
        var t :| t in todo;
        storages := storages[t := map[]];
        todo := todo - {t};
      }
    }
  }

  /** One virtual call made by the SystemManager on a system. */
  datatype SystemCall = Start(system: Handle) | Update(system: Handle, dt: real)

  /** SystemManager: the systems in insertion order. */
  class SystemManager {
    var systems: seq<Handle>

    constructor ()
      ensures systems == []
    {
      systems := [];
    }

    /** addSystem(s): `systems.push_back(s)`. */
    method AddSystem(s: Handle)
      modifies this
      ensures systems == old(systems) + [s]
    {
      systems := systems + [s];
    }

    /** updateAll(world, dt): `update(world, dt)` on each system once, in
        insertion order; the list itself is left as it is. */
    method UpdateAll(dt: real) returns (calls: seq<SystemCall>)
      ensures |calls| == |systems|
      ensures forall i | 0 <= i < |systems| :: calls[i] == Update(systems[i], dt)
    {
      calls := [];
      for i := 0 to |systems|
        invariant |calls| == i
        invariant forall k | 0 <= k < i :: calls[k] == Update(systems[k], dt)
      {
        calls := calls + [Update(systems[i], dt)];
      }
    }

    /** startAll(world): `start(world)` on each system once, in insertion order. */
    method StartAll() returns (calls: seq<SystemCall>)
      ensures |calls| == |systems|
      ensures forall i | 0 <= i < |systems| :: calls[i] == Start(systems[i])
    {
      calls := [];
      for i := 0 to |systems|
        invariant |calls| == i
        invariant forall k | 0 <= k < i :: calls[k] == Start(systems[k])
      {
        calls := calls + [Start(systems[i])];
      }
    }
  }
}

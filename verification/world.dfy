/** engine/src/core/world.cpp: the World owns the entity counter, the list
    of created entities, the active camera id and the component storages.
    Every parent/child edit is proved equal to its specification in module
    Hierarchy, where its effect on the links is stated. */
module Worlds {
  import opened Components
  import opened Hierarchy

  /** `_nextEntity++` on a uint32_t: the counter wraps to 0 past MaxEntity. */
  function NextId(id: Entity): (n: Entity)
    ensures id < MaxEntity ==> n > id
  {
    if id == MaxEntity then 0 else id + 1
  }

  /** After 2^32 ids the counter wraps and 0 is issued again. */
  lemma CounterWraps()
    ensures NextId(MaxEntity) == 0 && NextId(0) == 1
  {
  }

  /** std::find over a children list: the first position holding x, or
      |s| (end()) when there is none. */
  method Find(s: seq<Entity>, x: Entity) returns (i: nat)
    ensures i <= |s|
    ensures i < |s| ==> s[i] == x
    ensures forall k :: 0 <= k < i ==> s[k] != x
  {
    i := 0;
    while i < |s| && s[i] != x
      invariant i <= |s|
      invariant forall k :: 0 <= k < i ==> s[k] != x
    {
      i := i + 1;
    }
  }

  /** The erase-remove idiom, walking the list once and keeping every
      element other than x. */
  method EraseRemove(s: seq<Entity>, x: Entity) returns (r: seq<Entity>)
    ensures r == Remove(s, x)
  {
    r := [];
    for i := 0 to |s|
      invariant r == Remove(s[..i], x)
    {
      RemoveStep(s, i, x);
      if s[i] != x {
        r := r + [s[i]];
      }
    }
    assert s[..|s|] == s;
  }

  /** The Parent storage after removing the Parent of each of cs in turn. */
  function Strip(parents: map<Entity, Entity>, cs: seq<Entity>): (r: map<Entity, Entity>)
    ensures r.Keys <= parents.Keys
    ensures forall c | c in r :: r[c] == parents[c]
    decreases |cs|
  {
    if cs == [] then parents else Strip(parents, cs[..|cs| - 1]) - {cs[|cs| - 1]}
  }

  /** Removing one by one is removing the whole set at once. */
  lemma {:induction false} StripAll(parents: map<Entity, Entity>, cs: seq<Entity>)
    ensures Strip(parents, cs) == parents - set c | c in cs
    decreases |cs|
  {
    if cs != [] {
      var init := cs[..|cs| - 1];
      StripAll(parents, init);
      assert (set c | c in cs) == (set c | c in init) + {cs[|cs| - 1]};
    }
  }

  class World {
    var nextEntity: Entity
    var entities: seq<Entity>
    var cameraEntity: Entity
    var store: Components

    /** Ids handed out so far strictly increase and stay below the counter;
        this holds until the counter wraps. */
    ghost predicate IdsIncreasing()
      reads this
    {
      && (forall i, j :: 0 <= i < j < |entities| ==> entities[i] < entities[j])
      && (forall i :: 0 <= i < |entities| ==> entities[i] < nextEntity)
    }

    /** A fresh World: `_nextEntity = 0`, no entities, no camera, empty storages. */
    constructor ()
      ensures nextEntity == 0 && entities == [] && cameraEntity == NoEntity && store == NoComponents
      ensures IdsIncreasing()
    {
      nextEntity := 0;
      entities := [];
      cameraEntity := NoEntity;
      store := NoComponents;
    }

    /** createEntity(): returns the counter, then increments it, and appends
        the id to `entities`. */
    method CreateEntity() returns (id: Entity)
      modifies this
      ensures id == old(nextEntity) && nextEntity == NextId(id)
      ensures entities == old(entities) + [id]
      ensures cameraEntity == old(cameraEntity) && store == old(store)
      ensures old(IdsIncreasing()) && id < MaxEntity ==> IdsIncreasing()
    {
      id := nextEntity;
      nextEntity := NextId(nextEntity);
      entities := entities + [id];
    }

    method SetCameraEntity(c: Entity)
      modifies this
      ensures cameraEntity == c
      ensures nextEntity == old(nextEntity) && entities == old(entities) && store == old(store)
    {
      cameraEntity := c;
    }

    function GetCamera(): (c: Entity)
      reads this
      ensures c == cameraEntity
    {
      cameraEntity
    }

    /** getChildren(parent): a copy of the Children list, or an empty list. */
    function GetChildren(parent: Entity): (r: seq<Entity>)
      reads this
      ensures parent !in store.children ==> r == []
      ensures parent in store.children ==> r == store.children[parent]
    {
      ChildrenOf(store, parent)
    }

    /** setParent(child, parent): the Children list is created when
        missing, the child is appended when std::find does not see it, and
        the Parent component is added or overwritten. */
    method SetParent(child: Entity, parent: Entity)
      modifies this
      ensures store == WithParent(old(store), child, parent)
      ensures nextEntity == old(nextEntity) && entities == old(entities) && cameraEntity == old(cameraEntity)
    {
      var list := GetChildren(parent);
      var i := Find(list, child);
      if i == |list| {
        list := list + [child];
      }
      store := store.(children := store.children[parent := list], parents := store.parents[child := parent]);
    }

    method RemoveParent(child: Entity)
      modifies this
      ensures store == WithoutParent(old(store), child)
      ensures nextEntity == old(nextEntity) && entities == old(entities) && cameraEntity == old(cameraEntity)
    {
      if child !in store.parents {
        return;
      }
      var parent := store.parents[child];
      if parent in store.children {
        var list := EraseRemove(store.children[parent], child);
        store := store.(children := store.children[parent := list]);
      }
      store := store.(parents := store.parents - {child});
    }

    method RemoveChild(parent: Entity, child: Entity)
      modifies this
      ensures store == WithoutChild(old(store), parent, child)
      ensures nextEntity == old(nextEntity) && entities == old(entities) && cameraEntity == old(cameraEntity)
    {
      if parent !in store.children {
        return;
      }
      var list := EraseRemove(store.children[parent], child);
      store := store.(children := store.children[parent := list]);
      if child in store.parents && store.parents[child] == parent {
        store := store.(parents := store.parents - {child});
      }
    }

    /** removeAllChildren(parent): one pass over the list removing each
        listed child's Parent, then `children.clear()`. */
    method RemoveAllChildren(parent: Entity)
      modifies this
      ensures store == WithoutChildren(old(store), parent)
      ensures nextEntity == old(nextEntity) && entities == old(entities) && cameraEntity == old(cameraEntity)
    {
      if parent !in store.children {
        return;
      }
      var list := store.children[parent];
      for i := 0 to |list|
        invariant store == old(store).(parents := Strip(old(store).parents, list[..i]))
        invariant nextEntity == old(nextEntity) && entities == old(entities) && cameraEntity == old(cameraEntity)
      {
        var child := list[i];
        assert list[..i + 1][..i] == list[..i];
        if child in store.parents {
          store := store.(parents := store.parents - {child});
        } else {
          assert store.parents - {child} == store.parents;
        }
      }
      assert list[..|list|] == list;
      StripAll(old(store).parents, list);
      store := store.(children := store.children[parent := []]);
    }
  }
}

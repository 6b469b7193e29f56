/** engine/src/core/gameObject.cpp: a GameObject wraps a World reference
    and one entity id, and forwards to the World. */
module GameObjects {
  import opened Wrappers
  import opened Components
  import opened Hierarchy
  import opened Worlds

  class GameObject {
    const world: World
    const entity: Entity

    /** GameObject(w): creates one entity and gives it a default
        TransformComponent. */
    constructor (w: World)
      modifies w
      ensures world == w && entity == old(w.nextEntity)
      ensures w.nextEntity == NextId(entity)
      ensures w.entities == old(w.entities) + [entity]
      ensures w.store == old(w.store).(transforms := old(w.store).transforms[entity := DefaultTransform])
      ensures w.cameraEntity == old(w.cameraEntity)
    {
      world := w;
      var e := w.CreateEntity();
      entity := e;
      new;
      w.store := w.store.(transforms := w.store.transforms[e := DefaultTransform]);
    }

    /** GameObject(w, existing): wraps an existing id, creating nothing. */
    constructor Wrap(w: World, existing: Entity)
      ensures world == w && entity == existing
    {
      world := w;
      entity := existing;
    }

    function GetEntity(): (e: Entity)
      ensures e == entity
    {
      entity
    }

    /** setMesh: assign into the existing MeshComponent or add one. */
    method SetMesh(mesh: Option<Handle>)
      modifies world
      ensures world.store == old(world.store).(meshes := old(world.store).meshes[entity := MeshComponent(mesh)])
      ensures world.store.meshes[entity].mesh == mesh
      ensures world.nextEntity == old(world.nextEntity) && world.entities == old(world.entities)
      ensures world.cameraEntity == old(world.cameraEntity)
    {
      var m := MeshComponent(mesh);
      if entity in world.store.meshes {
        world.store := world.store.(meshes := world.store.meshes[entity := m]);
      } else {
        world.store := world.store.(meshes := world.store.meshes[entity := m]);
      }
    }

    /** setMaterial: assign into the existing MaterialComponent or add one. */
    method SetMaterial(material: Material)
      modifies world
      ensures world.store == old(world.store).(materials := old(world.store).materials[entity := material])
      ensures world.store.materials[entity] == material
      ensures world.nextEntity == old(world.nextEntity) && world.entities == old(world.entities)
      ensures world.cameraEntity == old(world.cameraEntity)
    {
      if entity in world.store.materials {
        world.store := world.store.(materials := world.store.materials[entity := material]);
      } else {
        world.store := world.store.(materials := world.store.materials[entity := material]);
      }
    }

    /** setParent(parent): world.setParent(entity, parent.getEntity()). */
    method SetParent(parent: GameObject)
      modifies world
      ensures world.store == WithParent(old(world.store), entity, parent.entity)
      ensures world.nextEntity == old(world.nextEntity) && world.entities == old(world.entities)
      ensures world.cameraEntity == old(world.cameraEntity)
    {
      world.SetParent(entity, parent.GetEntity());
    }

    /** removeParent(): world.removeParent(entity). */
    method RemoveParent()
      modifies world
      ensures world.store == WithoutParent(old(world.store), entity)
      ensures world.nextEntity == old(world.nextEntity) && world.entities == old(world.entities)
      ensures world.cameraEntity == old(world.cameraEntity)
    {
      world.RemoveParent(entity);
    }

    /** getChildren(): one new wrapper per child id, in list order. */
    method GetChildren() returns (result: seq<GameObject>)
      ensures |result| == |ChildrenOf(world.store, entity)|
      ensures forall i :: 0 <= i < |result| ==>
        result[i].world == world && result[i].entity == ChildrenOf(world.store, entity)[i]
    {
      var children := world.GetChildren(entity);
      result := [];
      for i := 0 to |children|
        invariant |result| == i
        invariant forall k :: 0 <= k < i ==> result[k].world == world && result[k].entity == children[k]
      {
        var g := new GameObject.Wrap(world, children[i]);
        result := result + [g];
      }
    }
  }
}

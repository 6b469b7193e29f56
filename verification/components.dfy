/** The component records of engine/include/engine/components/components.hpp
    and the entity id type. Shared assets (meshes, textures, scripts) are
    referred to by opaque handles; an absent shared_ptr is `None`. */
module Components {
  import opened Wrappers
  import opened Vectors

  /** `using Entity = uint32_t`. */
  const MaxEntity: int := 0xFFFF_FFFF
  type Entity = x: int | 0 <= x <= MaxEntity

  /** The camera id meaning "no camera": RenderSystem tests `!cameraEntity`. */
  const NoEntity: Entity := 0

  /** Handle of a shared asset (a Mesh, a Texture or a Script object). */
  type Handle = nat

  datatype Transform = Transform(position: Vec3, rotation: Vec3, scale: Vec3)

  const DefaultTransform: Transform := Transform(Origin, Origin, Vec3(1.0, 1.0, 1.0))

  datatype Camera = Camera(fov: real, aspectRatio: real, nearPlane: real, farPlane: real)

  /** MeshComponent holds a possibly null shared_ptr<Mesh>. */
  datatype MeshComponent = MeshComponent(mesh: Option<Handle>)

  datatype Material = Material(
    baseColor: Vec3,
    ambient: real,
    specular: real,
    shininess: real,
    texture: Option<Handle>,
    useTexture: bool)

  /** ScriptComponent holds the script object bound to the entity. */
  datatype ScriptComponent = ScriptComponent(script: Handle)

  /** One storage per component type, each an unordered_map<Entity, T>
      (engine/include/engine/ecs/component.hpp). ParentComponent stores one
      entity; ChildrenComponent an ordered vector of entities. */
  datatype Components = Components(
    transforms: map<Entity, Transform>,
    cameras: map<Entity, Camera>,
    meshes: map<Entity, MeshComponent>,
    materials: map<Entity, Material>,
    scripts: map<Entity, ScriptComponent>,
    parents: map<Entity, Entity>,
    children: map<Entity, seq<Entity>>)

  const NoComponents: Components := Components(map[], map[], map[], map[], map[], map[], map[])
}

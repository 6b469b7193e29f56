# GameEngine3D core, modelled in Dafny

This project models the core of GameEngine3D, a small real-time 3D engine
written in C++. It has two halves, and the model follows both.

**The entity-component runtime:**
- A `World` hands out entity ids from a 32-bit counter that wraps.
- It keeps one map per component type. Transform, Mesh, Material, Camera,
  Script, Parent and Children are modelled together as one `Components`
  value.
- It remembers the active camera and maintains the parent/children links
  between entities.
- `GameObject` wraps an entity of a world.
- The `ComponentManager`, the serializer registry, the `SystemManager` and
  the script registry are the engine's registries, each modelled as a class
  whose fields its methods reassign.
- `RenderSystem` and `ScriptSystem` walk the world's entities in creation
  order and call the renderer or the scripts. The model records those calls
  as a trace.

**The software renderer and its assets:**
- The `Renderer` owns a colour buffer and a depth buffer, both Dafny
  `array`s.
- `clear` paints the sky colour and resets the depth.
- `drawPixel` does the depth test in place.
- The pixel loop of `renderMesh` covers the clamped bounding box of a
  triangle. It is a method over the arrays, proved against a pure
  specification of the frame it produces.
- Texel colours are unpacked to reals and the shaded channels are clamped
  and packed back.
- `Texture::sample` clamps and flips its coordinates.
- `Mesh::createCube` and the `.obj` loader build meshes. The loader includes
  its face-token splitting and `std::stoi`.
- The math types are `Vec4` (with its checked index operator) and `Mat4`
  (column-major, with `transpose` and the translate, scale and rotation
  factories). The JSON encoding of `Vec3` and `Mat4` is modelled with its
  round trips.

Floating-point values are Dafny `real`s. Colours are `bv32` and channels
`bv8`. Entity ids are the 32-bit unsigned integers (`Entity`). A C++
exception becomes the `Err` case of `Result`:
- `out_of_range` and `invalid_argument` keep their names.
- The `runtime_error` of the script registry carries its message.
- A failed `getComponent` is `MissingComponent`.

What each loop promises is stated against a function of the inputs or of
the old state. The lemmas then prove what the engine relies on:
- the parent/child symmetry that each hierarchy operation keeps or breaks;
- the round trips of colours, integers and JSON;
- the bounds of every computed index;
- that drawing a triangle changes no pixel outside its box and never moves
  a depth farther away.

## Model

| member | source | states |
|---|---|---|
| Worlds.NextId | engine/src/core/world.cpp:10-15 | the next id is larger than the one just issued unless the 32-bit counter is at its maximum |
| Worlds.CounterWraps | engine/src/core/world.cpp:10-15 | after 0xFFFFFFFF the unsigned counter wraps to 0, and 0 is followed by 1 |
| Worlds.World.constructor | engine/include/engine/core/world.hpp:44 | a new world has issued no ids, its counter is 0, it has no camera (id 0) and no components |
| Worlds.World.CreateEntity | engine/src/core/world.cpp:10-15 | returns the counter's old value, advances it and appends the id to the entity list; while the counter has not wrapped, ids stay strictly increasing; no component is added |
| Worlds.World.SetCameraEntity | engine/src/core/world.cpp:17 | the camera id becomes the argument, nothing else changes |
| Worlds.World.GetCamera | engine/src/core/world.cpp:19 | returns the stored camera id |
| Worlds.World.GetChildren | engine/src/core/world.cpp:95-101 | the parent's children list, or empty when it has no Children component; computed by `ChildrenOf` |
| Worlds.Find | engine/src/core/world.cpp:44 | std::find: the first index holding the value, or the length when it is absent |
| Worlds.EraseRemove | engine/src/core/world.cpp:62-63 | the erase-remove idiom yields the list with every occurrence of the value removed, order kept |
| Worlds.Strip | engine/src/core/world.cpp:86-90 | removing the Parent of each child in turn only deletes entries and keeps the others' values; `StripAll` gives the exact result |
| Worlds.World.SetParent | engine/src/core/world.cpp:38-53 | the new component state is `WithParent` of the old one; ids, entity list and camera are unchanged |
| Worlds.World.RemoveParent | engine/src/core/world.cpp:54-67 | the new component state is `WithoutParent` of the old one; nothing else changes |
| Worlds.World.RemoveChild | engine/src/core/world.cpp:68-80 | the new component state is `WithoutChild` of the old one; nothing else changes |
| Worlds.StripAll | engine/src/core/world.cpp:86-90 | removing the Parent component of each listed child in turn removes exactly the listed children's entries |
| Worlds.World.RemoveAllChildren | engine/src/core/world.cpp:82-92 | the new component state is `WithoutChildren` of the old one; nothing else changes |
| Hierarchy.Remove | engine/src/core/world.cpp:62-63 | the result holds every element except the removed value, with the same multiplicities, and never the value |
| Hierarchy.RemoveConcat | engine/src/core/world.cpp:62-63 | removal distributes over concatenation, so it keeps the order of the remaining children |
| Hierarchy.RemoveStep | engine/src/core/world.cpp:62-63 | removal over a prefix one element longer keeps or drops that element |
| Hierarchy.RemoveAbsent | engine/src/core/world.cpp:62-63 | removing a value that is not in the list leaves the list unchanged |
| Hierarchy.ChildrenOf | engine/src/core/world.cpp:95-101 | an entity without a Children component has no children |
| Hierarchy.WithParent | engine/src/core/world.cpp:38-53 | the component state after setParent; its effect is stated by `SetParentLinks`, `SetParentFrame` and `SetParentSymmetricIff` |
| Hierarchy.SetParentLinks | engine/src/core/world.cpp:38-53 | the parent gets a Children component; the child is appended only if absent, so it appears exactly once when it appeared at most once; the child's parent is the new parent |
| Hierarchy.SetParentFrame | engine/src/core/world.cpp:38-53 | only the parent's Children list and the child's Parent entry change |
| Hierarchy.SetParentLeavesStaleLink | engine/src/core/world.cpp:48-52 | an example of `SetParentSymmetricIff`: re-parenting child 1 from 2 to 3 leaves 1 in 2's list while its Parent names 3 |
| Hierarchy.SetParentSymmetricIff | engine/src/core/world.cpp:38-53 | from any symmetric state, setParent keeps symmetry if and only if the child has no parent or already has this one; re-parenting never removes the child from its old parent's list |
| Hierarchy.SetParentPreservesSymmetry | engine/src/core/world.cpp:38-53 | from a symmetric state, setting the parent an entity already has (or giving one to an orphan) keeps the parent/children links symmetric |
| Hierarchy.SetParentOfOrphan | engine/src/core/world.cpp:38-53 | giving a parent to an entity that has none keeps the links symmetric |
| Hierarchy.OrphanParentsListed | engine/src/core/world.cpp:38-53 | after parenting an orphan, every entity with a Parent is listed by that parent |
| Hierarchy.OrphanListedHaveParent | engine/src/core/world.cpp:38-53 | after parenting an orphan, every listed child names the listing entity as its parent |
| Hierarchy.WithoutParent | engine/src/core/world.cpp:54-67 | the component state after removeParent; its effect is stated by `RemoveParentEffect` |
| Hierarchy.RemoveParentEffect | engine/src/core/world.cpp:54-67 | without a Parent nothing changes; otherwise the Parent entry goes, the old parent's list loses every occurrence of the child (if the parent has a list) and nothing else changes |
| Hierarchy.RemoveParentPreservesSymmetry | engine/src/core/world.cpp:54-67 | removeParent keeps the links symmetric |
| Hierarchy.RemoveParentKeepsListed | engine/src/core/world.cpp:54-67 | after removeParent, every entity with a Parent is still listed by it |
| Hierarchy.RemoveParentKeepsParents | engine/src/core/world.cpp:54-67 | after removeParent, every listed child still names its lister as parent |
| Hierarchy.WithoutChild | engine/src/core/world.cpp:68-80 | the component state after removeChild; its effect is stated by `RemoveChildEffect` |
| Hierarchy.RemoveChildEffect | engine/src/core/world.cpp:68-80 | without a Children list nothing changes; otherwise the child leaves the list, and its Parent entry goes exactly when it named this parent |
| Hierarchy.RemoveChildPreservesSymmetry | engine/src/core/world.cpp:68-80 | removeChild keeps the links symmetric |
| Hierarchy.RemoveChildKeepsListed | engine/src/core/world.cpp:68-80 | after removeChild, every entity with a Parent is listed by it |
| Hierarchy.RemoveChildKeepsParents | engine/src/core/world.cpp:68-80 | after removeChild, every listed child names its lister as parent |
| Hierarchy.WithoutChildren | engine/src/core/world.cpp:82-92 | the component state after removeAllChildren; its effect is stated by `RemoveAllChildrenEffect` |
| Hierarchy.RemoveAllChildrenEffect | engine/src/core/world.cpp:82-92 | the list is emptied and every listed child loses its Parent component whoever it names; other entities keep theirs |
| Hierarchy.RemoveAllChildrenStripsForeignParent | engine/src/core/world.cpp:86-90 | a child listed here but parented elsewhere also loses its Parent, leaving a dangling entry in the other parent's list |
| Hierarchy.RemoveAllChildrenPreservesSymmetry | engine/src/core/world.cpp:82-92 | on a symmetric state, removeAllChildren keeps the links symmetric |
| Hierarchy.RemoveAllChildrenKeepsListed | engine/src/core/world.cpp:82-92 | after removeAllChildren, every entity with a Parent is listed by it |
| Hierarchy.RemoveAllChildrenKeepsParents | engine/src/core/world.cpp:82-92 | after removeAllChildren, every listed child names its lister as parent |
| Hierarchy.SetThenRemoveParent | engine/src/core/world.cpp:38-67 | after setParent the parent lists the child exactly once, and after removeParent zero times |
| GameObjects.GameObject.constructor | engine/src/core/gameObject.cpp:6-11 | creates a fresh entity in the world and gives it a default Transform |
| GameObjects.GameObject.Wrap | engine/src/core/gameObject.cpp:13-14 | wraps an existing entity without touching the world |
| GameObjects.GameObject.GetEntity | engine/src/core/gameObject.cpp:16-18 | returns the wrapped entity |
| GameObjects.GameObject.SetMesh | engine/src/core/gameObject.cpp:20-28 | the entity's Mesh component holds the given mesh pointer, added or overwritten; all else unchanged |
| GameObjects.GameObject.SetMaterial | engine/src/core/gameObject.cpp:30-36 | the entity's Material component is the given one, added or overwritten; all else unchanged |
| GameObjects.GameObject.SetParent | engine/src/core/gameObject.cpp:42-44 | delegates to World::setParent with the two entities |
| GameObjects.GameObject.RemoveParent | engine/src/core/gameObject.cpp:46-48 | delegates to World::removeParent |
| GameObjects.GameObject.GetChildren | engine/src/core/gameObject.cpp:50-58 | one GameObject per child id, in list order, each on the same world |
| Ecs.SerializerRegistry.constructor | engine/src/ecs/component.cpp:24-26 | the registry has no declared constructor: the `serializerRegistry` member that getSerializerRegistry returns is default-constructed, so its map starts empty |
| Ecs.SerializerRegistry.Get | engine/src/ecs/component.cpp:14-17 | succeeds exactly on registered names and returns that serializer; otherwise out_of_range |
| Ecs.SerializerRegistry.Has | engine/src/ecs/component.cpp:10-12 | true exactly when Get succeeds |
| Ecs.SerializerRegistry.Register | engine/src/ecs/component.cpp:5-8 | inserts or overwrites one name; every other name's lookup is unchanged |
| Ecs.Emptied | engine/src/ecs/component.cpp:28-32 | every storage is empty and the set of registered component types is kept |
| Ecs.ComponentManager.constructor | engine/include/engine/ecs/component.hpp:16 | no storages |
| Ecs.ComponentManager.ClearStorages | engine/src/ecs/component.cpp:28-32 | the storages become `Emptied` of the old ones |
| Ecs.SystemManager.constructor | engine/src/ecs/system.cpp:5-7 | no systems |
| Ecs.SystemManager.AddSystem | engine/src/ecs/system.cpp:5-7 | the system is appended to the list |
| Ecs.SystemManager.UpdateAll | engine/src/ecs/system.cpp:9-14 | every system is updated once with the given dt, in insertion order |
| Ecs.SystemManager.StartAll | engine/src/ecs/system.cpp:16-20 | every system is started once, in insertion order |
| Dispatch.RenderSystemUpdate | engine/src/systems/systems.cpp:12-35 | no camera renders nothing; a camera without Transform or Camera fails; otherwise the calls are `RenderCalls` of the entity list, with the camera's components |
| Dispatch.RenderCalls | engine/src/systems/systems.cpp:23-34 | at most one call per listed entity; `RenderCallsSound`, `RenderCallsComplete` and `RenderCallsAppend` state which calls, in which order |
| Dispatch.RenderCallsAppend | engine/src/systems/systems.cpp:23-34 | calls follow the order of the entity list |
| Dispatch.RenderCallsSound | engine/src/systems/systems.cpp:23-34 | every call is for a listed entity that has Transform and a non-null Mesh, with that entity's components |
| Dispatch.RenderCallsComplete | engine/src/systems/systems.cpp:23-34 | a listed entity is rendered if and only if it is drawable |
| Dispatch.RenderCallsLength | engine/src/systems/systems.cpp:23-34 | the number of calls is the number of drawable positions in the list |
| Dispatch.CallScripts | engine/src/systems/systems.cpp:38-58 | the loop shared by update and start calls `ScriptCalls` of the entity list |
| Dispatch.ScriptCalls | engine/src/systems/systems.cpp:38-58 | at most one call per listed entity; `ScriptCallsExact` and `ScriptCallsAppend` state which calls, in which order |
| Dispatch.ScriptSystemUpdate | engine/src/systems/systems.cpp:38-46 | calls update(1) on the script of every scripted entity, in order |
| Dispatch.ScriptSystemStart | engine/src/systems/systems.cpp:48-58 | calls start() on the script of every scripted entity, in order |
| Dispatch.ScriptCallsExact | engine/src/systems/systems.cpp:38-58 | calls reach exactly the scripted entities of the list, each on its own script |
| Dispatch.ScriptCallsAppend | engine/src/systems/systems.cpp:38-58 | script calls follow the order of the entity list |
| Dispatch.UpdateAndStartAgree | engine/src/systems/systems.cpp:38-58 | update and start reach the same scripts in the same order |
| Dispatch.FirstEntityIsNoCamera | engine/src/core/world.cpp:10-15 | the first entity of a new world has id 0, the "no camera" id, so making it the camera renders nothing |
| Scripting.NotRegistered | engine/src/script/scriptRegistry.cpp:6-12 | the error message embeds the requested name |
| Scripting.ScriptRegistry.constructor | engine/include/engine/script/scriptRegistry.hpp:32 | no factories |
| Scripting.ScriptRegistry.Create | engine/src/script/scriptRegistry.cpp:6-12 | succeeds exactly on registered names with a new script of that factory's type; otherwise runtime_error naming the script |
| Scripting.ScriptRegistry.Exists | engine/src/script/scriptRegistry.cpp:14-16 | true exactly when create succeeds |
| Scripting.ScriptRegistry.RegisterScript | engine/include/engine/script/scriptRegistry.hpp:19-25 | adds or replaces one factory; every other name's create is unchanged |
| Scripting.RegisteredNames | engine/include/engine/script/scriptRegistry.hpp:19-25 | after a series of registrations a name exists if and only if it was registered, and the last registration of it wins |
| Scripting.RegisterAll | engine/include/engine/script/scriptRegistry.hpp:19-25 | registering a series in order on a new registry builds `Registered` of the series |
| Input.Controller.constructor | engine/include/engine/input/controller.hpp:19-25 | no key is pressed, no click, no motion, zero deltas |
| Input.Controller.IsKeyPressed | engine/include/engine/input/controller.hpp:32-35 | a key is pressed only if it has an entry in the key map, so a key never set is not pressed |
| Input.Controller.SetKeyState | engine/include/engine/input/controller.hpp:28-30 | that key reads back as the given state; other keys and the mouse state are unchanged |
| Input.Controller.ResetMotion | engine/include/engine/input/controller.hpp:37-41 | deltas zero and no motion; keys and right click unchanged |
| Vectors.MakeVec4 | engine/src/math/vec4.cpp:10-11 | the four components read back as given, w defaulting to 1 |
| Vectors.Get | engine/src/math/vec4.cpp:13-26 | indexing succeeds exactly for 0..3, otherwise out_of_range |
| Vectors.Set | engine/src/math/vec4.cpp:27-40 | writable indexing succeeds exactly for 0..3 |
| Vectors.SetThenGet | engine/src/math/vec4.cpp:13-40 | a write is read back at its index and leaves the other components unchanged |
| Vectors.Add | engine/src/math/vec4.cpp:41-43 | componentwise sum of x, y, z with w = 1 (see `ArithmeticResetsW`) |
| Vectors.Sub | engine/src/math/vec4.cpp:45-47 | componentwise difference of x, y, z with w = 1 (see `ArithmeticResetsW`) |
| Vectors.Mul | engine/src/math/vec4.cpp:49 | x, y, z scaled with w = 1 (see `ArithmeticResetsW`) |
| Vectors.ArithmeticResetsW | engine/src/math/vec4.cpp:41-49 | +, - and * produce w = 1, and the operands' w never influences the result |
| Matrices.NewMat4 | engine/src/math/mat4.cpp:5-9 | the default matrix is the identity |
| Matrices.Identity | engine/src/math/mat4.cpp:5-9 | ones on the diagonal and zeros elsewhere, the value the default constructor builds |
| Matrices.IdentityFactory | engine/include/engine/math/mat4.hpp:28 | Mat4::identity has ones on the diagonal and zeros elsewhere |
| Matrices.Column | engine/src/math/mat4.cpp:11-12 | `operator[](col)` yields the four entries m[col][0..3], the same values `getCol(col)` returns |
| Matrices.SetEntry | engine/src/math/mat4.cpp:11-12 | writing one entry leaves the other fifteen unchanged |
| Matrices.GetRow | engine/src/math/mat4.cpp:14-16 | component c of getRow(r), read through Vec4's index operator, is m[c][r] |
| Matrices.GetCol | engine/src/math/mat4.cpp:17-19 | component r of getCol(c), read through Vec4's index operator, is m[c][r] |
| Matrices.Transposed | engine/src/math/mat4.cpp:44-51 | entry (c, r) of the transpose is entry (r, c) of the original |
| Matrices.Transpose | engine/src/math/mat4.cpp:44-51 | the loop yields t[c][r] = m[r][c] for all 16 entries |
| Matrices.TransposeRowIsColumn | engine/src/math/mat4.cpp:14-19 | a row of the transpose is the column of the original, and the other way round |
| Matrices.TransposeInvolution | engine/src/math/mat4.cpp:44-51 | transposing twice is the identity map |
| Matrices.TransposeIdentity | engine/src/math/mat4.cpp:44-51 | the identity is its own transpose |
| Matrices.Translate | engine/include/engine/math/mat4.hpp:30-37 | translate(v); its entries are stated by `TranslateEntries` |
| Matrices.Scale | engine/include/engine/math/mat4.hpp:39-46 | scale(v); its entries are stated by `ScaleEntries` |
| Matrices.RotateX | engine/include/engine/math/mat4.hpp:48-56 | rotateX with cos and sin of the angle given; its entries are stated by `RotationEntries` |
| Matrices.RotateY | engine/include/engine/math/mat4.hpp:57-65 | rotateY with cos and sin given; its entries are stated by `RotationEntries` |
| Matrices.RotateZ | engine/include/engine/math/mat4.hpp:66-74 | rotateZ with cos and sin given; its entries are stated by `RotationEntries` |
| Matrices.TranslateEntries | engine/include/engine/math/mat4.hpp:30-37 | the offset sits in column 3 and the rest is the identity |
| Matrices.ScaleEntries | engine/include/engine/math/mat4.hpp:39-46 | the factors sit on the diagonal, w stays 1, off-diagonal entries are 0 |
| Matrices.NeutralFactories | engine/include/engine/math/mat4.hpp:28-46 | translation by zero and scaling by one are the identity |
| Matrices.RotationEntries | engine/include/engine/math/mat4.hpp:48-74 | each rotation writes cos/sin in its own 2x2 block, with the sign of the source, and is the identity elsewhere |
| MathGeneral.ExtractTranslate | engine/include/engine/math/general.hpp:25-27 | the extracted position of a translation is its offset |
| MathGeneral.ExtractPositionOfLinear | engine/include/engine/math/general.hpp:25-27 | identity and scale matrices have their position at the origin |
| MathGeneral.ExtractPosition | engine/include/engine/math/general.hpp:25-27 | the first three rows of the last column; `ExtractTranslate` shows it inverts translate |
| MathGeneral.TransformFromMatrix | engine/include/engine/math/general.hpp:55-61 | the transform's position is the matrix's translation column |
| MathGeneral.TransformFromTranslate | engine/include/engine/math/general.hpp:55-61 | decomposing a translation recovers its offset |
| MathGeneral.Cross | engine/src/math/vec3.cpp:23-25 | the cross product is perpendicular to both operands |
| MathGeneral.Scaled | engine/src/math/vec3.cpp:19 | Vec3::operator*(s) as a value; `DotScaled` states how the dot product treats it |
| MathGeneral.DotScaled | engine/src/math/vec3.cpp:19-21 | the dot product with a scaled vector is the scaled dot product |
| MathGeneral.DotSymmetric | engine/src/math/vec3.cpp:21 | the dot product does not depend on operand order |
| MathGeneral.CameraBasis | engine/include/engine/math/general.hpp:8-23 | updateCameraBasis as a value, with std::cos, std::sin and Vec3::normalized as parameters; `CameraBasisIgnoresRoll` states which inputs it reads and `CameraBasisOrthogonal` the basis it builds |
| MathGeneral.CameraBasisOrthogonal | engine/include/engine/math/general.hpp:8-23 | when normalising only scales its argument, as Vec3::normalized (vec3.cpp:29-34) does, forward, right and up are pairwise orthogonal |
| MathGeneral.CameraBasisIgnoresRoll | engine/include/engine/math/general.hpp:8-23 | forward, right and up depend only on pitch (rotation.x) and yaw (rotation.y), never on roll (rotation.z) |
| MathGeneral.RawForwardIsUnit | engine/include/engine/math/general.hpp:13-15 | where cos² + sin² = 1 for pitch and yaw, the forward vector has unit length before it is normalised |
| Serialization.AtKey | engine/include/engine/serialization/serializer.hpp:15-19 | `j.at(key)` succeeds exactly on an object holding the key |
| Serialization.AtIndex | engine/include/engine/serialization/serializer.hpp:30-36 | `j.at(i)` succeeds exactly on an array longer than i |
| Serialization.GetNumber | engine/include/engine/serialization/serializer.hpp:16-18 | get_to/get<float> succeed exactly on numbers and booleans (a boolean reads as 1 or 0, as JSON for Modern C++ documents its arithmetic conversion); anything else is a type_error |
| Serialization.Vec3ToJson | engine/include/engine/serialization/serializer.hpp:12-14 | a Vec3 is an object with exactly the keys x, y, z |
| Serialization.Vec3RoundTrip | engine/include/engine/serialization/serializer.hpp:12-19 | reading back a written Vec3 gives the same vector |
| Serialization.Vec3FromJson | engine/include/engine/serialization/serializer.hpp:15-19 | from_json(Vec3): x, then y, then z, the first failure escaping; `Vec3RoundTrip` and `Vec3FromJsonSucceeds` state it |
| Serialization.Vec3FromJsonSucceeds | engine/include/engine/serialization/serializer.hpp:15-19 | reading succeeds if and only if the value is an object whose x, y and z are numbers or booleans |
| Serialization.Mat4ToJson | engine/include/engine/serialization/serializer.hpp:20-29 | to_json(Mat4) as a value; `Mat4ToJsonShape` states its shape and entries |
| Serialization.Mat4ToJsonShape | engine/include/engine/serialization/serializer.hpp:20-29 | a matrix is written as 4 arrays of 4 numbers, array i holding column i |
| Serialization.WriteMat4 | engine/include/engine/serialization/serializer.hpp:20-29 | the nested loops build `Mat4ToJson` |
| Serialization.ReadEntry | engine/include/engine/serialization/serializer.hpp:30-36 | an entry is read only where both levels of indexing are in range |
| Serialization.ReadEntryOk | engine/include/engine/serialization/serializer.hpp:33 | `j.at(row).at(col).get<float>()` succeeds if and only if both indices are in range and the entry is a number or a boolean |
| Serialization.ReadFrom | engine/include/engine/serialization/serializer.hpp:31-35 | the remaining reads of the loops in order, stopping at the first failure; stated by `ReadRow`, `ReadFromEncoding` and the shape lemmas |
| Serialization.Mat4FromJson | engine/include/engine/serialization/serializer.hpp:30-36 | from_json(Mat4) as a value; `Mat4RoundTrip` and the shape lemmas state it |
| Serialization.ReadRow | engine/include/engine/serialization/serializer.hpp:30-36 | one pass of the inner loop reads four entries, or fails where `ReadFrom` fails |
| Serialization.ReadMat4 | engine/include/engine/serialization/serializer.hpp:30-36 | the nested loops compute `Mat4FromJson` |
| Serialization.ReadFromEncoding | engine/include/engine/serialization/serializer.hpp:20-36 | reading the encoding of m from any position, with the earlier entries already read, yields m |
| Serialization.Mat4RoundTrip | engine/include/engine/serialization/serializer.hpp:20-36 | reading back a written matrix gives the same matrix |
| Serialization.ReadFromNeedsEntries | engine/include/engine/serialization/serializer.hpp:30-36 | a successful read found every remaining entry in range and numeric |
| Serialization.Mat4FromJsonNeedsShape | engine/include/engine/serialization/serializer.hpp:30-36 | a successful read implies at least 4 arrays of at least 4 entries, the first 4 of each a number or a boolean |
| Serialization.ReadFromHasEntries | engine/include/engine/serialization/serializer.hpp:30-36 | when every remaining read succeeds, the loops succeed |
| Serialization.Mat4FromJsonAcceptsShape | engine/include/engine/serialization/serializer.hpp:30-36 | every value of that shape is read successfully, so with `Mat4FromJsonNeedsShape` the shape is exactly what from_json accepts |
| Meshes.Cube | engine/src/assets/mesh.cpp:11-55 | 8 vertices, 12 triangles, and one zero texture coordinate per vertex |
| Meshes.CubeIndicesInRange | engine/src/assets/mesh.cpp:27-52 | every triangle index names an existing vertex and every uv index an existing texture coordinate |
| Meshes.CubeTrianglesOnFaces | engine/src/assets/mesh.cpp:15-49 | each triangle's three corners lie on one face of the cube |
| Meshes.CubeUsesEveryCorner | engine/src/assets/mesh.cpp:27-49 | every corner belongs to some triangle |
| Meshes.CubeCornersDistinct | engine/src/assets/mesh.cpp:15-24 | the eight corners are pairwise distinct |
| Meshes.DropSpaces | engine/src/assets/mesh.cpp:106-107 | std::stoi skips leading white space: the result starts with a non-space and is the input when it already did |
| Meshes.DigitPrefix | engine/src/assets/mesh.cpp:106-107 | the longest run of digits at the start of the string |
| Meshes.SignOf | engine/src/assets/mesh.cpp:106-107 | an optional sign is consumed, never lengthening the text |
| Meshes.Stoi | engine/src/assets/mesh.cpp:106-107 | std::stoi: a result within int32, or invalid_argument / out_of_range |
| Meshes.StoiNeedsDigit | engine/src/assets/mesh.cpp:106-107 | without a digit after space and sign, stoi throws invalid_argument |
| Meshes.DigitsValueOfDigits | engine/src/assets/mesh.cpp:106-107 | the decimal digits of n are read back as n |
| Meshes.DigitPrefixOf | engine/src/assets/mesh.cpp:106-107 | the digit run stops at the first non-digit |
| Meshes.SignOfDecimal | engine/src/assets/mesh.cpp:106-107 | the sign of a written integer is read back with its digits |
| Meshes.StoiDecimal | engine/src/assets/mesh.cpp:106-107 | stoi reads a written int32 back even when non-digits follow |
| Meshes.StoiRoundTrip | engine/src/assets/mesh.cpp:106-107 | stoi of the decimal text of an int32 is that integer |
| Meshes.Find | engine/src/assets/mesh.cpp:90-91 | std::string::find: none exactly when the character is absent, else its first index |
| Meshes.SplitFace | engine/src/assets/mesh.cpp:86-104 | a token without '/' keeps its text and gets "-1" as uv; otherwise it splits at the first '/' |
| Meshes.SplitAt | engine/src/assets/mesh.cpp:86-104 | splitting "pre/post" with no '/' in pre returns pre and post |
| Meshes.FaceTriangle | engine/src/assets/mesh.cpp:86-107 | the six stoi calls left to right, each index made 0-based; stated by `PlainFace`, `FaceTokenParts` and `NormalOnlyFaceFails` |
| Meshes.FaceTokenParts | engine/src/assets/mesh.cpp:86-107 | in "a/t" or "a/t/n" the vertex and uv numbers are recovered |
| Meshes.PlainFace | engine/src/assets/mesh.cpp:86-107 | a face of plain numbers gives 1-based indices minus one and uv indices -2 |
| Meshes.NormalOnlyFaceFails | engine/src/assets/mesh.cpp:86-107 | an "a//n" token leaves an uv text that begins with '/', so stoi throws and loading fails |
| Meshes.WordPrefix | engine/src/assets/mesh.cpp:72 | `>>` reads the longest run of non-space characters |
| Meshes.Words | engine/src/assets/mesh.cpp:68-72 | the words `>>` extracts: each non-empty and free of white space |
| Meshes.Field | engine/src/assets/mesh.cpp:70-72 | a word `>>` did not reach leaves its string empty |
| Meshes.Kind | engine/src/assets/mesh.cpp:72 | the line's type word: empty or free of white space |
| Meshes.ApplyLine | engine/src/assets/mesh.cpp:72-108 | a v line adds one vertex, a vt line one texture coordinate, an f line one triangle; any other line changes nothing |
| Meshes.LoadLines | engine/src/assets/mesh.cpp:67-109 | the lines applied in order, the first exception ending the load; stated by `LoadLinesCounts` |
| Meshes.LoadFromObj | engine/src/assets/mesh.cpp:57-112 | an empty mesh when the file does not open, else `LoadLines` from an empty mesh; stated by `LoadFromObjCounts` |
| Meshes.CountKind | engine/src/assets/mesh.cpp:67-109 | never counts more lines than there are |
| Meshes.LoadLinesCounts | engine/src/assets/mesh.cpp:67-109 | a successful load adds exactly one element per v, vt and f line |
| Meshes.LoadFromObjCounts | engine/src/assets/mesh.cpp:57-112 | the loaded mesh has as many vertices, texture coordinates and triangles as v, vt and f lines |
| Meshes.LoadObj | engine/src/assets/mesh.cpp:57-112 | the line loop computes `LoadFromObj`; a file that does not open gives an empty mesh |
| Textures.Column | engine/src/assets/texture.cpp:40-47 | the column index is always inside the texture |
| Textures.Row | engine/src/assets/texture.cpp:40-47 | the row index is always inside the texture |
| Textures.Sample | engine/src/assets/texture.cpp:37-50 | no pixels gives the missing-texel colour; otherwise the colour of some pixel |
| Textures.SampleClampsCoordinates | engine/src/assets/texture.cpp:40-41 | out-of-range coordinates sample like their clamp to [0,1] |
| Textures.ColumnHoldsU | engine/src/assets/texture.cpp:43-47 | for u in [0,1) the column is the floor of u*width |
| Textures.RowHoldsFlippedV | engine/src/assets/texture.cpp:43-47 | for v in (0,1] the row is the floor of (1-v)*height: v is flipped |
| Textures.SampleEdges | engine/src/assets/texture.cpp:43-47 | u = 0 and 1 hit the first and last column; v = 1 and 0 hit the first and last row |
| Textures.SampleCorners | engine/src/assets/texture.cpp:37-50 | (0,1) samples the first pixel and (1,0) the last |
| Grids.PixelIndexInRange | engine/src/renderer/renderer.cpp:101-109 | an in-bounds pixel's index y*width+x lies inside the buffer |
| Grids.Cell | engine/src/renderer/renderer.cpp:101-109 | the buffer index of an in-bounds pixel, below width*height |
| Grids.PixelIndexInjective | engine/src/renderer/renderer.cpp:101-109 | distinct in-bounds pixels have distinct buffer cells |
| Numeric.ClampReal | engine/src/assets/texture.cpp:40-41 | std::clamp on floats: within the bounds, the value itself when inside them, the low bound below them, the high bound above them |
| Numeric.ClampInt | engine/src/assets/texture.cpp:46-47 | std::clamp on ints: within the bounds, the value when inside, the nearer bound outside |
| Numeric.Trunc | engine/src/assets/texture.cpp:43-44 | static_cast<int> on a float truncates toward zero |
| Numeric.Floor | engine/src/renderer/renderer.cpp:183-186 | std::floor then the cast: the greatest integer not above x |
| Numeric.Ceil | engine/src/renderer/renderer.cpp:183-186 | std::ceil then the cast: the least integer not below x |
| Numeric.Min | engine/src/renderer/renderer.cpp:184-186 | std::min on ints: one of the two, and not above either |
| Numeric.Max | engine/src/renderer/renderer.cpp:183-185 | std::max on ints: one of the two, and not below either |
| Rendering.Pack | engine/src/renderer/renderer.cpp:250 | a packed colour has a zero top byte |
| Rendering.Red | engine/src/renderer/renderer.cpp:224-228 | bits 16-23; `UnpackPack` and `PackUnpack` make it Pack's inverse |
| Rendering.Green | engine/src/renderer/renderer.cpp:224-228 | bits 8-15; see `UnpackPack` |
| Rendering.Blue | engine/src/renderer/renderer.cpp:224-228 | bits 0-7; see `UnpackPack` |
| Rendering.UnpackPack | engine/src/renderer/renderer.cpp:224-228 | unpacking a packed colour returns its three channels |
| Rendering.PackUnpack | engine/src/renderer/renderer.cpp:224-250 | repacking an unpacked colour keeps its low 24 bits |
| Rendering.SkyColorValue | engine/src/renderer/renderer.cpp:61-65 | the sky colour is 0x87CEEB, channels 135, 206, 235 |
| Rendering.Channel | engine/src/renderer/renderer.cpp:246-248 | a lit value is clamped to [0,1] and scaled to 0..255, truncating |
| Rendering.ShadeColor | engine/src/renderer/renderer.cpp:246-250 | each packed channel is the clamped channel of the lit colour |
| Rendering.Unit | engine/src/renderer/renderer.cpp:224-228 | a channel divided by 255 lies in [0,1] |
| Rendering.TexelColor | engine/src/renderer/renderer.cpp:224-228 | a texel as a base colour with every channel in [0,1]; `TexelRoundTrip` shows it survives unlit shading |
| Rendering.ChannelOfByte | engine/src/renderer/renderer.cpp:224-248 | dividing a byte by 255 and clamping it back gives the same byte |
| Rendering.TexelChannels | engine/src/renderer/renderer.cpp:224-248 | each channel of a texel survives unpacking and clamping |
| Rendering.TexelRoundTrip | engine/src/renderer/renderer.cpp:224-250 | an unlit texel is drawn with its own colour (low 24 bits) |
| Rendering.PixelBox | engine/src/renderer/renderer.cpp:178-186 | the clamped bounding box lies inside the screen |
| Rendering.PixelBoxCovers | engine/src/renderer/renderer.cpp:178-186 | every on-screen pixel within the real bounds is inside the box |
| Rendering.Plot | engine/src/renderer/renderer.cpp:101-109 | drawing keeps the buffers' size |
| Rendering.PlotEffect | engine/src/renderer/renderer.cpp:101-109 | off-screen writes do nothing; otherwise the depth becomes the minimum, the colour changes only when strictly nearer, and no other cell changes |
| Rendering.PlotTieKeepsFirst | engine/src/renderer/renderer.cpp:101-109 | at equal depth the first colour drawn stays |
| Rendering.PlotCommutes | engine/src/renderer/renderer.cpp:101-109 | writes to different pixels commute |
| Rendering.Cleared | engine/src/renderer/renderer.cpp:51-68 | every pixel has the sky colour and the largest float as depth |
| Rendering.ClearedThenPlot | engine/src/renderer/renderer.cpp:51-109 | after clear, any nearer-than-max write lands |
| Rendering.NothingDrawnBeforeClear | engine/src/renderer/renderer.cpp:40-41 | the constructor's zero depth rejects every non-negative depth until clear |
| Rendering.PlotFragment | engine/src/renderer/renderer.cpp:192-251 | one pixel of the triangle loop keeps the buffers' size |
| Rendering.RowUpTo | engine/src/renderer/renderer.cpp:192-251 | one row of the triangle loop keeps the buffers' size |
| Rendering.BoxUpTo | engine/src/renderer/renderer.cpp:192-251 | the rows of the triangle loop keep the buffers' size |
| Rendering.PlotOutsideCell | engine/src/renderer/renderer.cpp:101-109 | a write changes no other pixel |
| Rendering.PlotFragmentFrame | engine/src/renderer/renderer.cpp:192-251 | a pixel step changes nothing outside the box and never increases a depth |
| Rendering.RowUpToFrame | engine/src/renderer/renderer.cpp:192-251 | a row changes nothing outside the box and never increases a depth |
| Rendering.BoxUpToFrame | engine/src/renderer/renderer.cpp:192-251 | any prefix of the rows changes nothing outside the box and never increases a depth |
| Rendering.DrawBoxFrame | engine/src/renderer/renderer.cpp:192-251 | drawing a triangle changes no pixel outside its box and never moves a depth farther |
| Rendering.Renderer.Buffers | engine/src/renderer/renderer.cpp:40-41 | the two buffers, of width*height cells each |
| Rendering.Renderer.constructor | engine/src/renderer/renderer.cpp:40-41 | buffers of width*height cells with depth zero |
| Rendering.Renderer.Clear | engine/src/renderer/renderer.cpp:51-68 | the colour argument is ignored: with a frame buffer and a non-empty screen, the buffers become `Cleared` (sky colour, largest depth); otherwise nothing changes |
| Rendering.Renderer.DrawPixel | engine/src/renderer/renderer.cpp:101-109 | the buffers become `Plot` of the old ones |
| Rendering.Renderer.DrawBox | engine/src/renderer/renderer.cpp:192-251 | the nested pixel loop leaves the buffers as `BoxUpTo` of the old ones |

## Left out

- SDL plumbing is not modelled, being foreign calls: window and texture creation, `present`, the event pump and the frame loop of the application.
- InputManager is not modelled, since it translates SDL events; only the Controller state it writes is.
- Serialization.Vec3FromJson and Serialization.Mat4FromJson return a new value or an error, but from_json writes into the caller's Vec3 or Mat4 in place (`get_to` at serializer.hpp lines 16-18, `m[row][col] = ...` at line 33). When a later field throws, the caller's value is left partly overwritten; the model drops that partial state. Every modelled caller propagates the exception, so nothing proved here depends on it.
- MathGeneral.CameraBasis: `std::cos`, `std::sin` and `Vec3::normalized` (a square root) are parameters, so the model states which inputs the basis reads and the exact arithmetic around them, not the trigonometric values.
- Floating-point rounding is not modelled: floats and doubles are reals, so no NaN, infinity or rounding. The largest float is kept as the depth sentinel.
- The geometry of `renderMesh` is not modelled: projection, clipping, the edge functions, barycentric interpolation and lighting. `DrawBox` takes them as a `shade` function that gives the depth and colour of each pixel of the box, or none.
- Rendering.Renderer.DrawBox: the bounding box is a parameter; `PixelBox` states what the source computes for it.
- Rendering.Renderer.constructor: the SDL window, renderer and texture creation, and the `exit(1)` when one fails, are left out. The initial colours of the frame buffer are left unspecified, as `new uint32_t[]` leaves them.
- `renderMesh` as declared takes a material, but systems.cpp passes four arguments. The model's `RenderCall` follows the call site, so the material does not reach the renderer.
- `System::update` is declared with one argument, but `SystemManager::updateAll` passes a `dt`. The model follows the manager.
- Meshes.LoadObj: `std::stof` is a parameter (`stof`), because it parses floats. The order in which the three `stof` calls of one `Vec3(...)` constructor call (mesh.cpp lines 76 and 78) are evaluated is not fixed by C++; the model reports the first failure from the left. The six `stoi` calls of line 106 sit in a braced initializer list, which C++ evaluates left to right, and the model follows that order.
- Meshes.PlainFace: `stoi(x) - 1` overflows int32 when x is INT_MIN. The model computes it on unbounded integers.
- `width * height` is not modelled as an int overflow; buffer sizes are unbounded naturals.
- The `.bmp` loader of textures (`loadFromBmp`) is not modelled, being file I/O. Textures are given as their pixel sequence.
- `ComponentManager::getAll` and `getSerializerRegistry` are not modelled. They return references to the same maps that the modelled members read.
- The component template bodies are not modelled (add, remove, has, get on the typed storages). The world's `Components` maps play their part, and `getComponent` of an absent component is `MissingComponent`. The `GlobalTransform` storage (components.hpp line 20) is not modelled either: if adding a Transform also creates its paired world transform, as gameObject.cpp line 9 would then trigger, the model does not capture it.
- World::addScript, updateSystems, startSystems and addSystem are not modelled separately, nor GameObject::addScript: they forward to the registries and managers modelled above.
- Scene loading and saving and the HierarchySystem's world-matrix propagation are not modelled. Only the Vec3 and Mat4 JSON encodings are.
- Virtual calls into user systems and scripts are recorded as traces (`SystemCall`, `ScriptCall`, `RenderCall`); what those calls do to the world is not modelled.
- The first id `createEntity` returns is 0, the same value as the "no camera" sentinel, and not an id above it. The model follows the code (`FirstEntityIsNoCamera`).
- A null `shared_ptr` in a ScriptComponent is not modelled: a script is always a `Handle`, so the dereference at systems.cpp lines 43 and 53 cannot fail in the model.

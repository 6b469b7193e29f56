/** engine/src/systems/systems.cpp: which entities RenderSystem and
    ScriptSystem act on, and in which order. The virtual calls they make
    (Renderer::renderMesh, Script::update, Script::start) are recorded as a
    trace of calls instead of being performed. */
module Dispatch {
  import opened Wrappers
  import opened Components
  import opened Worlds

  /** One renderMesh(mesh, transform, cameraTransform, camera) call, with the
      entity whose components supplied the first two arguments. */
  datatype RenderCall = RenderCall(entity: Entity, mesh: Handle, transform: Transform, cameraTransform: Transform, camera: Camera)

  /** Lines 24-30: an entity is drawn when it has a Transform and a Mesh
      component and the mesh pointer is not null. */
  predicate Drawable(s: Components, e: Entity) {
    e in s.transforms && e in s.meshes && s.meshes[e].mesh.Some?
  }

  /** The calls the loop over `es` makes, in the order of `es`. */
  function RenderCalls(es: seq<Entity>, s: Components, cameraTransform: Transform, camera: Camera): (calls: seq<RenderCall>)
    ensures |calls| <= |es|
    decreases |es|
  {
    if es == [] then []
    else
      var e := es[|es| - 1];
      RenderCalls(es[..|es| - 1], s, cameraTransform, camera)
        + if Drawable(s, e) then [RenderCall(e, s.meshes[e].mesh.value, s.transforms[e], cameraTransform, camera)] else []
  }

  /** RenderSystem::update(world) (lines 12-35). No camera (id 0) renders
      nothing. The camera's Transform and Camera components are read with
      getComponent; a camera entity lacking one is reported as
      MissingComponent. */
  method RenderSystemUpdate(world: World) returns (r: Result<seq<RenderCall>>)
    ensures world.cameraEntity == NoEntity ==> r == Ok([])
    ensures world.cameraEntity != NoEntity && (world.cameraEntity !in world.store.transforms || world.cameraEntity !in world.store.cameras)
      ==> r == Err(MissingComponent)
    ensures world.cameraEntity != NoEntity && world.cameraEntity in world.store.transforms && world.cameraEntity in world.store.cameras
      ==> r == Ok(RenderCalls(world.entities, world.store, world.store.transforms[world.cameraEntity], world.store.cameras[world.cameraEntity]))
  {
    var entities := world.entities;
    var cameraEntity := world.GetCamera();
    if cameraEntity == NoEntity {
      return Ok([]);
    }
    if cameraEntity !in world.store.transforms || cameraEntity !in world.store.cameras {
      return Err(MissingComponent);
    }
    var cameraTransform := world.store.transforms[cameraEntity];
    var camera := world.store.cameras[cameraEntity];
    var calls := [];
    for i := 0 to |entities|
      invariant calls == RenderCalls(entities[..i], world.store, cameraTransform, camera)
    {
      var entity := entities[i];
      assert entities[..i + 1][..i] == entities[..i];
      if entity in world.store.transforms && entity in world.store.meshes {
        var meshC := world.store.meshes[entity];
        if meshC.mesh.None? {
          continue;
        }
        calls := calls + [RenderCall(entity, meshC.mesh.value, world.store.transforms[entity], cameraTransform, camera)];
      }
    }
    assert entities[..|entities|] == entities;
    return Ok(calls);
  }

  /** Rendering a list in two parts makes the first part's calls, then the
      second's: the calls follow the order of `entities`. */
  lemma {:induction false} RenderCallsAppend(a: seq<Entity>, b: seq<Entity>, s: Components, ct: Transform, c: Camera)
    ensures RenderCalls(a + b, s, ct, c) == RenderCalls(a, s, ct, c) + RenderCalls(b, s, ct, c)
    decreases |b|
  {
    if b == [] {
      assert a + b == a;
    } else {
      var b' := b[..|b| - 1];
      assert (a + b)[..|a + b| - 1] == a + b';
      RenderCallsAppend(a, b', s, ct, c);
    }
  }

  /** Every call comes from a drawable entity of the list and carries that
      entity's mesh and transform together with the camera's. */
  lemma {:induction false} RenderCallsSound(es: seq<Entity>, s: Components, ct: Transform, c: Camera)
    ensures forall call | call in RenderCalls(es, s, ct, c) ::
      call.entity in es && Drawable(s, call.entity)
      && call == RenderCall(call.entity, s.meshes[call.entity].mesh.value, s.transforms[call.entity], ct, c)
    decreases |es|
  {
    if es != [] {
      RenderCallsSound(es[..|es| - 1], s, ct, c);
    }
  }

  /** Every drawable entity of the list is rendered; entities without
      Transform or Mesh, or with a null mesh, are skipped. */
  lemma {:induction false} RenderCallsComplete(es: seq<Entity>, s: Components, ct: Transform, c: Camera, e: Entity)
    requires e in es
    ensures Drawable(s, e) <==> exists call | call in RenderCalls(es, s, ct, c) :: call.entity == e
    decreases |es|
  {
    RenderCallsSound(es, s, ct, c);
    var last := es[|es| - 1];
    var calls := RenderCalls(es, s, ct, c);
    if e == last {
      if Drawable(s, e) {
        assert calls[|calls| - 1].entity == e;
      }
    } else {
      assert e in es[..|es| - 1];
      RenderCallsComplete(es[..|es| - 1], s, ct, c, e);
    }
  }

  /** Each drawable entity is rendered once per occurrence in the list: the
      ids World hands out are distinct, so at most once each. */
  lemma {:induction false} RenderCallsLength(es: seq<Entity>, s: Components, ct: Transform, c: Camera)
    ensures |RenderCalls(es, s, ct, c)| == |set i | 0 <= i < |es| && Drawable(s, es[i])|
    decreases |es|
  {
    if es != [] {
      var n := |es| - 1;
      RenderCallsLength(es[..n], s, ct, c);
      var before := set i | 0 <= i < n && Drawable(s, es[..n][i]);
      assert before == set i | 0 <= i < n && Drawable(s, es[i]);
      if Drawable(s, es[n]) {
        assert (set i | 0 <= i < |es| && Drawable(s, es[i])) == before + {n};
      } else {
        assert (set i | 0 <= i < |es| && Drawable(s, es[i])) == before;
      }
    }
  }

  /** The call ScriptSystem makes on a script. */
  datatype ScriptMethod = Start | Update(dt: real)

  datatype ScriptCall = ScriptCall(entity: Entity, script: Handle, call: ScriptMethod)

  /** The calls the loop over `es` makes on every entity with a
      ScriptComponent, in the order of `es`. */
  function ScriptCalls(es: seq<Entity>, s: Components, m: ScriptMethod): (calls: seq<ScriptCall>)
    ensures |calls| <= |es|
    decreases |es|
  {
    if es == [] then []
    else
      var e := es[|es| - 1];
      ScriptCalls(es[..|es| - 1], s, m)
        + if e in s.scripts then [ScriptCall(e, s.scripts[e].script, m)] else []
  }

  /** The loop shared by ScriptSystem::update and ScriptSystem::start. */
  method CallScripts(world: World, m: ScriptMethod) returns (calls: seq<ScriptCall>)
    ensures calls == ScriptCalls(world.entities, world.store, m)
  {
    var entities := world.entities;
    calls := [];
    for i := 0 to |entities|
      invariant calls == ScriptCalls(entities[..i], world.store, m)
    {
      var entity := entities[i];
      assert entities[..i + 1][..i] == entities[..i];
      if entity in world.store.scripts {
        var sc := world.store.scripts[entity];
        calls := calls + [ScriptCall(entity, sc.script, m)];
      }
    }
    assert entities[..|entities|] == entities;
  }

  /** ScriptSystem::update(world) (lines 38-46): `update(1)` on each script;
      the constant 1 is passed, not the frame time. */
  method ScriptSystemUpdate(world: World) returns (calls: seq<ScriptCall>)
    ensures calls == ScriptCalls(world.entities, world.store, Update(1.0))
  {
    calls := CallScripts(world, Update(1.0));
  }

  /** ScriptSystem::start(world) (lines 48-58): `start()` on each script. */
  method ScriptSystemStart(world: World) returns (calls: seq<ScriptCall>)
    ensures calls == ScriptCalls(world.entities, world.store, Start)
  {
    calls := CallScripts(world, Start);
  }

  /** Every call goes to a scripted entity of the list, on its own script,
      with the requested method; every scripted entity of the list is
      called. */
  lemma {:induction false} ScriptCallsExact(es: seq<Entity>, s: Components, m: ScriptMethod)
    ensures forall call | call in ScriptCalls(es, s, m) ::
      call.entity in es && call.entity in s.scripts && call == ScriptCall(call.entity, s.scripts[call.entity].script, m)
    ensures forall e | e in es && e in s.scripts :: ScriptCall(e, s.scripts[e].script, m) in ScriptCalls(es, s, m)
    decreases |es|
  {
    if es != [] {
      var init := es[..|es| - 1];
      ScriptCallsExact(init, s, m);
      forall e | e in es && e in s.scripts
        ensures ScriptCall(e, s.scripts[e].script, m) in ScriptCalls(es, s, m)
      {
        if e != es[|es| - 1] {
          assert e in init;
        }
      }
    }
  }

  /** The calls follow the order of `entities`. */
  lemma {:induction false} ScriptCallsAppend(a: seq<Entity>, b: seq<Entity>, s: Components, m: ScriptMethod)
    ensures ScriptCalls(a + b, s, m) == ScriptCalls(a, s, m) + ScriptCalls(b, s, m)
    decreases |b|
  {
    if b == [] {
      assert a + b == a;
    } else {
      var b' := b[..|b| - 1];
      assert (a + b)[..|a + b| - 1] == a + b';
      ScriptCallsAppend(a, b', s, m);
    }
  }

  /** update and start reach the same scripts in the same order; only the
      method called differs. */
  lemma {:induction false} UpdateAndStartAgree(es: seq<Entity>, s: Components)
    ensures |ScriptCalls(es, s, Update(1.0))| == |ScriptCalls(es, s, Start)|
    ensures forall i | 0 <= i < |ScriptCalls(es, s, Start)| ::
      ScriptCalls(es, s, Update(1.0))[i] == ScriptCalls(es, s, Start)[i].(call := Update(1.0))
    decreases |es|
  {
    if es != [] {
      UpdateAndStartAgree(es[..|es| - 1], s);
    }
  }

  /** A fresh World's first entity gets id 0, the "no camera" id, so making
      it the camera renders nothing. */
  method FirstEntityIsNoCamera() returns (r: Result<seq<RenderCall>>)
    ensures r == Ok([])
  {
    var world := new World();
    var e := world.CreateEntity();
    world.store := world.store.(transforms := world.store.transforms[e := DefaultTransform],
                                cameras := world.store.cameras[e := Camera(60.0, 1.0, 0.1, 100.0)],
                                meshes := world.store.meshes[e := MeshComponent(Some(0))]);
    world.SetCameraEntity(e);
    r := RenderSystemUpdate(world);
  }
}

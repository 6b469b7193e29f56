/** engine/src/script/scriptRegistry.cpp and the registerScript template of
    engine/include/engine/script/scriptRegistry.hpp: a map from script name
    to the factory of that script type. A factory is named by the script
    type it makes; calling it yields a new script of that type. */
module Scripting {
  import opened Wrappers

  /** The script type a factory instantiates (the T of registerScript<T>). */
  type ScriptType = string

  /** A script object as create() returns it: a fresh instance of its type. */
  datatype Script = Script(kind: ScriptType)

  /** The message of the runtime_error create() throws on a miss. */
  function NotRegistered(name: string): (m: string)
    ensures |m| == |name| + 29 && m[13..|m| - 16] == name
  {
    "Script type '" + name + "' not registered"
  }

  class ScriptRegistry {
    var factories: map<string, ScriptType>

    /** `ScriptRegistry() = default`: no factories. */
    constructor ()
      ensures factories == map[]
      ensures forall name :: !Exists(name)
    {
      factories := map[];
    }

    /** create(name): the named factory's result, or runtime_error. */
    function Create(name: string): (r: Result<Script>)
      reads this
      ensures r.Ok? <==> name in factories
      ensures r.Ok? ==> r.value == Script(factories[name])
      ensures r.Err? ==> r.error == RuntimeError(NotRegistered(name))
    {
      if name in factories then Ok(Script(factories[name])) else Err(RuntimeError(NotRegistered(name)))
    }

    /** exists(name): exactly the names create() accepts. */
    predicate Exists(name: string)
      reads this
      ensures Exists(name) <==> Create(name).Ok?
    {
      name in factories
    }

    /** registerScript<T>(name): `factories[name] = make_shared<T>`, which
        replaces an earlier factory of that name and leaves the others. */
    method RegisterScript(name: string, t: ScriptType)
      modifies this
      ensures factories == old(factories)[name := t]
      ensures Exists(name) && Create(name) == Ok(Script(t))
      ensures forall n | n != name :: Create(n) == old(Create(n))
    {
      factories := factories[name := t];
    }
  }

  /** The factories after registering `calls` in order on an empty registry. */
  function Registered(calls: seq<(string, ScriptType)>): map<string, ScriptType>
    decreases |calls|
  {
    if calls == [] then map[]
    else
      var (name, t) := calls[|calls| - 1];
      Registered(calls[..|calls| - 1])[name := t]
  }

  /** A name is registered exactly when some call registered it, and its
      factory is the one of the last such call. */
  lemma {:induction false} RegisteredNames(calls: seq<(string, ScriptType)>, name: string)
    ensures name in Registered(calls) <==> exists i | 0 <= i < |calls| :: calls[i].0 == name
    ensures name in Registered(calls) ==> exists i | 0 <= i < |calls| ::
      calls[i] == (name, Registered(calls)[name]) && forall j | i < j < |calls| :: calls[j].0 != name
    decreases |calls|
  {
    if calls != [] {
      var init := calls[..|calls| - 1];
      RegisteredNames(init, name);
      if calls[|calls| - 1].0 != name && name in Registered(init) {
        var i :| 0 <= i < |init| && init[i] == (name, Registered(init)[name])
          && forall j | i < j < |init| :: init[j].0 != name;
        assert calls[i] == init[i];
      }
    }
  }

  /** Registering each call in turn on a new registry builds Registered(calls). */
  method RegisterAll(calls: seq<(string, ScriptType)>) returns (registry: ScriptRegistry)
    ensures fresh(registry)
    ensures registry.factories == Registered(calls)
  {
    registry := new ScriptRegistry();
    for i := 0 to |calls|
      invariant registry.factories == Registered(calls[..i])
    {
      assert calls[..i + 1][..i] == calls[..i];
      registry.RegisterScript(calls[i].0, calls[i].1);
    }
    assert calls[..|calls|] == calls;
  }
}

/**
 The `Registry` objects of hook/registry.go: every clone holds a reference to the one shared
 registry, and what is registered through any of them is there for all. Each method is proved
 to be the step of RegistryModel of that name; a panic is a result of false or None.
 */
module RegistryObjects {
  import opened Wrappers
  import opened RegistryModel
  import Metadata

  class SharedRegistry {
    var hooks: map<string, seq<HookFunc>>
    var commands: map<string, nat>
    var contexts: seq<Context>
    var state: seq<Slot>
    var relations: map<string, Metadata.Relation>
    var config: map<string, string>

    /** All the registries that share this one, and the store that the fields represent. */
    ghost var members: seq<Registry>
    ghost var store: Store

    ghost predicate Holds()
      reads this, members
    {
      && store.hooks == hooks && store.commands == commands
      && store.contexts == contexts && store.state == state
      && |store.nodes| == |members|
      && forall i :: 0 <= i < |members| ==>
           && members[i].id == i && members[i].shared == this
           && members[i].hasCommand == store.nodes[i].command.Some?
           && store.nodes[i].name == members[i].name
           && store.nodes[i].clones == members[i].clones
           && store.nodes[i].hasContext == members[i].hasContext
    }

    constructor ()
      ensures fresh(this) && hooks == map[] && commands == map[] && contexts == [] && state == []
      ensures relations == map[] && config == map[] && members == [] && store == NEW_REGISTRY
    {
      hooks := map[];
      commands := map[];
      contexts := [];
      state := [];
      relations := map[];
      config := map[];
      members := [];
      store := NEW_REGISTRY;
    }
  }

  class Registry {
    const shared: SharedRegistry
    const name: string
    ghost const id: nat

    var hasContext: bool
    var hasCommand: bool
    var clones: set<string>

    constructor New(shared: SharedRegistry, name: string, ghost id: nat)
      ensures this.shared == shared && this.name == name && this.id == id
      ensures !hasContext && !hasCommand && clones == {}
    {
      this.shared := shared;
      this.name := name;
      this.id := id;
      hasContext := false;
      hasCommand := false;
      clones := {};
    }

    /** This registry is one of those that share the store. */
    ghost predicate Member()
      reads this, shared, shared.members
    {
      shared.Holds() && id < |shared.members| && shared.members[id] == this
    }

    static method NewRegistry() returns (r: Registry)
      ensures fresh(r) && fresh(r.shared) && r.Member() && r.shared.store == NEW_REGISTRY
    {
      var shared := new SharedRegistry();
      r := new Registry.New(shared, "root", 0);
      shared.members := [r];
    }

    method Clone(name: string) returns (r: Option<Registry>)
      requires Member()
      modifies this`clones, shared
      ensures r.Some? <==> Apply(old(shared.store), RegistryModel.Clone(id, name)).Some?
      ensures r.None? ==> shared.store == old(shared.store) && shared.members == old(shared.members)
      ensures r.Some? ==>
                && fresh(r.value) && r.value.shared == shared && r.value.Member()
                && shared.store == Apply(old(shared.store), RegistryModel.Clone(id, name)).value
                && shared.members == old(shared.members) + [r.value]
      ensures Member()
    {
      if name == "" || '.' in name || SEPARATOR in name || name in clones {
        return None;
      }
      clones := clones + {name};
      ghost var store := Apply(shared.store, RegistryModel.Clone(id, name)).value;
      var r1 := new Registry.New(shared, this.name + "." + name, |shared.members|);
      shared.members := shared.members + [r1];
      shared.store := store;
      return Some(r1);
    }

    /** `valid` is what validHookName says of the name. */
    method RegisterHook(hook: string, f: nat, valid: bool) returns (ok: bool)
      requires Member()
      modifies shared
      ensures Member() && shared.members == old(shared.members)
      ensures ok <==> Apply(old(shared.store), RegistryModel.RegisterHook(id, hook, f, valid)).Some?
      ensures shared.store == if ok then Apply(old(shared.store), RegistryModel.RegisterHook(id, hook, f, valid)).value
                              else old(shared.store)
    {
      if hook != "*" && !valid {
        return false;
      }
      var funcs := if hook in shared.hooks then shared.hooks[hook] else [];
      shared.hooks := shared.hooks[hook := funcs + [HookFunc(name, f)]];
      shared.store := Apply(shared.store, RegistryModel.RegisterHook(id, hook, f, valid)).value;
      return true;
    }

    /** The setter is registered by the time the state is found not to be a pointer. */
    method RegisterContext(setter: nat, val: Option<nat>, pointer: bool) returns (ok: bool)
      requires Member()
      modifies this`hasContext, shared
      ensures Member() && shared.members == old(shared.members)
      ensures ok <==> Apply(old(shared.store), RegistryModel.RegisterContext(id, setter, val, pointer)).Some?
      ensures ok ==>
                Some(shared.store) == Apply(old(shared.store), RegistryModel.RegisterContext(id, setter, val, pointer))
      ensures !ok ==>
                if old(hasContext) then shared.store == old(shared.store)
                else Some(shared.store)
                     == Apply(old(shared.store), RegistryModel.RegisterContext(id, setter, None, pointer))
    {
      if hasContext {
        return false;
      }
      hasContext := true;
      shared.contexts := shared.contexts + [Context(name, setter)];
      ok := val.None? || pointer;
      ghost var state := if ok then val else None;
      if val.Some? && pointer {
        shared.state := shared.state + [Slot(name, val.value)];
      }
      shared.store := Apply(shared.store, RegistryModel.RegisterContext(id, setter, state, pointer)).value;
    }

    method RegisterCommand(f: nat) returns (ok: bool)
      requires Member()
      modifies this`hasCommand, shared
      ensures Member() && shared.members == old(shared.members)
      ensures ok <==> Apply(old(shared.store), RegistryModel.RegisterCommand(id, f)).Some?
      ensures shared.store == if ok then Apply(old(shared.store), RegistryModel.RegisterCommand(id, f)).value
                              else old(shared.store)
    {
      if hasCommand {
        return false;
      }
      hasCommand := true;
      shared.commands := shared.commands[name := f];
      shared.store := Apply(shared.store, RegistryModel.RegisterCommand(id, f)).value;
      return true;
    }

    method RegisterRelation(rel: Metadata.Relation) returns (ok: bool)
      requires Member()
      modifies shared`relations
      ensures Member()
      ensures ok <==> Metadata.Register(old(shared.relations), rel).Some?
      ensures shared.relations == if ok then Metadata.Register(old(shared.relations), rel).value
                                  else old(shared.relations)
    {
      if rel.name == "" || rel.iface == "" || rel.role == Metadata.NoRole {
        return false;
      }
      var r := rel;
      if r.limit == 0 && (r.role == Metadata.Peer || r.role == Metadata.Requirer) {
        r := r.(limit := 1);
      }
      if r.scope == "" {
        r := r.(scope := Metadata.SCOPE_GLOBAL);
      }
      if r.name in shared.relations {
        return shared.relations[r.name] == r;
      }
      shared.relations := shared.relations[r.name := r];
      return true;
    }

    /** An option's details are a string here: they are only ever compared. */
    method RegisterConfig(name: string, opt: string) returns (ok: bool)
      requires Member()
      modifies shared`config
      ensures Member()
      ensures ok <==> Metadata.Add(old(shared.config), Metadata.Entry(name, opt)).Some?
      ensures shared.config == if ok then Metadata.Add(old(shared.config), Metadata.Entry(name, opt)).value
                               else old(shared.config)
    {
      if name !in shared.config {
        shared.config := shared.config[name := opt];
        return true;
      }
      return shared.config[name] == opt;
    }
  }
}

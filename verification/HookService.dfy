/**
 The `Service` objects of charmbits/httpservice/service.go and charmbits/service/service.go, as
 one object that is updated in place: each method is proved to be the function of HookModel that
 the theorems about hook runs are about.
 */
module HookService {
  import opened Wrappers
  import opened ServerModel
  import opened HookModel

  class Service<C, D> {
    const codec: Codec

    var started: bool
    var argData: Bytes
    var relationValues: map<string, Bytes>
    var installed: bool
    var args: Args
    var os: OS
    var server: Option<Process<C, D>>
    var file: Option<Bytes>

    constructor (codec: Codec, u: Unit<C, D>)
      ensures this.codec == codec && Snapshot() == u
    {
      this.codec := codec;
      started := u.started;
      argData := u.argData;
      relationValues := u.relationValues;
      installed := u.recorded;
      args := u.args;
      os := u.os;
      server := u.server;
      file := u.file;
    }

    function Snapshot(): Unit<C, D>
      reads this
    {
      Unit(started, argData, relationValues, installed, args, os, server, file)
    }

    method Start(arg: Bytes, i: Inputs, o: Oracle<C, D>) returns (ok: bool)
      requires server.Some? ==> WellFormed(server.value.env, server.value.srv)
      modifies this
      ensures (Snapshot(), ok) == Do(codec, old(Snapshot()), HookModel.Start(arg), i, o)
    {
      argData := arg;
      started := true;
      ok := Changed(i, o);
    }

    method Stop(i: Inputs, o: Oracle<C, D>) returns (ok: bool)
      requires server.Some? ==> WellFormed(server.value.env, server.value.srv)
      modifies this
      ensures (Snapshot(), ok) == Do(codec, old(Snapshot()), HookModel.Stop, i, o)
    {
      argData := [];
      started := false;
      ok := Changed(i, o);
    }

    method Changed(i: Inputs, o: Oracle<C, D>) returns (ok: bool)
      requires server.Some? ==> WellFormed(server.value.env, server.value.srv)
      modifies this
      ensures (Snapshot(), ok) == HookModel.Changed(codec, old(Snapshot()), i, o)
    {
      hide HookModel.CallSet, HookModel.StopOS, HookModel.EnsureStarted;
      if i.cert.None? {
        return false;
      }
      var cert := i.cert.value;
      if !started || (i.httpPort == 0 && (i.httpsPort == 0 || cert == "")) {
        ok := StopOS(o);
        return;
      }
      var up := EnsureStarted(o);
      if !up {
        return false;
      }
      ok := CallSet(ServerState(i.httpPort, i.httpsPort, cert, argData, relationValues), o);
    }

    /** The part of changed that starts the service if it is not started. */
    method EnsureStarted(o: Oracle<C, D>) returns (up: bool)
      requires server.Some? ==> WellFormed(server.value.env, server.value.srv)
      modifies this
      ensures (Snapshot(), up) == HookModel.EnsureStarted(codec, old(Snapshot()), o)
    {
      up := true;
      if !(os.installed.Some? && os.running) {
        up := StartOS(StateDir, o);
      }
    }

    method StopOS(o: Oracle<C, D>) returns (ok: bool)
      modifies this
      ensures (Snapshot(), ok) == HookModel.StopOS(old(Snapshot()), o)
    {
      if o.stop {
        os := os.(running := false);
        server := None;
      }
      return o.stop;
    }

    method StartOS(newArgs: Args, o: Oracle<C, D>) returns (ok: bool)
      modifies this
      ensures (Snapshot(), ok) == HookModel.StartOS(codec, old(Snapshot()), newArgs, o)
    {
      if !o.mkdir || !o.install {
        return false;
      }
      if os.installed.None? {
        os := os.(installed := Some(newArgs));
      }
      if !o.start {
        return false;
      }
      os := os.(running := true);
      server := StartProcess(codec, os.installed, file, o.launch);
      installed := true;
      args := newArgs;
      return true;
    }

    method RestartOS(o: Oracle<C, D>) returns (ok: bool)
      modifies this
      ensures (Snapshot(), ok) == HookModel.RestartOS(codec, old(Snapshot()), o)
    {
      ok := StopOS(o);
      if ok {
        ok := StartOS(args, o);
      }
    }

    method StopAndRemoveOS(o: Oracle<C, D>) returns (ok: bool)
      modifies this
      ensures (Snapshot(), ok) == HookModel.StopAndRemoveOS(old(Snapshot()), o)
    {
      if !installed {
        return true;
      }
      ok := StopOS(o);
      if !ok || !o.remove {
        return false;
      }
      os := OS(None, false);
      installed := false;
    }

    /** Call("Srv.Set", st), which keeps dialling for a while. */
    method CallSet(st: ServerState, o: Oracle<C, D>) returns (ok: bool)
      requires server.Some? ==> WellFormed(server.value.env, server.value.srv)
      modifies this
      ensures (Snapshot(), ok) == HookModel.CallSet(codec, old(Snapshot()), st, o)
    {
      if !installed {
        return false;
      }
      var attempt := 0;
      while attempt < |o.dials| && !o.dials[attempt]
        invariant attempt <= |o.dials| && true !in o.dials[..attempt]
      {
        attempt := attempt + 1;
      }
      if attempt == |o.dials| {
        assert o.dials[..attempt] == o.dials;
        return false;
      }
      if server.None? {
        return false;
      }
      var p := server.value;
      server := Some(Process(p.env, SetState(p.env, p.srv, st)));
      match o.save
      case Saved =>
        file := Some(codec.encode(st));
        return true;
      case NotSaved(left) =>
        file := left;
        return false;
    }

    /** The wildcard hook of newHandlerInfo. The getters are called in no particular order. */
    method Refresh(getters: map<string, Got>) returns (ok: bool)
      modifies this`relationValues
      ensures ok <==> forall name :: name in getters ==> !GetFails(getters[name])
      ensures ok ==> relationValues == Refreshed(old(relationValues), getters)
    {
      var rest := getters.Keys;
      ghost var done: set<string> := {};
      assert relationValues == Refreshed(relationValues, map[]);
      while rest != {}
        invariant rest <= getters.Keys && done == getters.Keys - rest
        invariant forall name :: name in done ==> !GetFails(getters[name])
        invariant relationValues == Refreshed(old(relationValues), map n | n in done :: getters[n])
      {
        var name :| name in rest;
        var got := getters[name];
        if got.Incomplete? {
          relationValues := relationValues - {name};
        } else if got.Broken? || got.data == [] {
          return false;
        } else {
          relationValues := relationValues[name := got.data];
        }
        RefreshOne(old(relationValues), getters, done, name);
        rest := rest - {name};
        done := done + {name};
      }
      assert (map n | n in done :: getters[n]) == getters;
      return true;
    }
  }

  /** Getting one more field extends what was refreshed so far. */
  lemma RefreshOne(values: map<string, Bytes>, getters: map<string, Got>, done: set<string>, name: string)
    requires done <= getters.Keys && name in getters && name !in done && !getters[name].Broken?
    ensures var before := Refreshed(values, map n | n in done :: getters[n]);
            Refreshed(values, map n | n in done + {name} :: getters[n])
            == if getters[name].Value? then before[name := getters[name].data] else before - {name}
  {
  }
}

/**
 The `server` type of charmbits/httpservice/server.go: an object whose fields are assigned and
 cleared step by step. Each method is proved against the function of ServerModel that bears its
 name, so every theorem about runs of those functions is a theorem about this object.
 */
module HTTPServer {
  import opened Wrappers
  import opened ServerModel

  class Server<C, D> {
    const env: Env<C, D>
    const codec: Codec

    var handler: Option<Handler>
    var state: ServerState
    var relationState: Option<Relation<C>>
    var httpListener: Option<Listener>
    var httpsListener: Option<Listener>

    /** The effects on the world so far, and the file in the state directory. */
    var log: seq<Event<C>>
    var file: Option<Bytes>

    constructor (env: Env<C, D>, codec: Codec, file: Option<Bytes>)
      ensures this.env == env && this.codec == codec && this.file == file
      ensures Snapshot() == NewServer()
    {
      this.env := env;
      this.codec := codec;
      this.file := file;
      handler := None;
      state := ZERO_STATE;
      relationState := None;
      httpListener := None;
      httpsListener := None;
      log := [];
    }

    function Snapshot(): Srv<C>
      reads this
    {
      Srv(handler, state, relationState, httpListener, httpsListener, log)
    }

    /**
     startServer: load the state, apply it, and serve RPC. `args` are the arguments of the process,
     of which the one there should be is the state directory; `rpc` is whether RPC can be served.
     */
    static method StartServer(env: Env<C, D>, codec: Codec, args: seq<string>, file: Option<Bytes>, rpc: bool)
      returns (srv: Option<Server<C, D>>)
      ensures srv.Some? <==> |args| == 1 && LoadState(codec, file).Some? && rpc
      ensures srv.Some? ==>
                && fresh(srv.value) && srv.value.env == env && srv.value.codec == codec && srv.value.file == file
                && srv.value.Snapshot() == After(env, LoadState(codec, file).value, [])
    {
      if |args| != 1 {
        return None;
      }
      var st := LoadState(codec, file);
      if st.None? {
        return None;
      }
      var s := new Server(env, codec, file);
      var _ := s.Apply(st.value);
      if !rpc {
        return None;
      }
      return Some(s);
    }

    /** Set, the RPC method. `save` is what becomes of the file. */
    method Set(p: ServerState, save: Save) returns (warnings: seq<Warning>, ok: bool)
      requires WellFormed(env, Snapshot())
      modifies this
      ensures Snapshot() == SetState(env, old(Snapshot()), p)
      ensures warnings == ServerModel.Apply(env, old(Snapshot()), p).1
      ensures ok == save.Saved?
      ensures file == if save.Saved? then Some(codec.encode(p)) else save.left
    {
      warnings := Apply(p);
      state := p;
      match save
      case Saved =>
        file := Some(codec.encode(p));
        ok := true;
      case NotSaved(left) =>
        file := left;
        ok := false;
    }

    /** Kill, once the RPC server has terminated. */
    method Kill()
      requires WellFormed(env, Snapshot())
      modifies this
      ensures Snapshot() == ServerModel.CloseResources(env, old(Snapshot())) && file == old(file)
    {
      CloseResources();
    }

    /** The unexported set method. */
    method Apply(st: ServerState) returns (warnings: seq<Warning>)
      requires WellFormed(env, Snapshot())
      modifies this
      ensures Snapshot() == ServerModel.Apply(env, old(Snapshot()), st).0
      ensures warnings == ServerModel.Apply(env, old(Snapshot()), st).1
      ensures file == old(file)
    {
      warnings := [];
      var httpOK := st.httpPort != 0;
      var httpsOK := st.httpsPort != 0 && st.certPEM != "";
      if !httpOK && !httpsOK {
        CloseResources();
        return;
      }
      var restart := false;
      var pass := SetRelations(st);
      match pass {
        case AllSet =>
        case PassRestart =>
          restart := true;
        case _ =>
          CloseResources();
          assert Snapshot() == ServerModel.Apply(env, old(Snapshot()), st).0;
          return [RelationsNotSet];
      }
      if !restart && !NeedsRestart(state, st) && handler.Some? {
        return;
      }
      warnings := Restart(st, httpOK, httpsOK);
    }

    /** Lines 222 to 273 of set: tear down a running handler, and build anew. */
    method Restart(st: ServerState, httpOK: bool, httpsOK: bool) returns (warnings: seq<Warning>)
      requires WellFormed(env, Snapshot()) && httpOK == HTTPOk(st) && httpsOK == HTTPSOk(st)
      modifies this
      ensures Snapshot() == ServerModel.Restart(env, old(Snapshot()), st).0
      ensures warnings == ServerModel.Restart(env, old(Snapshot()), st).1
      ensures file == old(file)
    {
      if handler.Some? {
        CloseResources();
      }
      if relationState.None? {
        var pass := SetRelations(st);
        match pass
        case AllSet =>
        case PassRestart =>
          warnings := [RestartUnexpected];
          return;
        case PassIncomplete =>
          warnings := [IncompleteUnexpected];
          return;
        case PassFailed =>
          warnings := [RebuildNotSet];
          return;
      }
      warnings := StartHandler(st, httpOK, httpsOK);
    }

    /** Lines 252 to 273 of set. */
    method StartHandler(st: ServerState, httpOK: bool, httpsOK: bool) returns (warnings: seq<Warning>)
      requires httpOK == HTTPOk(st) && httpsOK == HTTPSOk(st)
      modifies this
      ensures Snapshot() == ServerModel.StartHandler(env, old(Snapshot()), st).0
      ensures warnings == ServerModel.StartHandler(env, old(Snapshot()), st).1
      ensures file == old(file)
    {
      warnings := [];
      var relation := if relationState.Some? then Some(relationState.value.id) else None;
      var cells := if relationState.Some? then Some(relationState.value.cells) else None;
      var built := env.construct(st.argData, cells, |log|);
      log := log + [Build(st.argData, relation, built)];
      if !built {
        return [NoHandler];
      }
      var warnings0 := StartHTTP(st, httpOK);
      var warnings1 := StartHTTPS(st, httpsOK);
      warnings := warnings0 + warnings1;
      handler := Some(Handler(st.argData, relation));
      state := st;
    }

    method StartHTTP(st: ServerState, httpOK: bool) returns (warnings: seq<Warning>)
      requires httpOK == HTTPOk(st)
      modifies this
      ensures Snapshot() == ServerModel.StartHTTP(env, old(Snapshot()), st).0
      ensures warnings == ServerModel.StartHTTP(env, old(Snapshot()), st).1
      ensures file == old(file)
    {
      warnings := [];
      if httpListener.None? && httpOK {
        var up := env.listen(st.httpPort, |log|);
        log := log + [Listen(HTTP(st.httpPort), up)];
        if up {
          httpListener := Some(HTTP(st.httpPort));
        } else {
          warnings := [NoHTTP];
        }
      }
    }

    method StartHTTPS(st: ServerState, httpsOK: bool) returns (warnings: seq<Warning>)
      requires httpsOK == HTTPSOk(st)
      modifies this
      ensures Snapshot() == ServerModel.StartHTTPS(env, old(Snapshot()), st).0
      ensures warnings == ServerModel.StartHTTPS(env, old(Snapshot()), st).1
      ensures file == old(file)
    {
      warnings := [];
      if httpsListener.None? && httpsOK {
        var up := env.validCert(st.certPEM) && env.listen(st.httpsPort, |log|);
        log := log + [Listen(HTTPS(st.httpsPort, st.certPEM), up)];
        if up {
          httpsListener := Some(HTTPS(st.httpsPort, st.certPEM));
        } else {
          warnings := [NoHTTPS];
        }
      }
    }

    method SetRelations(st: ServerState) returns (pass: Pass)
      requires WellFormed(env, Snapshot())
      modifies this
      ensures Snapshot() == ServerModel.SetRelations(env, old(Snapshot()), st).0
      ensures pass == ServerModel.SetRelations(env, old(Snapshot()), st).1
      ensures file == old(file)
    {
      if env.fields.None? {
        return AllSet;
      }
      var names := env.fields.value;
      if relationState.None? {
        var id := |log|;
        log := log + [NewRelation(id)];
        relationState := Some(Relation(id, seq(|names|, _ => env.zeroCell)));
      }
      var incomplete := false;
      for i := 0 to |names|
        invariant !incomplete <==> forall j :: 0 <= j < i ==> Data(st, names[j]) != []
      {
        if |Data(st, names[i])| == 0 {
          incomplete := true;
        }
      }
      if incomplete {
        return PassIncomplete;
      }
      pass := SetFields(st);
    }

    /** The loop of setRelations that sets the fields. */
    method SetFields(st: ServerState) returns (pass: Pass)
      requires env.fields.Some? && relationState.Some? && WellFormed(env, Snapshot())
      modifies this
      ensures Snapshot() == ServerModel.SetFields(env, old(Snapshot()), st, 0, false).0
      ensures pass == ServerModel.SetFields(env, old(Snapshot()), st, 0, false).1
      ensures file == old(file)
    {
      var names := env.fields.value;
      var restartNeeded := false;
      for i := 0 to |names|
        invariant relationState.Some? && WellFormed(env, Snapshot()) && file == old(file)
        invariant ServerModel.SetFields(env, Snapshot(), st, i, restartNeeded)
                  == ServerModel.SetFields(env, old(Snapshot()), st, 0, false)
      {
        var outcome := SetFieldValue(i, Data(st, names[i]));
        match outcome
        case Done =>
        case RestartNeeded =>
          restartNeeded := true;
        case Failed =>
          return PassFailed;
      }
      return if restartNeeded then PassRestart else AllSet;
    }

    method FinalizeFields()
      requires WellFormed(env, Snapshot())
      modifies this
      ensures Snapshot() == ServerModel.FinalizeFields(env, old(Snapshot()))
      ensures file == old(file)
    {
      if env.fields.None? || relationState.None? {
        return;
      }
      var id := relationState.value.id;
      for i := 0 to |env.fields.value|
        invariant relationState.Some? && WellFormed(env, Snapshot()) && file == old(file)
        invariant relationState.value.id == id
        invariant FinalizeFrom(env, Snapshot(), i) == FinalizeFrom(env, old(Snapshot()), 0)
      {
        var _ := SetFieldValue(i, []);
      }
      relationState := None;
      log := log + [DropRelation(id)];
    }

    /** Empty data hands the setter the zero value, to finalize the field. */
    method SetFieldValue(field: nat, data: Bytes) returns (outcome: Outcome)
      requires relationState.Some? && field < |relationState.value.cells|
      modifies this
      ensures Snapshot() == ServerModel.SetFieldValue(env, old(Snapshot()), field, data).0
      ensures outcome == ServerModel.SetFieldValue(env, old(Snapshot()), field, data).1
      ensures file == old(file)
    {
      var d := env.zeroData;
      if |data| > 0 {
        var decoded := env.unmarshal(data);
        if decoded.None? {
          return Failed;
        }
        d := decoded.value;
      }
      var rel := relationState.value;
      var (after, o) := env.setter(rel.cells[0], d, |log|);
      log := log + [SetterEvent(rel.id, field, data, rel.cells[0], after, o)];
      relationState := Some(Relation(rel.id, rel.cells[0 := after]));
      return o;
    }

    method CloseResources()
      requires WellFormed(env, Snapshot())
      modifies this
      ensures Snapshot() == ServerModel.CloseResources(env, old(Snapshot()))
      ensures file == old(file)
    {
      if httpListener.Some? {
        log := log + [CloseListener(httpListener.value)];
        httpListener := None;
      }
      if httpsListener.Some? {
        log := log + [CloseListener(httpsListener.value)];
        httpsListener := None;
      }
      if handler.Some? {
        log := log + [CloseHandler];
        handler := None;
      }
      FinalizeFields();
    }
  }
}

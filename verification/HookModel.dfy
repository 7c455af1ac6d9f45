/**
 The hook side of an HTTP service, charmbits/httpservice/service.go over
 charmbits/service/service.go, and the operating system and server process it drives.

 The tools and calls a hook makes may fail at any point; an `Oracle` says which do. The server
 process is a server of ServerModel.
 */
module HookModel {
  import opened Wrappers
  import opened ServerModel
  import opened ServerAgreement

  /**
   The arguments of the service's process: the state directory, which `changed` gives it, or none
   at all, which is what Restart finds recorded if the service was never started.
   */
  datatype Args = StateDir | NoArgs

  /** What the service manager knows: the arguments the service was installed with, if it was. */
  datatype OS = OS(installed: Option<Args>, running: bool)

  /** A server process, and the world that it was started in. */
  datatype Process<!C, !D> = Process(env: Env<C, D>, srv: Srv<C>)

  /** What a process meets that is started now: its world, and whether it can serve its local socket. */
  datatype Launch<!C, !D> = Launch(env: Env<C, D>, rpc: bool)

  /**
   A unit of the charm. `started` and `argData`, and `recorded` and `args` of
   service.localState, are persistent; `relationValues` is the hook process's own; the rest is
   outside of it.
   */
  datatype Unit<!C, !D> = Unit(
    started: bool,
    argData: Bytes,
    relationValues: map<string, Bytes>,
    recorded: bool,
    args: Args,
    os: OS,
    server: Option<Process<C, D>>,
    file: Option<Bytes>)

  /** The ports and certificate of the http relation; the certificate is None if it cannot be read. */
  datatype Inputs = Inputs(httpPort: int, httpsPort: int, cert: Option<string>)

  /** What fails and what works. `dials` are the attempts at dialling the server that there is time for. */
  datatype Oracle<!C, !D> = Oracle(
    mkdir: bool, install: bool, start: bool, stop: bool, remove: bool, dials: seq<bool>, save: Save,
    launch: Launch<C, D>)

  predicate Works<C, D>(o: Oracle<C, D>) {
    o.mkdir && o.install && o.start && o.stop && o.remove && true in o.dials && o.save.Saved? && o.launch.rpc
  }

  /** Service.Started */
  predicate IsStarted<C, D>(u: Unit<C, D>) {
    u.os.installed.Some? && u.os.running
  }

  /** service.Service.Stop */
  function StopOS<C, D>(u: Unit<C, D>, o: Oracle<C, D>): (Unit<C, D>, bool) {
    if !o.stop then (u, false)
    else (u.(os := u.os.(running := false), server := None), true)
  }

  /** The process of an installed service; startServer takes exactly one argument, the state directory. */
  function StartProcess<C, D>(codec: Codec, installed: Option<Args>, file: Option<Bytes>, launch: Launch<C, D>)
    : Option<Process<C, D>>
  {
    if installed != Some(StateDir) || !launch.rpc then None
    else
      var srv := Boot(launch.env, codec, file);
      if srv.None? then None else Some(Process(launch.env, srv.value))
  }

  /**
   service.Service.Start. A service that is installed already keeps the arguments it has. The
   started process boots from the file the last one left.
   */
  function StartOS<C, D>(codec: Codec, u: Unit<C, D>, args: Args, o: Oracle<C, D>): (Unit<C, D>, bool) {
    if !o.mkdir || !o.install then (u, false)
    else
      var installed := if u.os.installed.None? then Some(args) else u.os.installed;
      var u1 := u.(os := u.os.(installed := installed));
      if !o.start then (u1, false)
      else
        (u1.(os := OS(installed, true), server := StartProcess(codec, installed, u.file, o.launch),
             recorded := true, args := args),
         true)
  }

  /** service.Service.Restart */
  function RestartOS<C, D>(codec: Codec, u: Unit<C, D>, o: Oracle<C, D>): (Unit<C, D>, bool) {
    var (u1, stopped) := StopOS(u, o);
    if !stopped then (u1, false) else StartOS(codec, u1, u1.args, o)
  }

  /** service.Service.StopAndRemove */
  function StopAndRemoveOS<C, D>(u: Unit<C, D>, o: Oracle<C, D>): (Unit<C, D>, bool) {
    if !u.recorded then (u, true)
    else
      var (u1, stopped) := StopOS(u, o);
      if !stopped || !o.remove then (u1, false)
      else (u1.(os := OS(None, false), recorded := false), true)
  }

  /** service.Service.Call("Srv.Set", st) */
  function CallSet<C, D>(codec: Codec, u: Unit<C, D>, st: ServerState, o: Oracle<C, D>): (Unit<C, D>, bool)
    requires u.server.Some? ==> WellFormed(u.server.value.env, u.server.value.srv)
  {
    if !u.recorded || true !in o.dials || u.server.None? then (u, false)
    else
      var p := u.server.value;
      (u.(server := Some(p.(srv := SetState(p.env, p.srv, st))),
          file := if o.save.Saved? then Some(codec.encode(st)) else o.save.left),
       o.save.Saved?)
  }

  function StateToSet<C, D>(u: Unit<C, D>, i: Inputs): ServerState
    requires i.cert.Some?
  {
    ServerState(i.httpPort, i.httpsPort, i.cert.value, u.argData, u.relationValues)
  }

  /** Whether changed stops the service. */
  predicate ShouldStop<C, D>(u: Unit<C, D>, i: Inputs)
    requires i.cert.Some?
  {
    !u.started || (i.httpPort == 0 && (i.httpsPort == 0 || i.cert.value == ""))
  }

  /** The part of changed that starts the service if it is not started. */
  function EnsureStarted<C, D>(codec: Codec, u: Unit<C, D>, o: Oracle<C, D>): (r: (Unit<C, D>, bool))
    requires u.server.Some? ==> WellFormed(u.server.value.env, u.server.value.srv)
    ensures r.0.server.Some? ==> WellFormed(r.0.server.value.env, r.0.server.value.srv)
    ensures r.0 == u.(os := r.0.os, server := r.0.server, recorded := r.0.recorded, args := r.0.args)
  {
    if IsStarted(u) then (u, true) else StartOS(codec, u, StateDir, o)
  }

  /** Service.changed */
  function Changed<C, D>(codec: Codec, u: Unit<C, D>, i: Inputs, o: Oracle<C, D>): (Unit<C, D>, bool)
    requires u.server.Some? ==> WellFormed(u.server.value.env, u.server.value.srv)
  {
    if i.cert.None? then (u, false)
    else if ShouldStop(u, i) then StopOS(u, o)
    else
      var (u1, up) := EnsureStarted(codec, u, o);
      if !up then (u1, false) else CallSet(codec, u1, StateToSet(u, i), o)
  }

  /** The calls a charm makes: Service.Start (with marshaled argument), Service.Stop, Service.Restart. */
  datatype Call = Start(arg: Bytes) | Stop | Restart

  function Do<C, D>(codec: Codec, u: Unit<C, D>, call: Call, i: Inputs, o: Oracle<C, D>): (Unit<C, D>, bool)
    requires u.server.Some? ==> WellFormed(u.server.value.env, u.server.value.srv)
  {
    match call
    case Start(arg) => Changed(codec, u.(argData := arg, started := true), i, o)
    case Stop => Changed(codec, u.(argData := [], started := false), i, o)
    case Restart => RestartOS(codec, u, o)
  }

  /** What a relation field's getter returns: its marshaled value, an incomplete relation, or another error. */
  datatype Got = Value(data: Bytes) | Incomplete | Broken

  predicate GetFails(g: Got) {
    g.Broken? || (g.Value? && g.data == [])
  }

  /** The relation values after the wildcard hook of newHandlerInfo, when no getter fails. */
  function Refreshed(values: map<string, Bytes>, getters: map<string, Got>): map<string, Bytes> {
    map name | name in values.Keys + getters.Keys
               && (if name in getters then getters[name].Value? else name in values)
      :: if name in getters then getters[name].data else values[name]
  }

  // ---- Agreement ----

  /** Whether the service should run, apart from how the code decides to stop it. */
  predicate ShouldRun<C, D>(u: Unit<C, D>, i: Inputs)
    requires i.cert.Some?
  {
    u.started && (i.httpPort != 0 || (i.httpsPort != 0 && i.cert.value != ""))
  }

  /**
   Either the service is stopped, because it should be, or it runs and its server was given
   exactly the current ports, certificate, argument and relation values, and saved them.
   */
  ghost predicate InAgreement<C, D>(codec: Codec, u: Unit<C, D>, i: Inputs) {
    && i.cert.Some?
    && if !ShouldRun(u, i) then !u.os.running && u.server.None?
       else
         && IsStarted(u) && u.server.Some?
         && u.server.value.srv.state == StateToSet(u, i) && u.file == Some(codec.encode(StateToSet(u, i)))
         && Asked(u.server.value.srv.state)
  }

  /** Getting relation values replaces those of complete relations, removes those of others, and leaves the rest. */
  lemma RefreshedExactly(values: map<string, Bytes>, getters: map<string, Got>, name: string)
    ensures var r := Refreshed(values, getters);
            if name !in getters then (name in r <==> name in values) && (name in r ==> r[name] == values[name])
            else (name in r <==> getters[name].Value?) && (name in r ==> r[name] == getters[name].data)
  {
  }

  /** What fails leaves the unit as it was, but that a service may be installed without being started. */
  lemma FailureLeavesUnit<C, D>(codec: Codec, u: Unit<C, D>, args: Args, i: Inputs, o: Oracle<C, D>)
    requires u.server.Some? ==> WellFormed(u.server.value.env, u.server.value.srv)
    ensures i.cert.None? ==> Changed(codec, u, i, o) == (u, false)
    ensures !o.stop ==> StopOS(u, o) == (u, false) && RestartOS(codec, u, o) == (u, false)
    ensures !StartOS(codec, u, args, o).1 ==>
              StartOS(codec, u, args, o).0
              == u.(os := if o.mkdir && o.install && u.os.installed.None? then OS(Some(args), u.os.running) else u.os)
  {
  }

  /** The server process, if there is one, keeps the invariant of every server run. */
  ghost predicate Sound<C, D>(u: Unit<C, D>) {
    u.server.Some? ==>
      && WellFormed(u.server.value.env, u.server.value.srv) && Agrees(u.server.value.srv)
      && u.os.running && u.os.installed == Some(StateDir)
  }

  lemma StartIsSound<C, D>(codec: Codec, installed: Option<Args>, file: Option<Bytes>, launch: Launch<C, D>)
    ensures var p := StartProcess(codec, installed, file, launch);
            p.Some? ==> installed == Some(StateDir) && WellFormed(p.value.env, p.value.srv) && Agrees(p.value.srv)
  {
    if LoadState(codec, file).Some? {
      EveryRunAgrees(launch.env, LoadState(codec, file).value, []);
    }
  }

  lemma EnsureStartedIsSound<C, D>(codec: Codec, u: Unit<C, D>, o: Oracle<C, D>)
    requires Sound(u)
    ensures var (r, up) := EnsureStarted(codec, u, o);
            && Sound(r) && (up ==> IsStarted(r))
            && (u.os.installed.Some? ==> r.os.installed == u.os.installed)
            && (u.os.installed.None? ==> r.os.installed != Some(NoArgs))
  {
    StartIsSound(codec, u.os.installed, u.file, o.launch);
    StartIsSound(codec, Some(StateDir), u.file, o.launch);
  }

  lemma ChangedIsSound<C, D>(codec: Codec, u: Unit<C, D>, i: Inputs, o: Oracle<C, D>)
    requires Sound(u)
    ensures Sound(Changed(codec, u, i, o).0)
    ensures var r := Changed(codec, u, i, o).0;
            && r.started == u.started && r.argData == u.argData && r.relationValues == u.relationValues
            && (u.os.installed.Some? ==> r.os.installed == u.os.installed)
            && (u.os.installed.None? ==> r.os.installed != Some(NoArgs))
  {
    hide SetState, After, EnsureStarted;
    EnsureStartedIsSound(codec, u, o);
    if i.cert.Some? && ShouldRun(u, i) {
      var (u1, up) := EnsureStarted(codec, u, o);
      if up && u1.server.Some? {
        SetStateAgrees(u1.server.value.env, u1.server.value.srv, StateToSet(u, i));
      }
    }
  }

  /** Every changed that returns nil brings hook and server into agreement, whatever state they were in. */
  lemma ChangedAgrees<C, D>(codec: Codec, u: Unit<C, D>, i: Inputs, o: Oracle<C, D>)
    requires Sound(u) && Changed(codec, u, i, o).1
    ensures InAgreement(codec, Changed(codec, u, i, o).0, i)
  {
    hide After, EnsureStarted;
    EnsureStartedIsSound(codec, u, o);
  }

  /**
   After every changed that returns nil, from whatever state: the service runs exactly if it was
   started and some port is usable, an HTTPS port only with a certificate. If it runs, its
   server was given, and has saved, just what the unit has; if not, there is no server.
   */
  lemma ChangedRunsExactly<C, D>(codec: Codec, u: Unit<C, D>, i: Inputs, o: Oracle<C, D>)
    requires Sound(u) && Changed(codec, u, i, o).1
    ensures var r := Changed(codec, u, i, o).0;
            && i.cert.Some?
            && (r.os.running <==> u.started && (i.httpPort != 0 || (i.httpsPort != 0 && i.cert.value != "")))
            && (r.os.running <==> r.server.Some?)
            && (r.os.running ==>
                  var st := ServerState(i.httpPort, i.httpsPort, i.cert.value, u.argData, u.relationValues);
                  r.os.installed.Some? && r.server.value.srv.state == st && r.file == Some(codec.encode(st)))
  {
    ChangedAgrees(codec, u, i, o);
  }

  /** A Set that cannot be saved makes changed fail, and yet the server has the new state. */
  lemma UnsavedSetIsApplied<C, D>(codec: Codec, u: Unit<C, D>, i: Inputs, o: Oracle<C, D>)
    requires Sound(u) && i.cert.Some? && ShouldRun(u, i) && IsStarted(u)
    requires u.recorded && true in o.dials && u.server.Some? && o.save.NotSaved?
    ensures var (r, ok) := Changed(codec, u, i, o);
            && !ok && r.file == o.save.left && r.server.Some?
            && r.server.value.srv.state
               == ServerState(i.httpPort, i.httpsPort, i.cert.value, u.argData, u.relationValues)
  {
  }

  /** When all tools and calls work, changed succeeds exactly in these states. */
  lemma WorkingToolsSucceed<C, D>(codec: Codec, u: Unit<C, D>, i: Inputs, o: Oracle<C, D>)
    requires Sound(u)
    requires Works(o)
    ensures Changed(codec, u, i, o).1
            <==> i.cert.Some?
                 && (!ShouldRun(u, i)
                     || (IsStarted(u) && u.recorded && u.server.Some?)
                     || (!IsStarted(u) && u.os.installed != Some(NoArgs) && LoadState(codec, u.file).Some?))
  {
    if i.cert.Some? && ShouldRun(u, i) && !IsStarted(u) {
      assert u.os.installed in {None, Some(NoArgs), Some(StateDir)} by {
        match u.os.installed
        case None =>
        case Some(StateDir) =>
        case Some(NoArgs) =>
      }
    }
  }

  /**
   A service that runs but was never recorded as installed (its state was lost after it was
   started) is not reached by changed any more, until the charm restarts it.
   */
  lemma UnrecordedServiceIsOutOfReach<C, D>(codec: Codec, u: Unit<C, D>, i: Inputs, o: Oracle<C, D>)
    requires Sound(u) && i.cert.Some? && IsStarted(u) && ShouldRun(u, i)
    ensures !u.recorded ==> Changed(codec, u, i, o) == (u, false)
    ensures u.recorded && true in o.dials && u.server.Some? && o.save.Saved? <==> Changed(codec, u, i, o).1
    ensures RestartOS(codec, u, o).1 ==> RestartOS(codec, u, o).0.recorded
  {
  }

  /** What agreement means at the listening end: a live handler has the current argument, ports and certificate. */
  lemma AgreementServes<C, D>(codec: Codec, u: Unit<C, D>, i: Inputs)
    requires Sound(u) && InAgreement(codec, u, i) && u.server.Some? && u.server.value.srv.handler.Some?
    ensures var s := u.server.value.srv;
            && s.handler.value.arg == u.argData
            && (s.http.Some? ==> s.http == Some(HTTP(i.httpPort)) && i.httpPort != 0)
            && (s.https.Some? ==> s.https == Some(HTTPS(i.httpsPort, i.cert.value)) && i.httpsPort != 0)
            && (ListensUp(s.log) ==> s.http.Some? || s.https.Some?)
  {
  }

  /** If moreover Set warned of nothing, and was not cut short, then all of it is there. */
  lemma QuietChangedServes<C, D>(codec: Codec, u: Unit<C, D>, i: Inputs, o: Oracle<C, D>)
    requires Sound(u) && Changed(codec, u, i, o).1 && ShouldRun(u, i)
    requires var p, st := EnsureStarted(codec, u, o).0.server.value, StateToSet(u, i);
             Apply(p.env, p.srv, st).1 == []
    ensures var r := Changed(codec, u, i, o).0;
            var p, st := EnsureStarted(codec, u, o).0.server.value, StateToSet(u, i);
            && r.server.Some? && r.server.value.srv.handler.Some?
            && r.server.value.srv.handler.value.arg == u.argData
            && (!TakesShortcut(p.env, p.srv, st) || ListensUp(r.server.value.srv.log) ==>
                  r.server.value.srv.http == WantedHTTP(st) && r.server.value.srv.https == WantedHTTPS(st))
  {
    StartIsSound(codec, u.os.installed, u.file, o.launch);
    StartIsSound(codec, Some(StateDir), u.file, o.launch);
    var p, st := EnsureStarted(codec, u, o).0.server.value, StateToSet(u, i);
    QuietSetServes(p.env, p.srv, st);
    SetStateAgrees(p.env, p.srv, st);
  }

  /** A process that boots without getting a handler does not record the state it loaded. */
  lemma NoHandlerNoState<C, D>(env: Env<C, D>, st: ServerState)
    requires Usable(st)
    ensures var s := After(env, st, []); s.state == st ==> s.handler.Some?
  {
    var s := NewServer<C>();
    var (s1, pass) := SetRelations(env, s, st);
    assert s1.state == ZERO_STATE && s1.handler.None?;
  }

  /**
   A restart starts the service whether it should run or not, and the new process has what it
   finds on file. So it keeps an agreement exactly when the service should run, and its new
   process can serve its socket and gets a handler in the world it meets.
   */
  lemma RestartKeepsAgreementExactly<C, D>(codec: Codec, u: Unit<C, D>, i: Inputs, o: Oracle<C, D>)
    requires Sound(u) && RoundTrips(codec) && InAgreement(codec, u, i) && RestartOS(codec, u, o).1
    ensures InAgreement(codec, RestartOS(codec, u, o).0, i)
            <==> ShouldRun(u, i) && o.launch.rpc && GetsHandler(o.launch.env, StateToSet(u, i))
  {
    var r := RestartOS(codec, u, o).0;
    assert r.os.running && ShouldRun(r, i) == ShouldRun(u, i);
    if ShouldRun(u, i) {
      var st := StateToSet(u, i);
      assert codec.decode(codec.encode(st)) == Some(st);
      GetsHandlerExactly(o.launch.env, st);
      NoHandlerNoState(o.launch.env, st);
    }
  }

  // ---- Arguments ----

  /**
   A call to Start that succeeds leaves the service with the arguments it was given exactly when
   it had none before, or these. Only removing the service makes way for others.
   */
  lemma ArgsTakeEffectExactly<C, D>(codec: Codec, u: Unit<C, D>, args: Args, o: Oracle<C, D>, o': Oracle)
    requires StartOS(codec, u, args, o).1
    ensures StartOS(codec, u, args, o).0.os.installed == Some(args)
            <==> u.os.installed.None? || u.os.installed == Some(args)
    ensures var (v, removed) := StopAndRemoveOS(u, o');
            removed && u.recorded ==> StartOS(codec, v, args, o).0.os.installed == Some(args)
  {
  }

  /** A call installs the service without arguments exactly if it restarts one that was never started. */
  lemma InstalledWithoutArgsExactly<C, D>(
      codec: Codec, u: Unit<C, D>, call: Call, i: Inputs, o: Oracle<C, D>)
    requires Sound(u) && u.os.installed.None?
    ensures Do(codec, u, call, i, o).0.os.installed == Some(NoArgs)
            <==> call.Restart? && u.args.NoArgs? && o.stop && o.mkdir && o.install
  {
  }

  /** Stopping and removing takes back what a start has done, but for the arguments on record. */
  lemma RemoveUndoesStart<C, D>(codec: Codec, u: Unit<C, D>, args: Args, o: Oracle<C, D>, o': Oracle<C, D>)
    requires StartOS(codec, u, args, o).1 && Works(o')
    ensures var (v, removed) := StopAndRemoveOS(StartOS(codec, u, args, o).0, o');
            && removed && v == u.(os := OS(None, false), server := None, recorded := false, args := args)
            && StopAndRemoveOS(v, o) == (v, true)
  {
  }

  // ---- Whole hook runs ----

  /** A call made by charm code, with what the ports are then and what fails. */
  datatype Made<!C, !D> = Made(call: Call, inputs: Inputs, oracle: Oracle<C, D>)

  function Last<C, D>(calls: seq<Made<C, D>>): Made<C, D>
    requires calls != []
  {
    calls[|calls| - 1]
  }

  lemma DoIsSound<C, D>(codec: Codec, u: Unit<C, D>, call: Call, i: Inputs, o: Oracle<C, D>)
    requires Sound(u)
    ensures var (r, ok) := Do(codec, u, call, i, o);
            && Sound(r) && r.relationValues == u.relationValues
            && (u.os.installed.Some? ==> r.os.installed == u.os.installed)
            && (ok && !call.Restart? ==> InAgreement(codec, r, i))
  {
    StartIsSound(codec, u.os.installed, u.file, o.launch);
    StartIsSound(codec, Some(u.args), u.file, o.launch);
    if !call.Restart? {
      var u' := if call.Start? then u.(argData := call.arg, started := true)
                else u.(argData := [], started := false);
      ChangedIsSound(codec, u', i, o);
      if Changed(codec, u', i, o).1 {
        ChangedAgrees(codec, u', i, o);
      }
    }
  }

  /** What a charm asks for is on record even if it cannot be brought about at once. */
  lemma CallIsRecorded<C, D>(codec: Codec, u: Unit<C, D>, call: Call, i: Inputs, o: Oracle<C, D>)
    requires Sound(u)
    ensures var r := Do(codec, u, call, i, o).0;
            match call
            case Start(arg) => r.started && r.argData == arg
            case Stop => !r.started && r.argData == []
            case Restart => r.started == u.started && r.argData == u.argData
  {
    hide Changed;
    match call
    case Start(arg) => ChangedIsSound(codec, u.(argData := arg, started := true), i, o);
    case Stop => ChangedIsSound(codec, u.(argData := [], started := false), i, o);
    case Restart =>
  }

  /** The calls of a hook function, up to the first that fails. */
  function DoAll<C, D>(codec: Codec, u: Unit<C, D>, calls: seq<Made<C, D>>): (r: (Unit<C, D>, bool))
    requires Sound(u)
    ensures Sound(r.0) && r.0.relationValues == u.relationValues
    ensures u.os.installed.Some? ==> r.0.os.installed == u.os.installed
    ensures r.1 && calls != [] && !Last(calls).call.Restart? ==> InAgreement(codec, r.0, Last(calls).inputs)
    decreases |calls|
  {
    if calls == [] then (u, true)
    else
      var (u1, ok) := DoAll(codec, u, calls[..|calls| - 1]);
      if !ok then (u1, false)
      else
        var c := Last(calls);
        DoIsSound(codec, u1, c.call, c.inputs, c.oracle);
        Do(codec, u1, c.call, c.inputs, c.oracle)
  }

  /** What the latest Start or Stop of the calls asks for. */
  function Latest<C, D>(calls: seq<Made<C, D>>, started: bool, arg: Bytes): (bool, Bytes) {
    if calls == [] then (started, arg)
    else match Last(calls).call
      case Start(a) => (true, a)
      case Stop => (false, [])
      case Restart => Latest(calls[..|calls| - 1], started, arg)
  }

  lemma {:induction false} DoAllLatest<C, D>(codec: Codec, u: Unit<C, D>, calls: seq<Made<C, D>>)
    requires Sound(u) && DoAll(codec, u, calls).1
    ensures var r := DoAll(codec, u, calls).0; (r.started, r.argData) == Latest(calls, u.started, u.argData)
    decreases |calls|
  {
    if calls != [] {
      hide Changed;
      var front, c := calls[..|calls| - 1], Last(calls);
      var u1 := DoAll(codec, u, front).0;
      DoAllLatest(codec, u, front);
      DoIsSound(codec, u1, c.call, c.inputs, c.oracle);
      match c.call
      case Start(arg) => ChangedIsSound(codec, u1.(argData := arg, started := true), c.inputs, c.oracle);
      case Stop => ChangedIsSound(codec, u1.(argData := [], started := false), c.inputs, c.oracle);
      case Restart =>
    }
  }

  lemma {:induction false} LatestConcat<C, D>(a: seq<Made<C, D>>, b: seq<Made<C, D>>, started: bool, arg: Bytes)
    ensures var (mid, midArg) := Latest(a, started, arg); Latest(a + b, started, arg) == Latest(b, mid, midArg)
    decreases |b|
  {
    if b == [] {
      assert a + b == a;
    } else {
      assert Last(a + b) == Last(b) && (a + b)[..|a + b| - 1] == a + b[..|b| - 1];
      LatestConcat(a, b[..|b| - 1], started, arg);
    }
  }

  /**
   One run of a hook, in a new process: the specific hooks, the wildcard hook that gets the
   relation values, the one that is `changed`, and then the charm's own wildcard hooks.
   */
  datatype HookRun<!C, !D> = HookRun(
    specific: seq<Made<C, D>>, getters: map<string, Got>,
    inputs: Inputs, oracle: Oracle<C, D>, wildcard: seq<Made<C, D>>)

  function RunHook<C, D>(codec: Codec, u: Unit<C, D>, h: HookRun<C, D>): (Unit<C, D>, bool)
    requires Sound(u)
  {
    var (u1, ok1) := DoAll(codec, u.(relationValues := map[]), h.specific);
    if !ok1 || exists name :: name in h.getters && GetFails(h.getters[name]) then (u1, false)
    else
      var u2 := u1.(relationValues := Refreshed(map[], h.getters));
      ChangedIsSound(codec, u2, h.inputs, h.oracle);
      var (u3, ok3) := Changed(codec, u2, h.inputs, h.oracle);
      if !ok3 then (u3, false) else DoAll(codec, u3, h.wildcard)
  }

  /** Whether the last thing that a run does is a call to Restart. */
  predicate EndsInRestart<C, D>(h: HookRun<C, D>) {
    h.wildcard != [] && Last(h.wildcard).call.Restart?
  }

  /** The ports and certificate as of the last call that a run made. */
  function LastInputs<C, D>(h: HookRun<C, D>): Inputs {
    if h.wildcard == [] then h.inputs else Last(h.wildcard).inputs
  }

  /** Whether these are exactly the values of the complete relations. */
  ghost predicate HasExactly(values: map<string, Bytes>, getters: map<string, Got>) {
    forall name, data :: (name in values && values[name] == data)
                         <==> (name in getters && getters[name] == Value(data))
  }

  lemma RunHookIsSound<C, D>(codec: Codec, u: Unit<C, D>, h: HookRun<C, D>)
    requires Sound(u)
    ensures var r := RunHook(codec, u, h).0;
            Sound(r) && (u.os.installed.Some? ==> r.os.installed == u.os.installed)
  {
    var (u1, ok1) := DoAll(codec, u.(relationValues := map[]), h.specific);
    ChangedIsSound(codec, u1.(relationValues := Refreshed(map[], h.getters)), h.inputs, h.oracle);
  }

  /**
   After every run of a hook that succeeds and does not end in a restart, hook and server agree,
   and the relation values the server has are exactly the values of the relations complete now.
   Every other relation was found incomplete: no getter failed, or came without data.
   */
  lemma RunHookAgrees<C, D>(codec: Codec, u: Unit<C, D>, h: HookRun<C, D>)
    requires Sound(u) && RunHook(codec, u, h).1 && !EndsInRestart(h)
    ensures var r := RunHook(codec, u, h).0;
            && InAgreement(codec, r, LastInputs(h))
            && (r.server.Some? ==> HasExactly(r.server.value.srv.state.relationValues, h.getters))
    ensures forall name :: name in h.getters ==>
              h.getters[name].Incomplete? || (h.getters[name].Value? && h.getters[name].data != [])
  {
    var (u1, ok1) := DoAll(codec, u.(relationValues := map[]), h.specific);
    var u2 := u1.(relationValues := Refreshed(map[], h.getters));
    ChangedIsSound(codec, u2, h.inputs, h.oracle);
    ChangedAgrees(codec, u2, h.inputs, h.oracle);
    var u3 := Changed(codec, u2, h.inputs, h.oracle).0;
    var r := RunHook(codec, u, h).0;
    assert r.relationValues == Refreshed(map[], h.getters);
    if r.server.Some? {
      assert r.server.value.srv.state == StateToSet(r, LastInputs(h));
    }
  }

  /** After every run that succeeds, the unit is as its latest call in that run, or else before it, had it. */
  lemma RunHookLatest<C, D>(codec: Codec, u: Unit<C, D>, h: HookRun<C, D>)
    requires Sound(u) && RunHook(codec, u, h).1
    ensures var r := RunHook(codec, u, h).0;
            (r.started, r.argData) == Latest(h.specific + h.wildcard, u.started, u.argData)
  {
    var u0 := u.(relationValues := map[]);
    var u1 := DoAll(codec, u0, h.specific).0;
    var u2 := u1.(relationValues := Refreshed(map[], h.getters));
    hide DoAll, Changed;
    DoAllLatest(codec, u0, h.specific);
    ChangedIsSound(codec, u2, h.inputs, h.oracle);
    DoAllLatest(codec, Changed(codec, u2, h.inputs, h.oracle).0, h.wildcard);
    LatestConcat(h.specific, h.wildcard, u.started, u.argData);
  }

  // ---- The life of a unit ----

  /**
   Hooks run, and at any time the server process may die or the machine restart the service. A
   hook whose state cannot be saved leaves the persistent state as some earlier hook left it.
   */
  datatype Happening<!C, !D> =
    | Hook(run: HookRun<C, D>)
    | Crash
    | Reboot(launch: Launch<C, D>)
    | StateLost(started: bool, argData: Bytes, recorded: bool, args: Args)

  function Live<C, D>(codec: Codec, u: Unit<C, D>, h: Happening<C, D>): Unit<C, D>
    requires Sound(u)
  {
    match h
    case Hook(run) => RunHook(codec, u, run).0
    case Crash => u.(os := u.os.(running := false), server := None)
    case Reboot(launch) =>
      u.(os := u.os.(running := u.os.installed.Some?), server := StartProcess(codec, u.os.installed, u.file, launch))
    case StateLost(started, argData, recorded, args) =>
      u.(started := started, argData := argData, recorded := recorded, args := args)
  }

  lemma LiveIsSound<C, D>(codec: Codec, u: Unit<C, D>, h: Happening<C, D>)
    requires Sound(u)
    ensures var r := Live(codec, u, h);
            Sound(r) && (u.os.installed.Some? ==> r.os.installed == u.os.installed)
  {
    match h
    case Hook(run) => RunHookIsSound(codec, u, run);
    case Reboot(launch) => StartIsSound(codec, u.os.installed, u.file, launch);
    case _ =>
  }

  function Life<C, D>(codec: Codec, hs: seq<Happening<C, D>>): (u: Unit<C, D>)
    ensures Sound(u)
    decreases |hs|
  {
    if hs == [] then Unit(false, [], map[], false, NoArgs, OS(None, false), None, None)
    else
      var before := Life(codec, hs[..|hs| - 1]);
      LiveIsSound(codec, before, hs[|hs| - 1]);
      Live(codec, before, hs[|hs| - 1])
  }

  lemma LifeSnoc<C, D>(codec: Codec, hs: seq<Happening<C, D>>, h: Happening<C, D>)
    ensures Life(codec, hs + [h]) == Live(codec, Life(codec, hs), h)
  {
    assert (hs + [h])[..|hs|] == hs;
  }

  /**
   Over every life of a unit, failing hooks, crashes, reboots and lost states included, after
   every hook that succeeds and does not end in a restart: the unit is started, with its
   argument, as its latest call had it; the service runs exactly if it is started and some port
   is usable; and then its server has the ports, certificate, argument and relation values as
   they are, and a live handler has that argument and listeners for those ports.
   */
  lemma EveryGoodHookAgrees<C, D>(codec: Codec, hs: seq<Happening<C, D>>, h: HookRun<C, D>)
    requires RunHook(codec, Life(codec, hs), h).1 && !EndsInRestart(h)
    ensures var before, r, i := Life(codec, hs), Life(codec, hs + [Hook(h)]), LastInputs(h);
            && i.cert.Some?
            && (r.started, r.argData) == Latest(h.specific + h.wildcard, before.started, before.argData)
            && (r.os.running <==> r.started && (i.httpPort != 0 || (i.httpsPort != 0 && i.cert.value != "")))
            && (r.os.running <==> r.server.Some?)
            && (r.os.running ==>
                  var s := r.server.value.srv;
                  && s.state == ServerState(i.httpPort, i.httpsPort, i.cert.value, r.argData, s.state.relationValues)
                  && HasExactly(s.state.relationValues, h.getters)
                  && r.file == Some(codec.encode(s.state))
                  && (s.handler.Some? ==> s.handler.value.arg == r.argData)
                  && (s.http.Some? ==> s.http == Some(HTTP(i.httpPort)) && i.httpPort != 0)
                  && (s.https.Some? ==> s.https == Some(HTTPS(i.httpsPort, i.cert.value)) && i.httpsPort != 0)
                  && (s.handler.Some? && ListensUp(s.log) ==> s.http.Some? || s.https.Some?))
  {
    LifeSnoc(codec, hs, Hook(h));
    RunHookAgrees(codec, Life(codec, hs), h);
    RunHookLatest(codec, Life(codec, hs), h);
    var r := Life(codec, hs + [Hook(h)]);
    hide RunHook, Life, Live;
    if r.server.Some? && r.server.value.srv.handler.Some? {
      AgreementServes(codec, r, LastInputs(h));
    }
  }

  /** Whatever happens, the service keeps the arguments it was first installed with. */
  lemma {:induction false} ArgsAreOfTheFirstInstall<C, D>(
      codec: Codec, hs: seq<Happening<C, D>>, later: seq<Happening<C, D>>)
    requires Life(codec, hs).os.installed.Some?
    ensures Life(codec, hs + later).os.installed == Life(codec, hs).os.installed
    decreases |later|
  {
    if later == [] {
      assert hs + later == hs;
    } else {
      var init, h := later[..|later| - 1], later[|later| - 1];
      ArgsAreOfTheFirstInstall(codec, hs, init);
      assert hs + later == hs + init + [h];
      LifeSnoc(codec, hs + init, h);
      LiveIsSound(codec, Life(codec, hs + init), h);
    }
  }

  /** So if it was installed without any, then no hook ever brings it to serve. */
  lemma WithoutArgsNeverServes<C, D>(
      codec: Codec, hs: seq<Happening<C, D>>, later: seq<Happening<C, D>>, i: Inputs, o: Oracle<C, D>)
    requires Life(codec, hs).os.installed == Some(NoArgs)
    ensures var u := Life(codec, hs + later);
            u.server.None? && (i.cert.Some? && ShouldRun(u, i) ==> !Changed(codec, u, i, o).1)
  {
    ArgsAreOfTheFirstInstall(codec, hs, later);
  }

  predicate NeverRestarts<C, D>(calls: seq<Made<C, D>>) {
    forall k :: 0 <= k < |calls| ==> !calls[k].call.Restart?
  }

  lemma {:induction false} DoAllInstallsWithArgs<C, D>(codec: Codec, u: Unit<C, D>, calls: seq<Made<C, D>>)
    requires Sound(u) && NeverRestarts(calls) && u.os.installed != Some(NoArgs)
    ensures DoAll(codec, u, calls).0.os.installed != Some(NoArgs)
    decreases |calls|
  {
    if calls != [] {
      var front, c := calls[..|calls| - 1], Last(calls);
      DoAllInstallsWithArgs(codec, u, front);
      var u1 := DoAll(codec, u, front).0;
      if u1.os.installed.None? {
        InstalledWithoutArgsExactly(codec, u1, c.call, c.inputs, c.oracle);
      } else {
        DoIsSound(codec, u1, c.call, c.inputs, c.oracle);
      }
    }
  }

  lemma HookInstallsWithArgs<C, D>(codec: Codec, u: Unit<C, D>, h: HookRun<C, D>)
    requires Sound(u) && NeverRestarts(h.specific) && NeverRestarts(h.wildcard) && u.os.installed != Some(NoArgs)
    ensures RunHook(codec, u, h).0.os.installed != Some(NoArgs)
  {
    hide Changed, DoAll, NeverRestarts, InAgreement;
    var (u1, ok1) := DoAll(codec, u.(relationValues := map[]), h.specific);
    DoAllInstallsWithArgs(codec, u.(relationValues := map[]), h.specific);
    var u2 := u1.(relationValues := Refreshed(map[], h.getters));
    ChangedIsSound(codec, u2, h.inputs, h.oracle);
    var u3 := Changed(codec, u2, h.inputs, h.oracle).0;
    DoAllInstallsWithArgs(codec, u3, h.wildcard);
  }

  /** Over every life in which the charm never calls Restart, the service is never installed without arguments. */
  lemma {:induction false} WithoutRestartHasArgs<C, D>(codec: Codec, hs: seq<Happening<C, D>>)
    requires forall k :: 0 <= k < |hs| && hs[k].Hook? ==>
               NeverRestarts(hs[k].run.specific) && NeverRestarts(hs[k].run.wildcard)
    ensures Life(codec, hs).os.installed != Some(NoArgs)
    decreases |hs|
  {
    if hs != [] {
      var u, h := Life(codec, hs[..|hs| - 1]), hs[|hs| - 1];
      WithoutRestartHasArgs(codec, hs[..|hs| - 1]);
      if h.Hook? {
        HookInstallsWithArgs(codec, u, h.run);
      }
    }
  }

  // ---- Lives in which a promise is broken ----

  function AllWorks<C, D>(launch: Launch<C, D>): Oracle<C, D> {
    Oracle(true, true, true, true, true, [true], Saved, launch)
  }

  /** A hook in which all works, and in which the charm makes the given calls after `changed`. */
  function HookOf<C, D>(calls: seq<Call>, i: Inputs, launch: Launch<C, D>): HookRun<C, D> {
    HookRun([], map[], i, AllWorks(launch), MadeAll(calls, i, launch))
  }

  function MadeAll<C, D>(calls: seq<Call>, i: Inputs, launch: Launch<C, D>): seq<Made<C, D>> {
    seq(|calls|, k requires 0 <= k < |calls| => Made(calls[k], i, AllWorks(launch)))
  }

  /** Making one more call. */
  lemma DoAllOne<C, D>(codec: Codec, u: Unit<C, D>, calls: seq<Call>, call: Call, i: Inputs, launch: Launch<C, D>)
    requires Sound(u) && DoAll(codec, u, MadeAll(calls, i, launch)).1
    ensures DoAll(codec, u, MadeAll(calls + [call], i, launch))
            == Do(codec, DoAll(codec, u, MadeAll(calls, i, launch)).0, call, i, AllWorks(launch))
  {
    var all := MadeAll(calls + [call], i, launch);
    assert all[..|all| - 1] == MadeAll(calls, i, launch) && Last(all).call == call;
  }

  lemma RunHookOf<C, D>(codec: Codec, u: Unit<C, D>, calls: seq<Call>, i: Inputs, launch: Launch<C, D>)
    requires Sound(u)
    ensures var u1 := u.(relationValues := map[]);
            var (u2, ok) := Changed(codec, u1, i, AllWorks(launch));
            && Sound(u2)
            && (ok ==>
                  RunHook(codec, u, HookOf(calls, i, launch)) == DoAll(codec, u2, MadeAll(calls, i, launch)))
  {
    var h := HookOf(calls, i, launch);
    assert DoAll(codec, u.(relationValues := map[]), h.specific) == (u.(relationValues := map[]), true);
    assert Refreshed(map[], h.getters) == map[];
    ChangedIsSound(codec, u.(relationValues := map[]), i, AllWorks(launch));
  }

  /** A charm whose first hook restarts the service installs it without arguments. */
  lemma RestartBeforeStart<C, D>(codec: Codec, i: Inputs, launch: Launch<C, D>)
    requires i.cert.Some?
    ensures Life(codec, [Hook(HookOf([Restart], i, launch))]).os.installed == Some(NoArgs)
  {
    LifeSnoc(codec, [], Hook(HookOf([Restart], i, launch)));
    assert [] + [Hook(HookOf([Restart], i, launch))] == [Hook(HookOf([Restart], i, launch))];
    var unit: Unit<C, D> := Life(codec, []);
    RunHookOf(codec, unit, [Restart], i, launch);
    DoAllOne(codec, unit, [], Restart, i, launch);
    assert [] + [Restart] == [Restart];
  }

  function StateOf(i: Inputs, arg: Bytes): ServerState
    requires i.cert.Some?
  {
    ServerState(i.httpPort, i.httpsPort, i.cert.value, arg, map[])
  }

  /** A unit that was started, and whose server has its state. */
  ghost predicate Up<C, D>(codec: Codec, u: Unit<C, D>, i: Inputs, arg: Bytes)
    requires i.cert.Some?
  {
    && Sound(u) && u.started && u.argData == arg && u.relationValues == map[] && u.recorded && u.args == StateDir
    && u.os == OS(Some(StateDir), true) && u.server.Some? && u.file == Some(codec.encode(StateOf(i, arg)))
  }

  lemma StartBringsUp<C, D>(codec: Codec, i: Inputs, arg: Bytes, launch: Launch<C, D>)
    requires i.cert.Some? && i.httpPort != 0 && launch.rpc
    ensures Up(codec, Life(codec, [Hook(HookOf([Start(arg)], i, launch))]), i, arg)
  {
    var h := HookOf([Start(arg)], i, launch);
    LifeSnoc(codec, [], Hook(h));
    assert [] + [Hook(h)] == [Hook(h)];
    var unit: Unit<C, D> := Life(codec, []);
    RunHookOf(codec, unit, [Start(arg)], i, launch);
    DoAllOne(codec, unit, [], Start(arg), i, launch);
    assert [] + [Start(arg)] == [Start(arg)];
  }

  /** A charm that stops its service and then restarts it has it running, though it should be stopped. */
  lemma RestartAfterStopRuns<C, D>(codec: Codec, i: Inputs, arg: Bytes, launch: Launch<C, D>)
    requires RoundTrips(codec) && i.cert.Some? && i.httpPort != 0 && launch.rpc
    ensures var u := Life(codec, [Hook(HookOf([Start(arg)], i, launch)), Hook(HookOf([Stop, Restart], i, launch))]);
            && !ShouldRun(u, i) && u.os.running && u.server.Some?
            && (u.server.value.srv.handler.Some? <==> GetsHandler(launch.env, StateOf(i, arg)))
  {
    hide Life;
    var first, second := Hook(HookOf([Start(arg)], i, launch)), Hook(HookOf([Stop, Restart], i, launch));
    StartBringsUp(codec, i, arg, launch);
    LifeSnoc(codec, [first], second);
    assert [first] + [second] == [first, second];
    var u := Life(codec, [first]);
    RunHookOf(codec, u, [Stop, Restart], i, launch);
    var u1 := Changed(codec, u.(relationValues := map[]), i, AllWorks(launch)).0;
    assert Up(codec, u1, i, arg);
    DoAllOne(codec, u1, [], Stop, i, launch);
    DoAllOne(codec, u1, [Stop], Restart, i, launch);
    assert [] + [Stop] == [Stop] && [Stop] + [Restart] == [Stop, Restart];
    assert codec.decode(codec.encode(StateOf(i, arg))) == Some(StateOf(i, arg));
    GetsHandlerExactly(launch.env, StateOf(i, arg));
  }

  /** If the record of a running service is lost, changed fails next, whatever it is to set and whatever works. */
  lemma LostRecordLosesService<C, D>(
      codec: Codec, i: Inputs, arg: Bytes, launch: Launch<C, D>, i': Inputs, o: Oracle<C, D>)
    requires i.cert.Some? && i.httpPort != 0 && launch.rpc && i'.cert.Some? && i'.httpPort != 0
    ensures var u := Life(codec, [Hook(HookOf([Start(arg)], i, launch)), StateLost(true, arg, false, NoArgs)]);
            IsStarted(u) && u.server.Some? && !Changed(codec, u, i', o).1
  {
    var first := Hook(HookOf([Start(arg)], i, launch));
    StartBringsUp(codec, i, arg, launch);
    LifeSnoc(codec, [first], StateLost(true, arg, false, NoArgs));
    assert [first] + [StateLost(true, arg, false, NoArgs)] == [first, StateLost(true, arg, false, NoArgs)];
    UnrecordedServiceIsOutOfReach(codec, Life(codec, [first, StateLost(true, arg, false, NoArgs)]), i', o);
  }
}

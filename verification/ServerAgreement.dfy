/**
 What a server serves agrees with the state it was last given.

 `EveryRunAgrees` carries the invariant over every run. From it: taking the shortcut in
 server.set gives what a complete teardown and rebuild would, if that gets its handler and no
 listen failed (`ShortcutRefinesRebuild`), and `CrashResume` says when a server started after a
 crash gets a handler, and that it then serves the same if no listen failed. What more holds in
 a world that does not change is in ServerResume.
 */
module ServerAgreement {
  import opened Wrappers
  import opened ServerModel
  import opened ServerRelations

  // What a state asks for, apart from how the code finds out.

  function WantedHTTP(st: ServerState): Option<Listener> {
    if st.httpPort == 0 then None else Some(HTTP(st.httpPort))
  }

  function WantedHTTPS(st: ServerState): Option<Listener> {
    if st.httpsPort == 0 || st.certPEM == "" then None else Some(HTTPS(st.httpsPort, st.certPEM))
  }

  predicate Asked(st: ServerState) {
    st.httpPort != 0 || (st.httpsPort != 0 && st.certPEM != "")
  }

  /** Whether the states ask for the same ports, certificate and argument. */
  predicate SameTerms(a: ServerState, b: ServerState) {
    a.httpPort == b.httpPort && a.httpsPort == b.httpsPort && a.certPEM == b.certPEM && a.argData == b.argData
  }

  /** No listen has failed since a handler was last constructed. */
  ghost predicate ListensUp<C>(log: seq<Event<C>>) {
    forall k :: 0 <= k < |log| && log[k].Listen? && NoBuild(log, k) ==> log[k].up
  }

  /** A live handler and its listeners are those of the recorded state. */
  ghost predicate Agrees<C>(s: Srv<C>) {
    && (s.handler.None? ==> s.http.None? && s.https.None?)
    && (s.handler.Some? ==> s.handler.value.arg == s.state.argData && Asked(s.state))
    && (s.http.Some? ==> s.http == WantedHTTP(s.state))
    && (s.https.Some? ==> s.https == WantedHTTPS(s.state))
    && (s.handler.Some? && ListensUp(s.log) ==>
          s.http == WantedHTTP(s.state) && s.https == WantedHTTPS(s.state))
  }

  lemma ListensUpBefore<C>(log: seq<Event<C>>, longer: seq<Event<C>>)
    requires log <= longer && NoBuild(longer, |log|) && ListensUp(longer)
    ensures ListensUp(log)
  {
    forall k | 0 <= k < |log| && log[k].Listen? && NoBuild(log, k) ensures log[k].up {
      assert longer[k] == log[k];
      assert NoBuild(longer, k);
    }
  }

  lemma StartHandlerAgrees<C, D>(env: Env<C, D>, s: Srv<C>, st: ServerState)
    requires s.handler.None? && s.http.None? && s.https.None? && Asked(st)
    ensures Agrees(StartHandler(env, s, st).0)
    ensures var r := StartHandler(env, s, st).0;
            r.handler.Some? ==> r.state == st
  {
    var built := env.construct(st.argData, RelationCells(s), |s.log|);
    var s1 := s.(log := s.log + [Build(st.argData, RelationId(s), built)]);
    StartHandlerLog(env, s, st);
    if built {
      var s2 := StartHTTP(env, s1, st).0;
      var s3 := StartHTTPS(env, s2, st).0;
      if HTTPOk(st) {
        assert s2.log[|s1.log|] == Listen(HTTP(st.httpPort), s2.http.Some?);
        assert s3.log[|s1.log|] == s2.log[|s1.log|] && NoBuild(s3.log, |s1.log|);
      }
      if HTTPSOk(st) {
        assert s3.log[|s2.log|] == Listen(HTTPS(st.httpsPort, st.certPEM), s3.https.Some?);
        assert NoBuild(s3.log, |s2.log|);
      }
    }
  }

  lemma RestartAgrees<C, D>(env: Env<C, D>, s: Srv<C>, st: ServerState)
    requires WellFormed(env, s) && Agrees(s) && Asked(st)
    ensures var r := Restart(env, s, st).0;
            Agrees(r) && (r.handler.Some? ==> r.state == st)
  {
    var s1 := if s.handler.Some? then CloseResources(env, s) else s;
    var (s2, pass) := if s1.relation.None? then SetRelations(env, s1, st) else (s1, AllSet);
    if pass.AllSet? {
      StartHandlerAgrees(env, s2, st);
    }
  }

  lemma SetRelationsAgrees<C, D>(env: Env<C, D>, s: Srv<C>, st: ServerState)
    requires WellFormed(env, s) && Agrees(s)
    ensures Agrees(SetRelations(env, s, st).0)
  {
    var s1 := SetRelations(env, s, st).0;
    if env.fields.Some? { SetRelationsPasses(env, s, st); }
    if s1.handler.Some? && ListensUp(s1.log) {
      ListensUpBefore(s.log, s1.log);
    }
  }

  /** One call to set keeps the agreement, and leaves a live handler only if it is up to date with `st`. */
  lemma ApplyAgrees<C, D>(env: Env<C, D>, s: Srv<C>, st: ServerState)
    requires WellFormed(env, s) && Agrees(s)
    ensures var r := Apply(env, s, st).0;
            && Agrees(r)
            && (r.handler.Some? ==> Asked(st) && SameTerms(r.state, st))
  {
    if Asked(st) {
      SetRelationsAgrees(env, s, st);
      RestartAgrees(env, SetRelations(env, s, st).0, st);
    }
  }

  lemma SetStateAgrees<C, D>(env: Env<C, D>, s: Srv<C>, st: ServerState)
    requires WellFormed(env, s) && Agrees(s)
    ensures Agrees(SetState(env, s, st))
  {
    ApplyAgrees(env, s, st);
  }

  /** The invariant over every run: whatever the world does, what is served is what was asked for last. */
  lemma {:induction false} EveryRunAgrees<C, D>(env: Env<C, D>, initial: ServerState, sets: seq<ServerState>)
    ensures Agrees(After(env, initial, sets))
    ensures sets != [] && After(env, initial, sets).handler.Some? ==>
              After(env, initial, sets).handler.value.arg == sets[|sets| - 1].argData
    decreases |sets|
  {
    if sets == [] {
      ApplyAgrees(env, NewServer(), initial);
    } else {
      EveryRunAgrees(env, initial, sets[..|sets| - 1]);
      SetStateAgrees(env, After(env, initial, sets[..|sets| - 1]), sets[|sets| - 1]);
    }
  }

  /** What the outside sees of a server: its handler's argument, and its listeners. */
  datatype Facade = Facade(arg: Option<Bytes>, http: Option<Listener>, https: Option<Listener>)

  function FacadeOf<C>(s: Srv<C>): Facade {
    Facade(if s.handler.Some? then Some(s.handler.value.arg) else None, s.http, s.https)
  }

  /** Whether server.set returns at line 220, without restarting anything. */
  predicate TakesShortcut<C, D>(env: Env<C, D>, s: Srv<C>, st: ServerState)
    requires WellFormed(env, s)
  {
    Asked(st) && SetRelations(env, s, st).1.AllSet? && SameTerms(s.state, st) && s.handler.Some?
  }

  /**
   In every reachable state, and whatever the world does in between, the shortcut leaves the
   server as a complete teardown and rebuild would, provided the rebuild gets its handler and
   the listens of the live handler and of the rebuilt one succeeded.
   `ServerResume.ShortcutIsRebuildWhenSteady` is the case of a world that does not change.
   */
  lemma ShortcutRefinesRebuild<C, D>(env: Env<C, D>, initial: ServerState, sets: seq<ServerState>, st: ServerState)
    requires TakesShortcut(env, After(env, initial, sets), st)
    ensures var s := After(env, initial, sets);
            var rebuilt := SetState(env, CloseResources(env, s), st);
            && SetState(env, s, st).handler == s.handler
            && (rebuilt.handler.Some? && ListensUp(s.log) && ListensUp(rebuilt.log) ==>
                  FacadeOf(SetState(env, s, st)) == FacadeOf(rebuilt))
  {
    var s := After(env, initial, sets);
    var closed := CloseResources(env, s);
    EveryRunAgrees(env, initial, sets);
    SetStateAgrees(env, closed, st);
  }

  /** What is left of a call that takes the shortcut: its relation fields are set. */
  lemma ShortcutOnlySets<C, D>(env: Env<C, D>, s: Srv<C>, st: ServerState)
    requires WellFormed(env, s) && TakesShortcut(env, s, st)
    ensures var r := SetState(env, s, st);
            && r.handler == s.handler && r.http == s.http && r.https == s.https
            && r.state == st && SameTerms(s.state, st)
    ensures Apply(env, s, st).1 == []
  {
  }

  /** A server after more calls to Set. */
  function Calls<C, D>(env: Env<C, D>, s: Srv<C>, more: seq<ServerState>): Srv<C>
    requires WellFormed(env, s)
    decreases |more|
  {
    if more == [] then s else Calls(env, SetState(env, s, more[0]), more[1..])
  }

  predicate AllTakeShortcut<C, D>(env: Env<C, D>, s: Srv<C>, more: seq<ServerState>)
    requires WellFormed(env, s)
    decreases |more|
  {
    more != [] ==> TakesShortcut(env, s, more[0]) && AllTakeShortcut(env, SetState(env, s, more[0]), more[1..])
  }

  /**
   Listens that failed are not retried: calls that take the shortcut, however many, leave
   handler and listeners as they are, whatever the world would now answer.
   */
  lemma {:induction false} FailedListenIsNotRetried<C, D>(env: Env<C, D>, s: Srv<C>, more: seq<ServerState>)
    requires WellFormed(env, s) && AllTakeShortcut(env, s, more)
    ensures var r := Calls(env, s, more);
            r.handler == s.handler && r.http == s.http && r.https == s.https && SameTerms(s.state, r.state)
    decreases |more|
  {
    if more != [] {
      hide TakesShortcut, SetState;
      ShortcutOnlySets(env, s, more[0]);
      FailedListenIsNotRetried(env, SetState(env, s, more[0]), more[1..]);
    }
  }

  /** Without relations, every call that needs no restart of a live handler takes the shortcut. */
  lemma NoRestartNoChange<C, D>(env: Env<C, D>, s: Srv<C>, st: ServerState)
    requires WellFormed(env, s) && env.fields.None? && s.handler.Some?
    requires Asked(st) && SameTerms(s.state, st)
    ensures TakesShortcut(env, s, st) && SetState(env, s, st) == s.(state := st)
  {
  }

  /** A world in which every port is busy at first, and free from then on. */
  ghost predicate BusyOnce<C(!new), D>(env: Env<C, D>) {
    && env.fields.None?
    && (forall arg, cells, now :: env.construct(arg, cells, now))
    && (forall port, now :: env.listen(port, now) <==> now > 1)
  }

  lemma BusyFirst<C(!new), D>(env: Env<C, D>, st: ServerState)
    requires BusyOnce(env) && st.httpPort != 0 && st.httpsPort == 0
    ensures var s := After(env, st, []);
            && Apply(env, NewServer(), st).0 == s && Apply(env, NewServer(), st).1 == [NoHTTP]
            && env.listen(st.httpPort, |s.log|)
            && s.handler.Some? && s.http.None? && s.state == st
  {
    var s0: Srv<C> := NewServer();
    var s1 := s0.(log := [Build(st.argData, None, true)]);
    var s2 := s1.(log := s1.log + [Listen(HTTP(st.httpPort), false)]);
    assert env.construct(st.argData, RelationCells(s0), |s0.log|);
    assert !HTTPSOk(st) && !env.listen(st.httpPort, |s1.log|);
    assert StartHTTP(env, s1, st) == (s2, [NoHTTP]) && StartHTTPS(env, s2, st) == (s2, []);
    assert s0.(log := s0.log + [Build(st.argData, RelationId(s0), true)]) == s1;
    var started := StartHandler(env, s0, st);
    assert started.0 == s2.(handler := Some(Handler(st.argData, RelationId(s0))), state := st);
    assert started.1 == [NoHTTP] + [] == [NoHTTP];
    assert Apply(env, s0, st) == StartHandler(env, s0, st);
  }

  /** There, a server that is given the same state any number of times never listens on its port. */
  lemma {:induction false} BusyOnceStaysClosed<C(!new), D>(env: Env<C, D>, st: ServerState, more: seq<ServerState>)
    requires BusyOnce(env) && st.httpPort != 0 && st.httpsPort == 0
    requires forall k :: 0 <= k < |more| ==> more[k] == st
    ensures var s := After(env, st, []);
            AllTakeShortcut(env, s, more) && Calls(env, s, more) == s && s.http.None?
    decreases |more|
  {
    BusyFirst(env, st);
    if more != [] {
      NoRestartNoChange(env, After(env, st, []), st);
      BusyOnceStaysClosed(env, st, more[1..]);
    }
  }

  lemma StartReports<C, D>(env: Env<C, D>, s: Srv<C>, st: ServerState)
    requires s.handler.None? && s.http.None? && s.https.None?
    ensures var (r, w) := StartHandler(env, s, st);
            r.handler.Some? ==>
              && (NoHTTP in w <==> WantedHTTP(st).Some? && r.http.None?)
              && (NoHTTPS in w <==> WantedHTTPS(st).Some? && r.https.None?)
  {
  }

  /**
   A call to set that does not take the shortcut and leaves a live handler warns of exactly the
   listeners that it wants and has not got.
   */
  lemma FailedListenIsReported<C, D>(env: Env<C, D>, s: Srv<C>, st: ServerState)
    requires WellFormed(env, s) && Agrees(s) && !TakesShortcut(env, s, st)
    ensures var (r, w) := Apply(env, s, st);
            r.handler.Some? ==>
              && (NoHTTP in w <==> WantedHTTP(st).Some? && r.http.None?)
              && (NoHTTPS in w <==> WantedHTTPS(st).Some? && r.https.None?)
  {
    if Asked(st) {
      var s1 := SetRelations(env, s, st).0;
      var s2 := if s1.handler.Some? then CloseResources(env, s1) else s1;
      var s3 := if s2.relation.None? then SetRelations(env, s2, st).0 else s2;
      StartReports(env, s3, st);
    }
  }

  /** If a call with usable ports warns of nothing, there is a handler with the given argument. */
  lemma QuietSetServes<C, D>(env: Env<C, D>, s: Srv<C>, st: ServerState)
    requires WellFormed(env, s) && Agrees(s) && Asked(st) && Apply(env, s, st).1 == []
    ensures var r := SetState(env, s, st);
            && r.handler.Some? && r.handler.value.arg == st.argData
            && (!TakesShortcut(env, s, st) ==> r.http == WantedHTTP(st) && r.https == WantedHTTPS(st))
            && (TakesShortcut(env, s, st) ==> r.http == s.http && r.https == s.https)
  {
    ApplyAgrees(env, s, st);
    var (s1, pass) := SetRelations(env, s, st);
    if !TakesShortcut(env, s, st) && !pass.PassIncomplete? && !pass.PassFailed? {
      RestartWarnings(env, s1, st);
      FailedListenIsReported(env, s, st);
    }
  }

  /** Whether a handler is constructed by the call. */
  ghost predicate Builds<C, D>(env: Env<C, D>, s: Srv<C>, st: ServerState)
    requires WellFormed(env, s)
  {
    !NoBuild(Apply(env, s, st).0.log, |s.log|)
  }

  lemma ShortcutBuildsNothing<C, D>(env: Env<C, D>, s: Srv<C>, st: ServerState)
    requires WellFormed(env, s) && TakesShortcut(env, s, st)
    ensures !Builds(env, s, st) && Apply(env, s, st).0 == SetRelations(env, s, st).0
  {
    if env.fields.Some? { SetRelationsPasses(env, s, st); }
  }

  lemma StartedBuilds<C, D>(env: Env<C, D>, s: Srv<C>, st: ServerState)
    requires WellFormed(env, s) && !TakesShortcut(env, s, st) && Apply(env, s, st).0.handler.Some?
    ensures Builds(env, s, st)
  {
    var (s1, pass) := SetRelations(env, s, st);
    var s2 := if s1.handler.Some? then CloseResources(env, s1) else s1;
    var s3 := if s2.relation.None? then SetRelations(env, s2, st).0 else s2;
    assert Apply(env, s, st) == StartHandler(env, s3, st);
    StartHandlerLog(env, s3, st);
  }

  /**
   A live handler outlives a call without another being constructed exactly when some port is
   asked for, the ports, certificate and argument are the recorded ones, and all fields could be
   set without a restart.
   */
  lemma KeepsHandlerExactly<C, D>(env: Env<C, D>, s: Srv<C>, st: ServerState)
    requires WellFormed(env, s) && s.handler.Some?
    ensures Apply(env, s, st).0.handler.Some? && !Builds(env, s, st)
            <==> && (st.httpPort != 0 || (st.httpsPort != 0 && st.certPEM != ""))
                 && st.httpPort == s.state.httpPort && st.httpsPort == s.state.httpsPort
                 && st.certPEM == s.state.certPEM && st.argData == s.state.argData
                 && SetRelations(env, s, st).1.AllSet?
  {
    if TakesShortcut(env, s, st) {
      ShortcutBuildsNothing(env, s, st);
    } else if Apply(env, s, st).0.handler.Some? {
      StartedBuilds(env, s, st);
    }
  }

  /**
   What a call comes to, by its numbers alone. If it asks for no port, everything is closed. If
   it does and warns of nothing, there is a handler with its argument; and if that was
   constructed just now, there is an HTTP listener exactly if an HTTP port was given, and an HTTPS
   listener exactly if an HTTPS port and a certificate were, each for just that.
   */
  lemma SetServesWhatIsAsked<C, D>(env: Env<C, D>, s: Srv<C>, st: ServerState)
    requires WellFormed(env, s) && Agrees(s)
    ensures var (r, w) := Apply(env, s, st);
            if st.httpPort != 0 || (st.httpsPort != 0 && st.certPEM != "") then
              w == [] ==>
                && r.handler.Some? && r.handler.value.arg == st.argData
                && (Builds(env, s, st) ==>
                      && r.http == (if st.httpPort != 0 then Some(HTTP(st.httpPort)) else None)
                      && r.https == (if st.httpsPort != 0 && st.certPEM != ""
                                     then Some(HTTPS(st.httpsPort, st.certPEM)) else None))
            else r.handler.None? && r.http.None? && r.https.None? && r.relation.None? && w == []
  {
    if Asked(st) && Apply(env, s, st).1 == [] {
      QuietSetServes(env, s, st);
      if TakesShortcut(env, s, st) {
        ShortcutBuildsNothing(env, s, st);
      }
    }
  }

  /**
   A call warns that the fields were not set exactly if some port is asked for, and some field
   has no data or cannot be set. Nothing is held then.
   */
  lemma WarnsOfFieldsExactly<C, D>(env: Env<C, D>, s: Srv<C>, st: ServerState)
    requires WellFormed(env, s)
    ensures var (r, w) := Apply(env, s, st);
            var pass := SetRelations(env, s, st).1;
            && (RelationsNotSet in w <==> Asked(st) && (pass.PassIncomplete? || pass.PassFailed?))
            && (RelationsNotSet in w ==> r.handler.None? && r.http.None? && r.https.None? && r.relation.None?)
  {
    var (s1, pass) := SetRelations(env, s, st);
    if Asked(st) && !pass.PassIncomplete? && !pass.PassFailed? && !TakesShortcut(env, s, st) {
      RestartWarnings(env, s1, st);
    }
  }

  // ---- Crash and resume ----

  /** startServer on the file a server left behind. */
  function Boot<C, D>(env: Env<C, D>, codec: Codec, file: Option<Bytes>): Option<Srv<C>> {
    var st := LoadState(codec, file);
    if st.None? then None else Some(After(env, st.value, []))
  }

  /** The first start, from no file, holds nothing and does nothing; a file that cannot be decoded is fatal. */
  lemma BootsExactly<C, D>(env: Env<C, D>, codec: Codec, file: Option<Bytes>)
    ensures file.None? ==> Boot(env, codec, file) == Some(NewServer())
    ensures file.Some? ==> (Boot(env, codec, file).Some? <==> codec.decode(file.value).Some?)
  {
  }

  /**
   Whether a server that starts with the given state gets its handler: the ports are usable,
   the fields of a new relation value can be set (or ask to restart), and the handler can be
   constructed from them.
   */
  predicate GetsHandler<C, D>(env: Env<C, D>, st: ServerState) {
    var (made, pass) := SetRelations(env, NewServer(), st);
    && Asked(st) && (pass.AllSet? || pass.PassRestart?)
    && env.construct(st.argData, RelationCells(made), |made.log|)
  }

  lemma GetsHandlerExactly<C, D>(env: Env<C, D>, st: ServerState)
    ensures var s := After<C, D>(env, st, []);
            && (s.handler.Some? <==> GetsHandler(env, st))
            && (s.handler.Some? ==> s.state == st)
  {
    var s := NewServer<C>();
    var (s1, pass) := SetRelations(env, s, st);
    ApplyAgrees(env, s, st);
    if Asked(st) && (pass.AllSet? || pass.PassRestart?) {
      assert Restart(env, s1, st) == StartHandler(env, s1, st);
    }
  }

  /**
   After any run whose last save succeeded, a crash, and a start in a world that may have
   changed in every way: the new server boots and records the state, and it has a handler
   exactly if `GetsHandler` says so. If both servers have a handler, it has the same argument,
   and, when the listens of both handlers succeeded, the same ports and certificate.
   `ServerResume` has the case of a world that has not changed.
   */
  lemma CrashResume<C, D, E, F>(
    env: Env<C, D>, env': Env<E, F>, codec: Codec, initial: ServerState, sets: seq<ServerState>)
    requires sets != [] && RoundTrips(codec)
    ensures var last := sets[|sets| - 1];
            var s, boot := After(env, initial, sets), Boot(env', codec, Some(codec.encode(last)));
            && boot.Some?
            && (boot.value.handler.Some? <==> GetsHandler(env', last))
            && (s.handler.Some? && boot.value.handler.Some? ==>
                  && s.handler.value.arg == boot.value.handler.value.arg
                  && (ListensUp(s.log) && ListensUp(boot.value.log) ==> FacadeOf(s) == FacadeOf(boot.value)))
  {
    EveryRunAgrees(env, initial, sets);
    EveryRunAgrees(env', sets[|sets| - 1], []);
    GetsHandlerExactly(env', sets[|sets| - 1]);
  }
}

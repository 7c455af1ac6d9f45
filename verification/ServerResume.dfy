/**
 Crash and resume in a world that does not change.

 A world is steady if what it answers does not depend on when it is asked. Relation fields may
 still differ in what cannot be observed (the identity of a session, say): `view` is what the
 setters and the handler's constructor can tell of a field.

 `ResumeAgreesExactly` says, over every run, when a server started from the saved state serves
 what the server that crashed served. `OneFieldResumesExactly` is what that comes to for one
 field, and `ResumeAgrees` and `NoRelationsResume` give worlds in which it always does.
 */
module ServerResume {
  import opened Wrappers
  import opened ServerModel
  import opened ServerRelations
  import opened ServerAgreement

  /** Fields that look the same. */
  ghost predicate Same<C, V(!new)>(view: C -> V, cells: Option<seq<C>>, cells': Option<seq<C>>) {
    && cells.Some? == cells'.Some?
    && (cells.Some? ==>
          && |cells.value| == |cells'.value|
          && forall i :: 0 <= i < |cells.value| ==> view(cells.value[i]) == view(cells'.value[i]))
  }

  ghost predicate SameAnswer<C, V(!new)>(view: C -> V, a: (C, Outcome), b: (C, Outcome)) {
    view(a.0) == view(b.0) && a.1 == b.1
  }

  /** A world whose answers do not change from one call to the next. */
  ghost predicate Steady<C(!new), D(!new), V(!new)>(env: Env<C, D>, view: C -> V) {
    && (forall c, c', d, m, n :: view(c) == view(c') ==>
          SameAnswer(view, env.setter(c, d, m), env.setter(c', d, n)))
    && (forall arg, cells, cells', m, n :: Same(view, cells, cells') ==>
          env.construct(arg, cells, m) == env.construct(arg, cells', n))
    && (forall port, m, n :: env.listen(port, m) == env.listen(port, n))
  }

  // ---- What a live handler serves ----

  /** What the outside sees of a server that has a handler for the given state. */
  function Served<C, D>(env: Env<C, D>, st: ServerState): Facade {
    Facade(Some(st.argData),
           if env.listen(st.httpPort, 0) then WantedHTTP(st) else None,
           if env.validCert(st.certPEM) && env.listen(st.httpsPort, 0) then WantedHTTPS(st) else None)
  }

  const NOTHING := Facade(None, None, None)

  /** Whether some handler can be constructed from the argument. */
  ghost predicate CanConstruct<C(!new), D>(env: Env<C, D>, arg: Bytes) {
    exists cells: Option<seq<C>>, now :: (cells.Some? <==> env.fields.Some?) && env.construct(arg, cells, now)
  }

  /** A live handler serves the recorded state, as far as the world lets it. */
  ghost predicate Serves<C(!new), D>(env: Env<C, D>, s: Srv<C>) {
    && FacadeOf(s) == (if s.handler.Some? then Served(env, s.state) else NOTHING)
    && (s.handler.Some? ==> Asked(s.state) && CanConstruct(env, s.state.argData))
  }

  lemma StartHandlerServes<C(!new), D(!new), V(!new)>(env: Env<C, D>, view: C -> V, s: Srv<C>, st: ServerState)
    requires Steady(env, view) && Asked(st) && FacadeOf(s) == NOTHING
    requires env.fields.None? <==> s.relation.None?
    ensures var r := StartHandler(env, s, st).0;
            Serves(env, r) && (r.handler.Some? ==> r.state == st)
  {
    var cells := RelationCells(s);
    assert Same(view, cells, cells);
  }

  /** One call keeps this, and leaves a live handler only for the given state. */
  lemma ApplyServes<C(!new), D(!new), V(!new)>(env: Env<C, D>, view: C -> V, s: Srv<C>, st: ServerState)
    requires Steady(env, view) && WellFormed(env, s) && Serves(env, s)
    ensures var r := Apply(env, s, st).0;
            Serves(env, r) && (r.handler.Some? ==> Asked(st) && SameTerms(r.state, st))
  {
    hide Steady, Served;
    var (s1, pass) := SetRelations(env, s, st);
    if Asked(st) && !pass.PassIncomplete? && !pass.PassFailed? && !TakesShortcut(env, s, st) {
      var s2 := if s1.handler.Some? then CloseResources(env, s1) else s1;
      var (s3, pass') := if s2.relation.None? then SetRelations(env, s2, st) else (s2, AllSet);
      if pass'.AllSet? {
        StartHandlerServes(env, view, s3, st);
      }
    }
  }

  lemma {:induction false} EveryRunServes<C(!new), D(!new), V(!new)>(
    env: Env<C, D>, view: C -> V, initial: ServerState, sets: seq<ServerState>)
    requires Steady(env, view)
    ensures Serves(env, After(env, initial, sets))
    decreases |sets|
  {
    if sets == [] {
      ApplyServes(env, view, NewServer(), initial);
    } else {
      EveryRunServes(env, view, initial, sets[..|sets| - 1]);
      ApplyServes(env, view, After(env, initial, sets[..|sets| - 1]), sets[|sets| - 1]);
    }
  }

  // ---- Servers that are alike ----

  /** Alike but for history and for the state recorded while there is no handler. */
  ghost predicate Alike<C, V(!new)>(view: C -> V, s: Srv<C>, r: Srv<C>) {
    FacadeOf(s) == FacadeOf(r) && Same(view, RelationCells(s), RelationCells(r))
  }

  lemma SetOneAlike<C(!new), D(!new), V(!new)>(
    env: Env<C, D>, view: C -> V, s: Srv<C>, r: Srv<C>, field: nat, data: Bytes)
    requires Steady(env, view) && Alike(view, s, r) && s.relation.Some? && field < |s.relation.value.cells|
    ensures var (s', p), (r', q) := SetFieldValue(env, s, field, data), SetFieldValue(env, r, field, data);
            Alike(view, s', r') && p == q
  {
    var d := if data == [] then Some(env.zeroData) else env.unmarshal(data);
    if d.Some? {
      assert SameAnswer(view, env.setter(s.relation.value.cells[0], d.value, |s.log|),
                        env.setter(r.relation.value.cells[0], d.value, |r.log|));
    }
  }

  lemma {:induction false} SetFieldsAlike<C(!new), D(!new), V(!new)>(
    env: Env<C, D>, view: C -> V, s: Srv<C>, r: Srv<C>, st: ServerState, i: nat, restart: bool)
    requires Steady(env, view) && Alike(view, s, r) && WellFormed(env, s) && WellFormed(env, r)
    requires env.fields.Some? && s.relation.Some? && i <= NumFields(env)
    ensures var (s', p), (r', q) := SetFields(env, s, st, i, restart), SetFields(env, r, st, i, restart);
            Alike(view, s', r') && p == q
    decreases NumFields(env) - i
  {
    if i < NumFields(env) {
      var data := Data(st, env.fields.value[i]);
      SetOneAlike(env, view, s, r, i, data);
      var (s1, outcome) := SetFieldValue(env, s, i, data);
      if !outcome.Failed? {
        SetFieldsAlike(env, view, s1, SetFieldValue(env, r, i, data).0, st, i + 1, restart || outcome.RestartNeeded?);
      }
    }
  }

  lemma SetRelationsAlike<C(!new), D(!new), V(!new)>(
    env: Env<C, D>, view: C -> V, s: Srv<C>, r: Srv<C>, st: ServerState)
    requires Steady(env, view) && Alike(view, s, r) && WellFormed(env, s) && WellFormed(env, r)
    ensures var (s', p), (r', q) := SetRelations(env, s, st), SetRelations(env, r, st);
            Alike(view, s', r') && p == q
  {
    if env.fields.Some? && Complete(env, st) {
      SetFieldsAlike(env, view, EnsureRelation(env, s), EnsureRelation(env, r), st, 0, false);
    }
  }

  lemma StartHandlerAlike<C(!new), D(!new), V(!new)>(
    env: Env<C, D>, view: C -> V, s: Srv<C>, r: Srv<C>, st: ServerState)
    requires Steady(env, view) && Alike(view, s, r)
    ensures Alike(view, StartHandler(env, s, st).0, StartHandler(env, r, st).0)
    ensures StartHandler(env, s, st).1 == StartHandler(env, r, st).1
  {
  }

  /** In a steady world, what a stopped server does next depends on nothing in its past. */
  lemma ApplyAlike<C(!new), D(!new), V(!new)>(env: Env<C, D>, view: C -> V, s: Srv<C>, r: Srv<C>, st: ServerState)
    requires Steady(env, view) && Alike(view, s, r) && WellFormed(env, s) && WellFormed(env, r) && s.handler.None?
    ensures Alike(view, Apply(env, s, st).0, Apply(env, r, st).0) && Apply(env, s, st).1 == Apply(env, r, st).1
  {
    if Asked(st) {
      SetRelationsAlike(env, view, s, r, st);
      StartHandlerAlike(env, view, SetRelations(env, s, st).0, SetRelations(env, r, st).0, st);
    }
  }

  /**
   Resuming from the saved file comes to the same as tearing the crashed server down and
   rebuilding it: same argument, ports, certificate and relation fields, and the same warnings.
   */
  lemma ResumeIsRebuild<C(!new), D(!new), V(!new)>(
    env: Env<C, D>, view: C -> V, codec: Codec, initial: ServerState, sets: seq<ServerState>)
    requires sets != [] && RoundTrips(codec) && Steady(env, view)
    ensures var last := sets[|sets| - 1];
            var rebuilt := Apply(env, CloseResources(env, After(env, initial, sets)), last);
            var boot := Boot(env, codec, Some(codec.encode(last)));
            boot.Some? && Alike(view, boot.value, rebuilt.0) && rebuilt.1 == Apply(env, NewServer(), last).1
  {
    ApplyAlike(env, view, NewServer(), CloseResources(env, After(env, initial, sets)), sets[|sets| - 1]);
  }

  lemma NoRelationsGetsHandler<C(!new), D(!new), V(!new)>(env: Env<C, D>, view: C -> V, st: ServerState)
    requires Steady(env, view) && env.fields.None? && Asked(st) && CanConstruct(env, st.argData)
    ensures GetsHandler(env, st)
  {
    assert Same(view, None, None);
  }

  /** What a stopped server serves after a call. */
  lemma StoppedServes<C(!new), D(!new), V(!new)>(env: Env<C, D>, view: C -> V, s: Srv<C>, st: ServerState)
    requires Steady(env, view) && FacadeOf(s) == NOTHING && s.relation.None?
    ensures FacadeOf(SetState(env, s, st)) == if GetsHandler(env, st) then Served(env, st) else NOTHING
  {
    assert After(env, st, []) == Apply(env, NewServer(), st).0;
    hide Steady, GetsHandler, Apply, After;
    ApplyServes(env, view, s, st);
    ApplyAlike(env, view, s, NewServer(), st);
    GetsHandlerExactly(env, st);
  }

  /**
   In a steady world the shortcut is the same as a complete teardown and rebuild, failed listens
   or not, if and only if a new server would get its handler; and without relations it would.
   */
  lemma ShortcutIsRebuildWhenSteady<C(!new), D(!new), V(!new)>(
    env: Env<C, D>, view: C -> V, initial: ServerState, sets: seq<ServerState>, st: ServerState)
    requires Steady(env, view) && TakesShortcut(env, After(env, initial, sets), st)
    ensures var s := After(env, initial, sets);
            FacadeOf(SetState(env, s, st)) == FacadeOf(SetState(env, CloseResources(env, s), st))
            <==> GetsHandler(env, st)
    ensures env.fields.None? ==> GetsHandler(env, st)
  {
    var s := After(env, initial, sets);
    assert Asked(st) && s.handler.Some?;
    hide Steady, GetsHandler, After, TakesShortcut, CanConstruct;
    EveryRunServes(env, view, initial, sets);
    ShortcutOnlySets(env, s, st);
    StoppedServes(env, view, CloseResources(env, s), st);
    hide SetState;
    assert FacadeOf(SetState(env, s, st)) == FacadeOf(s) == Served(env, s.state) == Served(env, st);
    if env.fields.None? {
      NoRelationsGetsHandler(env, view, st);
    }
  }

  // ---- The server that crashed, and the one that resumed ----

  /** Whether a new server's fields can be set without a restart, and a handler be constructed from them. */
  predicate RebuildsHandler<C, D>(env: Env<C, D>, st: ServerState) {
    var (made, pass) := SetRelations(env, NewServer(), st);
    pass.AllSet? && env.construct(st.argData, RelationCells(made), |made.log|)
  }

  /**
   Whether a call leaves a live handler: its ports are usable, its fields can be set (or ask to
   restart), and it takes the shortcut, or tears a handler down and rebuilds it, or constructs
   the missing one from the fields as they now are.
   */
  predicate LeavesHandler<C, D>(env: Env<C, D>, s: Srv<C>, st: ServerState)
    requires WellFormed(env, s)
  {
    var (s1, pass) := SetRelations(env, s, st);
    && Asked(st) && (pass.AllSet? || pass.PassRestart?)
    && (|| TakesShortcut(env, s, st)
        || if s.handler.Some? then RebuildsHandler(env, st)
           else env.construct(st.argData, RelationCells(s1), |s1.log|))
  }

  /** In a steady world, tearing down and rebuilding fares as a new server does, unless that one would restart. */
  lemma RestartOfClosed<C(!new), D(!new), V(!new)>(env: Env<C, D>, view: C -> V, closed: Srv<C>, st: ServerState)
    requires Steady(env, view) && FacadeOf(closed) == NOTHING && closed.relation.None?
    ensures Restart(env, closed, st).0.handler.Some? <==> RebuildsHandler(env, st)
  {
    var s: Srv<C> := NewServer();
    SetRelationsAlike(env, view, closed, s, st);
    StartHandlerAlike(env, view, SetRelations(env, closed, st).0, SetRelations(env, s, st).0, st);
  }

  lemma LeavesHandlerExactly<C(!new), D(!new), V(!new)>(env: Env<C, D>, view: C -> V, s: Srv<C>, st: ServerState)
    requires Steady(env, view) && WellFormed(env, s) && (s.handler.None? ==> FacadeOf(s) == NOTHING)
    ensures Apply(env, s, st).0.handler.Some? <==> LeavesHandler(env, s, st)
  {
    hide Steady;
    var (s1, pass) := SetRelations(env, s, st);
    if Asked(st) && (pass.AllSet? || pass.PassRestart?) && !TakesShortcut(env, s, st) {
      assert Apply(env, s, st) == Restart(env, s1, st);
      if s.handler.Some? {
        var closed := CloseResources(env, s1);
        assert Restart(env, s1, st) == Restart(env, closed, st);
        RestartOfClosed(env, view, closed, st);
      } else {
        assert Restart(env, s1, st) == StartHandler(env, s1, st);
      }
    }
  }

  /**
   After any run in a steady world, whatever its setters and however many fields: the server
   that resumes from the file serves what the one that crashed served, failed listens or not, if
   and only if the last call left a handler exactly when a new server gets one.
   */
  lemma ResumeAgreesExactly<C(!new), D(!new), V(!new)>(
    env: Env<C, D>, view: C -> V, codec: Codec, initial: ServerState, sets: seq<ServerState>)
    requires sets != [] && RoundTrips(codec) && Steady(env, view)
    ensures var last, before := sets[|sets| - 1], After(env, initial, sets[..|sets| - 1]);
            var boot := Boot(env, codec, Some(codec.encode(last)));
            && boot.Some?
            && (FacadeOf(boot.value) == FacadeOf(After(env, initial, sets))
                <==> (LeavesHandler(env, before, last) <==> GetsHandler(env, last)))
  {
    hide Steady, LeavesHandler, GetsHandler;
    var last, before := sets[|sets| - 1], After(env, initial, sets[..|sets| - 1]);
    EveryRunServes(env, view, initial, sets[..|sets| - 1]);
    EveryRunServes(env, view, initial, sets);
    EveryRunServes(env, view, last, []);
    GetsHandlerExactly(env, last);
    LeavesHandlerExactly(env, view, before, last);
  }

  // ---- One field ----

  /** Whether a call tears the server down because a field of its live handler cannot be set. */
  predicate LosesHandler<C, D>(env: Env<C, D>, s: Srv<C>, st: ServerState)
    requires WellFormed(env, s)
  {
    Asked(st) && s.handler.Some? && SetRelations(env, s, st).1.PassFailed?
  }

  /**
   With setters as documented and at most one field, a call that does not find a relation value
   without a handler leaves a handler exactly when a new server gets one, but for two cases: it
   takes the shortcut where a new server would get none, or it cannot set the field of its live
   handler where a new server's could be set.
   */
  lemma OneFieldLeavesExactly<C(!new), D(!new), V(!new)>(env: Env<C, D>, view: C -> V, s: Srv<C>, st: ServerState)
    requires Steady(env, view) && NeverRestartsFresh(env) && NumFields(env) <= 1
    requires WellFormed(env, s) && !Stranded(s)
    requires s.handler.None? ==> FacadeOf(s) == NOTHING
    ensures (LeavesHandler(env, s, st) <==> GetsHandler(env, st))
            <==> && !(TakesShortcut(env, s, st) && !GetsHandler(env, st))
                 && !(LosesHandler(env, s, st) && GetsHandler(env, st))
  {
    hide NeverRestartsFresh;
    var new': Srv<C> := NewServer();
    FreshPass(env, new', st);
    if s.handler.None? {
      SetRelationsAlike(env, view, s, new', st);
      var cells, cells' := RelationCells(SetRelations(env, s, st).0), RelationCells(SetRelations(env, new', st).0);
      assert Same(view, cells, cells');
    }
  }

  lemma OneFieldResumesExactly<C(!new), D(!new), V(!new)>(
    env: Env<C, D>, view: C -> V, codec: Codec, initial: ServerState, sets: seq<ServerState>)
    requires sets != [] && RoundTrips(codec) && Steady(env, view)
    requires NeverRestartsFresh(env) && NumFields(env) <= 1
    requires !Stranded(After(env, initial, sets[..|sets| - 1]))
    ensures var last, before := sets[|sets| - 1], After(env, initial, sets[..|sets| - 1]);
            var boot := Boot(env, codec, Some(codec.encode(last)));
            && boot.Some?
            && (FacadeOf(boot.value) == FacadeOf(After(env, initial, sets)) <==>
                  && !(TakesShortcut(env, before, last) && !GetsHandler(env, last))
                  && !(LosesHandler(env, before, last) && GetsHandler(env, last)))
  {
    hide Steady, NeverRestartsFresh, LeavesHandler, GetsHandler;
    var last, before := sets[|sets| - 1], After(env, initial, sets[..|sets| - 1]);
    EveryRunServes(env, view, initial, sets[..|sets| - 1]);
    ResumeAgreesExactly(env, view, codec, initial, sets);
    OneFieldLeavesExactly(env, view, before, last);
  }

  /** Without relations, it always does. */
  lemma NoRelationsResume<C(!new), D(!new), V(!new)>(
    env: Env<C, D>, view: C -> V, codec: Codec, initial: ServerState, sets: seq<ServerState>)
    requires sets != [] && RoundTrips(codec) && Steady(env, view) && env.fields.None?
    ensures var boot := Boot(env, codec, Some(codec.encode(sets[|sets| - 1])));
            boot.Some? && FacadeOf(boot.value) == FacadeOf(After(env, initial, sets))
  {
    var last, before := sets[|sets| - 1], After(env, initial, sets[..|sets| - 1]);
    EveryRunServes(env, view, initial, sets[..|sets| - 1]);
    EveryRunServes(env, view, initial, sets);
    EveryRunServes(env, view, last, []);
    GetsHandlerExactly(env, last);
    assert Same(view, None, None);
  }

  /**
   Whether a field can be set, and a handler constructed, is up to the data and the argument,
   and not to what the field holds already (which may be reason to restart).
   */
  ghost predicate Forgetful<C(!new), D(!new)>(env: Env<C, D>) {
    && (forall c, d, n :: env.setter(c, d, n).1.Failed? ==> env.setter(env.zeroCell, d, n).1.Failed?)
    && (forall c, d, n :: env.setter(c, d, n).1.Done? ==> !env.setter(env.zeroCell, d, n).1.Failed?)
    && (forall arg, cells: Option<seq<C>>, cells': Option<seq<C>>, n :: cells.Some? && cells'.Some? ==>
          env.construct(arg, cells, n) == env.construct(arg, cells', n))
  }

  /** A pass over one field comes out as its setter does. */
  lemma OneFieldPass<C, D>(env: Env<C, D>, s: Srv<C>, st: ServerState)
    requires WellFormed(env, s) && NumFields(env) == 1 && Complete(env, st)
    ensures var made := EnsureRelation(env, s);
            var pass := SetRelations(env, s, st).1;
            match env.unmarshal(Data(st, env.fields.value[0]))
            case None => pass.PassFailed?
            case Some(d) =>
              match env.setter(made.relation.value.cells[0], d, |made.log|).1
              case Done => pass.AllSet?
              case RestartNeeded => pass.PassRestart?
              case Failed => pass.PassFailed?
  {
    var made := EnsureRelation(env, s);
    var (s1, outcome) := SetFieldValue(env, made, 0, Data(st, env.fields.value[0]));
    if !outcome.Failed? {
      assert SetFields(env, made, st, 0, false) == SetFields(env, s1, st, 1, outcome.RestartNeeded?);
    }
  }

  /** With setters that do not look back, a new value takes what a used one takes, and fails where it fails. */
  lemma NewPassIsAsGood<C(!new), D(!new), V(!new)>(env: Env<C, D>, view: C -> V, s: Srv<C>, st: ServerState)
    requires Steady(env, view) && Forgetful(env) && NeverRestartsFresh(env) && NumFields(env) <= 1
    requires WellFormed(env, s)
    ensures var pass, pass' := SetRelations(env, s, st).1, SetRelations(env, NewServer(), st).1;
            (pass.AllSet? ==> pass'.AllSet?) && (pass.PassFailed? ==> pass'.PassFailed?)
  {
    if NumFields(env) == 1 && Complete(env, st) {
      var new': Srv<C> := NewServer();
      OneFieldPass(env, s, st);
      OneFieldPass(env, new', st);
      var made, made' := EnsureRelation(env, s), EnsureRelation(env, new');
      var d := env.unmarshal(Data(st, env.fields.value[0]));
      if d.Some? {
        var zero := env.zeroCell;
        assert made'.relation.value.cells[0] == zero;
        assert SameAnswer(view, env.setter(zero, d.value, |made.log|), env.setter(zero, d.value, |made'.log|));
      }
    }
  }

  /** And with such setters too, the server that resumes always serves what the one that crashed served. */
  lemma ResumeAgrees<C(!new), D(!new), V(!new)>(
    env: Env<C, D>, view: C -> V, codec: Codec, initial: ServerState, sets: seq<ServerState>)
    requires sets != [] && RoundTrips(codec) && Steady(env, view) && Forgetful(env)
    requires NeverRestartsFresh(env) && NumFields(env) <= 1
    requires !Stranded(After(env, initial, sets[..|sets| - 1]))
    ensures var boot := Boot(env, codec, Some(codec.encode(sets[|sets| - 1])));
            boot.Some? && FacadeOf(boot.value) == FacadeOf(After(env, initial, sets))
  {
    var last, before := sets[|sets| - 1], After(env, initial, sets[..|sets| - 1]);
    OneFieldResumesExactly(env, view, codec, initial, sets);
    EveryRunServes(env, view, initial, sets[..|sets| - 1]);
    NewPassIsAsGood(env, view, before, last);
    if TakesShortcut(env, before, last) {
      var made := SetRelations(env, NewServer(), last).0;
      var cells: Option<seq<C>>, now :| (cells.Some? <==> env.fields.Some?) && env.construct(last.argData, cells, now);
      assert Same(view, cells, cells) && Same(view, RelationCells(made), RelationCells(made));
      assert env.construct(last.argData, RelationCells(made), now);
    }
  }

  // ---- Setters that look back ----

  /** A field that does not take the data [2] when it has, or when it has not, taken other data before. */
  function LooksBack(afterOther: bool): Env<bool, byte> {
    Env(Some(["f"]), false, 0, (data: Bytes) => if data == [] then None else Some(data[0]),
        (used, d, now) => if d == 2 && used == afterOther then (used, Failed) else (d != 0, Done),
        (arg, cells, now) => true, cert => true, (port, now) => true)
  }

  function StateWith(d: byte): ServerState {
    ServerState(80, 0, "", [], map["f" := [d]])
  }

  lemma FirstCellUsed(afterOther: bool)
    ensures var s := After(LooksBack(afterOther), StateWith(1), []);
            s.relation.Some? && s.relation.value.cells == [true]
  {
    var env, st := LooksBack(afterOther), StateWith(1);
    var made := EnsureRelation(env, NewServer());
    var s1 := SetFieldValue(env, made, 0, Data(st, "f")).0;
    assert made.relation.value.cells == [false] && s1.relation.value.cells == [true];
    assert SetFields(env, made, st, 0, false) == SetFields(env, s1, st, 1, false) == (s1, AllSet);
    assert Apply(env, NewServer(), st) == StartHandler(env, s1, st);
  }

  lemma LooksBackIsSteady(afterOther: bool)
    ensures Steady(LooksBack(afterOther), (used: bool) => used) && NeverRestartsFresh(LooksBack(afterOther))
  {
  }

  /** Set with [1] and then [2], of the server that crashes and the one that resumes only one has a handler. */
  lemma LookingBackResumesOtherwise(codec: Codec, afterOther: bool)
    requires RoundTrips(codec)
    ensures var env := LooksBack(afterOther);
            var s := After(env, StateWith(1), [StateWith(2)]);
            var boot := Boot(env, codec, Some(codec.encode(StateWith(2))));
            && Steady(env, (used: bool) => used) && NeverRestartsFresh(env)
            && !Stranded(After(env, StateWith(1), []))
            && boot.Some? && (s.handler.Some? <==> !afterOther) && (boot.value.handler.Some? <==> afterOther)
  {
    var env := LooksBack(afterOther);
    hide Steady, NeverRestartsFresh, SetRelations;
    LooksBackIsSteady(afterOther);
    assert Complete(env, StateWith(1)) && Complete(env, StateWith(2));
    OneFieldPass(env, NewServer(), StateWith(1));
    OneFieldPass(env, NewServer(), StateWith(2));
    GetsHandlerExactly(env, StateWith(1));
    GetsHandlerExactly(env, StateWith(2));
    var s1 := After(env, StateWith(1), []);
    FirstCellUsed(afterOther);
    OneFieldPass(env, s1, StateWith(2));
    LeavesHandlerExactly(env, (used: bool) => used, s1, StateWith(2));
    assert [StateWith(2)][..0] == [];
  }
}

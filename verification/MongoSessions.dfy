/**
 The server instantiated with the setter of charmbits/mongodbrelation/requirer.go.

 A field is a MongoDB session or nil. `EverySessionIsAccountedFor` conserves sessions over every
 run and world, for any number of fields, and `MongoResumes` is about crashes. The last lemmas
 give the inputs on which a second field, or a handler that once could not be constructed,
 leaves a handler without its session, or no handler.
 */
module MongoSessions {
  import opened Wrappers
  import opened ServerModel
  import opened ServerRelations
  import opened ServerAgreement
  import opened ServerResume

  /** A field of type *mgo.Session. A session is named by the log position at which it was dialled. */
  type Session = Option<nat>

  /** mongodbrelation.setFieldValue. `info` is None for a nil relationInfo. */
  function SetSession(dial: (string, nat) -> bool, field: Session, info: Option<string>, now: nat)
    : (r: (Session, Outcome))
    ensures field.Some? ==> r == (None, RestartNeeded)
    ensures info.None? ==> r.0.None?
    ensures r.1 == Done && info.Some? <==> r.0.Some?
    ensures field.None? ==>
              (if info.None? then r.1 == Done
               else if dial(info.value, now) then r == (Some(now), Done) else r.1 == Failed)
  {
    if field.Some? then (None, RestartNeeded)
    else if info.None? then (None, Done)
    else if dial(info.value, now) then (Some(now), Done)
    else (None, Failed)
  }

  /** The session field that setFieldValue changes through its pointer. */
  class SessionField {
    var session: Session

    method SetFieldValue(dial: (string, nat) -> bool, info: Option<string>, now: nat) returns (outcome: Outcome)
      modifies this
      ensures (session, outcome) == SetSession(dial, old(session), info, now)
    {
      if session.Some? {
        session := None;
        return RestartNeeded;
      }
      if info.None? {
        return Done;
      }
      if !dial(info.value, now) {
        return Failed;
      }
      session := Some(now);
      return Done;
    }
  }

  datatype World = World(
    fields: seq<string>,
    info: Bytes -> Option<Option<string>>,
    dial: (string, nat) -> bool,
    construct: (Bytes, Option<seq<Session>>, nat) -> bool,
    validCert: string -> bool,
    listen: (int, nat) -> bool)

  function MongoEnv(w: World): Env<Session, Option<string>> {
    Env(Some(w.fields), None, None, w.info,
        (field, info, now) => SetSession(w.dial, field, info, now),
        w.construct, w.validCert, w.listen)
  }

  // ---- Conservation ----

  predicate IsCall(e: Event<Session>) {
    e.SetField? || e.Finalize?
  }

  predicate Dials(e: Event<Session>) {
    IsCall(e) && e.after.Some?
  }

  predicate Ends(e: Event<Session>) {
    IsCall(e) && e.before.Some?
  }

  function Dialled(log: seq<Event<Session>>): nat {
    if log == [] then 0 else Dialled(log[..|log| - 1]) + Bit(Dials(log[|log| - 1]))
  }

  function Closed(log: seq<Event<Session>>): nat {
    if log == [] then 0 else Closed(log[..|log| - 1]) + Bit(Ends(log[|log| - 1]))
  }

  /** A session is named by when it was dialled. */
  ghost predicate NamedByDial(log: seq<Event<Session>>) {
    forall k :: 0 <= k < |log| && Dials(log[k]) ==> log[k].after == Some(k)
  }

  ghost predicate IsDial(log: seq<Event<Session>>, at: nat) {
    at < |log| && Dials(log[at])
  }

  ghost predicate EndsAfterDial(log: seq<Event<Session>>) {
    forall k :: 0 <= k < |log| && Ends(log[k]) ==> log[k].before.value < k && IsDial(log, log[k].before.value)
  }

  ghost predicate NeverEnds(log: seq<Event<Session>>, session: nat) {
    forall k :: 0 <= k < |log| && Ends(log[k]) ==> log[k].before != Some(session)
  }

  ghost predicate EndsOnce(log: seq<Event<Session>>) {
    forall j, k :: 0 <= j < k < |log| && Ends(log[j]) && Ends(log[k]) ==> log[j].before != log[k].before
  }

  /**
   Every session that was dialled has been closed, but for the live one. Each was dialled
   before it was closed, and none was closed twice.
   */
  ghost predicate Ledger(log: seq<Event<Session>>, live: Session) {
    && Dialled(log) == Closed(log) + Bit(live.Some?)
    && NamedByDial(log) && EndsAfterDial(log) && EndsOnce(log)
    && (live.Some? ==> IsDial(log, live.value) && NeverEnds(log, live.value))
  }

  lemma CountSnoc(log: seq<Event<Session>>, e: Event<Session>)
    ensures Dialled(log + [e]) == Dialled(log) + Bit(Dials(e))
    ensures Closed(log + [e]) == Closed(log) + Bit(Ends(e))
  {
    assert (log + [e])[..|log|] == log;
  }

  lemma EndsAfterDialSnoc(log: seq<Event<Session>>, e: Event<Session>)
    requires EndsAfterDial(log) && (Ends(e) ==> IsDial(log, e.before.value))
    ensures EndsAfterDial(log + [e])
  {
    var longer := log + [e];
    forall k | 0 <= k < |longer| && Ends(longer[k])
      ensures longer[k].before.value < k && IsDial(longer, longer[k].before.value)
    {
      if k < |log| { assert longer[k] == log[k]; }
      var at := longer[k].before.value;
      assert IsDial(log, at) && longer[at] == log[at];
    }
  }

  lemma EndsOnceSnoc(log: seq<Event<Session>>, e: Event<Session>)
    requires EndsOnce(log) && (Ends(e) ==> NeverEnds(log, e.before.value))
    ensures EndsOnce(log + [e])
  {
  }

  lemma LedgerNeutralOne(log: seq<Event<Session>>, e: Event<Session>, live: Session)
    requires Ledger(log, live) && !IsCall(e)
    ensures Ledger(log + [e], live)
  {
    CountSnoc(log, e);
    EndsAfterDialSnoc(log, e);
    EndsOnceSnoc(log, e);
    assert NamedByDial(log + [e]);
    if live.Some? {
      assert (log + [e])[live.value] == log[live.value];
    }
  }

  lemma {:induction false} LedgerNeutral(log: seq<Event<Session>>, longer: seq<Event<Session>>, live: Session)
    requires Ledger(log, live) && log <= longer
    requires forall k :: |log| <= k < |longer| ==> !IsCall(longer[k])
    ensures Ledger(longer, live)
    decreases |longer| - |log|
  {
    if log == longer {
    } else {
      var next := log + [longer[|log|]];
      LedgerNeutralOne(log, longer[|log|], live);
      LedgerNeutral(next, longer, live);
    }
  }

  /** What was just dialled bears a new name. */
  lemma NewNeverEnds(log: seq<Event<Session>>, e: Event<Session>)
    requires EndsAfterDial(log) && IsCall(e) && e.before.None? && e.after == Some(|log|)
    ensures NeverEnds(log + [e], |log|) && IsDial(log + [e], |log|)
  {
    var longer := log + [e];
    forall k | 0 <= k < |longer| && Ends(longer[k]) ensures longer[k].before != Some(|log|) {
      assert longer[k] == log[k];
    }
  }

  lemma LedgerCall(log: seq<Event<Session>>, live: Session, e: Event<Session>)
    requires Ledger(log, live) && IsCall(e) && e.before == live
    requires if live.Some? then e.after.None? else e.after.Some? ==> e.after == Some(|log|)
    ensures Ledger(log + [e], e.after)
  {
    CountSnoc(log, e);
    var longer := log + [e];
    assert NamedByDial(longer);
    EndsAfterDialSnoc(log, e);
    EndsOnceSnoc(log, e);
    if e.after.Some? {
      NewNeverEnds(log, e);
    }
  }

  function LiveSession(s: Srv<Session>): Session {
    if s.relation.Some? && s.relation.value.cells != [] then s.relation.value.cells[0] else None
  }

  /** The number of fields that hold a session. */
  function LiveCells(cells: seq<Session>): nat {
    if cells == [] then 0 else Bit(cells[0].Some?) + LiveCells(cells[1..])
  }

  /** Only the first field ever holds a session, and the ledger balances. */
  ghost predicate Balanced(w: World, s: Srv<Session>) {
    && WellFormed(MongoEnv(w), s)
    && Ledger(s.log, LiveSession(s))
    && (s.relation.Some? ==> forall i :: 1 <= i < |s.relation.value.cells| ==> s.relation.value.cells[i].None?)
  }

  lemma CallBalanced(w: World, s: Srv<Session>, field: nat, data: Bytes)
    requires Balanced(w, s) && s.relation.Some? && field < |w.fields|
    ensures Balanced(w, SetFieldValue(MongoEnv(w), s, field, data).0)
    ensures data == [] ==> LiveSession(SetFieldValue(MongoEnv(w), s, field, data).0).None?
  {
    hide Ledger;
    var env := MongoEnv(w);
    var decoded := if data == [] then Some(None) else w.info(data);
    if decoded.Some? {
      var before := s.relation.value.cells[0];
      var (after, outcome) := SetSession(w.dial, before, decoded.value, |s.log|);
      var e := SetterEvent(s.relation.value.id, field, data, before, after, outcome);
      LedgerCall(s.log, before, e);
      var s1 := SetFieldValue(env, s, field, data).0;
      assert s1.log == s.log + [e] && LiveSession(s1) == after;
    }
  }

  lemma {:induction false} SetFieldsBalanced(w: World, s: Srv<Session>, st: ServerState, i: nat, restart: bool)
    requires Balanced(w, s) && s.relation.Some? && i <= |w.fields|
    ensures Balanced(w, SetFields(MongoEnv(w), s, st, i, restart).0)
    decreases |w.fields| - i
  {
    hide Ledger;
    if i < |w.fields| {
      CallBalanced(w, s, i, Data(st, w.fields[i]));
      var (s1, outcome) := SetFieldValue(MongoEnv(w), s, i, Data(st, w.fields[i]));
      if !outcome.Failed? {
        SetFieldsBalanced(w, s1, st, i + 1, restart || outcome.RestartNeeded?);
      }
    }
  }

  lemma SetRelationsBalanced(w: World, s: Srv<Session>, st: ServerState)
    requires Balanced(w, s)
    ensures Balanced(w, SetRelations(MongoEnv(w), s, st).0)
  {
    hide Ledger;
    var s1 := EnsureRelation(MongoEnv(w), s);
    LedgerNeutral(s.log, s1.log, LiveSession(s));
    if Complete(MongoEnv(w), st) {
      SetFieldsBalanced(w, s1, st, 0, false);
    }
  }

  lemma {:induction false} FinalizeBalanced(w: World, s: Srv<Session>, i: nat)
    requires Balanced(w, s) && s.relation.Some? && i <= |w.fields| && (i > 0 ==> LiveSession(s).None?)
    ensures Balanced(w, FinalizeFrom(MongoEnv(w), s, i))
    decreases |w.fields| - i
  {
    hide Ledger;
    if i == |w.fields| {
      LedgerNeutral(s.log, FinalizeFrom(MongoEnv(w), s, i).log, None);
    } else {
      CallBalanced(w, s, i, []);
      FinalizeBalanced(w, SetFieldValue(MongoEnv(w), s, i, []).0, i + 1);
    }
  }

  lemma StopBalanced(w: World, s: Srv<Session>)
    requires Balanced(w, s)
    ensures Balanced(w, StopHandler(CloseHTTPS(CloseHTTP(s))))
  {
    hide Ledger;
    var s1 := CloseHTTP(s);
    LedgerNeutral(s.log, s1.log, LiveSession(s));
    var s2 := CloseHTTPS(s1);
    LedgerNeutral(s1.log, s2.log, LiveSession(s));
    LedgerNeutral(s2.log, StopHandler(s2).log, LiveSession(s));
  }

  lemma CloseResourcesBalanced(w: World, s: Srv<Session>)
    requires Balanced(w, s)
    ensures Balanced(w, CloseResources(MongoEnv(w), s))
  {
    hide Ledger;
    var s3 := StopHandler(CloseHTTPS(CloseHTTP(s)));
    StopBalanced(w, s);
    if s3.relation.Some? {
      FinalizeBalanced(w, s3, 0);
    }
  }

  lemma StartHandlerBalanced(w: World, s: Srv<Session>, st: ServerState)
    requires Balanced(w, s)
    ensures Balanced(w, StartHandler(MongoEnv(w), s, st).0)
  {
    hide Ledger;
    LedgerNeutral(s.log, StartHandler(MongoEnv(w), s, st).0.log, LiveSession(s));
  }

  lemma RebuildBalanced(w: World, s: Srv<Session>, st: ServerState)
    requires Balanced(w, s) && s.handler.None?
    ensures Balanced(w, Restart(MongoEnv(w), s, st).0)
  {
    hide Ledger;
    SetRelationsBalanced(w, s, st);
    var (s1, pass) := if s.relation.None? then SetRelations(MongoEnv(w), s, st) else (s, AllSet);
    if pass.AllSet? {
      StartHandlerBalanced(w, s1, st);
    }
  }

  lemma RestartBalanced(w: World, s: Srv<Session>, st: ServerState)
    requires Balanced(w, s)
    ensures Balanced(w, Restart(MongoEnv(w), s, st).0)
  {
    hide Ledger;
    if s.handler.None? {
      RebuildBalanced(w, s, st);
    } else {
      CloseResourcesBalanced(w, s);
      RebuildBalanced(w, CloseResources(MongoEnv(w), s), st);
    }
  }

  lemma ApplyBalanced(w: World, s: Srv<Session>, st: ServerState)
    requires Balanced(w, s)
    ensures Balanced(w, Apply(MongoEnv(w), s, st).0)
  {
    hide Ledger;
    CloseResourcesBalanced(w, s);
    if Asked(st) {
      SetRelationsBalanced(w, s, st);
      var s1 := SetRelations(MongoEnv(w), s, st).0;
      CloseResourcesBalanced(w, s1);
      RestartBalanced(w, s1, st);
    }
  }

  lemma {:induction false} RunBalanced(w: World, initial: ServerState, sets: seq<ServerState>)
    ensures Balanced(w, After(MongoEnv(w), initial, sets))
    decreases |sets|
  {
    if sets == [] {
      ApplyBalanced(w, NewServer(), initial);
    } else {
      RunBalanced(w, initial, sets[..|sets| - 1]);
      ApplyBalanced(w, After(MongoEnv(w), initial, sets[..|sets| - 1]), sets[|sets| - 1]);
    }
  }

  lemma {:induction false} LiveCellsIsFirst(cells: seq<Session>)
    requires forall i :: 1 <= i < |cells| ==> cells[i].None?
    ensures LiveCells(cells) == Bit(cells != [] && cells[0].Some?)
  {
    if |cells| > 1 {
      LiveCellsIsFirst(cells[1..]);
    }
  }

  /**
   In every state that any run can reach, sessions dialled are sessions closed plus sessions
   held by a field; no session was closed twice; and once everything is closed, none is left.
   */
  lemma EverySessionIsAccountedFor(w: World, initial: ServerState, sets: seq<ServerState>)
    ensures var s := After(MongoEnv(w), initial, sets);
            && Dialled(s.log) == Closed(s.log) + (if s.relation.Some? then LiveCells(s.relation.value.cells) else 0)
            && NamedByDial(s.log) && EndsAfterDial(s.log) && EndsOnce(s.log)
    ensures var killed := CloseResources(MongoEnv(w), After(MongoEnv(w), initial, sets));
            Dialled(killed.log) == Closed(killed.log)
  {
    var s := After(MongoEnv(w), initial, sets);
    RunBalanced(w, initial, sets);
    CloseResourcesBalanced(w, s);
    if s.relation.Some? {
      LiveCellsIsFirst(s.relation.value.cells);
    }
  }

  /** The Mongo setter keeps the contract of RegisterRelationType on fields that were never set. */
  lemma MongoNeverRestartsFresh(w: World)
    ensures NeverRestartsFresh(MongoEnv(w))
  {
  }

  // ---- Crash and resume ----

  /** What can be told of a session field is whether it holds a session. */
  const HasSession: Session -> bool := (field: Session) => field.Some?

  /** A world that does not change, in which registered fields have a relationInfo. */
  ghost predicate SteadyWorld(w: World) {
    && (forall url, m, n :: w.dial(url, m) == w.dial(url, n))
    && (forall arg, cells, cells', m, n :: Same(HasSession, cells, cells') ==>
          w.construct(arg, cells, m) == w.construct(arg, cells', n))
    && (forall port, m, n :: w.listen(port, m) == w.listen(port, n))
    && (forall data :: data != [] ==> w.info(data) != Some(None))
  }

  lemma MongoIsSteady(w: World)
    requires SteadyWorld(w)
    ensures Steady(MongoEnv(w), HasSession)
  {
  }

  /** A live handler has its session. */
  ghost predicate HandlerHasSession(s: Srv<Session>) {
    s.handler.Some? ==> LiveSession(s).Some?
  }

  /** Setting a session that is there never succeeds at once, and setting a new one makes a session. */
  lemma OneSessionPass(w: World, s: Srv<Session>, st: ServerState)
    requires |w.fields| == 1 && SteadyWorld(w) && WellFormed(MongoEnv(w), s) && Complete(MongoEnv(w), st)
    ensures var (r, pass) := SetRelations(MongoEnv(w), s, st);
            && (LiveSession(s).Some? ==> !pass.AllSet?)
            && (LiveSession(s).Some? && pass.PassFailed? ==> w.info(Data(st, w.fields[0])).None?)
            && (w.info(Data(st, w.fields[0])).None? ==> pass.PassFailed?)
            && (pass.AllSet? ==> LiveSession(r).Some?)
  {
    var env := MongoEnv(w);
    var made := EnsureRelation(env, s);
    var (s1, outcome) := SetFieldValue(env, made, 0, Data(st, w.fields[0]));
    OneFieldPass(env, s, st);
    if !outcome.Failed? {
      assert SetFields(env, made, st, 0, false) == SetFields(env, s1, st, 1, outcome.RestartNeeded?);
    }
  }

  lemma ApplyKeepsSession(w: World, s: Srv<Session>, st: ServerState)
    requires |w.fields| == 1 && SteadyWorld(w) && WellFormed(MongoEnv(w), s)
    requires HandlerHasSession(s) && !Stranded(s)
    ensures HandlerHasSession(Apply(MongoEnv(w), s, st).0)
  {
    var env := MongoEnv(w);
    if Asked(st) && Complete(env, st) {
      var s1 := SetRelations(env, s, st).0;
      var closed := CloseResources(env, s1);
      OneSessionPass(w, s, st);
      OneSessionPass(w, closed, st);
      MongoNeverRestartsFresh(w);
      FreshPass(env, closed, st);
      if s.handler.None? { FreshPass(env, s, st); }
    }
  }

  lemma {:induction false} RunKeepsSession(w: World, initial: ServerState, sets: seq<ServerState>)
    requires |w.fields| == 1 && SteadyWorld(w)
    requires forall n :: 0 <= n < |sets| ==> !Stranded(After(MongoEnv(w), initial, sets[..n]))
    ensures HandlerHasSession(After(MongoEnv(w), initial, sets))
    decreases |sets|
  {
    if sets == [] {
      ApplyKeepsSession(w, NewServer(), initial);
    } else {
      hide Stranded, HandlerHasSession, SteadyWorld;
      var front := sets[..|sets| - 1];
      forall n | 0 <= n < |front| ensures !Stranded(After(MongoEnv(w), initial, front[..n])) {
        assert front[..n] == sets[..n];
      }
      RunKeepsSession(w, initial, front);
      ApplyKeepsSession(w, After(MongoEnv(w), initial, front), sets[|sets| - 1]);
    }
  }

  /**
   With one session field, in a steady world, and over a run in which no call found a relation
   value without a handler: a server that resumes from the saved file serves what the one that
   crashed served. The handler may need its session.
   */
  lemma MongoResumes(w: World, codec: Codec, initial: ServerState, sets: seq<ServerState>)
    requires |w.fields| == 1 && SteadyWorld(w) && sets != [] && RoundTrips(codec)
    requires forall n :: 0 <= n < |sets| ==> !Stranded(After(MongoEnv(w), initial, sets[..n]))
    ensures var boot := Boot(MongoEnv(w), codec, Some(codec.encode(sets[|sets| - 1])));
            boot.Some? && FacadeOf(boot.value) == FacadeOf(After(MongoEnv(w), initial, sets))
  {
    var env, front, last := MongoEnv(w), sets[..|sets| - 1], sets[|sets| - 1];
    var before := After(env, initial, front);
    forall n | 0 <= n < |front| ensures !Stranded(After(env, initial, front[..n])) {
      assert front[..n] == sets[..n];
    }
    RunKeepsSession(w, initial, front);
    MongoIsSteady(w);
    MongoNeverRestartsFresh(w);
    OneFieldResumesExactly(env, HasSession, codec, initial, sets);
    hide SteadyWorld, Boot, After, RoundTrips, Steady, NeverRestartsFresh, Stranded;
    if Complete(env, last) {
      OneSessionPass(w, before, last);
      OneSessionPass(w, NewServer(), last);
    }
  }

  // ---- Where the promise breaks ----

  predicate HasURL(w: World, st: ServerState, name: string) {
    && Data(st, name) != []
    && w.info(Data(st, name)).Some? && w.info(Data(st, name)).value.Some?
  }

  /**
   Two session fields: every dial succeeds, and yet a first pass closes the session it just
   dialled and asks for a restart, where setting each field for itself would fill both.
   */
  lemma TwoFieldsDiverge(w: World, s: Srv<Session>, st: ServerState)
    requires |w.fields| == 2 && HasURL(w, st, w.fields[0]) && HasURL(w, st, w.fields[1])
    requires forall url, now :: w.dial(url, now)
    requires WellFormed(MongoEnv(w), s) && s.relation.Some? && s.relation.value.cells == [None, None]
    ensures var (r, pass) := SetFields(MongoEnv(w), s, st, 0, false);
            pass.PassRestart? && r.relation.value.cells == [None, None]
    ensures var (r, pass) := SetOwnFields(MongoEnv(w), s, st, 0, false);
            pass.AllSet? && r.relation.Some? && r.relation.value.cells == [Some(|s.log|), Some(|s.log| + 1)]
  {
    var env := MongoEnv(w);
    var s1 := SetFieldValue(env, s, 0, Data(st, w.fields[0])).0;
    var s2 := SetFieldValue(env, s1, 1, Data(st, w.fields[1])).0;
    assert s2.relation.value.cells == [None, None];
    assert SetFields(env, s, st, 0, false) == SetFields(env, s1, st, 1, false);
    assert SetFields(env, s1, st, 1, false) == SetFields(env, s2, st, 2, true);
    var t1 := SetOwnField(env, s, 0, Data(st, w.fields[0])).0;
    var t2 := SetOwnField(env, t1, 1, Data(st, w.fields[1])).0;
    assert t2.relation.value.cells == [Some(|s.log|), Some(|s.log| + 1)];
    assert SetOwnFields(env, s, st, 0, false) == SetOwnFields(env, t1, st, 1, false);
    assert SetOwnFields(env, t1, st, 1, false) == SetOwnFields(env, t2, st, 2, false);
  }

  /** What an operator who configured two session fields is up against: everything else works. */
  predicate TwoFields(w: World, st: ServerState) {
    |w.fields| == 2 && HasURL(w, st, w.fields[0]) && HasURL(w, st, w.fields[1]) && Asked(st)
  }

  lemma NewPassRestarts(w: World, s: Srv<Session>, st: ServerState)
    requires TwoFields(w, st) && WellFormed(MongoEnv(w), s)
    requires s.relation.Some? ==> s.relation.value.cells == [None, None]
    requires forall url, now :: w.dial(url, now)
    ensures var (r, pass) := SetRelations(MongoEnv(w), s, st);
            pass.PassRestart? && r.relation.value.cells == [None, None]
  {
    var made := EnsureRelation(MongoEnv(w), s);
    assert made.relation.value.cells == [None, None];
    TwoFieldsDiverge(w, made, st);
  }

  /** With two fields a new server constructs its handler without sessions. */
  lemma TwoFieldsGetNoSession(w: World, st: ServerState)
    requires TwoFields(w, st)
    requires forall url, now :: w.dial(url, now)
    requires forall arg, cells, now :: w.construct(arg, cells, now)
    ensures var s := SetState(MongoEnv(w), NewServer(), st);
            s.handler.Some? && s.relation.Some? && s.relation.value.cells == [None, None]
  {
    NewPassRestarts(w, NewServer(), st);
  }

  /** And whenever it has such a handler, every Set reports the unexpected and leaves no handler. */
  lemma TwoFieldsReachTheUnexpected(w: World, s: Srv<Session>, st: ServerState)
    requires TwoFields(w, st) && WellFormed(MongoEnv(w), s)
    requires s.handler.Some? && s.relation.Some? && s.relation.value.cells == [None, None]
    requires forall url, now :: w.dial(url, now)
    ensures Apply(MongoEnv(w), s, st).1 == [RestartUnexpected]
    ensures Stranded(Apply(MongoEnv(w), s, st).0)
  {
    NewPassRestarts(w, s, st);
    NewPassRestarts(w, CloseResources(MongoEnv(w), SetRelations(MongoEnv(w), s, st).0), st);
  }

  /** A new server dials the one session. */
  lemma NewSession(w: World, st: ServerState)
    requires |w.fields| == 1 && HasURL(w, st, w.fields[0])
    requires forall url, now :: w.dial(url, now)
    ensures var (r, pass) := SetRelations(MongoEnv(w), NewServer(), st);
            pass.AllSet? && r.relation.Some? && r.relation.value.cells == [Some(1)] && |r.log| == 2
  {
    var env := MongoEnv(w);
    var made := EnsureRelation<Session, Option<string>>(env, NewServer());
    assert made.relation.value.cells == [None];
    var s1 := SetFieldValue(env, made, 0, Data(st, w.fields[0])).0;
    assert SetFields(env, made, st, 0, false) == SetFields(env, s1, st, 1, false);
    assert s1.relation.value.cells == [Some(1)];
  }

  /** A relation value that has its session loses it to the next pass, which asks for a restart. */
  lemma NextPassCloses(w: World, s: Srv<Session>, st: ServerState, session: nat)
    requires |w.fields| == 1 && HasURL(w, st, w.fields[0])
    requires s.relation.Some? && s.relation.value.cells == [Some(session)]
    ensures var (r, pass) := SetRelations(MongoEnv(w), s, st);
            && pass.PassRestart? && r.relation.Some? && r.relation.value.cells == [None] && |r.log| == |s.log| + 1
  {
    var env := MongoEnv(w);
    var s1 := SetFieldValue(env, s, 0, Data(st, w.fields[0])).0;
    assert s1.relation.value.cells == [None];
    assert SetFields(env, s, st, 0, false) == SetFields(env, s1, st, 1, true);
  }

  /**
   One session field, and a handler that cannot be constructed once: the server is stranded
   with a live session; the same Set again closes it and constructs the handler without one.
   */
  lemma StrandedHandlerGetsNoSession(w: World, st: ServerState)
    requires |w.fields| == 1 && HasURL(w, st, w.fields[0]) && Asked(st)
    requires forall url, now :: w.dial(url, now)
    requires forall arg, cells, now :: w.construct(arg, cells, now) <==> now > 2
    ensures var s := SetState(MongoEnv(w), NewServer(), st);
            var r := SetState(MongoEnv(w), s, st);
            && Stranded(s) && s.relation.value.cells == [Some(1)]
            && r.handler.Some? && r.relation.Some? && r.relation.value.cells == [None]
  {
    var env := MongoEnv(w);
    NewSession(w, st);
    var s := SetState(env, NewServer(), st);
    assert Stranded(s) && s.relation.value.cells == [Some(1)] && |s.log| == 3;
    NextPassCloses(w, s, st, 1);
  }

  /**
   What `MongoResumes` asks of the run is needed. Say the handler needs its session, and refuses
   the first argument. Then the server is stranded with a live session, which the second Set
   closes, and so it constructs no handler from the good argument; the server that resumes from the same file does.
   */
  lemma StrandedServerResumesMore(w: World, codec: Codec, bad: ServerState, good: ServerState)
    requires |w.fields| == 1 && RoundTrips(codec)
    requires HasURL(w, bad, w.fields[0]) && HasURL(w, good, w.fields[0]) && Asked(bad) && Asked(good)
    requires forall url, now :: w.dial(url, now)
    requires forall arg, cells: Option<seq<Session>>, now ::
               w.construct(arg, cells, now)
               <==> arg != bad.argData && cells.Some? && cells.value != [] && cells.value[0].Some?
    requires good.argData != bad.argData
    ensures var s, boot := After(MongoEnv(w), bad, [good]), Boot(MongoEnv(w), codec, Some(codec.encode(good)));
            && Stranded(After(MongoEnv(w), bad, []))
            && s.handler.None? && boot.Some? && boot.value.handler.Some?
  {
    var env := MongoEnv(w);
    NewSession(w, bad);
    NewSession(w, good);
    GetsHandlerExactly(env, good);
    var s := After(env, bad, []);
    assert Stranded(s) && s.relation.value.cells == [Some(1)];
    NextPassCloses(w, s, good, 1);
    assert [good][..0] == [];
  }
}

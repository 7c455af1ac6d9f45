/**
 The life of a server's resources, read off its event log alone.

 `Next` is a checker that knows nothing of the server: it accepts exactly the logs that are a
 sequence of generations, each of which makes a relation value, sets its fields, builds at most
 one handler with at most one listener of each kind, closes the listeners, then the handler, and
 then finalizes every field once, in order, before letting the value go. `EveryRunIsAccepted`
 shows that the server never leaves it, and the lemmas in between show what acceptance means.
 */
module ServerLifecycle {
  import opened Wrappers
  import opened ServerModel

  datatype Phase =
    | Idle
    | Serving(on: Option<nat>, handler: bool, http: bool, https: bool)
    | Closing(on: Option<nat>, handler: bool, http: bool, https: bool, finalized: nat)
    | Broken

  function StartClosing(q: Phase): Phase {
    if q.Serving? then Closing(q.on, q.handler, q.http, q.https, 0) else q
  }

  /** One step of the checker. `fields` is None when the handler takes no relations. */
  function Next<C>(fields: Option<nat>, q: Phase, e: Event<C>, at: nat): Phase {
    match e
    case NewRelation(rel) =>
      if q.Idle? && fields.Some? && rel == at then Serving(Some(rel), false, false, false) else Broken
    case SetField(rel, field, _, _, _, _, _) =>
      if q.Serving? && q.on == Some(rel) && fields.Some? && field < fields.value then q else Broken
    case Build(_, on, built) =>
      if (if fields.None? then q.Idle? && on.None? else q.Serving? && on.Some? && q.on == on && !q.handler)
      then if built then Serving(on, true, false, false) else q
      else Broken
    case Listen(listener, up) =>
      if q.Serving? && q.handler && !(if listener.HTTP? then q.http else q.https)
      then Serving(q.on, true, if listener.HTTP? then up else q.http, if listener.HTTP? then q.https else up)
      else Broken
    case CloseListener(listener) =>
      var c := StartClosing(q);
      if c.Closing? && c.handler && (if listener.HTTP? then c.http else c.https)
      then Closing(c.on, true, !listener.HTTP? && c.http, listener.HTTP? && c.https, c.finalized)
      else Broken
    case CloseHandler =>
      var c := StartClosing(q);
      if c.Closing? && c.handler && !c.http && !c.https
      then if c.on.None? then Idle else Closing(c.on, false, false, false, c.finalized)
      else Broken
    case Finalize(rel, field, _, _, _, _) =>
      var c := StartClosing(q);
      if c.Closing? && c.on == Some(rel) && !c.handler && field == c.finalized
         && fields.Some? && field < fields.value
      then Closing(c.on, false, c.http, c.https, field + 1)
      else Broken
    case DropRelation(rel) =>
      var c := StartClosing(q);
      if c.Closing? && c.on == Some(rel) && !c.handler && fields == Some(c.finalized) then Idle else Broken
  }

  function Check<C>(fields: Option<nat>, log: seq<Event<C>>): Phase {
    if log == [] then Idle
    else Next(fields, Check(fields, log[..|log| - 1]), log[|log| - 1], |log| - 1)
  }

  ghost predicate Accepted<C>(fields: Option<nat>, log: seq<Event<C>>) {
    !Check(fields, log).Broken?
  }

  lemma CheckSnoc<C>(fields: Option<nat>, log: seq<Event<C>>, e: Event<C>)
    ensures Check(fields, log + [e]) == Next(fields, Check(fields, log), e, |log|)
  {
    assert (log + [e])[..|log|] == log;
  }

  // ---- What acceptance means ----

  /** The relation value an event touches, if any. */
  function Touches<C>(e: Event<C>): Option<nat> {
    match e
    case NewRelation(rel) => Some(rel)
    case SetField(rel, _, _, _, _, _, _) => Some(rel)
    case Finalize(rel, _, _, _, _, _) => Some(rel)
    case DropRelation(rel) => Some(rel)
    case Build(_, on, _) => on
    case _ => None
  }

  /** How many times field `field` of relation value `rel` is finalized in a log. */
  function Finalizations<C>(log: seq<Event<C>>, rel: nat, field: nat): nat {
    if log == [] then 0
    else
      var e := log[|log| - 1];
      Finalizations(log[..|log| - 1], rel, field)
      + if e.Finalize? && e.rel == rel && e.field == field then 1 else 0
  }

  ghost predicate Dropped<C>(log: seq<Event<C>>, rel: nat) {
    DropRelation(rel) in log
  }

  /** The relation value of the current generation. */
  function Current(q: Phase): Option<nat> {
    if q.Serving? || q.Closing? then q.on else None
  }

  function Finalized(q: Phase): nat {
    if q.Closing? then q.finalized else 0
  }

  /** How often a relation value's field has been finalized is known from the phase alone. */
  ghost function ExpectedFinalizations<C>(fields: Option<nat>, log: seq<Event<C>>, rel: nat, field: nat): nat {
    if fields.None? || field >= fields.value then 0
    else if Dropped(log, rel) then 1
    else if Current(Check(fields, log)) == Some(rel) && field < Finalized(Check(fields, log)) then 1
    else 0
  }

  lemma DroppedSnoc<C>(log: seq<Event<C>>, e: Event<C>)
    ensures forall r: nat :: Dropped(log + [e], r) <==> Dropped(log, r) || e == DropRelation(r)
  {
  }

  /** The current relation value was made in this log and has not been let go. */
  lemma {:induction false} CurrentIsNew<C>(fields: Option<nat>, log: seq<Event<C>>)
    requires Accepted(fields, log)
    ensures var q := Check(fields, log);
            && (Current(q).Some? ==>
                  && fields.Some?
                  && Current(q).value < |log| && log[Current(q).value] == NewRelation(Current(q).value)
                  && !Dropped(log, Current(q).value))
            && (q.Closing? && fields.Some? ==> q.finalized <= fields.value)
    ensures forall r: nat :: Dropped(log, r) ==> r < |log|
  {
    if log != [] {
      var front := log[..|log| - 1];
      CurrentIsNew(fields, front);
      DroppedSnoc(front, log[|log| - 1]);
      assert log == front + [log[|log| - 1]];
    }
  }

  /** No event ever touches a relation value that was let go, and none is let go twice. */
  lemma {:induction false} NothingAfterDrop<C>(fields: Option<nat>, log: seq<Event<C>>, j: nat, k: nat)
    requires Accepted(fields, log) && j < k < |log| && log[j].DropRelation?
    ensures Touches(log[k]) != Some(log[j].rel)
  {
    var front := log[..|log| - 1];
    if k < |log| - 1 {
      NothingAfterDrop(fields, front, j, k);
    } else {
      CurrentIsNew(fields, front);
      assert front[j] == DropRelation(log[j].rel);
      assert Dropped(front, log[j].rel);
    }
  }

  /**
   Every field of a relation value that was let go has been finalized exactly once, a field of
   the current one at most once, and no field of any other relation value ever.
   */
  lemma {:induction false} FinalizedExactlyOnce<C>(fields: Option<nat>, log: seq<Event<C>>, rel: nat, field: nat)
    requires Accepted(fields, log)
    ensures Finalizations(log, rel, field) == ExpectedFinalizations(fields, log, rel, field)
  {
    if log != [] {
      var front, e := log[..|log| - 1], log[|log| - 1];
      FinalizedExactlyOnce(fields, front, rel, field);
      CurrentIsNew(fields, front);
      DroppedSnoc(front, e);
      assert log == front + [e];
    }
  }

  lemma {:induction false} AcceptedPrefix<C>(fields: Option<nat>, log: seq<Event<C>>, n: nat)
    requires Accepted(fields, log) && n <= |log|
    ensures Accepted(fields, log[..n])
  {
    if n < |log| {
      AcceptedPrefix(fields, log[..|log| - 1], n);
      assert log[..|log| - 1][..n] == log[..n];
    } else {
      assert log[..n] == log;
    }
  }

  lemma {:induction false} StillCurrentUnlessDropped<C>(fields: Option<nat>, log: seq<Event<C>>, j: nat, k: nat)
    requires Accepted(fields, log) && j < k <= |log| && log[j].NewRelation?
    ensures log[j].rel == j
    ensures Current(Check(fields, log[..k])) == Some(j) || DropRelation(j) in log[j..k]
  {
    AcceptedPrefix(fields, log, k);
    assert log[..k][..k - 1] == log[..k - 1];
    if k == j + 1 {
    } else {
      StillCurrentUnlessDropped(fields, log, j, k - 1);
      assert log[j..k] == log[j..k - 1] + [log[k - 1]];
    }
  }

  /** A generation's fields are all finalized before the next relation value is made. */
  lemma OneGenerationAtATime<C>(fields: Option<nat>, log: seq<Event<C>>, j: nat, k: nat)
    requires Accepted(fields, log) && j < k < |log| && log[j].NewRelation? && log[k].NewRelation?
    ensures DropRelation(log[j].rel) in log[j..k]
    ensures log[j].rel == j && log[k].rel == k
  {
    AcceptedPrefix(fields, log, k + 1);
    assert log[..k + 1][..k] == log[..k];
    AcceptedPrefix(fields, log, j + 1);
    assert log[..j + 1][..j] == log[..j];
    StillCurrentUnlessDropped(fields, log, j, k);
  }

  predicate Opens<C>(e: Event<C>, kind: int) {
    if kind == 0 then e.Build? && e.built
    else e.Listen? && e.up && (kind == 1 <==> e.listener.HTTP?)
  }

  predicate Closes<C>(e: Event<C>, kind: int) {
    if kind == 0 then e.CloseHandler?
    else e.CloseListener? && (kind == 1 <==> e.listener.HTTP?)
  }

  /** Handlers (kind 0), HTTP listeners (1) or HTTPS listeners (2) opened and not yet closed. */
  function Balance<C>(log: seq<Event<C>>, kind: int): int {
    if log == [] then 0
    else
      var e := log[|log| - 1];
      Balance(log[..|log| - 1], kind) + Bit(Opens(e, kind)) - Bit(Closes(e, kind))
  }

  function Live(q: Phase, kind: int): bool {
    (q.Serving? || q.Closing?) && if kind == 0 then q.handler else if kind == 1 then q.http else q.https
  }

  /** At every moment at most one handler and one listener of each kind is open. */
  lemma {:induction false} BalanceIsLive<C>(fields: Option<nat>, log: seq<Event<C>>, kind: int)
    requires Accepted(fields, log) && 0 <= kind <= 2
    ensures Balance(log, kind) == Bit(Live(Check(fields, log), kind))
    ensures Live(Check(fields, log), 1) || Live(Check(fields, log), 2) ==> Live(Check(fields, log), 0)
  {
    if log != [] {
      BalanceIsLive(fields, log[..|log| - 1], kind);
    }
  }

  // ---- Every run of the server is accepted ----

  function Fields<C, D>(env: Env<C, D>): Option<nat> {
    if env.fields.Some? then Some(|env.fields.value|) else None
  }

  function PhaseOf<C>(s: Srv<C>): Phase {
    if s.handler.None? && s.relation.None? then Idle
    else Serving(RelationId(s), s.handler.Some?, s.http.Some?, s.https.Some?)
  }

  /** The resources a server holds are the ones its log says are open. */
  ghost predicate Accounted<C, D>(env: Env<C, D>, s: Srv<C>) {
    && WellFormed(env, s)
    && (s.handler.None? ==> s.http.None? && s.https.None?)
    && (s.handler.Some? ==> s.handler.value.on == RelationId(s) && (env.fields.Some? ==> s.relation.Some?))
    && (s.http.Some? ==> s.http.value.HTTP?)
    && (s.https.Some? ==> s.https.value.HTTPS?)
    && Check(Fields(env), s.log) == PhaseOf(s)
  }

  lemma SetOneAccounted<C, D>(env: Env<C, D>, s: Srv<C>, i: nat, data: Bytes)
    requires s.relation.Some? && Accounted(env, s) && i < NumFields(env) && data != []
    ensures Accounted(env, SetFieldValue(env, s, i, data).0)
  {
    hide Check;
    var d := env.unmarshal(data);
    if d.Some? {
      var rel := s.relation.value;
      var (after, outcome) := env.setter(rel.cells[0], d.value, |s.log|);
      CheckSnoc(Fields(env), s.log, SetField(rel.id, i, 0, data, rel.cells[0], after, outcome));
    }
  }

  lemma {:induction false} SetFieldsAccounted<C, D>(env: Env<C, D>, s: Srv<C>, st: ServerState, i: nat, restart: bool)
    requires env.fields.Some? && s.relation.Some? && Accounted(env, s) && i <= NumFields(env) && Complete(env, st)
    ensures Accounted(env, SetFields(env, s, st, i, restart).0)
    decreases NumFields(env) - i
  {
    hide Check;
    if i < NumFields(env) {
      var (s1, outcome) := SetFieldValue(env, s, i, Data(st, env.fields.value[i]));
      SetOneAccounted(env, s, i, Data(st, env.fields.value[i]));
      if !outcome.Failed? {
        SetFieldsAccounted(env, s1, st, i + 1, restart || outcome.RestartNeeded?);
      }
    }
  }

  lemma SetRelationsAccounted<C, D>(env: Env<C, D>, s: Srv<C>, st: ServerState)
    requires Accounted(env, s)
    ensures Accounted(env, SetRelations(env, s, st).0)
  {
    hide Check;
    if env.fields.Some? {
      CheckSnoc(Fields(env), s.log, NewRelation(|s.log|));
      var s1 := EnsureRelation(env, s);
      assert Accounted(env, s1);
      if Complete(env, st) {
        SetFieldsAccounted(env, s1, st, 0, false);
      }
    }
  }

  /** Ready to finalize the fields from `i` on. */
  ghost predicate Finalizing<C, D>(env: Env<C, D>, s: Srv<C>, i: nat) {
    var q := Check(Fields(env), s.log);
    StartClosing(q) == Closing(RelationId(s), false, false, false, i)
  }

  /** Finalizing always calls the setter: the zero value is passed without being unmarshaled. */
  lemma FinalizeOne<C, D>(env: Env<C, D>, s: Srv<C>, i: nat)
    requires s.relation.Some? && WellFormed(env, s) && i < NumFields(env) && Finalizing(env, s, i)
    ensures var s1 := SetFieldValue(env, s, i, []).0;
            s1.relation.Some? && WellFormed(env, s1) && Finalizing(env, s1, i + 1)
  {
    hide Check;
    var rel := s.relation.value;
    var (after, outcome) := env.setter(rel.cells[0], env.zeroData, |s.log|);
    CheckSnoc(Fields(env), s.log, Finalize(rel.id, i, 0, rel.cells[0], after, outcome));
  }

  lemma DropAll<C, D>(env: Env<C, D>, s: Srv<C>)
    requires s.relation.Some? && WellFormed(env, s) && Finalizing(env, s, NumFields(env))
    ensures Check(Fields(env), FinalizeFrom(env, s, NumFields(env)).log).Idle?
  {
    hide Check;
    CheckSnoc(Fields(env), s.log, DropRelation(s.relation.value.id));
  }

  lemma UnfoldFinalize<C, D>(env: Env<C, D>, s: Srv<C>, i: nat)
    requires s.relation.Some? && WellFormed(env, s) && i < NumFields(env)
    ensures FinalizeFrom(env, s, i) == FinalizeFrom(env, SetFieldValue(env, s, i, []).0, i + 1)
  {
  }

  lemma {:induction false} FinalizeFromIdle<C, D>(env: Env<C, D>, s: Srv<C>, i: nat)
    requires s.relation.Some? && WellFormed(env, s) && i <= NumFields(env) && Finalizing(env, s, i)
    ensures Check(Fields(env), FinalizeFrom(env, s, i).log).Idle?
    decreases NumFields(env) - i
  {
    hide Check;
    if i == NumFields(env) {
      DropAll(env, s);
    } else {
      var s1 := SetFieldValue(env, s, i, []).0;
      FinalizeOne(env, s, i);
      FinalizeFromIdle(env, s1, i + 1);
      UnfoldFinalize(env, s, i);
    }
  }

  /** The resources still held while shutting down are the ones the log says are still open. */
  ghost predicate ShuttingDown<C, D>(env: Env<C, D>, s: Srv<C>) {
    var q := Check(Fields(env), s.log);
    if s.handler.None? && s.relation.None? then q.Idle? && s.http.None? && s.https.None?
    else StartClosing(q) == Closing(RelationId(s), s.handler.Some?, s.http.Some?, s.https.Some?, 0)
  }

  lemma CloseHTTPShuts<C, D>(env: Env<C, D>, s: Srv<C>)
    requires ShuttingDown(env, s) && (s.handler.None? ==> s.http.None?) && (s.http.Some? ==> s.http.value.HTTP?)
    ensures ShuttingDown(env, CloseHTTP(s))
  {
    hide Check;
    if s.http.Some? { CheckSnoc(Fields(env), s.log, CloseListener(s.http.value)); }
  }

  lemma CloseHTTPSShuts<C, D>(env: Env<C, D>, s: Srv<C>)
    requires ShuttingDown(env, s) && (s.handler.None? ==> s.https.None?) && (s.https.Some? ==> s.https.value.HTTPS?)
    ensures ShuttingDown(env, CloseHTTPS(s))
  {
    hide Check;
    if s.https.Some? { CheckSnoc(Fields(env), s.log, CloseListener(s.https.value)); }
  }

  lemma StopHandlerShuts<C, D>(env: Env<C, D>, s: Srv<C>)
    requires ShuttingDown(env, s) && s.http.None? && s.https.None?
    ensures ShuttingDown(env, StopHandler(s))
  {
    hide Check;
    if s.handler.Some? { CheckSnoc(Fields(env), s.log, CloseHandler); }
  }

  /** The HTTP listener is closed first, then the HTTPS listener, then the handler, and the fields follow. */
  lemma ClosesInOrder<C, D>(env: Env<C, D>, s: Srv<C>)
    requires WellFormed(env, s)
    ensures var http := if s.http.Some? then [CloseListener(s.http.value)] else [];
            var https := if s.https.Some? then [CloseListener(s.https.value)] else [];
            var handler := if s.handler.Some? then [CloseHandler] else [];
            s.log + http + https + handler <= CloseResources(env, s).log
  {
    var s1 := CloseHTTP(s);
    var s2 := CloseHTTPS(s1);
    var s3 := StopHandler(s2);
    assert s3.log <= FinalizeFields(env, s3).log;
  }

  lemma CloseResourcesAccounted<C, D>(env: Env<C, D>, s: Srv<C>)
    requires Accounted(env, s)
    ensures Accounted(env, CloseResources(env, s))
  {
    hide Check;
    var s1 := CloseHTTP(s);
    var s2 := CloseHTTPS(s1);
    var s3 := StopHandler(s2);
    CloseHTTPShuts(env, s);
    CloseHTTPSShuts(env, s1);
    StopHandlerShuts(env, s2);
    if s.relation.Some? { FinalizeFromIdle(env, s3, 0); }
  }

  /** What `Accounted` says of a server between constructing the handler and recording it. */
  ghost predicate Starting<C, D>(env: Env<C, D>, s: Srv<C>) {
    && s.handler.None?
    && Check(Fields(env), s.log) == Serving(RelationId(s), true, s.http.Some?, s.https.Some?)
  }

  lemma StartHTTPStarts<C, D>(env: Env<C, D>, s: Srv<C>, st: ServerState)
    requires Starting(env, s)
    ensures Starting(env, StartHTTP(env, s, st).0)
  {
    hide Check;
    if s.http.None? && HTTPOk(st) {
      CheckSnoc(Fields(env), s.log, Listen(HTTP(st.httpPort), env.listen(st.httpPort, |s.log|)));
    }
  }

  lemma StartHTTPSStarts<C, D>(env: Env<C, D>, s: Srv<C>, st: ServerState)
    requires Starting(env, s)
    ensures Starting(env, StartHTTPS(env, s, st).0)
  {
    hide Check;
    if s.https.None? && HTTPSOk(st) {
      var up := env.validCert(st.certPEM) && env.listen(st.httpsPort, |s.log|);
      CheckSnoc(Fields(env), s.log, Listen(HTTPS(st.httpsPort, st.certPEM), up));
    }
  }

  lemma StartHandlerAccounted<C, D>(env: Env<C, D>, s: Srv<C>, st: ServerState)
    requires Accounted(env, s) && s.handler.None? && (env.fields.Some? ==> s.relation.Some?)
    ensures Accounted(env, StartHandler(env, s, st).0)
  {
    hide Check;
    var built := env.construct(st.argData, RelationCells(s), |s.log|);
    CheckSnoc(Fields(env), s.log, Build(st.argData, RelationId(s), built));
    if built {
      var s1 := s.(log := s.log + [Build(st.argData, RelationId(s), built)]);
      StartHTTPStarts(env, s1, st);
      StartHTTPSStarts(env, StartHTTP(env, s1, st).0, st);
    }
  }

  lemma RestartAccounted<C, D>(env: Env<C, D>, s: Srv<C>, st: ServerState)
    requires Accounted(env, s) && (env.fields.Some? ==> s.relation.Some?)
    ensures Accounted(env, Restart(env, s, st).0)
  {
    hide Check;
    var s1 := if s.handler.Some? then CloseResources(env, s) else s;
    CloseResourcesAccounted(env, s);
    SetRelationsAccounted(env, s1, st);
    var (s2, pass) := if s1.relation.None? then SetRelations(env, s1, st) else (s1, AllSet);
    if pass.AllSet? {
      StartHandlerAccounted(env, s2, st);
    }
  }

  lemma ApplyAccounted<C, D>(env: Env<C, D>, s: Srv<C>, st: ServerState)
    requires Accounted(env, s)
    ensures Accounted(env, Apply(env, s, st).0)
  {
    hide Check;
    CloseResourcesAccounted(env, s);
    if Usable(st) {
      SetRelationsAccounted(env, s, st);
      var s1 := SetRelations(env, s, st).0;
      CloseResourcesAccounted(env, s1);
      RestartAccounted(env, s1, st);
    }
  }

  /** Over every run and every world, the log is a sequence of generations, and the server holds what it says. */
  lemma {:induction false} EveryRunIsAccepted<C, D>(env: Env<C, D>, initial: ServerState, sets: seq<ServerState>)
    ensures var s := After(env, initial, sets);
            && Accounted(env, s) && Accepted(Fields(env), s.log)
            && Accounted(env, CloseResources(env, s))
            && Check(Fields(env), CloseResources(env, s).log).Idle?
    decreases |sets|
  {
    if sets == [] {
      ApplyAccounted(env, NewServer(), initial);
    } else {
      var before := After(env, initial, sets[..|sets| - 1]);
      EveryRunIsAccepted(env, initial, sets[..|sets| - 1]);
      ApplyAccounted(env, before, sets[|sets| - 1]);
    }
    CloseResourcesAccounted(env, After(env, initial, sets));
  }

  /**
   When a server has been killed, whatever its run was, every relation value it ever made has had
   every field finalized exactly once, and was then let go.
   */
  lemma KilledServerFinalizedAll<C, D>(
    env: Env<C, D>, initial: ServerState, sets: seq<ServerState>, at: nat, field: nat)
    requires var log := CloseResources(env, After(env, initial, sets)).log; at < |log| && log[at].NewRelation?
    requires field < NumFields(env)
    ensures var log := CloseResources(env, After(env, initial, sets)).log;
            log[at].rel == at && Dropped(log, at) && Finalizations(log, at, field) == 1
  {
    var log := CloseResources(env, After(env, initial, sets)).log;
    EveryRunIsAccepted(env, initial, sets);
    assert log[..|log|] == log;
    StillCurrentUnlessDropped(Fields(env), log, at, |log|);
    FinalizedExactlyOnce(Fields(env), log, at, field);
  }

  /** And every handler and listener it ever opened is closed. */
  lemma KilledServerClosedAll<C, D>(env: Env<C, D>, initial: ServerState, sets: seq<ServerState>, kind: int)
    requires 0 <= kind <= 2
    ensures Balance(CloseResources(env, After(env, initial, sets)).log, kind) == 0
  {
    EveryRunIsAccepted(env, initial, sets);
    BalanceIsLive(Fields(env), CloseResources(env, After(env, initial, sets)).log, kind);
  }
}

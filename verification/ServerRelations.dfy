/**
 How relation fields reach the handler.

 The documentation of RegisterRelationType promises a handler whose relation fields are filled
 in. `HandlerGetsFieldsExactly` says exactly when the server keeps that promise, from any state;
 `EveryBuildIsFilled` follows it over runs. The branches of server.set that report the
 unexpected are shown unreachable, or reachable only by setters that break their contract.
 */
module ServerRelations {
  import opened Wrappers
  import opened ServerModel
  import opened ServerLifecycle

  /** Relation data is complete when each field of the struct has some. */
  lemma CompleteExactly<C, D>(env: Env<C, D>, st: ServerState)
    ensures Complete(env, st)
            <==> (env.fields.Some? ==>
                    forall name :: name in env.fields.value ==>
                      name in st.relationValues && st.relationValues[name] != [])
  {
    if env.fields.Some? {
      forall name | name in env.fields.value && Complete(env, st)
        ensures name in st.relationValues && st.relationValues[name] != []
      {
        var i :| 0 <= i < |env.fields.value| && env.fields.value[i] == name;
        assert Data(st, env.fields.value[i]) != [];
      }
    }
  }

  // ---- The branches that should not be reached ----

  lemma StartHandlerWarnings<C, D>(env: Env<C, D>, s: Srv<C>, st: ServerState)
    ensures var w := StartHandler(env, s, st).1;
            forall x :: x in w ==> x == NoHandler || x == NoHTTP || x == NoHTTPS
    ensures NoHandler in StartHandler(env, s, st).1
            <==> !env.construct(st.argData, RelationCells(s), |s.log|)
  {
  }

  /** What server.set reports when it gets past the shortcut. */
  lemma RestartWarnings<C, D>(env: Env<C, D>, s: Srv<C>, st: ServerState)
    requires WellFormed(env, s)
    ensures var s1 := if s.handler.Some? then CloseResources(env, s) else s;
            var (r, w) := Restart(env, s, st);
            && RelationsNotSet !in w
            && (IncompleteUnexpected in w <==> s1.relation.None? && SetRelations(env, s1, st).1.PassIncomplete?)
            && (RestartUnexpected in w <==> s1.relation.None? && SetRelations(env, s1, st).1.PassRestart?)
            && (RebuildNotSet in w <==> s1.relation.None? && SetRelations(env, s1, st).1.PassFailed?)
            && (RestartUnexpected in w || RebuildNotSet in w || IncompleteUnexpected in w || NoHandler in w
                <==> r.handler.None?)
  {
    var s1 := if s.handler.Some? then CloseResources(env, s) else s;
    var s2 := if s1.relation.None? then SetRelations(env, s1, st).0 else s1;
    StartHandlerWarnings(env, s2, st);
  }

  /** "relation unexpectedly incomplete" cannot be reported from any state, by any setter. */
  lemma IncompleteUnreachable<C, D>(env: Env<C, D>, s: Srv<C>, st: ServerState)
    requires WellFormed(env, s)
    ensures IncompleteUnexpected !in Apply(env, s, st).1
  {
    if Usable(st) && Complete(env, st) {
      RestartWarnings(env, SetRelations(env, s, st).0, st);
    }
  }

  /** Setters as documented: a field that was never set is never a reason to restart. */
  ghost predicate NeverRestartsFresh<C, D(!new)>(env: Env<C, D>) {
    forall d, n :: !env.setter(env.zeroCell, d, n).1.RestartNeeded?
  }

  /** With one field, a pass over a new relation value then never asks for a restart. */
  lemma FreshPass<C, D(!new)>(env: Env<C, D>, s: Srv<C>, st: ServerState)
    requires NeverRestartsFresh(env) && NumFields(env) <= 1 && s.relation.None?
    ensures !SetRelations(env, s, st).1.PassRestart?
  {
    if env.fields.Some? && Complete(env, st) && NumFields(env) == 1 {
      var s1 := EnsureRelation(env, s);
      var (s2, outcome) := SetFieldValue(env, s1, 0, Data(st, env.fields.value[0]));
      assert s1.relation.value.cells[0] == env.zeroCell;
      if !outcome.Failed? {
        assert SetFields(env, s1, st, 0, false) == SetFields(env, s2, st, 1, outcome.RestartNeeded?);
      }
    }
  }

  /** "restart unexpectedly needed" is out of reach of such setters. */
  lemma RestartUnreachable<C, D(!new)>(env: Env<C, D>, s: Srv<C>, st: ServerState)
    requires WellFormed(env, s) && NeverRestartsFresh(env) && NumFields(env) <= 1
    ensures RestartUnexpected !in Apply(env, s, st).1
  {
    if Usable(st) {
      var s1 := SetRelations(env, s, st).0;
      var s2 := if s1.handler.Some? then CloseResources(env, s1) else s1;
      RestartWarnings(env, s1, st);
      if s2.relation.None? { FreshPass(env, s2, st); }
    }
  }

  // ---- What a handler is constructed from ----

  /** The setter was called for field `field`, on the first cell, with the data that `st` holds for it. */
  ghost predicate SetsField<C, D>(env: Env<C, D>, st: ServerState, e: Event<C>, rel: nat, field: int) {
    && env.fields.Some? && 0 <= field < NumFields(env)
    && e.SetField? && e.rel == rel && e.field == field && e.cell == 0
    && env.fields.value[field] in st.relationValues && e.data == st.relationValues[env.fields.value[field]]
    && e.data != [] && !e.outcome.Failed?
  }

  /** The stretch of a log in which the setters of the fields from `first` on are called, in order. */
  ghost predicate Passes<C, D>(
    env: Env<C, D>, st: ServerState, log: seq<Event<C>>, from: int, to: int, rel: nat, first: nat)
  {
    && 0 <= from <= to <= |log|
    && forall k :: from <= k < to ==> SetsField(env, st, log[k], rel, k - from + first)
  }

  ghost predicate AllDone<C>(log: seq<Event<C>>, from: int, to: int)
    requires 0 <= from <= to <= |log|
  {
    forall k :: from <= k < to ==> log[k].SetField? && log[k].outcome == Done
  }

  /**
   The event at `k` constructs a handler from a relation value whose every field, in order, was
   just set successfully, in its own cell, from the data that `st` holds for it.
   */
  ghost predicate Filled<C, D>(env: Env<C, D>, st: ServerState, log: seq<Event<C>>, k: nat)
    requires env.fields.Some? && k < |log| && log[k].Build?
  {
    var n := NumFields(env);
    && n <= k && log[k].on.Some?
    && Passes(env, st, log, k - n, k, log[k].on.value, 0)
    && AllDone(log, k - n, k)
    && forall j :: k - n <= j < k ==> log[j].cell == log[j].field
  }

  lemma OneCall<C, D>(env: Env<C, D>, s: Srv<C>, st: ServerState, i: nat)
    requires env.fields.Some? && s.relation.Some? && WellFormed(env, s) && i < NumFields(env) && Complete(env, st)
    ensures var (s1, outcome) := SetFieldValue(env, s, i, Data(st, env.fields.value[i]));
            && |s1.log| <= |s.log| + 1
            && (|s1.log| == |s.log| + 1 ==> s1.log[|s.log|].SetField? && s1.log[|s.log|].outcome == outcome)
            && (!outcome.Failed? ==>
                  |s1.log| == |s.log| + 1 && SetsField(env, st, s1.log[|s.log|], s.relation.value.id, i))
  {
  }

  /** What the log says of a pass, from position `from` and field `i` on, that came out as `pass`. */
  ghost predicate PassLogged<C, D>(
    env: Env<C, D>, st: ServerState, log: seq<Event<C>>, from: nat, rel: nat, i: nat, restart: bool, pass: Pass)
  {
    && from <= |log|
    && (forall k :: from <= k < |log| ==> log[k].SetField?)
    && (!pass.PassFailed? ==> |log| == from + NumFields(env) - i && Passes(env, st, log, from, |log|, rel, i))
    && (pass.AllSet? <==> (!pass.PassFailed? && !restart && AllDone(log, from, |log|)))
  }

  lemma PassCons<C, D>(
    env: Env<C, D>, st: ServerState, log: seq<Event<C>>, from: nat, rel: nat, i: nat, restart: bool, pass: Pass)
    requires from < |log| && SetsField(env, st, log[from], rel, i)
    requires PassLogged(env, st, log, from + 1, rel, i + 1, restart || log[from].outcome.RestartNeeded?, pass)
    ensures PassLogged(env, st, log, from, rel, i, restart, pass)
  {
    assert AllDone(log, from, |log|) <==> AllDone(log, from + 1, |log|) && log[from].outcome == Done;
  }

  lemma PassMore<C, D>(
    env: Env<C, D>, st: ServerState, log: seq<Event<C>>, next: seq<Event<C>>, longer: seq<Event<C>>,
    rel: nat, i: nat, restart: bool, pass: Pass)
    requires |next| == |log| + 1 && next <= longer && SetsField(env, st, next[|log|], rel, i)
    requires PassLogged(env, st, longer, |next|, rel, i + 1, restart || next[|log|].outcome.RestartNeeded?, pass)
    ensures PassLogged(env, st, longer, |log|, rel, i, restart, pass)
  {
    assert longer[|log|] == next[|log|];
    PassCons(env, st, longer, |log|, rel, i, restart, pass);
  }

  /** A pass that does not fail calls the setter of each field in order, and does nothing else. */
  lemma {:induction false} PassLog<C, D>(env: Env<C, D>, s: Srv<C>, st: ServerState, i: nat, restart: bool)
    requires env.fields.Some? && s.relation.Some? && WellFormed(env, s) && i <= NumFields(env) && Complete(env, st)
    ensures var (r, pass) := SetFields(env, s, st, i, restart);
            PassLogged(env, st, r.log, |s.log|, s.relation.value.id, i, restart, pass)
    decreases NumFields(env) - i
  {
    if i < NumFields(env) {
      hide Passes, AllDone;
      var (s1, outcome) := SetFieldValue(env, s, i, Data(st, env.fields.value[i]));
      var restart' := restart || outcome.RestartNeeded?;
      OneCall(env, s, st, i);
      if outcome.Failed? {
        assert SetFields(env, s, st, i, restart) == (s1, PassFailed);
      } else {
        PassLog(env, s1, st, i + 1, restart');
        PassMore(env, st, s.log, s1.log, SetFields(env, s1, st, i + 1, restart').0.log, s.relation.value.id, i,
                 restart, SetFields(env, s1, st, i + 1, restart').1);
      }
    }
  }

  /**
   The log from position `from` on is a pass from field `i` on, field by field, that stopped at
   the first setter that failed, or at data that cannot be decoded, if there was any.
   */
  ghost predicate Stops<C, D>(
    env: Env<C, D>, st: ServerState, log: seq<Event<C>>, from: nat, i: nat, pass: Pass)
    requires env.fields.Some?
  {
    var next := i + |log| - from;
    && from <= |log|
    && (forall k :: from <= k < |log| ==> log[k].SetField? && log[k].field == k - from + i)
    && (forall k :: from <= k < |log| - 1 ==> !log[k].outcome.Failed?)
    && (pass.PassFailed? <==>
          || (from < |log| && log[|log| - 1].outcome.Failed?)
          || (0 <= next < NumFields(env) && env.unmarshal(Data(st, env.fields.value[next])).None?))
  }

  lemma StopsCons<C, D>(env: Env<C, D>, st: ServerState, log: seq<Event<C>>, from: nat, i: nat, pass: Pass)
    requires env.fields.Some? && from < |log|
    requires log[from].SetField? && log[from].field == i && !log[from].outcome.Failed?
    requires Stops(env, st, log, from + 1, i + 1, pass)
    ensures Stops(env, st, log, from, i, pass)
  {
  }

  lemma FailedFieldStops<C, D>(env: Env<C, D>, s: Srv<C>, st: ServerState, i: nat)
    requires env.fields.Some? && s.relation.Some? && WellFormed(env, s) && i < NumFields(env) && Complete(env, st)
    requires SetFieldValue(env, s, i, Data(st, env.fields.value[i])).1.Failed?
    ensures var s1 := SetFieldValue(env, s, i, Data(st, env.fields.value[i])).0;
            Stops(env, st, s1.log, |s.log|, i, PassFailed)
  {
    assert Data(st, env.fields.value[i]) != [];
  }

  /** What follows a setter that did not fail is the rest of the pass. */
  lemma FieldDone<C, D>(env: Env<C, D>, s: Srv<C>, st: ServerState, i: nat, restart: bool)
    requires env.fields.Some? && s.relation.Some? && WellFormed(env, s) && i < NumFields(env) && Complete(env, st)
    requires var (s1, outcome) := SetFieldValue(env, s, i, Data(st, env.fields.value[i]));
             var (r, pass) := SetFields(env, s1, st, i + 1, restart || outcome.RestartNeeded?);
             !outcome.Failed? && Stops(env, st, r.log, |s1.log|, i + 1, pass)
    ensures var (r, pass) := SetFields(env, s, st, i, restart); Stops(env, st, r.log, |s.log|, i, pass)
  {
    hide Stops;
    var (s1, outcome) := SetFieldValue(env, s, i, Data(st, env.fields.value[i]));
    var (r, pass) := SetFields(env, s1, st, i + 1, restart || outcome.RestartNeeded?);
    OneCall(env, s, st, i);
    assert SetFields(env, s, st, i, restart) == (r, pass);
    assert s1.log <= r.log && r.log[|s.log|] == s1.log[|s.log|];
    hide SetFields, SetFieldValue;
    StopsCons(env, st, r.log, |s.log|, i, pass);
  }

  /** A pass that fails stops there: no setter is called after one that failed, or after data that cannot be decoded. */
  lemma {:induction false} FailureStopsPass<C, D>(env: Env<C, D>, s: Srv<C>, st: ServerState, i: nat, restart: bool)
    requires env.fields.Some? && s.relation.Some? && WellFormed(env, s) && i <= NumFields(env) && Complete(env, st)
    ensures var (r, pass) := SetFields(env, s, st, i, restart); Stops(env, st, r.log, |s.log|, i, pass)
    decreases NumFields(env) - i
  {
    if i < NumFields(env) {
      hide Stops;
      var (s1, outcome) := SetFieldValue(env, s, i, Data(st, env.fields.value[i]));
      if outcome.Failed? {
        FailedFieldStops(env, s, st, i);
      } else {
        var restart' := restart || outcome.RestartNeeded?;
        FailureStopsPass(env, s1, st, i + 1, restart');
        FieldDone(env, s, st, i, restart);
      }
    }
  }

  /** No handler is constructed in a stretch of a log. */
  ghost predicate NoBuild<C>(log: seq<Event<C>>, from: nat) {
    forall k :: from <= k < |log| ==> !log[k].Build?
  }

  lemma {:induction false} FinalizeBuildsNothing<C, D>(env: Env<C, D>, s: Srv<C>, i: nat, from: nat)
    requires s.relation.Some? && WellFormed(env, s) && i <= NumFields(env) && NoBuild(s.log, from)
    ensures NoBuild(FinalizeFrom(env, s, i).log, from)
    decreases NumFields(env) - i
  {
    if i < NumFields(env) {
      FinalizeBuildsNothing(env, SetFieldValue(env, s, i, []).0, i + 1, from);
    }
  }

  lemma CloseBuildsNothing<C, D>(env: Env<C, D>, s: Srv<C>, from: nat)
    requires WellFormed(env, s) && NoBuild(s.log, from)
    ensures NoBuild(CloseResources(env, s).log, from)
  {
    var s3 := StopHandler(CloseHTTPS(CloseHTTP(s)));
    assert NoBuild(s3.log, from);
    if s.relation.Some? {
      FinalizeBuildsNothing(env, s3, 0, from);
    }
  }

  /** The log ends with a pass over all the fields of the current relation value. */
  ghost predicate JustPassed<C, D>(env: Env<C, D>, s: Srv<C>, st: ServerState, allDone: bool)
    requires env.fields.Some?
  {
    var from := |s.log| - NumFields(env);
    && s.relation.Some?
    && Passes(env, st, s.log, from, |s.log|, s.relation.value.id, 0)
    && (allDone <==> AllDone(s.log, from, |s.log|))
  }

  lemma SetRelationsPasses<C, D>(env: Env<C, D>, s: Srv<C>, st: ServerState)
    requires WellFormed(env, s) && env.fields.Some?
    ensures var (r, pass) := SetRelations(env, s, st);
            && NoBuild(r.log, |s.log|)
            && (pass.AllSet? || pass.PassRestart? ==> JustPassed(env, r, st, pass.AllSet?))
  {
    if Complete(env, st) {
      PassLog(env, EnsureRelation(env, s), st, 0, false);
    }
  }

  /** Starting a handler first constructs it, and constructs no other. */
  lemma StartHandlerLog<C, D>(env: Env<C, D>, s: Srv<C>, st: ServerState)
    ensures var r := StartHandler(env, s, st).0;
            && s.log <= r.log && |s.log| < |r.log| && NoBuild(r.log, |s.log| + 1)
            && r.log[|s.log|].Build? && r.log[|s.log|].on == RelationId(s)
  {
    var built := env.construct(st.argData, RelationCells(s), |s.log|);
    var s1 := s.(log := s.log + [Build(st.argData, RelationId(s), built)]);
    assert s1.log <= StartHandler(env, s, st).0.log;
  }

  /** Whether a handler constructed right after a pass is filled depends on that pass alone. */
  lemma FilledAfterPass<C, D>(
    env: Env<C, D>, st: ServerState, log: seq<Event<C>>, longer: seq<Event<C>>, rel: nat, allDone: bool)
    requires env.fields.Some? && log <= longer && |log| < |longer|
    requires longer[|log|].Build? && longer[|log|].on == Some(rel)
    requires Passes(env, st, log, |log| - NumFields(env), |log|, rel, 0)
    requires allDone <==> AllDone(log, |log| - NumFields(env), |log|)
    ensures Filled(env, st, longer, |log|) <==> NumFields(env) <= 1 && allDone
  {
    var from := |log| - NumFields(env);
    assert forall k :: 0 <= k < |log| ==> longer[k] == log[k];
    assert AllDone(longer, from, |log|) <==> AllDone(log, from, |log|);
    if NumFields(env) >= 2 {
      assert SetsField(env, st, log[from + 1], rel, 1);
    }
  }

  lemma StartHandlerFilled<C, D>(env: Env<C, D>, s: Srv<C>, st: ServerState, allDone: bool)
    requires env.fields.Some? && JustPassed(env, s, st, allDone)
    ensures var r := StartHandler(env, s, st).0;
            && |s.log| < |r.log| && r.log[|s.log|].Build? && NoBuild(r.log, |s.log| + 1)
            && (Filled(env, st, r.log, |s.log|) <==> NumFields(env) <= 1 && allDone)
  {
    StartHandlerLog(env, s, st);
    FilledAfterPass(env, st, s.log, StartHandler(env, s, st).0.log, s.relation.value.id, allDone);
  }

  lemma NoBuildExtends<C>(log: seq<Event<C>>, longer: seq<Event<C>>, from: nat)
    requires log <= longer && NoBuild(log, from) && NoBuild(longer, |log|)
    ensures NoBuild(longer, from)
  {
    assert forall j :: 0 <= j < |log| ==> longer[j] == log[j];
  }

  lemma StartHandlerFilledAt<C, D>(env: Env<C, D>, s: Srv<C>, st: ServerState, allDone: bool, from: nat, k: nat)
    requires env.fields.Some? && JustPassed(env, s, st, allDone) && from <= |s.log| && NoBuild(s.log, from)
    requires var r := StartHandler(env, s, st).0; from <= k < |r.log| && r.log[k].Build?
    ensures Filled(env, st, StartHandler(env, s, st).0.log, k) <==> NumFields(env) <= 1 && allDone
  {
    StartHandlerFilled(env, s, st, allDone);
    var r := StartHandler(env, s, st).0;
    assert forall j :: 0 <= j < |s.log| ==> r.log[j] == s.log[j];
    assert k == |s.log|;
  }

  /** The same for everything past the shortcut, whose only construction is at `k`. */
  lemma RestartFilled<C, D>(env: Env<C, D>, s: Srv<C>, st: ServerState, allDone: bool, from: nat, k: nat)
    requires env.fields.Some? && WellFormed(env, s) && JustPassed(env, s, st, allDone)
    requires from <= |s.log| && NoBuild(s.log, from)
    requires var r := Restart(env, s, st).0; from <= k < |r.log| && r.log[k].Build?
    ensures Filled(env, st, Restart(env, s, st).0.log, k)
            <==> NumFields(env) <= 1 && (s.handler.None? ==> allDone)
  {
    if s.handler.None? {
      StartHandlerFilledAt(env, s, st, allDone, from, k);
    } else {
      CloseBuildsNothing(env, s, from);
      var s1 := CloseResources(env, s);
      SetRelationsPasses(env, s1, st);
      var (s2, pass) := SetRelations(env, s1, st);
      NoBuildExtends(s1.log, s2.log, from);
      if pass.AllSet? {
        StartHandlerFilledAt(env, s2, st, true, from, k);
      }
    }
  }

  /** The condition under which the server constructs a handler from fields that were not all set. */
  predicate RestartsWithoutHandler<C, D>(env: Env<C, D>, s: Srv<C>, st: ServerState)
    requires WellFormed(env, s)
  {
    s.handler.None? && SetRelations(env, s, st).1.PassRestart?
  }

  /**
   Exactly when a handler is constructed from fields all just set from the current data: the
   struct has at most one field (every setter is handed the first one), and it is not the case
   that there was no handler while the setters asked for a restart.
   */
  lemma HandlerGetsFieldsExactly<C, D>(env: Env<C, D>, s: Srv<C>, st: ServerState, k: nat)
    requires env.fields.Some? && Accounted(env, s)
    requires var r := Apply(env, s, st).0; |s.log| <= k < |r.log| && r.log[k].Build?
    ensures Filled(env, st, Apply(env, s, st).0.log, k)
            <==> NumFields(env) <= 1 && !RestartsWithoutHandler(env, s, st)
  {
    CloseBuildsNothing(env, s, |s.log|);
    SetRelationsPasses(env, s, st);
    var (s1, pass) := SetRelations(env, s, st);
    CloseBuildsNothing(env, s1, |s.log|);
    if pass.AllSet? || pass.PassRestart? {
      RestartFilled(env, s1, st, pass.AllSet?, |s.log|, k);
    }
  }

  // ---- Runs ----

  /** A relation value without a handler: server.set left through line 238 to 250 or 253 to 256. */
  predicate Stranded<C>(s: Srv<C>) {
    s.handler.None? && s.relation.Some?
  }

  lemma RestartHasRelation<C, D>(env: Env<C, D>, s: Srv<C>, st: ServerState)
    requires WellFormed(env, s)
    ensures Restart(env, s, st).0.relation.Some? <==> env.fields.Some?
  {
  }

  /** The caller of Set is told of exactly these two exits. */
  lemma StrandedExactly<C, D>(env: Env<C, D>, s: Srv<C>, st: ServerState)
    requires Accounted(env, s)
    ensures var (r, w) := Apply(env, s, st);
            Stranded(r) <==>
              env.fields.Some? && (RestartUnexpected in w || RebuildNotSet in w || NoHandler in w)
  {
    hide Check;
    if Usable(st) {
      var (s1, pass) := SetRelations(env, s, st);
      if !pass.PassIncomplete? {
        RestartWarnings(env, s1, st);
        RestartHasRelation(env, s1, st);
      }
    }
  }

  /** Every handler constructed by the given call to Set got all its fields. */
  ghost predicate BuildsFilled<C, D>(env: Env<C, D>, s: Srv<C>, st: ServerState)
    requires WellFormed(env, s) && env.fields.Some?
  {
    var log := Apply(env, s, st).0.log;
    forall k: nat :: |s.log| <= k < |log| && log[k].Build? ==> Filled(env, st, log, k)
  }

  lemma StepIsFilled<C, D(!new)>(env: Env<C, D>, s: Srv<C>, st: ServerState)
    requires env.fields.Some? && Accounted(env, s) && !Stranded(s)
    requires NeverRestartsFresh(env) && NumFields(env) <= 1
    ensures BuildsFilled(env, s, st)
  {
    if s.handler.None? { FreshPass(env, s, st); }
    var log := Apply(env, s, st).0.log;
    forall k: nat | |s.log| <= k < |log| && log[k].Build? ensures Filled(env, st, log, k) {
      HandlerGetsFieldsExactly(env, s, st, k);
    }
  }

  /**
   Over any run that never left through the two exits, with setters as documented and at most
   one field: every handler ever constructed got every field, set from the current data.
   */
  lemma EveryBuildIsFilled<C, D(!new)>(
    env: Env<C, D>, initial: ServerState, sets: seq<ServerState>, st: ServerState)
    requires env.fields.Some? && NeverRestartsFresh(env) && NumFields(env) <= 1
    requires forall n :: 0 <= n <= |sets| ==> !Stranded(After(env, initial, sets[..n]))
    ensures BuildsFilled(env, NewServer(), initial)
    ensures forall n :: 0 <= n < |sets| ==> BuildsFilled(env, After(env, initial, sets[..n]), sets[n])
    ensures BuildsFilled(env, After(env, initial, sets), st)
  {
    StepIsFilled(env, NewServer(), initial);
    forall n | 0 <= n < |sets| ensures BuildsFilled(env, After(env, initial, sets[..n]), sets[n]) {
      EveryRunIsAccepted(env, initial, sets[..n]);
      StepIsFilled(env, After(env, initial, sets[..n]), sets[n]);
    }
    EveryRunIsAccepted(env, initial, sets);
    assert sets[..|sets|] == sets;
    StepIsFilled(env, After(env, initial, sets), st);
  }

  // ---- The field that setters are handed ----

  /** server.setFieldValue with the field's own cell, as its documentation has it. */
  function SetOwnField<C, D>(env: Env<C, D>, s: Srv<C>, field: nat, data: Bytes): (r: (Srv<C>, Outcome))
    requires s.relation.Some? && field < |s.relation.value.cells|
    ensures OnlyCellsChanged(s, r.0)
  {
    var decoded := if data == [] then Some(env.zeroData) else env.unmarshal(data);
    if decoded.None? then (s, Failed)
    else
      var rel := s.relation.value;
      var before := rel.cells[field];
      var (after, outcome) := env.setter(before, decoded.value, |s.log|);
      var e := if data == [] then Finalize(rel.id, field, field, before, after, outcome)
               else SetField(rel.id, field, field, data, before, after, outcome);
      (s.(relation := Some(rel.(cells := rel.cells[field := after])), log := s.log + [e]), outcome)
  }

  function SetOwnFields<C, D>(env: Env<C, D>, s: Srv<C>, st: ServerState, i: nat, restart: bool): (Srv<C>, Pass)
    requires env.fields.Some? && s.relation.Some? && WellFormed(env, s) && i <= NumFields(env)
    decreases NumFields(env) - i
  {
    if i == NumFields(env) then (s, if restart then PassRestart else AllSet)
    else
      var (s1, outcome) := SetOwnField(env, s, i, Data(st, env.fields.value[i]));
      if outcome.Failed? then (s1, PassFailed)
      else SetOwnFields(env, s1, st, i + 1, restart || outcome.RestartNeeded?)
  }

  /** With at most one field the code sets the fields it means to set. */
  lemma OneFieldIsOwn<C, D>(env: Env<C, D>, s: Srv<C>, st: ServerState)
    requires env.fields.Some? && s.relation.Some? && WellFormed(env, s) && NumFields(env) <= 1
    ensures SetFields(env, s, st, 0, false) == SetOwnFields(env, s, st, 0, false)
  {
    if NumFields(env) == 1 {
      var (s1, outcome) := SetFieldValue(env, s, 0, Data(st, env.fields.value[0]));
      assert (s1, outcome) == SetOwnField(env, s, 0, Data(st, env.fields.value[0]));
      if !outcome.Failed? {
        assert SetFields(env, s1, st, 1, outcome.RestartNeeded?)
            == SetOwnFields(env, s1, st, 1, outcome.RestartNeeded?);
      }
    }
  }
}

/**
 The HTTP server of charmbits/httpservice/server.go as a function on values.

 A server's whole memory is a `Srv`. Everything the Go code leaves to the outside world (what
 a field setter does, whether a handler can be constructed, whether a port can be listened on)
 is a function in `Env` that also receives the current length of the event log, so that the
 same call may answer differently each time. Theorems quantify over every `Env`.

 `Srv.log` records each effect the server has on the world, in order.
 */
module ServerModel {
  import opened Wrappers

  datatype ServerState = ServerState(
    httpPort: int,
    httpsPort: int,
    certPEM: string,
    argData: Bytes,
    relationValues: map<string, Bytes>)

  const ZERO_STATE := ServerState(0, 0, "", [], map[])

  /** What a call to a registered setFieldValue function reports. */
  datatype Outcome = Done | RestartNeeded | Failed

  datatype Listener = HTTP(port: int) | HTTPS(port: int, cert: string)

  /** A running handler: the argument and the relation value it was constructed from. */
  datatype Handler = Handler(arg: Bytes, on: Option<nat>)

  /** A relation struct value. Its identity is the log position at which it was made. */
  datatype Relation<C> = Relation(id: nat, cells: seq<C>)

  datatype Event<C> =
    | NewRelation(rel: nat)
    | SetField(rel: nat, field: nat, cell: nat, data: Bytes, before: C, after: C, outcome: Outcome)
    | Finalize(rel: nat, field: nat, cell: nat, before: C, after: C, outcome: Outcome)
    | DropRelation(rel: nat)
    | Build(arg: Bytes, on: Option<nat>, built: bool)
    | Listen(listener: Listener, up: bool)
    | CloseListener(listener: Listener)
    | CloseHandler

  /** The world around a server whose relation fields have type `C` and relation data type `D`. */
  datatype Env<!C, !D> = Env(
    // The field names of the handler's relation struct, or None if the handler takes no relations.
    fields: Option<seq<string>>,
    zeroCell: C,
    zeroData: D,
    unmarshal: Bytes -> Option<D>,
    setter: (C, D, nat) -> (C, Outcome),
    construct: (Bytes, Option<seq<C>>, nat) -> bool,
    validCert: string -> bool,
    listen: (int, nat) -> bool)

  datatype Srv<C> = Srv(
    handler: Option<Handler>,
    state: ServerState,
    relation: Option<Relation<C>>,
    http: Option<Listener>,
    https: Option<Listener>,
    log: seq<Event<C>>)

  /** The result of one pass over all the relation fields. */
  datatype Pass = AllSet | PassRestart | PassIncomplete | PassFailed

  datatype Warning =
    | RelationsNotSet
    | RestartUnexpected
    | IncompleteUnexpected
    | RebuildNotSet
    | NoHandler
    | NoHTTP
    | NoHTTPS

  function NumFields<C, D>(env: Env<C, D>): nat {
    if env.fields.Some? then |env.fields.value| else 0
  }

  predicate HTTPOk(st: ServerState) {
    st.httpPort != 0
  }

  predicate HTTPSOk(st: ServerState) {
    st.httpsPort != 0 && st.certPEM != ""
  }

  predicate Usable(st: ServerState) {
    HTTPOk(st) || HTTPSOk(st)
  }

  function Data(st: ServerState, name: string): Bytes {
    if name in st.relationValues then st.relationValues[name] else []
  }

  predicate Complete<C, D>(env: Env<C, D>, st: ServerState) {
    env.fields.Some? ==> forall i :: 0 <= i < |env.fields.value| ==> Data(st, env.fields.value[i]) != []
  }

  /** Relation values exist only for handlers that take one, and have a cell for each field. */
  ghost predicate WellFormed<C, D>(env: Env<C, D>, s: Srv<C>) {
    s.relation.Some? ==> env.fields.Some? && |s.relation.value.cells| == NumFields(env)
  }

  /** Whether `r` is `s` but for the contents of its relation value and a longer log. */
  ghost predicate OnlyCellsChanged<C>(s: Srv<C>, r: Srv<C>) {
    && s.relation.Some? && r.relation.Some?
    && r == s.(relation := r.relation, log := r.log)
    && r.relation.value.id == s.relation.value.id
    && |r.relation.value.cells| == |s.relation.value.cells|
    && s.log <= r.log
  }

  function SetterEvent<C>(rel: nat, field: nat, data: Bytes, before: C, after: C, outcome: Outcome): Event<C> {
    if data == [] then Finalize(rel, field, 0, before, after, outcome)
    else SetField(rel, field, 0, data, before, after, outcome)
  }

  /** server.setFieldValue. Whatever the field, the setter is handed the first cell. */
  function SetFieldValue<C, D>(env: Env<C, D>, s: Srv<C>, field: nat, data: Bytes): (r: (Srv<C>, Outcome))
    requires s.relation.Some? && field < |s.relation.value.cells|
    ensures OnlyCellsChanged(s, r.0)
    ensures r.0.relation.value.cells[1..] == s.relation.value.cells[1..]
  {
    var decoded := if data == [] then Some(env.zeroData) else env.unmarshal(data);
    if decoded.None? then (s, Failed)
    else
      var rel := s.relation.value;
      var (after, outcome) := env.setter(rel.cells[0], decoded.value, |s.log|);
      (s.(relation := Some(rel.(cells := rel.cells[0 := after])),
          log := s.log + [SetterEvent(rel.id, field, data, rel.cells[0], after, outcome)]),
       outcome)
  }

  function NewRelationValue<C, D>(env: Env<C, D>, s: Srv<C>): (r: Srv<C>)
    requires env.fields.Some?
  {
    s.(relation := Some(Relation(|s.log|, seq(NumFields(env), _ => env.zeroCell))),
       log := s.log + [NewRelation(|s.log|)])
  }

  /** The loop of server.setRelations that sets the fields, from field `i` on. */
  function SetFields<C, D>(env: Env<C, D>, s: Srv<C>, st: ServerState, i: nat, restart: bool): (r: (Srv<C>, Pass))
    requires env.fields.Some? && s.relation.Some? && WellFormed(env, s) && i <= NumFields(env)
    ensures OnlyCellsChanged(s, r.0) && !r.1.PassIncomplete?
    decreases NumFields(env) - i
  {
    if i == NumFields(env) then (s, if restart then PassRestart else AllSet)
    else
      var (s1, outcome) := SetFieldValue(env, s, i, Data(st, env.fields.value[i]));
      if outcome.Failed? then (s1, PassFailed)
      else SetFields(env, s1, st, i + 1, restart || outcome.RestartNeeded?)
  }

  function EnsureRelation<C, D>(env: Env<C, D>, s: Srv<C>): (r: Srv<C>)
    requires env.fields.Some?
    ensures WellFormed(env, s) ==> WellFormed(env, r)
    ensures r.relation.Some? && r == s.(relation := r.relation, log := r.log) && s.log <= r.log
  {
    if s.relation.Some? then s else NewRelationValue(env, s)
  }

  /** server.setRelations */
  function SetRelations<C, D>(env: Env<C, D>, s: Srv<C>, st: ServerState): (r: (Srv<C>, Pass))
    requires WellFormed(env, s)
    ensures WellFormed(env, r.0) && (r.0.relation.Some? <==> env.fields.Some?)
    ensures r.0 == s.(relation := r.0.relation, log := r.0.log) && s.log <= r.0.log
    ensures r.1.PassIncomplete? <==> !Complete(env, st)
  {
    if env.fields.None? then (s, AllSet)
    else
      var s1 := EnsureRelation(env, s);
      if !Complete(env, st) then (s1, PassIncomplete)
      else SetFields(env, s1, st, 0, false)
  }

  /** The loop of server.finalizeFields, from field `i` on. */
  function FinalizeFrom<C, D>(env: Env<C, D>, s: Srv<C>, i: nat): (r: Srv<C>)
    requires s.relation.Some? && WellFormed(env, s) && i <= NumFields(env)
    ensures r == s.(relation := None, log := r.log) && s.log <= r.log
    decreases NumFields(env) - i
  {
    if i == NumFields(env) then
      s.(relation := None, log := s.log + [DropRelation(s.relation.value.id)])
    else
      FinalizeFrom(env, SetFieldValue(env, s, i, []).0, i + 1)
  }

  function FinalizeFields<C, D>(env: Env<C, D>, s: Srv<C>): (r: Srv<C>)
    requires WellFormed(env, s)
    ensures r == s.(relation := None, log := r.log) && s.log <= r.log
  {
    if s.relation.None? then s else FinalizeFrom(env, s, 0)
  }

  function CloseHTTP<C>(s: Srv<C>): Srv<C> {
    if s.http.None? then s else s.(http := None, log := s.log + [CloseListener(s.http.value)])
  }

  function CloseHTTPS<C>(s: Srv<C>): Srv<C> {
    if s.https.None? then s else s.(https := None, log := s.log + [CloseListener(s.https.value)])
  }

  function StopHandler<C>(s: Srv<C>): Srv<C> {
    if s.handler.None? then s else s.(handler := None, log := s.log + [CloseHandler])
  }

  /** server.closeResources */
  function CloseResources<C, D>(env: Env<C, D>, s: Srv<C>): (r: Srv<C>)
    requires WellFormed(env, s)
    ensures r == Srv(None, s.state, None, None, None, r.log) && s.log <= r.log
  {
    FinalizeFields(env, StopHandler(CloseHTTPS(CloseHTTP(s))))
  }

  /** server.needsRestart */
  predicate NeedsRestart(current: ServerState, st: ServerState) {
    || st.httpPort != current.httpPort
    || st.httpsPort != current.httpsPort
    || st.certPEM != current.certPEM
    || st.argData != current.argData
  }

  /** Starting the HTTP listener, server.go lines 257 to 263. */
  function StartHTTP<C, D>(env: Env<C, D>, s: Srv<C>, st: ServerState): (Srv<C>, seq<Warning>) {
    if s.http.Some? || !HTTPOk(st) then (s, [])
    else
      var listener, up := HTTP(st.httpPort), env.listen(st.httpPort, |s.log|);
      (s.(http := if up then Some(listener) else None, log := s.log + [Listen(listener, up)]),
       if up then [] else [NoHTTP])
  }

  /** Starting the HTTPS listener, server.go lines 264 to 270. */
  function StartHTTPS<C, D>(env: Env<C, D>, s: Srv<C>, st: ServerState): (Srv<C>, seq<Warning>) {
    if s.https.Some? || !HTTPSOk(st) then (s, [])
    else
      var listener := HTTPS(st.httpsPort, st.certPEM);
      var up := env.validCert(st.certPEM) && env.listen(st.httpsPort, |s.log|);
      (s.(https := if up then Some(listener) else None, log := s.log + [Listen(listener, up)]),
       if up then [] else [NoHTTPS])
  }

  function RelationId<C>(s: Srv<C>): Option<nat> {
    if s.relation.Some? then Some(s.relation.value.id) else None
  }

  function RelationCells<C>(s: Srv<C>): Option<seq<C>> {
    if s.relation.Some? then Some(s.relation.value.cells) else None
  }

  /** Constructing the handler and starting its listeners, server.go lines 252 to 273. */
  function StartHandler<C, D>(env: Env<C, D>, s: Srv<C>, st: ServerState): (r: (Srv<C>, seq<Warning>))
    ensures r.0.relation == s.relation && s.log <= r.0.log
  {
    var built := env.construct(st.argData, RelationCells(s), |s.log|);
    var s1 := s.(log := s.log + [Build(st.argData, RelationId(s), built)]);
    if !built then (s1, [NoHandler])
    else
      var (s2, w2) := StartHTTP(env, s1, st);
      var (s3, w3) := StartHTTPS(env, s2, st);
      (s3.(handler := Some(Handler(st.argData, RelationId(s))), state := st), w2 + w3)
  }

  /** The part of server.set after the shortcut, lines 222 to 273. */
  function Restart<C, D>(env: Env<C, D>, s: Srv<C>, st: ServerState): (r: (Srv<C>, seq<Warning>))
    requires WellFormed(env, s)
    ensures WellFormed(env, r.0) && s.log <= r.0.log
  {
    var s1 := if s.handler.Some? then CloseResources(env, s) else s;
    var (s2, pass) := if s1.relation.None? then SetRelations(env, s1, st) else (s1, AllSet);
    match pass
    case PassRestart => (s2, [RestartUnexpected])
    case PassIncomplete => (s2, [IncompleteUnexpected])
    case PassFailed => (s2, [RebuildNotSet])
    case AllSet => StartHandler(env, s2, st)
  }

  /** server.set */
  function Apply<C, D>(env: Env<C, D>, s: Srv<C>, st: ServerState): (r: (Srv<C>, seq<Warning>))
    requires WellFormed(env, s)
    ensures WellFormed(env, r.0) && s.log <= r.0.log
  {
    if !Usable(st) then (CloseResources(env, s), [])
    else
      var (s1, pass) := SetRelations(env, s, st);
      if pass.PassIncomplete? || pass.PassFailed? then (CloseResources(env, s1), [RelationsNotSet])
      else if pass.AllSet? && !NeedsRestart(s1.state, st) && s1.handler.Some? then (s1, [])
      else Restart(env, s1, st)
  }

  /** server.Set, but for the saving of the state. */
  function SetState<C, D>(env: Env<C, D>, s: Srv<C>, st: ServerState): (r: Srv<C>)
    requires WellFormed(env, s)
    ensures WellFormed(env, r) && r.state == st
  {
    Apply(env, s, st).0.(state := st)
  }

  function NewServer<C>(): Srv<C> {
    Srv(None, ZERO_STATE, None, None, None, [])
  }

  /** The server after startServer loaded `initial` and the given calls to Set were made. */
  function After<C, D>(env: Env<C, D>, initial: ServerState, sets: seq<ServerState>): (s: Srv<C>)
    ensures WellFormed(env, s)
    ensures sets != [] ==> s.state == sets[|sets| - 1]
  {
    if sets == [] then Apply(env, NewServer(), initial).0
    else SetState(env, After(env, initial, sets[..|sets| - 1]), sets[|sets| - 1])
  }

  // ---- serverstate.json ----

  /** The JSON encoding of a ServerState. */
  datatype Codec = Codec(encode: ServerState -> Bytes, decode: Bytes -> Option<ServerState>)

  ghost predicate RoundTrips(codec: Codec) {
    forall st :: codec.decode(codec.encode(st)) == Some(st)
  }

  /** What became of an attempt to write serverstate.json; a failed one may leave anything behind. */
  datatype Save = Saved | NotSaved(left: Option<Bytes>)

  /** server.loadState: a missing file is the zero state, an undecodable one an error. */
  function LoadState(codec: Codec, file: Option<Bytes>): Option<ServerState> {
    if file.None? then Some(ZERO_STATE) else codec.decode(file.value)
  }
}

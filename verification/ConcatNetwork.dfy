/**
 Many units of the concat charm, related to each other: the distributed fixpoint.

 Hooks of different units overlap: `Begin` is the part of a unit's hook that reads (setContext
 and changed), `End` the part that publishes and commits (finally), and anything may happen at
 other units in between. A unit runs one hook at a time.
 */
module ConcatNetwork {
  import opened Wrappers
  import opened SortedStrings
  import opened Concat

  /**
   The units, what they are configured with, and how they are related: `up` and `down` are a
   unit's relation ids, and `members` the units at the other end of an upstream relation.
   */
  datatype Topology = Topology(
    units: set<string>,
    own: string -> string,
    port: string -> int,
    up: string -> seq<string>,
    down: string -> seq<string>,
    members: (string, string) -> set<string>,
    rank: string -> nat)

  /** Values flow along relations that both ends have, and never in a circle: `rank` grows downstream. */
  ghost predicate Acyclic(t: Topology) {
    forall u, r, v :: u in t.units && r in t.up(u) && v in t.members(u, r) ==>
      v in t.units && r in t.down(v) && t.rank(v) < t.rank(u)
  }

  // What units should have, apart from the functions by which they compute it.

  /** Words with a space between each two. */
  function Spaced(words: seq<string>): string {
    if words == [] then ""
    else
      var front, last := words[..|words| - 1], words[|words| - 1];
      if front == [] then last else Spaced(front) + " " + last
  }

  /** The value that a unit should have: its own, if any, and those of its upstream units, in braces. */
  ghost function Value(t: Topology, u: string): string
    requires Acyclic(t) && u in t.units
    decreases t.rank(u), |t.up(u)| + 2
  {
    var own := if t.own(u) == "" then [] else [t.own(u)];
    "{" + Spaced(own + Upstream(t, u, |t.up(u)|)) + "}"
  }

  /** The values at the other ends of the first `n` upstream relations, relation by relation. */
  ghost function Upstream(t: Topology, u: string, n: nat): seq<string>
    requires Acyclic(t) && u in t.units && n <= |t.up(u)|
    decreases t.rank(u), n + 1
  {
    if n == 0 then [] else Upstream(t, u, n - 1) + MemberValues(t, u, t.up(u)[n - 1])
  }

  /** The values of the units at the other end of a relation, in order of unit id. */
  ghost function MemberValues(t: Topology, u: string, r: string): seq<string>
    requires Acyclic(t) && u in t.units && r in t.up(u)
    decreases t.rank(u), 0
  {
    hide InOrder;
    var ids := InOrder(t.members(u, r));
    seq(|ids|, k requires 0 <= k < |ids| => if ids[k] in t.members(u, r) then Value(t, ids[k]) else "")
  }

  /** What a unit should see of the units at the other end of an upstream relation. */
  ghost function TargetUnits(t: Topology, u: string, r: string): map<string, Attrs>
    requires Acyclic(t) && u in t.units && r in t.up(u)
  {
    map v | v in t.members(u, r) :: map["val" := Value(t, v)]
  }

  ghost function TargetSeen(t: Topology, u: string): map<string, map<string, Attrs>>
    requires Acyclic(t) && u in t.units
  {
    map r | r in t.up(u) :: TargetUnits(t, u, r)
  }

  lemma {:induction false} SpacedIsJoin(words: seq<string>)
    ensures Spaced(words) == Join(words, " ")
  {
    if |words| > 1 {
      var front, last := words[..|words| - 1], words[|words| - 1];
      SpacedIsJoin(front);
      JoinConcat(front, [last], " ");
      assert words == front + [last];
    }
  }

  lemma MembersAreSeen(t: Topology, u: string, r: string)
    requires Acyclic(t) && u in t.units && r in t.up(u)
    ensures UnitVals(Units(TargetSeen(t, u), r)) == MemberValues(t, u, r)
  {
    hide InOrder, Value, UnitVals;
    var units := TargetUnits(t, u, r);
    UnitValsAre(units);
    assert units.Keys == t.members(u, r) && Units(TargetSeen(t, u), r) == units;
  }

  lemma {:induction false} UpstreamIsSeen(t: Topology, u: string, n: nat)
    requires Acyclic(t) && u in t.units && n <= |t.up(u)|
    ensures UpstreamVals(t.up(u)[..n], TargetSeen(t, u)) == Upstream(t, u, n)
    decreases n
  {
    if n > 0 {
      hide UpstreamVals, UnitVals, MemberValues, TargetSeen, Acyclic;
      UpstreamIsSeen(t, u, n - 1);
      UpstreamOneMore(t.up(u), n, TargetSeen(t, u));
      MembersAreSeen(t, u, t.up(u)[n - 1]);
    }
  }

  /** A unit that sees what it should computes what it should. */
  lemma ComputesValue(t: Topology, u: string)
    requires Acyclic(t) && u in t.units
    ensures Render(t.own(u), UpstreamVals(t.up(u), TargetSeen(t, u))) == Value(t, u)
  {
    UpstreamIsSeen(t, u, |t.up(u)|);
    assert t.up(u)[..|t.up(u)|] == t.up(u);
    SpacedIsJoin((if t.own(u) == "" then [] else [t.own(u)]) + Upstream(t, u, |t.up(u)|));
  }

  ghost function Target(t: Topology, u: string): LocalState
    requires Acyclic(t) && u in t.units
  {
    LocalState(Value(t, u), t.port(u))
  }

  /** Per unit: the committed state, what it has sent, the new state of a hook under way; and all writes so far. */
  datatype Net = Net(
    committed: map<string, LocalState>,
    sent: map<string, map<string, string>>,
    pending: map<string, LocalState>,
    writes: nat)

  /** What a unit sees of its upstream relations. */
  function Seen(t: Topology, net: Net, u: string): map<string, map<string, Attrs>> {
    map r | r in t.up(u) :: SeenUnits(t, net, u, r)
  }

  function SeenUnits(t: Topology, net: Net, u: string, r: string): map<string, Attrs> {
    map v | v in t.members(u, r) :: map["val" := Sent(net, v, r)]
  }

  function Sent(net: Net, u: string, r: string): string {
    if u in net.sent then Lookup(net.sent[u], r) else ""
  }

  datatype Step =
    | Begin(u: string)
    | End(u: string, notified: bool, reach: nat)
    | Joined(u: string, r: string)

  ghost predicate Enabled(t: Topology, net: Net, step: Step) {
    && step.u in t.units && step.u in net.committed && step.u in net.sent
    && match step
       case Begin(u) => u !in net.pending
       case End(u, notified, reach) => u in net.pending && reach <= |t.down(u)|
       case Joined(u, r) => u !in net.pending && r in t.down(u)
  }

  /** Whether the hook that the step ends is successful. */
  predicate Succeeds(t: Topology, step: Step) {
    step.End? ==> step.notified && step.reach == |t.down(step.u)|
  }

  ghost function Apply(t: Topology, net: Net, step: Step): (r: Net)
    requires Enabled(t, net, step)
    ensures r.committed.Keys == net.committed.Keys && r.sent.Keys == net.sent.Keys
  {
    match step
    case Begin(u) =>
      var val := Render(t.own(u), UpstreamVals(t.up(u), Seen(t, net, u)));
      net.(pending := net.pending[u := LocalState(val, t.port(u))])
    case End(u, notified, reach) =>
      var computed := net.pending[u];
      var done := net.(pending := net.pending - {u});
      if computed == net.committed[u] || !notified then done
      else done.(
        sent := net.sent[u := SendFirst(net.sent[u], t.down(u), computed.val, reach)],
        writes := net.writes + reach,
        committed := if reach == |t.down(u)| then net.committed[u := computed] else net.committed)
    case Joined(u, r) =>
      net.(sent := net.sent[u := net.sent[u][r := net.committed[u].val]], writes := net.writes + 1)
  }

  ghost predicate IsRun(t: Topology, net: Net, steps: seq<Step>)
    decreases |steps|
  {
    steps != [] ==>
      && Enabled(t, net, steps[0]) && Succeeds(t, steps[0])
      && IsRun(t, Apply(t, net, steps[0]), steps[1..])
  }

  ghost function Exec(t: Topology, net: Net, steps: seq<Step>): Net
    requires IsRun(t, net, steps)
    decreases |steps|
  {
    if steps == [] then net else Exec(t, Apply(t, net, steps[0]), steps[1..])
  }

  /** Every unit has sent its committed value on each of its downstream relations. */
  ghost predicate Faithful(t: Topology, net: Net) {
    forall u, r :: u in t.units && u in net.committed && r in t.down(u) ==> Sent(net, u, r) == net.committed[u].val
  }

  ghost predicate Present(t: Topology, net: Net) {
    t.units <= net.committed.Keys && t.units <= net.sent.Keys
  }

  /** A unit is settled when it has committed its target; any hook under way will not change that. */
  ghost predicate Settled(t: Topology, net: Net, u: string)
    requires Acyclic(t) && u in t.units
  {
    && u in net.committed && net.committed[u] == Target(t, u)
    && Current(t, net, u)
  }

  /** A hook under way at the unit has computed its target. */
  ghost predicate Current(t: Topology, net: Net, u: string)
    requires Acyclic(t) && u in t.units
  {
    u in net.pending ==> net.pending[u] == Target(t, u)
  }

  ghost predicate SettledBelow(t: Topology, net: Net, k: nat)
    requires Acyclic(t)
  {
    forall u :: u in t.units && t.rank(u) < k ==> Settled(t, net, u)
  }

  lemma SeesTarget(t: Topology, net: Net, u: string, k: nat, r: string)
    requires Acyclic(t) && Faithful(t, net) && SettledBelow(t, net, k) && u in t.units && t.rank(u) <= k && r in t.up(u)
    ensures SeenUnits(t, net, u, r) == TargetUnits(t, u, r)
  {
    hide Value;
    forall v | v in t.members(u, r) ensures Sent(net, v, r) == Value(t, v) {
      assert v in t.units && r in t.down(v) && t.rank(v) < k;
      assert Settled(t, net, v);
    }
  }

  /** With everything upstream settled, reading computes the target. */
  lemma ReadsTarget(t: Topology, net: Net, u: string, k: nat)
    requires Acyclic(t) && Faithful(t, net) && SettledBelow(t, net, k) && u in t.units && t.rank(u) <= k
    ensures Render(t.own(u), UpstreamVals(t.up(u), Seen(t, net, u))) == Value(t, u)
  {
    forall r | r in t.up(u) ensures SeenUnits(t, net, u, r) == TargetUnits(t, u, r) {
      SeesTarget(t, net, u, k, r);
    }
    assert Seen(t, net, u) == TargetSeen(t, u);
    ComputesValue(t, u);
  }

  lemma StepKeepsFaithful(t: Topology, net: Net, step: Step)
    requires Faithful(t, net) && Enabled(t, net, step) && Succeeds(t, step)
    ensures Faithful(t, Apply(t, net, step))
  {
    var r := Apply(t, net, step);
    forall u, id | u in t.units && u in r.committed && id in t.down(u)
      ensures Sent(r, u, id) == r.committed[u].val
    {
      assert Sent(net, u, id) == net.committed[u].val;
      if step.End? && u == step.u {
        var ids := t.down(u);
        SendFirstLookup(net.sent[u], ids, net.pending[u].val, step.reach, id);
        assert ids[..|ids|] == ids;
      }
    }
  }

  lemma StepKeepsSettled(t: Topology, net: Net, step: Step, k: nat)
    requires Acyclic(t) && Faithful(t, net) && Enabled(t, net, step) && Succeeds(t, step)
    requires SettledBelow(t, net, k)
    ensures SettledBelow(t, Apply(t, net, step), k)
  {
    forall u | u in t.units && t.rank(u) < k ensures Settled(t, Apply(t, net, step), u) {
      assert Settled(t, net, u);
      if step == Begin(u) { ReadsTarget(t, net, u, k); }
    }
  }

  /** Once a unit of rank k is current, it stays so; once settled, it stays settled. */
  lemma StepKeepsNext(t: Topology, net: Net, step: Step, k: nat, u: string)
    requires Acyclic(t) && Faithful(t, net) && Enabled(t, net, step) && Succeeds(t, step)
    requires SettledBelow(t, net, k) && u in t.units && t.rank(u) <= k
    ensures Current(t, net, u) || step == Begin(u) ==> Current(t, Apply(t, net, step), u)
    ensures Settled(t, net, u) ==> Settled(t, Apply(t, net, step), u)
    ensures Current(t, net, u) && step.End? && step.u == u ==> Settled(t, Apply(t, net, step), u)
  {
    if step == Begin(u) { ReadsTarget(t, net, u, k); }
  }

  /** A complete hook with `changed` at the unit: a Begin, and the End that follows it. */
  ghost predicate RunsAt(steps: seq<Step>, u: string) {
    exists i, j :: 0 <= i < j < |steps| && steps[i] == Begin(u) && steps[j].End? && steps[j].u == u
  }

  ghost predicate EndsAt(steps: seq<Step>, u: string) {
    exists j :: 0 <= j < |steps| && steps[j].End? && steps[j].u == u
  }

  /** A unit of rank k that is settled, or current and ending, or running in full, ends up settled. */
  lemma {:induction false} UnitSettles(t: Topology, net: Net, steps: seq<Step>, k: nat, u: string)
    requires Acyclic(t) && Faithful(t, net) && SettledBelow(t, net, k) && IsRun(t, net, steps)
    requires u in t.units && t.rank(u) <= k
    requires Settled(t, net, u) || (Current(t, net, u) && EndsAt(steps, u)) || RunsAt(steps, u)
    ensures Faithful(t, Exec(t, net, steps)) && SettledBelow(t, Exec(t, net, steps), k)
    ensures Settled(t, Exec(t, net, steps), u)
    decreases |steps|
  {
    if steps != [] {
      var step, rest := steps[0], steps[1..];
      var next := Apply(t, net, step);
      StepKeepsFaithful(t, net, step);
      StepKeepsSettled(t, net, step, k);
      StepKeepsNext(t, net, step, k, u);
      if Settled(t, next, u) {
      } else if Current(t, net, u) && EndsAt(steps, u) {
        var j :| 0 <= j < |steps| && steps[j].End? && steps[j].u == u;
        assert rest[j - 1] == steps[j];
        assert EndsAt(rest, u);
      } else {
        var i, j :| 0 <= i < j < |steps| && steps[i] == Begin(u) && steps[j].End? && steps[j].u == u;
        assert EndsAt(steps, u);
        assert rest[j - 1] == steps[j] && rest[i - 1] == steps[i];
        assert RunsAt(rest, u);
      }
      UnitSettles(t, next, rest, k, u);
    }
  }

  /** A round: every unit runs a complete hook, in any order, however the hooks overlap. */
  ghost predicate IsRound(t: Topology, steps: seq<Step>) {
    forall u :: u in t.units ==> RunsAt(steps, u)
  }

  lemma {:induction false} RunKeeps(t: Topology, net: Net, steps: seq<Step>, k: nat)
    requires Acyclic(t) && Faithful(t, net) && SettledBelow(t, net, k) && IsRun(t, net, steps)
    ensures Faithful(t, Exec(t, net, steps)) && SettledBelow(t, Exec(t, net, steps), k)
    decreases |steps|
  {
    if steps != [] {
      StepKeepsFaithful(t, net, steps[0]);
      StepKeepsSettled(t, net, steps[0], k);
      RunKeeps(t, Apply(t, net, steps[0]), steps[1..], k);
    }
  }

  lemma RoundSettles(t: Topology, net: Net, steps: seq<Step>, k: nat)
    requires Acyclic(t) && Faithful(t, net) && SettledBelow(t, net, k)
    requires IsRun(t, net, steps) && IsRound(t, steps) && t.units != {}
    ensures Faithful(t, Exec(t, net, steps)) && SettledBelow(t, Exec(t, net, steps), k + 1)
  {
    forall u | u in t.units && t.rank(u) < k + 1 ensures Settled(t, Exec(t, net, steps), u) {
      UnitSettles(t, net, steps, k, u);
    }
    RunKeeps(t, net, steps, k);
  }

  ghost predicate AreRounds(t: Topology, net: Net, rounds: seq<seq<Step>>)
    decreases |rounds|
  {
    rounds != [] ==>
      && IsRun(t, net, rounds[0]) && IsRound(t, rounds[0])
      && AreRounds(t, Exec(t, net, rounds[0]), rounds[1..])
  }

  ghost function ExecRounds(t: Topology, net: Net, rounds: seq<seq<Step>>): Net
    requires AreRounds(t, net, rounds)
    decreases |rounds|
  {
    if rounds == [] then net else ExecRounds(t, Exec(t, net, rounds[0]), rounds[1..])
  }

  lemma {:induction false} RoundsSettle(t: Topology, net: Net, rounds: seq<seq<Step>>, k: nat)
    requires Acyclic(t) && Faithful(t, net) && SettledBelow(t, net, k) && AreRounds(t, net, rounds) && t.units != {}
    ensures Faithful(t, ExecRounds(t, net, rounds)) && SettledBelow(t, ExecRounds(t, net, rounds), k + |rounds|)
    decreases |rounds|
  {
    if rounds != [] {
      RoundSettles(t, net, rounds[0], k);
      RoundsSettle(t, Exec(t, net, rounds[0]), rounds[1..], k + 1);
    }
  }

  /**
   Convergence: from any state in which the units have sent what they committed, whatever they
   committed and whatever hooks are under way, after d + 1 rounds every unit of depth at most d
   has committed and published exactly its value, and every hook under way there will confirm it.
   */
  lemma Converges(t: Topology, net: Net, rounds: seq<seq<Step>>, d: nat, u: string)
    requires Acyclic(t) && Faithful(t, net) && AreRounds(t, net, rounds) && |rounds| == d + 1
    requires u in t.units && t.rank(u) <= d
    ensures var r := ExecRounds(t, net, rounds);
            && Settled(t, r, u) && r.committed[u] == LocalState(Value(t, u), t.port(u))
            && forall id :: id in t.down(u) ==> Sent(r, u, id) == Value(t, u)
  {
    RoundsSettle(t, net, rounds, 0);
    assert Settled(t, ExecRounds(t, net, rounds), u);
  }

  // ---- Rounds are there to be run ----

  /** The units, one after the other, each running a hook that succeeds. */
  function InTurn(t: Topology, us: seq<string>): seq<Step> {
    if us == [] then [] else [Begin(us[0]), End(us[0], true, |t.down(us[0])|)] + InTurn(t, us[1..])
  }

  ghost predicate AtRest(t: Topology, net: Net) {
    Present(t, net) && net.pending == map[]
  }

  lemma OneInTurn(t: Topology, net: Net, u: string)
    requires AtRest(t, net) && u in t.units
    ensures Enabled(t, net, Begin(u))
    ensures var net1 := Apply(t, net, Begin(u));
            var end := End(u, true, |t.down(u)|);
            Enabled(t, net1, end) && Succeeds(t, end) && AtRest(t, Apply(t, net1, end))
  {
  }

  /** From any state at rest, letting the units run in turn is a run, and ends at rest. */
  lemma {:induction false} InTurnIsRun(t: Topology, net: Net, us: seq<string>)
    requires AtRest(t, net) && forall u :: u in us ==> u in t.units
    ensures IsRun(t, net, InTurn(t, us)) && AtRest(t, Exec(t, net, InTurn(t, us)))
    decreases |us|
  {
    if us != [] {
      var u, rest := us[0], InTurn(t, us[1..]);
      var begin, end := Begin(u), End(u, true, |t.down(u)|);
      var steps := InTurn(t, us);
      OneInTurn(t, net, u);
      assert steps[1..] == [end] + rest && steps[1..][1..] == rest;
      var net1 := Apply(t, net, begin);
      InTurnIsRun(t, Apply(t, net1, end), us[1..]);
      assert IsRun(t, net1, steps[1..]);
    }
  }

  /** And it is a round. */
  lemma {:induction false} InTurnRunsAll(t: Topology, us: seq<string>, v: string)
    requires v in us
    ensures RunsAt(InTurn(t, us), v)
  {
    var rest, steps := InTurn(t, us[1..]), InTurn(t, us);
    if v == us[0] {
      assert steps[0] == Begin(v) && steps[1].End? && steps[1].u == v;
    } else {
      InTurnRunsAll(t, us[1..], v);
      var i, j :| 0 <= i < j < |rest| && rest[i] == Begin(v) && rest[j].End? && rest[j].u == v;
      assert steps[i + 2] == rest[i] && steps[j + 2] == rest[j];
    }
  }

  // ---- Quiescence ----

  ghost predicate AllSettled(t: Topology, net: Net)
    requires Acyclic(t)
  {
    forall u :: u in t.units ==> Settled(t, net, u)
  }

  lemma SettledStep(t: Topology, net: Net, step: Step)
    requires Acyclic(t) && Faithful(t, net) && Enabled(t, net, step) && Succeeds(t, step) && AllSettled(t, net)
    ensures var r := Apply(t, net, step);
            AllSettled(t, r) && (step.Joined? || (r.writes == net.writes && r.sent == net.sent))
  {
    forall u | u in t.units ensures Settled(t, Apply(t, net, step), u) {
      assert Settled(t, net, u);
      if step == Begin(u) {
        assert SettledBelow(t, net, t.rank(u));
        ReadsTarget(t, net, u, t.rank(u));
      }
    }
    assert Settled(t, net, step.u);
  }

  /** Once all units are settled they stay so, with what they published, and only a join writes again. */
  lemma {:induction false} ThenNothingIsPublished(t: Topology, net: Net, steps: seq<Step>)
    requires Acyclic(t) && Faithful(t, net) && IsRun(t, net, steps) && AllSettled(t, net)
    ensures var r := Exec(t, net, steps);
            && AllSettled(t, r) && Faithful(t, r)
            && ((forall k :: 0 <= k < |steps| ==> !steps[k].Joined?) ==> r.writes == net.writes && r.sent == net.sent)
    decreases |steps|
  {
    if steps != [] {
      SettledStep(t, net, steps[0]);
      StepKeepsFaithful(t, net, steps[0]);
      ThenNothingIsPublished(t, Apply(t, net, steps[0]), steps[1..]);
    }
  }

  // ---- Failing hooks ----

  lemma SentByEnd(t: Topology, net: Net, u: string, reach: nat, v: string, id: string)
    requires Faithful(t, net) && Enabled(t, net, End(u, true, reach)) && net.pending[u] != net.committed[u]
    requires v in t.units && v in net.committed && id in t.down(v)
    ensures Sent(Apply(t, net, End(u, true, reach)), v, id)
            == if v == u && id in t.down(u)[..reach] then net.pending[u].val else net.committed[v].val
  {
    assert Sent(net, v, id) == net.committed[v].val;
    if v == u {
      SendFirstLookup(net.sent[u], t.down(u), net.pending[u].val, reach, id);
    }
  }

  /**
   Where convergence needs its hypothesis: a hook leaves the unit having sent what it did not
   commit exactly when the server was notified, then some but not all of the relations were
   set, and the value is a new one.
   */
  lemma EndKeepsFaithfulExactly(t: Topology, net: Net, u: string, notified: bool, reach: nat)
    requires Faithful(t, net) && Enabled(t, net, End(u, notified, reach))
    ensures Faithful(t, Apply(t, net, End(u, notified, reach)))
            <==> !(notified && 0 < reach < |t.down(u)| && net.pending[u].val != net.committed[u].val)
  {
    var r := Apply(t, net, End(u, notified, reach));
    var ids := t.down(u);
    if net.pending[u] != net.committed[u] && notified {
      if 0 < reach < |ids| && net.pending[u].val != net.committed[u].val {
        assert ids[0] in ids && ids[0] in ids[..reach];
        SentByEnd(t, net, u, reach, u, ids[0]);
      } else {
        forall v, id | v in t.units && v in r.committed && id in t.down(v)
          ensures Sent(r, v, id) == r.committed[v].val
        {
          SentByEnd(t, net, u, reach, v, id);
          assert ids[..|ids|] == ids;
        }
      }
    } else {
      forall v, id | v in t.units && v in r.committed && id in t.down(v) ensures Sent(r, v, id) == r.committed[v].val {
        assert Sent(net, v, id) == net.committed[v].val;
      }
    }
  }

  /**
   What becomes of a relation on which a unit has sent something other than its committed value:
   a step of the unit puts that right exactly if the relation is joined anew, or if it ends a
   hook that computed a new state, notified the server, and either set all relations, or got as
   far as this one with a new port and the committed value.
   */
  lemma StaleIsHealedExactly(t: Topology, net: Net, step: Step, id: string)
    requires Enabled(t, net, step) && id in t.down(step.u)
    requires Sent(net, step.u, id) != net.committed[step.u].val
    ensures var r := Apply(t, net, step);
            Sent(r, step.u, id) == r.committed[step.u].val
            <==> match step
                 case Begin(_) => false
                 case Joined(_, joined) => joined == id
                 case End(u, notified, reach) =>
                   && net.pending[u] != net.committed[u] && notified
                   && (reach == |t.down(u)|
                       || (id in t.down(u)[..reach] && net.pending[u].val == net.committed[u].val))
  {
    if step.End? {
      var ids := t.down(step.u);
      SendFirstLookup(net.sent[step.u], ids, net.pending[step.u].val, step.reach, id);
      assert ids[..|ids|] == ids;
    }
  }

  /** So a later hook that computes the committed value again does nothing about it. */
  lemma StaleValueStays(t: Topology, net: Net, u: string, notified: bool, reach: nat, id: string)
    requires Enabled(t, net, End(u, notified, reach)) && net.pending[u] == net.committed[u]
    requires id in t.down(u) && Sent(net, u, id) != net.committed[u].val
    ensures var r := Apply(t, net, End(u, notified, reach));
            Sent(r, u, id) != r.committed[u].val && !Faithful(t, r)
  {
    StaleIsHealedExactly(t, net, End(u, notified, reach), id);
  }

  /** One unit, configured with the given value, that has two downstream relations. */
  function Lone(own: string): Topology {
    Topology({"u"}, _ => own, _ => 0, _ => [], _ => ["a", "b"], (_, _) => {}, _ => 0)
  }

  const NEW_UNIT := Net(map["u" := LocalState("", 0)], map["u" := map[]], map[], 0)

  /** A hook of that unit which notifies its server and sets the first `reach` relations before it fails. */
  ghost function LoneHook(net: Net, own: string, reach: nat): Net
    requires AtRest(Lone(own), net) && reach <= 2
  {
    Apply(Lone(own), Apply(Lone(own), net, Begin("u")), End("u", true, reach))
  }

  lemma LoneHookIs(net: Net, own: string, reach: nat)
    requires AtRest(Lone(own), net) && 1 <= reach <= 2 && own != ""
    ensures var computed := LocalState("{" + own + "}", 0);
            var sent := net.sent["u"]["a" := computed.val];
            LoneHook(net, own, reach) ==
              if computed == net.committed["u"] then net
              else net.(sent := net.sent["u" := if reach == 2 then sent["b" := computed.val] else sent],
                        writes := net.writes + reach,
                        committed := if reach == 2 then net.committed["u" := computed] else net.committed)
  {
    var t := Lone(own);
    var computed := LocalState("{" + own + "}", 0);
    assert UpstreamVals(t.up("u"), Seen(t, net, "u")) == [];
    assert [own] + [] == [own] && Join([own], " ") == own;
    assert Render(own, []) == computed.val;
    var net1 := Apply(t, net, Begin("u"));
    assert net1.pending == map["u" := computed] && net1.pending - {"u"} == net.pending;
    var sent := net.sent["u"]["a" := computed.val];
    assert SendFirst(net.sent["u"], ["a", "b"], computed.val, 1) == sent by {
      assert SendFirst(net.sent["u"], ["a", "b"], computed.val, 0) == net.sent["u"];
    }
    assert SendFirst(net.sent["u"], ["a", "b"], computed.val, 2) == sent["b" := computed.val];
  }

  /**
   Its value is configured to "x", then to "y" by a hook that fails after one relation, and then
   back to "x": all hooks are done, and the relation is left with "{y}" for good.
   */
  lemma FailingHookLeavesStale()
    ensures var first := LoneHook(NEW_UNIT, "x", 2);
            AtRest(Lone("y"), first) && AtRest(Lone("x"), LoneHook(first, "y", 1))
    ensures var last := LoneHook(LoneHook(LoneHook(NEW_UNIT, "x", 2), "y", 1), "x", 2);
            && Sent(last, "u", "a") == "{y}" && Sent(last, "u", "b") == "{x}"
            && last.committed["u"] == LocalState("{x}", 0)
  {
    hide LoneHook, Apply;
    assert "{" + "x" + "}" == "{x}" && "{" + "y" + "}" == "{y}" && "{x}"[1] != "{y}"[1];
    LoneHookIs(NEW_UNIT, "x", 2);
    var first := LoneHook(NEW_UNIT, "x", 2);
    LoneHookIs(first, "y", 1);
    LoneHookIs(LoneHook(first, "y", 1), "x", 2);
  }
}

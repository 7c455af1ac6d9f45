/**
 The provider side of a simple relation, charmbits/simplerelation/provider.go, down to the
 arguments that Context.SetRelationWithId (hook/hook.go) gives to the relation-set tool.
 */
module SimpleProvider {
  import opened Wrappers

  // ---- relation-set ----

  /** An argument of relation-set. */
  function Format(key: string, val: string): string {
    key + "=" + val
  }

  /** The tool takes what precedes the first '=' for the key. */
  function IndexOfEquals(arg: string): (i: nat)
    ensures i <= |arg| && (forall j :: 0 <= j < i ==> arg[j] != '=') && (i < |arg| ==> arg[i] == '=')
  {
    if arg == [] || arg[0] == '=' then 0 else 1 + IndexOfEquals(arg[1..])
  }

  function Parse(arg: string): (string, string) {
    var i := IndexOfEquals(arg);
    (arg[..i], if i < |arg| then arg[i + 1..] else "")
  }

  /** The tool understands an attribute exactly when its name has no '='. */
  lemma ParsesExactly(key: string, val: string)
    ensures Parse(Format(key, val)) == (key, val) <==> '=' !in key
  {
    var arg := Format(key, val);
    var i := IndexOfEquals(arg);
    assert arg[|key|] == '=';
    assert i <= |key|;
    assert arg[..|key|] == key && arg[|key| + 1..] == val;
    assert forall j :: 0 <= j < |key| ==> arg[j] == key[j];
    if '=' in key {
      var j :| 0 <= j < |key| && key[j] == '=';
      assert i <= j;
    }
  }

  /** The attributes in a list of names and values. */
  function Pairs(keyvals: seq<string>): Attrs {
    if |keyvals| < 2 then map[]
    else Pairs(keyvals[..|keyvals| - 2])[keyvals[|keyvals| - 2] := keyvals[|keyvals| - 1]]
  }

  /** The arguments that SetRelationWithId makes of a list of names and values. */
  function Args(keyvals: seq<string>): seq<string> {
    if |keyvals| < 2 then []
    else Args(keyvals[..|keyvals| - 2]) + [Format(keyvals[|keyvals| - 2], keyvals[|keyvals| - 1])]
  }

  /** The relation-set tool. */
  function RelationSet(settings: Attrs, args: seq<string>): Attrs {
    if args == [] then settings
    else
      var (key, val) := Parse(args[|args| - 1]);
      RelationSet(settings, args[..|args| - 1])[key := val]
  }

  ghost predicate PlainKeys(vals: Attrs) {
    forall key :: key in vals ==> '=' !in key
  }

  lemma PlainTail(vals: Attrs, key: string, val: string)
    requires PlainKeys(vals[key := val])
    ensures PlainKeys(vals) && '=' !in key
  {
    assert key in vals[key := val];
    forall k | k in vals ensures '=' !in k { assert k in vals[key := val]; }
  }

  lemma RelationSetOneMore(settings: Attrs, args: seq<string>, key: string, val: string)
    requires '=' !in key
    ensures RelationSet(settings, args + [Format(key, val)]) == RelationSet(settings, args)[key := val]
  {
    ParsesExactly(key, val);
    var all := args + [Format(key, val)];
    assert all[..|all| - 1] == args && all[|all| - 1] == Format(key, val);
  }

  lemma MergeUpdate(a: Attrs, b: Attrs, key: string, val: string)
    ensures (a + b)[key := val] == a + b[key := val]
  {
    assert (a + b)[key := val].Keys == (a + b[key := val]).Keys;
  }

  lemma {:induction false} RelationSetAddsPairs(settings: Attrs, keyvals: seq<string>)
    requires PlainKeys(Pairs(keyvals))
    ensures RelationSet(settings, Args(keyvals)) == settings + Pairs(keyvals)
  {
    if |keyvals| >= 2 {
      hide RelationSet;
      var front := keyvals[..|keyvals| - 2];
      var key, val := keyvals[|keyvals| - 2], keyvals[|keyvals| - 1];
      PlainTail(Pairs(front), key, val);
      RelationSetAddsPairs(settings, front);
      RelationSetOneMore(settings, Args(front), key, val);
      MergeUpdate(settings, Pairs(front), key, val);
    }
  }

  /** A list of names and values that holds exactly the given attributes, in any order. */
  ghost predicate Lists(keyvals: seq<string>, vals: Attrs) {
    |keyvals| % 2 == 0 && Pairs(keyvals) == vals
  }

  // ---- The provider ----

  /** `values` is the persistent state; `rels` what the unit has set on each relation. */
  datatype P = P(values: seq<string>, rels: map<string, Attrs>)

  function Settings(p: P, id: string): Attrs {
    if id in p.rels then p.rels[id] else map[]
  }

  /** Context.SetRelationWithId, when the tool works. */
  function SetRelation(p: P, id: string, keyvals: seq<string>): P {
    if keyvals == [] then p else p.(rels := p.rels[id := RelationSet(Settings(p, id), Args(keyvals))])
  }

  function SetFirst(p: P, ids: seq<string>, keyvals: seq<string>, n: nat): P
    requires n <= |ids|
  {
    if n == 0 then p else SetRelation(SetFirst(p, ids, keyvals, n - 1), ids[n - 1], keyvals)
  }

  class Provider {
    var values: seq<string>
    var rels: map<string, Attrs>

    constructor (p: P)
      ensures Snapshot() == p
    {
      values := p.values;
      rels := p.rels;
    }

    function Snapshot(): P
      reads this
    {
      P(values, rels)
    }

    /** `works` is whether the tool succeeds. An odd list is an error, and an empty one needs no tool. */
    method SetRelationWithId(id: string, keyvals: seq<string>, works: bool) returns (ok: bool)
      modifies this`rels
      ensures ok <==> |keyvals| % 2 == 0 && (keyvals == [] || works)
      ensures Snapshot() == if ok then SetRelation(old(Snapshot()), id, keyvals) else old(Snapshot())
    {
      if |keyvals| % 2 != 0 {
        return false;
      }
      if |keyvals| == 0 {
        return true;
      }
      var args: seq<string> := [];
      for i := 0 to |keyvals| / 2
        invariant args == Args(keyvals[..2 * i])
      {
        assert keyvals[..2 * (i + 1)][..2 * i] == keyvals[..2 * i];
        args := args + [Format(keyvals[2 * i], keyvals[2 * i + 1])];
      }
      assert keyvals[..2 * (|keyvals| / 2)] == keyvals;
      if works {
        rels := rels[id := RelationSet(Settings(Snapshot(), id), args)];
      }
      return works;
    }

    /**
     `ids` are the current relations, and `reach` is how many of them the tool manages to set
     before it fails. The map is iterated in whatever order.
     */
    method SetValues(vals: Attrs, ids: seq<string>, reach: nat) returns (ok: bool, ghost keyvals: seq<string>)
      modifies this
      ensures Lists(keyvals, vals)
      ensures ok <==> reach >= |ids| || vals == map[]
      ensures Snapshot() == if ok then SetFirst(old(Snapshot()), ids, keyvals, |ids|).(values := keyvals)
                            else SetFirst(old(Snapshot()), ids, keyvals, reach)
    {
      var list := [];
      var rest := vals.Keys;
      while rest != {}
        invariant rest <= vals.Keys && |list| % 2 == 0
        invariant Pairs(list) == map key | key in vals && key !in rest :: vals[key]
      {
        var key :| key in rest;
        var longer := list + [key, vals[key]];
        assert longer[..|longer| - 2] == list;
        list := longer;
        rest := rest - {key};
      }
      assert Pairs(list) == vals;
      if |list| >= 2 { assert list[|list| - 2] in Pairs(list); }
      assert vals == map[] <==> list == [];
      keyvals := list;
      for i := 0 to |ids|
        invariant Snapshot() == SetFirst(old(Snapshot()), ids, list, i)
        invariant i <= reach || list == []
      {
        var worked := SetRelationWithId(ids[i], list, i < reach);
        if !worked {
          return false, list;
        }
      }
      values := list;
      return true, list;
    }

    method RelationJoined(id: string, works: bool) returns (ok: bool)
      modifies this`rels
      ensures Snapshot() == if ok then SetRelation(old(Snapshot()), id, values) else old(Snapshot())
      ensures |values| % 2 == 0 ==> (ok <==> values == [] || works)
    {
      ok := SetRelationWithId(id, values, works);
    }
  }

  // ---- Runs ----

  /** What happens to a provider: `keyvals` is the list that some order of iteration makes. */
  datatype Op =
    | SetValues(vals: Attrs, keyvals: seq<string>, ids: seq<string>, reach: nat)
    | Joined(id: string, works: bool)

  predicate Completes(op: Op) {
    op.SetValues? && (op.reach >= |op.ids| || op.keyvals == [])
  }

  function Apply(p: P, op: Op): P {
    match op
    case SetValues(vals, keyvals, ids, reach) =>
      if Completes(op) then SetFirst(p, ids, keyvals, |ids|).(values := keyvals)
      else SetFirst(p, ids, keyvals, reach)
    case Joined(id, works) =>
      if works then SetRelation(p, id, p.values) else p
  }

  /**
   The relations that have been given the values set last: all that were there when they were
   set, and all joined since, but for those that a later, failing SetValues got to.
   */
  function Covered(covered: set<string>, op: Op): set<string> {
    match op
    case SetValues(_, _, ids, reach) =>
      if Completes(op) then set id | id in ids
      else covered - set id | id in ids[..reach]
    case Joined(id, works) => if works then covered + {id} else covered
  }

  /** Every call sets the same, non-empty set of attributes, whose names have no '='. */
  ghost predicate Uses(keys: set<string>, op: Op) {
    op.SetValues? ==> Lists(op.keyvals, op.vals) && op.vals.Keys == keys
  }

  ghost predicate FixedKeys(keys: set<string>) {
    keys != {} && forall key :: key in keys ==> '=' !in key
  }

  ghost predicate Within(keys: set<string>, p: P) {
    forall id :: id in p.rels ==> p.rels[id].Keys <= keys
  }

  /** The relations that should hold exactly the last values, and no relation holds any other attribute. */
  ghost predicate Holding(keys: set<string>, p: P, covered: set<string>) {
    && Within(keys, p)
    && |p.values| % 2 == 0
    && (p.values != [] ==>
          Pairs(p.values).Keys == keys && forall id :: id in covered ==> Settings(p, id) == Pairs(p.values))
  }

  lemma MergeOver(a: Attrs, b: Attrs)
    requires a.Keys <= b.Keys
    ensures a + b == b
  {
  }

  lemma SetRelationIsPairs(keys: set<string>, settings: Attrs, keyvals: seq<string>)
    requires FixedKeys(keys) && Pairs(keyvals).Keys == keys && settings.Keys <= keys
    ensures RelationSet(settings, Args(keyvals)) == Pairs(keyvals)
  {
    hide Pairs, Args, RelationSet;
    RelationSetAddsPairs(settings, keyvals);
    MergeOver(settings, Pairs(keyvals));
  }

  lemma OverwriteOne(keys: set<string>, p: P, id: string, vals: Attrs)
    requires vals.Keys == keys && Within(keys, p)
    ensures var r := p.(rels := p.rels[id := vals]);
            Within(keys, r) && forall i :: Settings(r, i) == if i == id then vals else Settings(p, i)
  {
  }

  lemma SetRelationOverwrites(keys: set<string>, p: P, id: string, keyvals: seq<string>)
    requires FixedKeys(keys) && |keyvals| % 2 == 0 && Pairs(keyvals).Keys == keys
    requires Within(keys, p)
    ensures var r := SetRelation(p, id, keyvals);
            && r == p.(rels := p.rels[id := Pairs(keyvals)])
            && (forall i :: Settings(r, i) == if i == id then Pairs(keyvals) else Settings(p, i))
            && Within(keys, r)
  {
    assert Settings(p, id).Keys <= keys;
    SetRelationIsPairs(keys, Settings(p, id), keyvals);
    OverwriteOne(keys, p, id, Pairs(keyvals));
    assert keyvals != [];
  }

  lemma {:induction false} SetFirstOverwrites(keys: set<string>, p: P, ids: seq<string>, keyvals: seq<string>, n: nat)
    requires FixedKeys(keys) && |keyvals| % 2 == 0 && Pairs(keyvals).Keys == keys && n <= |ids|
    requires Within(keys, p)
    ensures var r := SetFirst(p, ids, keyvals, n);
            && r == p.(rels := r.rels)
            && (forall i :: Settings(r, i) == if i in ids[..n] then Pairs(keyvals) else Settings(p, i))
            && Within(keys, r)
  {
    if n > 0 {
      var q := SetFirst(p, ids, keyvals, n - 1);
      var r := SetRelation(q, ids[n - 1], keyvals);
      SetFirstOverwrites(keys, p, ids, keyvals, n - 1);
      SetRelationOverwrites(keys, q, ids[n - 1], keyvals);
      assert ids[..n] == ids[..n - 1] + [ids[n - 1]];
      assert forall i :: i in ids[..n] <==> i in ids[..n - 1] || i == ids[n - 1];
    }
  }

  lemma StepHolds(keys: set<string>, p: P, covered: set<string>, op: Op)
    requires FixedKeys(keys) && Uses(keys, op) && Holding(keys, p, covered)
    ensures Holding(keys, Apply(p, op), Covered(covered, op))
  {
    match op
    case SetValues(vals, keyvals, ids, reach) =>
      assert keyvals != [];
      SetFirstOverwrites(keys, p, ids, keyvals, if Completes(op) then |ids| else reach);
      assert ids[..|ids|] == ids;
    case Joined(id, works) =>
      if works && p.values != [] {
        SetRelationOverwrites(keys, p, id, p.values);
      }
  }

  function Run(ops: seq<Op>): P {
    if ops == [] then P([], map[]) else Apply(Run(ops[..|ops| - 1]), ops[|ops| - 1])
  }

  function CoveredBy(ops: seq<Op>): set<string> {
    if ops == [] then {} else Covered(CoveredBy(ops[..|ops| - 1]), ops[|ops| - 1])
  }

  lemma {:induction false} RunHolds(keys: set<string>, ops: seq<Op>)
    requires FixedKeys(keys) && forall k :: 0 <= k < |ops| ==> Uses(keys, ops[k])
    ensures Holding(keys, Run(ops), CoveredBy(ops))
  {
    if ops != [] {
      RunHolds(keys, ops[..|ops| - 1]);
      StepHolds(keys, Run(ops[..|ops| - 1]), CoveredBy(ops[..|ops| - 1]), ops[|ops| - 1]);
    }
  }

  lemma {:induction false} JoinsCover(ops: seq<Op>, joins: seq<Op>, id: string)
    requires forall k :: 0 <= k < |joins| ==> joins[k].Joined?
    ensures Run(ops + joins).values == Run(ops).values
    ensures id in CoveredBy(ops) || Joined(id, true) in joins ==> id in CoveredBy(ops + joins)
    decreases |joins|
  {
    if joins == [] {
      assert ops + joins == ops;
    } else {
      var front := joins[..|joins| - 1];
      assert (ops + joins)[..|ops + joins| - 1] == ops + front;
      assert joins == front + [joins[|joins| - 1]];
      JoinsCover(ops, front, id);
    }
  }

  /**
   Over any history of a provider with a fixed set of attributes, failures included: once
   SetValues has succeeded, every relation that was there then, and every one joined since,
   holds exactly the values set, whatever order the map was iterated in, until SetValues is
   called again.
   */
  lemma {:induction false} ProviderAgreement(keys: set<string>, ops: seq<Op>, op: Op, joins: seq<Op>, id: string)
    requires FixedKeys(keys) && (forall k :: 0 <= k < |ops| ==> Uses(keys, ops[k]))
    requires op.SetValues? && Uses(keys, op) && Completes(op)
    requires forall k :: 0 <= k < |joins| ==> joins[k].Joined?
    requires id in op.ids || Joined(id, true) in joins
    ensures Settings(Run(ops + [op] + joins), id) == op.vals
    decreases |joins|
  {
    var all := ops + [op] + joins;
    RunHolds(keys, all);
    assert id in CoveredBy(all) && Pairs(Run(all).values) == op.vals && Run(all).values != [] by {
      JoinsCover(ops + [op], joins, id);
      assert (ops + [op])[..|ops|] == ops;
    }
  }

  // ---- Attributes that change ----

  lemma MergeTwice(a: Attrs, b: Attrs)
    ensures (a + b) + b == a + b
  {
  }

  lemma MergeNothing(a: Attrs)
    ensures a + map[] == a
  {
  }

  /** Setting relations merges the attributes into those that each has. */
  lemma {:induction false} SetFirstMerges(p: P, ids: seq<string>, keyvals: seq<string>, n: nat, id: string)
    requires |keyvals| % 2 == 0 && PlainKeys(Pairs(keyvals)) && n <= |ids|
    ensures Settings(SetFirst(p, ids, keyvals, n), id)
            == if id in ids[..n] then Settings(p, id) + Pairs(keyvals) else Settings(p, id)
  {
    if n > 0 {
      var q := SetFirst(p, ids, keyvals, n - 1);
      SetFirstMerges(p, ids, keyvals, n - 1, id);
      RelationSetAddsPairs(Settings(q, ids[n - 1]), keyvals);
      assert ids[..n] == ids[..n - 1] + [ids[n - 1]];
      MergeTwice(Settings(p, id), Pairs(keyvals));
      MergeNothing(Settings(p, id));
    }
  }

  lemma {:induction false} SetFirstKeepsValues(p: P, ids: seq<string>, keyvals: seq<string>, n: nat)
    requires n <= |ids|
    ensures SetFirst(p, ids, keyvals, n).values == p.values
  {
    if n > 0 {
      SetFirstKeepsValues(p, ids, keyvals, n - 1);
    }
  }

  /**
   SetValues merges the values into what each relation has, up to the first that cannot be set;
   it records them only if it gets to the end.
   */
  lemma SetValuesMerges(p: P, op: Op, id: string)
    requires op.SetValues? && Lists(op.keyvals, op.vals) && PlainKeys(op.vals)
    ensures var reached := if op.reach >= |op.ids| then op.ids else op.ids[..op.reach];
            Settings(Apply(p, op), id) == if id in reached then Settings(p, id) + op.vals else Settings(p, id)
    ensures op.vals != map[] ==>
              Apply(p, op).values == if op.reach >= |op.ids| then op.keyvals else p.values
  {
    SetFirstMerges(p, op.ids, op.keyvals, if Completes(op) then |op.ids| else op.reach, id);
    assert op.ids[..|op.ids|] == op.ids;
    MergeNothing(Settings(p, id));
    SetFirstKeepsValues(p, op.ids, op.keyvals, if Completes(op) then |op.ids| else op.reach);
  }

  /**
   After SetValues has succeeded, a relation holds exactly the values set if and only if what it
   held before had no other attributes: those set earlier and not set again are never removed.
   */
  lemma SetValuesHoldsExactly(p: P, op: Op, id: string)
    requires op.SetValues? && Completes(op) && Lists(op.keyvals, op.vals) && PlainKeys(op.vals) && id in op.ids
    ensures Settings(Apply(p, op), id) == op.vals <==> Settings(p, id).Keys <= op.vals.Keys
  {
    SetFirstMerges(p, op.ids, op.keyvals, |op.ids|, id);
    assert op.ids[..|op.ids|] == op.ids;
    var before := Settings(p, id);
    assert Settings(Apply(p, op), id) == before + op.vals;
    assert (before + op.vals).Keys == before.Keys + op.vals.Keys;
    if before.Keys <= op.vals.Keys {
      MergeOver(before, op.vals);
    }
  }

  // ---- Hooks that end, and save or do not ----

  /**
   The values are kept in a process that lives for one hook: when the hook ends they are saved,
   or, if that fails before their file is written, the next process starts from what was saved last.
   */
  datatype Event = Do(op: Op) | End(saved: bool)

  datatype Life = Life(p: P, stored: seq<string>)

  function Step(l: Life, e: Event): Life {
    match e
    case Do(op) => l.(p := Apply(l.p, op))
    case End(saved) => if saved then l.(stored := l.p.values) else l.(p := l.p.(values := l.stored))
  }

  function Steps(l: Life, events: seq<Event>): Life
    decreases |events|
  {
    if events == [] then l else Steps(Step(l, events[0]), events[1..])
  }

  ghost predicate AllUse(keys: set<string>, events: seq<Event>) {
    forall k :: 0 <= k < |events| && events[k].Do? ==> Uses(keys, events[k].op)
  }

  ghost predicate GoodValues(keys: set<string>, values: seq<string>) {
    |values| % 2 == 0 && (values != [] ==> Pairs(values).Keys == keys)
  }

  ghost predicate GoodLife(keys: set<string>, l: Life) {
    Within(keys, l.p) && GoodValues(keys, l.p.values) && GoodValues(keys, l.stored)
  }

  lemma StepIsGood(keys: set<string>, l: Life, e: Event)
    requires FixedKeys(keys) && GoodLife(keys, l) && (e.Do? ==> Uses(keys, e.op))
    ensures GoodLife(keys, Step(l, e))
  {
    if e.Do? {
      assert Holding(keys, l.p, {});
      StepHolds(keys, l.p, {}, e.op);
    }
  }

  lemma {:induction false} StepsAreGood(keys: set<string>, l: Life, events: seq<Event>)
    requires FixedKeys(keys) && GoodLife(keys, l) && AllUse(keys, events)
    ensures GoodLife(keys, Steps(l, events))
    decreases |events|
  {
    if events != [] {
      StepIsGood(keys, l, events[0]);
      StepsAreGood(keys, Step(l, events[0]), events[1..]);
    }
  }

  lemma {:induction false} StepsConcat(l: Life, a: seq<Event>, b: seq<Event>)
    ensures Steps(l, a + b) == Steps(Steps(l, a), b)
    decreases |a|
  {
    if a == [] {
      assert a + b == b;
    } else {
      assert (a + b)[1..] == a[1..] + b;
      StepsConcat(Step(l, a[0]), a[1..], b);
    }
  }

  /** Joins and ends of hooks, of which the first to end saves. */
  predicate FirstSaves(events: seq<Event>) {
    events != [] ==> if events[0].End? then events[0].saved else FirstSaves(events[1..])
  }

  predicate OnlyJoins(events: seq<Event>) {
    forall k :: 0 <= k < |events| && events[k].Do? ==> events[k].op.Joined?
  }

  lemma {:induction false} JoinsKeepValues(keys: set<string>, l: Life, events: seq<Event>, id: string)
    requires FixedKeys(keys) && GoodLife(keys, l) && OnlyJoins(events) && l.p.values != []
    requires FirstSaves(events) || l.stored == l.p.values
    requires Settings(l.p, id) == Pairs(l.p.values) || Do(Joined(id, true)) in events
    ensures Settings(Steps(l, events).p, id) == Pairs(l.p.values)
    decreases |events|
  {
    if events != [] {
      var e := events[0];
      if e == Do(Joined(id, true)) || (e.Do? && e.op.works) {
        SetRelationOverwrites(keys, l.p, e.op.id, l.p.values);
      }
      StepIsGood(keys, l, e);
      JoinsKeepValues(keys, Step(l, e), events[1..], id);
    }
  }

  /**
   Over any history of processes: after SetValues has succeeded, in a hook that then saves,
   every relation there then or joined since holds exactly its values, whatever later hooks fail
   to save.
   */
  lemma AgreementAcrossHooks(keys: set<string>, before: seq<Event>, op: Op, after: seq<Event>, id: string)
    requires FixedKeys(keys) && AllUse(keys, before)
    requires op.SetValues? && Uses(keys, op) && Completes(op)
    requires OnlyJoins(after) && FirstSaves(after)
    requires id in op.ids || Do(Joined(id, true)) in after
    ensures Settings(Steps(Life(P([], map[]), []), before + [Do(op)] + after).p, id) == op.vals
  {
    var new0 := Life(P([], map[]), []);
    StepsAreGood(keys, new0, before);
    var l := Steps(new0, before);
    StepsConcat(new0, before, [Do(op)] + after);
    assert before + [Do(op)] + after == before + ([Do(op)] + after);
    assert ([Do(op)] + after)[1..] == after;
    assert op.keyvals != [];
    SetFirstOverwrites(keys, l.p, op.ids, op.keyvals, |op.ids|);
    assert op.ids[..|op.ids|] == op.ids;
    StepIsGood(keys, l, Do(op));
    JoinsKeepValues(keys, Step(l, Do(op)), after, id);
  }

  lemma ThreeSteps(l: Life, a: Event, b: Event, c: Event)
    ensures Steps(l, [a, b, c]) == Step(Step(Step(l, a), b), c)
  {
    hide Step;
    assert [a, b, c][1..] == [b, c] && [b, c][1..] == [c] && [c][1..] == [];
    assert Steps(Step(Step(l, a), b), [c]) == Steps(Step(Step(Step(l, a), b), c), []);
  }

  /** If instead that hook fails to save, a relation that joins next gets the values saved before. */
  lemma UnsavedValuesDiverge(keys: set<string>, l: Life, op: Op, id: string)
    requires FixedKeys(keys) && GoodLife(keys, l) && l.stored != []
    requires op.SetValues? && Uses(keys, op) && Completes(op) && id !in op.ids
    ensures var r := Steps(l, [Do(op), End(false), Do(Joined(id, true))]);
            Settings(r.p, id) == Pairs(l.stored) && forall i :: i in op.ids ==> Settings(r.p, i) == op.vals
  {
    var l2 := Step(Step(l, Do(op)), End(false));
    ThreeSteps(l, Do(op), End(false), Do(Joined(id, true)));
    assert op.keyvals != [];
    SetFirstOverwrites(keys, l.p, op.ids, op.keyvals, |op.ids|);
    assert op.ids[..|op.ids|] == op.ids;
    SetRelationOverwrites(keys, l2.p, id, l.stored);
  }
}

/**
 The concat charm, example-charms/concat/runhook.go: what one unit does in one hook.

 The unit's tools (reading configuration, notifying its server, setting a relation) may fail;
 their outcomes are parameters. `sent` holds what the unit has set "val" to on each relation.
 */
module Concat {
  import opened Wrappers
  import opened SortedStrings
  import opened Requirer

  datatype LocalState = LocalState(val: string, port: int)

  function Units(relations: map<string, map<string, Attrs>>, id: string): map<string, Attrs> {
    if id in relations then relations[id] else map[]
  }

  /** The values of one relation, in the order of the units they come from. */
  ghost function UnitVals(units: map<string, Attrs>): seq<string> {
    var ids := InOrder(units.Keys);
    seq(|ids|, i requires 0 <= i < |ids| => if ids[i] in units then Get(units[ids[i]], "val") else "")
  }

  ghost function UpstreamVals(ids: seq<string>, relations: map<string, map<string, Attrs>>): seq<string> {
    if ids == [] then []
    else UpstreamVals(ids[..|ids| - 1], relations) + UnitVals(Units(relations, ids[|ids| - 1]))
  }

  /** The value of a unit: its own value, if any, and its upstream values, in braces. */
  function Render(own: string, vals: seq<string>): string {
    "{" + Join((if own != "" then [own] else []) + vals, " ") + "}"
  }

  /** What a unit has sent after setting the first `n` of `ids` to `val`. */
  function SendFirst(sent: map<string, string>, ids: seq<string>, val: string, n: nat): map<string, string>
    requires n <= |ids|
  {
    if n == 0 then sent else SendFirst(sent, ids, val, n - 1)[ids[n - 1] := val]
  }

  function Lookup(sent: map<string, string>, id: string): string {
    if id in sent then sent[id] else ""
  }

  lemma {:induction false} SendFirstLookup(sent: map<string, string>, ids: seq<string>, val: string, n: nat, id: string)
    requires n <= |ids|
    ensures Lookup(SendFirst(sent, ids, val, n), id) == if id in ids[..n] then val else Lookup(sent, id)
  {
    if n > 0 {
      SendFirstLookup(sent, ids, val, n - 1, id);
      assert ids[..n] == ids[..n - 1] + [ids[n - 1]];
    }
  }

  /** The upstream values are those of the relations, relation by relation. */
  lemma UpstreamOneMore(ids: seq<string>, n: nat, relations: map<string, map<string, Attrs>>)
    requires 0 < n <= |ids|
    ensures UpstreamVals(ids[..n], relations)
            == UpstreamVals(ids[..n - 1], relations) + UnitVals(Units(relations, ids[n - 1]))
  {
    hide UnitVals;
    assert ids[..n][..n - 1] == ids[..n - 1];
  }

  /** The values of a relation are what its units have under "val", in order of unit id. */
  lemma UnitValsAre(units: map<string, Attrs>)
    ensures |UnitVals(units)| == |InOrder(units.Keys)|
    ensures forall k :: 0 <= k < |InOrder(units.Keys)| ==>
              var attrs := if InOrder(units.Keys)[k] in units then units[InOrder(units.Keys)[k]] else map[];
              InOrder(units.Keys)[k] in units && UnitVals(units)[k] == if "val" in attrs then attrs["val"] else ""
  {
    hide InOrder;
    forall k | 0 <= k < |InOrder(units.Keys)| ensures InOrder(units.Keys)[k] in units {
      InOrderMembers(units.Keys, InOrder(units.Keys)[k]);
    }
  }

  class Concatenator {
    var state: LocalState
    var newState: LocalState
    var sent: map<string, string>
    var writes: nat

    constructor (state: LocalState, sent: map<string, string>)
      ensures this.state == state && this.sent == sent && writes == 0
    {
      this.state := state;
      this.newState := state;
      this.sent := sent;
      writes := 0;
    }

    method SetContext()
      modifies this`newState
      ensures newState == state
    {
      newState := state;
    }

    /** `own` is the configured value, or None if it cannot be read. */
    method Changed(own: Option<string>, upstream: seq<string>, relations: map<string, map<string, Attrs>>, port: int)
      returns (ok: bool)
      modifies this`newState
      ensures ok == own.Some?
      ensures newState == if ok then LocalState(Render(own.value, UpstreamVals(upstream, relations)), port)
                          else old(newState)
    {
      if own.None? {
        return false;
      }
      var upstreamVals := CollectUpstream(upstream, relations);
      newState := LocalState(Render(own.value, upstreamVals), port);
      return true;
    }

    /** The loop of changed over the upstream relations. */
    method CollectUpstream(upstream: seq<string>, relations: map<string, map<string, Attrs>>)
      returns (vals: seq<string>)
      ensures vals == UpstreamVals(upstream, relations)
    {
      vals := [];
      for i := 0 to |upstream|
        invariant vals == UpstreamVals(upstream[..i], relations)
      {
        var unitVals := SortedVals(Units(relations, upstream[i]));
        assert upstream[..i + 1][..i] == upstream[..i];
        vals := vals + unitVals;
      }
      assert upstream[..|upstream|] == upstream;
    }

    /** All the values of one relation, sorted by the unit they come from. */
    method SortedVals(units: map<string, Attrs>) returns (vals: seq<string>)
      ensures vals == UnitVals(units)
    {
      hide InOrder;
      var unitIds := SortedKeys(units);
      vals := [];
      for j := 0 to |unitIds|
        invariant |vals| == j && forall k :: 0 <= k < j ==> vals[k] == UnitVals(units)[k]
      {
        InOrderMembers(units.Keys, unitIds[j]);
        assert unitIds[j] in units;
        vals := vals + [Get(units[unitIds[j]], "val")];
      }
    }

    /** `id` is the relation that was joined; `works` is whether setting it succeeds. */
    method DownstreamJoined(id: string, works: bool) returns (ok: bool)
      modifies this`sent, this`writes
      ensures ok == works
      ensures sent == if works then old(sent)[id := state.val] else old(sent)
      ensures writes == old(writes) + (if works then 1 else 0)
    {
      if works {
        sent := sent[id := state.val];
        writes := writes + 1;
      }
      return works;
    }

    /**
     `notified` is whether the server could be notified, and `reach` how many of the downstream
     relations are set before one fails (or all of them).
     */
    method Finally(downstream: seq<string>, notified: bool, reach: nat) returns (ok: bool)
      requires reach <= |downstream|
      modifies this`state, this`sent, this`writes
      ensures newState == old(state) || !notified ==> sent == old(sent) && writes == old(writes)
      ensures newState != old(state) && notified ==>
                sent == SendFirst(old(sent), downstream, newState.val, reach) && writes == old(writes) + reach
      ensures ok <==> newState == old(state) || (notified && reach == |downstream|)
      ensures state == if ok then newState else old(state)
    {
      if newState == state {
        return true;
      }
      if !notified {
        return false;
      }
      for i := 0 to |downstream|
        invariant i <= reach
        invariant state == old(state)
        invariant sent == SendFirst(old(sent), downstream, newState.val, i) && writes == old(writes) + i
      {
        if i == reach {
          return false;
        }
        sent := sent[downstream[i] := newState.val];
        writes := writes + 1;
      }
      state := newState;
      return true;
    }
  }
}

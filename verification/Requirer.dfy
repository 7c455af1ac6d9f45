/**
 The requirer side of a simple relation, charmbits/simplerelation/requirer.go, and the
 addresses that charmbits/mongodbrelation/requirer.go makes of it.
 */
module Requirer {
  import opened Wrappers
  import opened SortedStrings

  /** What the hook context knows of the relations of the unit. */
  datatype Context = Context(relationIds: map<string, seq<string>>, relations: map<string, map<string, Attrs>>)

  function Get(attrs: Attrs, key: string): string {
    if key in attrs then attrs[key] else ""
  }

  /** Requirer.Values: the units of the one provider, or nothing if there is none or several. */
  function Values(ctxt: Context, relationName: string): map<string, Attrs> {
    if relationName !in ctxt.relationIds || |ctxt.relationIds[relationName]| != 1 then map[]
    else
      var id := ctxt.relationIds[relationName][0];
      if id in ctxt.relations then ctxt.relations[id] else map[]
  }

  /** Only a relation with exactly one provider has values. */
  lemma ValuesExactly(ctxt: Context, relationName: string)
    ensures var ids := if relationName in ctxt.relationIds then ctxt.relationIds[relationName] else [];
            && (|ids| != 1 ==> Values(ctxt, relationName) == map[])
            && (|ids| == 1 && ids[0] in ctxt.relations ==> Values(ctxt, relationName) == ctxt.relations[ids[0]])
  {
  }

  /** What a unit contributes: a convert that fails (None) or gives an empty string contributes nothing. */
  function Contribution(convert: Attrs -> Option<string>, attrs: Attrs): seq<string> {
    var s := convert(attrs);
    if s.None? || s.value == "" then [] else [s.value]
  }

  ghost function Contributions(ids: seq<string>, vals: map<string, Attrs>, convert: Attrs -> Option<string>)
    : seq<string>
    requires forall id :: id in ids ==> id in vals
  {
    if ids == [] then []
    else Contributions(ids[..|ids| - 1], vals, convert) + Contribution(convert, vals[ids[|ids| - 1]])
  }

  /** The result of Strings as a function of the unit map alone. */
  ghost function StringsOf(vals: map<string, Attrs>, convert: Attrs -> Option<string>): seq<string> {
    var ids := InOrder(vals.Keys);
    assert forall id :: id in ids ==> id in vals by {
      forall id | id in ids ensures id in vals { InOrderMembers(vals.Keys, id); }
    }
    Contributions(ids, vals, convert)
  }

  class Requirer {
    const ctxt: Context
    const relationName: string

    constructor (ctxt: Context, relationName: string)
      ensures this.ctxt == ctxt && this.relationName == relationName
    {
      this.ctxt := ctxt;
      this.relationName := relationName;
    }

    /** Whatever order the map is iterated in, the result is the same. */
    method Strings(convert: Attrs -> Option<string>) returns (strings: seq<string>)
      ensures strings == StringsOf(Values(ctxt, relationName), convert)
    {
      hide InOrder, Values;
      var unitVals := Values(ctxt, relationName);
      var unitIds := SortedKeys(unitVals);
      forall id | id in unitIds ensures id in unitVals { InOrderMembers(unitVals.Keys, id); }
      strings := [];
      for i := 0 to |unitIds|
        invariant forall id :: id in unitIds[..i] ==> id in unitVals
        invariant strings == Contributions(unitIds[..i], unitVals, convert)
      {
        assert unitIds[..i + 1][..i] == unitIds[..i];
        var s := convert(unitVals[unitIds[i]]);
        if s.None? || s.value == "" {
          assert strings + [] == strings;
        } else {
          strings := strings + [s.value];
        }
      }
      assert unitIds[..|unitIds|] == unitIds;
    }
  }

  lemma {:induction false} ContributionsMembers(
      ids: seq<string>, vals: map<string, Attrs>, convert: Attrs -> Option<string>, s: string)
    requires forall id :: id in ids ==> id in vals
    ensures s in Contributions(ids, vals, convert)
            <==> s != "" && exists id :: id in ids && convert(vals[id]) == Some(s)
  {
    if ids != [] {
      var front, last := ids[..|ids| - 1], ids[|ids| - 1];
      ContributionsMembers(front, vals, convert, s);
      assert ids == front + [last];
      assert forall id :: id in ids <==> id in front || id == last;
    }
  }

  /** Exactly the non-empty conversions of the units are there. */
  lemma StringsMembers(vals: map<string, Attrs>, convert: Attrs -> Option<string>, s: string)
    ensures s in StringsOf(vals, convert) <==> s != "" && exists id :: id in vals && convert(vals[id]) == Some(s)
  {
    var ids := InOrder(vals.Keys);
    forall id ensures id in ids <==> id in vals { InOrderMembers(vals.Keys, id); }
    ContributionsMembers(ids, vals, convert, s);
    if s in StringsOf(vals, convert) {
      var id :| id in ids && convert(vals[id]) == Some(s);
      assert id in vals;
    }
  }

  /** The units whose conversion neither fails nor is empty. */
  ghost function Contributors(vals: map<string, Attrs>, convert: Attrs -> Option<string>): set<string> {
    set id | id in vals && convert(vals[id]).Some? && convert(vals[id]).value != ""
  }

  /** Those of a list of units that contribute, as they come. */
  ghost function Kept(ids: seq<string>, vals: map<string, Attrs>, convert: Attrs -> Option<string>): seq<string> {
    if ids == [] then []
    else
      var front, last := ids[..|ids| - 1], ids[|ids| - 1];
      Kept(front, vals, convert) + if last in Contributors(vals, convert) then [last] else []
  }

  lemma {:induction false} KeptCounts(
      ids: seq<string>, vals: map<string, Attrs>, convert: Attrs -> Option<string>, id: string)
    ensures multiset(Kept(ids, vals, convert))[id]
            == if id in Contributors(vals, convert) then multiset(ids)[id] else 0
    decreases |ids|
  {
    if ids != [] {
      hide Contributors;
      KeptCounts(ids[..|ids| - 1], vals, convert, id);
      assert ids == ids[..|ids| - 1] + [ids[|ids| - 1]];
    }
  }

  lemma {:induction false} KeptIsSorted(ids: seq<string>, vals: map<string, Attrs>, convert: Attrs -> Option<string>)
    requires Sorted(ids)
    ensures Sorted(Kept(ids, vals, convert))
    decreases |ids|
  {
    if ids != [] {
      hide Contributors, Leq;
      var front, last := ids[..|ids| - 1], ids[|ids| - 1];
      var kept := Kept(front, vals, convert);
      KeptIsSorted(front, vals, convert);
      forall i | 0 <= i < |kept| ensures Leq(kept[i], last) {
        KeptCounts(front, vals, convert, kept[i]);
        assert kept[i] in multiset(kept);
        assert kept[i] in front;
      }
    }
  }

  lemma {:induction false} ContributionsAreKept(
      ids: seq<string>, vals: map<string, Attrs>, convert: Attrs -> Option<string>)
    requires forall id :: id in ids ==> id in vals
    ensures var kept, all := Kept(ids, vals, convert), Contributions(ids, vals, convert);
            |all| == |kept| && forall k :: 0 <= k < |kept| ==> kept[k] in vals && convert(vals[kept[k]]) == Some(all[k])
    decreases |ids|
  {
    if ids != [] {
      ContributionsAreKept(ids[..|ids| - 1], vals, convert);
    }
  }

  /**
   The result of Strings, apart from how it is collected: the conversions of exactly the units
   that contribute, in order of unit id.
   */
  lemma StringsAre(vals: map<string, Attrs>, convert: Attrs -> Option<string>)
    ensures var ids, all := InOrder(Contributors(vals, convert)), StringsOf(vals, convert);
            |all| == |ids| && forall k :: 0 <= k < |ids| ==> ids[k] in vals && convert(vals[ids[k]]) == Some(all[k])
  {
    var ids := InOrder(vals.Keys);
    forall id ensures id in ids <==> id in vals { InOrderMembers(vals.Keys, id); }
    KeptIsSorted(ids, vals, convert);
    ContributionsAreKept(ids, vals, convert);
    var kept, wanted := Kept(ids, vals, convert), InOrder(Contributors(vals, convert));
    hide InOrder, Kept;
    forall id ensures multiset(kept)[id] == multiset(wanted)[id] {
      KeptCounts(ids, vals, convert, id);
    }
    assert multiset(kept) == multiset(wanted);
    SortedUnique(kept, wanted);
  }

  // ---- MongoDB addresses ----

  /** net.JoinHostPort */
  function JoinHostPort(host: string, port: string): string {
    if ':' in host then "[" + host + "]:" + port else host + ":" + port
  }

  /** What an address is read as: what follows the last colon is the port, and brackets are not part of the host. */
  function SplitHostPort(addr: string): (string, string) {
    var colon := LastColon(addr);
    var host := addr[..colon];
    (if |host| >= 2 && host[0] == '[' && host[|host| - 1] == ']' then host[1..|host| - 1] else host,
     if colon < |addr| then addr[colon + 1..] else "")
  }

  function LastColon(addr: string): (i: nat)
    ensures i <= |addr|
  {
    if addr == [] then 0
    else if addr[|addr| - 1] == ':' then |addr| - 1
    else
      var i := LastColon(addr[..|addr| - 1]);
      if i == |addr| - 1 then |addr| else i
  }

  lemma {:induction false} LastColonOf(host: string, port: string)
    requires ':' !in port
    ensures LastColon(host + ":" + port) == |host|
    decreases |port|
  {
    var addr := host + ":" + port;
    if port != "" {
      LastColonOf(host, port[..|port| - 1]);
      assert addr[..|addr| - 1] == host + ":" + port[..|port| - 1];
    }
  }

  /** A joined host and port come apart again, an IPv6 host with its colons included. */
  lemma JoinedHostPortSplits(host: string, port: string)
    requires ':' !in port && (host == "" || host[0] != '[')
    ensures SplitHostPort(JoinHostPort(host, port)) == (host, port)
  {
    var outer := if ':' in host then "[" + host + "]" else host;
    LastColonOf(outer, port);
    var addr := outer + ":" + port;
    assert JoinHostPort(host, port) == addr;
    assert addr[..|outer|] == outer && addr[|outer| + 1..] == port;
  }

  /** mongodbrelation.unitAddress */
  function UnitAddress(attrs: Attrs): Option<string> {
    if Get(attrs, "hostname") == "" then Some("")
    else if Get(attrs, "port") == "" then None
    else Some(JoinHostPort(Get(attrs, "hostname"), Get(attrs, "port")))
  }

  ghost function URL(vals: map<string, Attrs>): string {
    var addrs := StringsOf(vals, UnitAddress);
    if addrs == [] then "" else "mongodb://" + Join(addrs, ",")
  }

  /** The URL lists, after the scheme, the addresses of the units that have both a host name and a port. */
  lemma URLIs(vals: map<string, Attrs>)
    ensures forall id :: id in Contributors(vals, UnitAddress)
                         <==> id in vals && Get(vals[id], "hostname") != "" && Get(vals[id], "port") != ""
    ensures Contributors(vals, UnitAddress) != {} ==>
              URL(vals) == "mongodb://" + Join(StringsOf(vals, UnitAddress), ",")
  {
    StringsAre(vals, UnitAddress);
    if id :| id in Contributors(vals, UnitAddress) {
      InOrderMembers(Contributors(vals, UnitAddress), id);
    }
  }

  /** The relation counts as incomplete exactly when no unit has both a host name and a port. */
  lemma IncompleteExactly(vals: map<string, Attrs>)
    ensures URL(vals) == ""
            <==> forall id :: id in vals ==> Get(vals[id], "hostname") == "" || Get(vals[id], "port") == ""
  {
    var addrs := StringsOf(vals, UnitAddress);
    if addrs != [] {
      StringsMembers(vals, UnitAddress, addrs[0]);
      assert URL(vals)[0] == 'm';
    }
    forall id | id in vals && Get(vals[id], "hostname") != "" && Get(vals[id], "port") != ""
      ensures addrs != []
    {
      StringsMembers(vals, UnitAddress, JoinHostPort(Get(vals[id], "hostname"), Get(vals[id], "port")));
    }
  }
}

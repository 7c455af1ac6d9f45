/**
 Registering relations and configuration options, hook/registry.go: the same name may be
 registered again, from any clone, if all details match. The order of registration is shown not
 to matter: neither to whether it panics, nor to the metadata it results in.
 */
module Metadata {
  import opened Wrappers

  datatype Entry<V> = Entry(name: string, details: V)

  /** Adding to a table in which a name must keep its details; None is a panic. RegisterConfig is this. */
  function Add<V(==)>(table: map<string, V>, e: Entry<V>): Option<map<string, V>> {
    if e.name !in table then Some(table[e.name := e.details])
    else if table[e.name] != e.details then None
    else Some(table)
  }

  function AddAll<V(==)>(entries: seq<Entry<V>>): Option<map<string, V>> {
    if entries == [] then Some(map[])
    else
      var before := AddAll(entries[..|entries| - 1]);
      if before.None? then None else Add(before.value, entries[|entries| - 1])
  }

  ghost predicate Consistent<V>(entries: seq<Entry<V>>) {
    forall d, e :: d in entries && e in entries && d.name == e.name ==> d == e
  }

  /** The table holds the details of every entry, and nothing else. */
  ghost predicate IsTable<V>(entries: seq<Entry<V>>, table: map<string, V>) {
    && (forall e :: e in entries ==> e.name in table && table[e.name] == e.details)
    && (forall name :: name in table ==> Entry(name, table[name]) in entries)
  }

  lemma AddLast<V>(front: seq<Entry<V>>, last: Entry<V>, table: map<string, V>, entries: seq<Entry<V>>)
    requires Consistent(front) && IsTable(front, table)
    requires forall e :: e in entries <==> e in front || e == last
    ensures Add(table, last).Some? <==> Consistent(entries)
    ensures Add(table, last).Some? ==> IsTable(entries, Add(table, last).value)
  {
    if last.name in table {
      assert Entry(last.name, table[last.name]) in entries && last in entries;
    }
  }

  /** A sequence of registrations panics exactly when two entries clash, and else yields their table. */
  lemma {:induction false} AddAllExactly<V>(entries: seq<Entry<V>>)
    ensures AddAll(entries).Some? <==> Consistent(entries)
    ensures AddAll(entries).Some? ==> IsTable(entries, AddAll(entries).value)
  {
    if entries != [] {
      var front, last := entries[..|entries| - 1], entries[|entries| - 1];
      AddAllExactly(front);
      assert forall e :: e in entries <==> e in front || e == last;
      if Consistent(front) {
        AddLast(front, last, AddAll(front).value, entries);
      }
    }
  }

  lemma TablesAgree<V>(entries: seq<Entry<V>>, m: map<string, V>, entries': seq<Entry<V>>, m': map<string, V>)
    requires forall e :: e in entries <==> e in entries'
    requires IsTable(entries, m) && IsTable(entries', m')
    ensures m == m'
  {
    forall name ensures name in m <==> name in m' {
      if name in m { assert Entry(name, m[name]) in entries'; }
      if name in m' { assert Entry(name, m'[name]) in entries; }
    }
    forall name | name in m ensures m[name] == m'[name] {
      assert Entry(name, m[name]) in entries';
    }
  }

  /** Registering the same entries, in whatever order and however often, comes to the same. */
  lemma AddOrderIndependent<V>(entries: seq<Entry<V>>, entries': seq<Entry<V>>)
    requires forall e :: e in entries <==> e in entries'
    ensures AddAll(entries) == AddAll(entries')
  {
    AddAllExactly(entries);
    AddAllExactly(entries');
    if AddAll(entries).Some? {
      TablesAgree(entries, AddAll(entries).value, entries', AddAll(entries').value);
    }
  }

  // ---- Relations ----

  datatype Role = NoRole | Provider | Requirer | Peer

  datatype Relation = Relation(
    name: string, role: Role, iface: string, optional: bool, limit: int, scope: string)

  const SCOPE_GLOBAL := "global"

  predicate Acceptable(rel: Relation) {
    rel.name != "" && rel.iface != "" && rel.role != NoRole
  }

  /** The defaults that RegisterRelation fills in. */
  function Normalize(rel: Relation): (r: Relation)
    ensures r == rel.(limit := r.limit, scope := r.scope)
    ensures rel.scope != "" ==> r.scope == rel.scope
    ensures rel.scope == "" ==> r.scope == "global"
    ensures rel.limit != 0 || rel.role == Provider || rel.role == NoRole ==> r.limit == rel.limit
    ensures rel.limit == 0 && (rel.role == Peer || rel.role == Requirer) ==> r.limit == 1
  {
    rel.(limit := if rel.limit == 0 && (rel.role == Peer || rel.role == Requirer) then 1 else rel.limit,
         scope := if rel.scope == "" then SCOPE_GLOBAL else rel.scope)
  }

  /** Normalizing is idempotent, and leaves alone what is already normal. */
  lemma NormalizeIdempotent(rel: Relation)
    ensures Normalize(Normalize(rel)) == Normalize(rel)
    ensures Normalize(rel) == rel
            <==> rel.scope != "" && (rel.limit != 0 || rel.role == Provider || rel.role == NoRole)
  {
  }

  /** RegisterRelation; None is a panic. */
  function Register(relations: map<string, Relation>, rel: Relation): Option<map<string, Relation>> {
    if !Acceptable(rel) then None else Add(relations, Entry(rel.name, Normalize(rel)))
  }

  function RegisterAll(rels: seq<Relation>): Option<map<string, Relation>> {
    if rels == [] then Some(map[])
    else
      var before := RegisterAll(rels[..|rels| - 1]);
      if before.None? then None else Register(before.value, rels[|rels| - 1])
  }

  function Entries(rels: seq<Relation>): (r: seq<Entry<Relation>>)
    ensures |r| == |rels|
  {
    seq(|rels|, i requires 0 <= i < |rels| => Entry(rels[i].name, Normalize(rels[i])))
  }

  lemma {:induction false} RegisterAllIsAddAll(rels: seq<Relation>)
    ensures RegisterAll(rels) == if forall r :: r in rels ==> Acceptable(r) then AddAll(Entries(rels)) else None
  {
    if rels != [] {
      var front, last := rels[..|rels| - 1], rels[|rels| - 1];
      RegisterAllIsAddAll(front);
      assert forall r :: r in rels <==> r in front || r == last;
      assert Entries(rels)[..|rels| - 1] == Entries(front);
    }
  }

  lemma EntriesMembers(rels: seq<Relation>, rels': seq<Relation>, e: Entry<Relation>)
    requires forall r :: r in rels ==> r in rels'
    ensures e in Entries(rels) ==> e in Entries(rels')
  {
    if e in Entries(rels) {
      var i :| 0 <= i < |rels| && Entries(rels)[i] == e;
      assert rels[i] in rels';
      var j :| 0 <= j < |rels'| && rels'[j] == rels[i];
      assert Entries(rels')[j] == e;
    }
  }

  /**
   Registering relations panics exactly if one has no name, interface or role, or two of one name
   differ once normalized; else the relations are exactly those, normalized, under their names.
   */
  lemma RegisterAllExactly(rels: seq<Relation>)
    ensures RegisterAll(rels).None? <==>
              || (exists r :: r in rels && (r.name == "" || r.iface == "" || r.role == NoRole))
              || (exists r, q :: r in rels && q in rels && r.name == q.name && Normalize(r) != Normalize(q))
    ensures RegisterAll(rels).Some? ==>
              && (forall r :: r in rels ==>
                    r.name in RegisterAll(rels).value && RegisterAll(rels).value[r.name] == Normalize(r))
              && (forall name :: name in RegisterAll(rels).value ==> exists r :: r in rels && r.name == name)
  {
    RegisterAllIsAddAll(rels);
    AddAllExactly(Entries(rels));
    forall r | r in rels ensures Entry(r.name, Normalize(r)) in Entries(rels) {
      var i :| 0 <= i < |rels| && rels[i] == r;
      assert Entries(rels)[i] == Entry(r.name, Normalize(r));
    }
    forall e | e in Entries(rels) ensures exists r :: r in rels && e == Entry(r.name, Normalize(r)) {
      var i :| 0 <= i < |rels| && Entries(rels)[i] == e;
      assert rels[i] in rels;
    }
  }

  /**
   Any two sequences that register the same relations, in whatever order, through whatever
   clones and however often, either both panic or both yield the same relations.
   */
  lemma RelationOrderIndependent(rels: seq<Relation>, rels': seq<Relation>)
    requires forall r :: r in rels <==> r in rels'
    ensures RegisterAll(rels) == RegisterAll(rels')
  {
    RegisterAllIsAddAll(rels);
    RegisterAllIsAddAll(rels');
    forall e ensures e in Entries(rels) <==> e in Entries(rels') {
      EntriesMembers(rels, rels', e);
      EntriesMembers(rels', rels, e);
    }
    AddOrderIndependent(Entries(rels), Entries(rels'));
  }
}

/**
 Sorting of unit ids: the byte-wise order on strings, sorting, and the fact on which every
 "deterministic output" promise rests, that a set of strings has only one sorted enumeration.
 */
module SortedStrings {

  /** Go's <= on strings. */
  predicate Leq(a: string, b: string) {
    if a == [] then true
    else if b == [] then false
    else a[0] < b[0] || (a[0] == b[0] && Leq(a[1..], b[1..]))
  }

  lemma {:induction false} LeqTotal(a: string, b: string)
    ensures Leq(a, b) || Leq(b, a)
  {
    if a != [] && b != [] && a[0] == b[0] {
      LeqTotal(a[1..], b[1..]);
    }
  }

  lemma {:induction false} LeqAntisymmetric(a: string, b: string)
    requires Leq(a, b) && Leq(b, a)
    ensures a == b
  {
    if a != [] && b != [] {
      LeqAntisymmetric(a[1..], b[1..]);
      assert a == [a[0]] + a[1..] && b == [b[0]] + b[1..];
    }
  }

  lemma {:induction false} LeqTransitive(a: string, b: string, c: string)
    requires Leq(a, b) && Leq(b, c)
    ensures Leq(a, c)
  {
    if a != [] && a[0] == b[0] == c[0] {
      LeqTransitive(a[1..], b[1..], c[1..]);
    }
  }

  /** A proper prefix precedes; else the smaller character does where the strings first differ. */
  lemma {:induction false} LeqExactly(a: string, b: string)
    ensures Leq(a, b) <==> a <= b || exists k :: 0 <= k < |a| && k < |b| && a[..k] == b[..k] && a[k] < b[k]
  {
    if a != [] && b != [] && a[0] == b[0] {
      var a1, b1 := a[1..], b[1..];
      LeqExactly(a1, b1);
      assert a == [a[0]] + a1 && b == [b[0]] + b1;
      assert a <= b <==> a1 <= b1;
      if k :| 0 <= k < |a1| && k < |b1| && a1[..k] == b1[..k] && a1[k] < b1[k] {
        assert a[..k + 1] == [a[0]] + a1[..k] && b[..k + 1] == [b[0]] + b1[..k];
        assert a[k + 1] < b[k + 1];
      }
      if k :| 0 <= k < |a| && k < |b| && a[..k] == b[..k] && a[k] < b[k] {
        assert a1[..k - 1] == a[..k][1..] && b1[..k - 1] == b[..k][1..];
        assert a1[k - 1] < b1[k - 1];
      }
    } else if a != [] && b != [] && a[0] < b[0] {
      assert a[..0] == b[..0];
    } else if a != [] && b != [] {
      forall k | 0 < k <= |a| && k <= |b| ensures a[..k] != b[..k] {
        assert a[..k][0] != b[..k][0];
      }
    }
  }

  predicate Sorted(s: seq<string>) {
    forall i, j :: 0 <= i < j < |s| ==> Leq(s[i], s[j])
  }

  function Insert(x: string, s: seq<string>): (r: seq<string>)
    requires Sorted(s)
    ensures Sorted(r) && multiset(r) == multiset(s) + multiset{x}
  {
    if s == [] then [x]
    else
      assert s == [s[0]] + s[1..];
      if Leq(x, s[0]) then
        assert forall j :: 0 <= j < |s| ==> Leq(x, s[j]) by {
          forall j | 0 <= j < |s| ensures Leq(x, s[j]) {
            if j > 0 { LeqTransitive(x, s[0], s[j]); }
          }
        }
        [x] + s
      else
        var rest := Insert(x, s[1..]);
        assert forall j :: 0 <= j < |rest| ==> Leq(s[0], rest[j]) by {
          LeqTotal(x, s[0]);
          forall j | 0 <= j < |rest| ensures Leq(s[0], rest[j]) {
            assert rest[j] in multiset(rest);
            if rest[j] != x { assert rest[j] in multiset(s[1..]); }
          }
        }
        [s[0]] + rest
  }

  /** sort.Strings */
  function Sort(s: seq<string>): (r: seq<string>)
    ensures Sorted(r) && multiset(r) == multiset(s)
  {
    if s == [] then []
    else
      assert s == [s[0]] + s[1..];
      Insert(s[0], Sort(s[1..]))
  }

  lemma FirstIsLeast(s: seq<string>, x: string)
    requires Sorted(s) && x in s
    ensures Leq(s[0], x)
  {
    LeqTotal(x, x);
  }

  lemma SplitFirst(s: seq<string>)
    requires s != []
    ensures multiset(s[1..]) == multiset(s) - multiset{s[0]}
  {
    assert s == [s[0]] + s[1..];
  }

  /** A multiset of strings has one sorted enumeration. */
  lemma {:induction false} SortedUnique(a: seq<string>, b: seq<string>)
    requires Sorted(a) && Sorted(b) && multiset(a) == multiset(b)
    ensures a == b
  {
    assert |multiset(a)| == |a| && |multiset(b)| == |b|;
    if a != [] {
      assert a[0] in multiset(b) && b[0] in multiset(a);
      FirstIsLeast(b, a[0]);
      FirstIsLeast(a, b[0]);
      LeqAntisymmetric(a[0], b[0]);
      SplitFirst(a);
      SplitFirst(b);
      SortedUnique(a[1..], b[1..]);
      assert a == [a[0]] + a[1..] && b == [b[0]] + b[1..];
    }
  }

  ghost function Enumerate(s: set<string>): (r: seq<string>)
    ensures multiset(r) == multiset(s)
  {
    if s == {} then []
    else
      var x :| x in s;
      assert multiset(s) == multiset(s - {x}) + multiset{x};
      [x] + Enumerate(s - {x})
  }

  /** The elements of a set in order. By SortedUnique there is only one such sequence. */
  ghost function InOrder(s: set<string>): (r: seq<string>)
    ensures Sorted(r) && multiset(r) == multiset(s)
  {
    Sort(Enumerate(s))
  }

  /** Go's iteration over the keys of a map: every key once, in no particular order. */
  method Keys<V>(m: map<string, V>) returns (keys: seq<string>)
    ensures multiset(keys) == multiset(m.Keys)
  {
    keys := [];
    var rest := m.Keys;
    while rest != {}
      invariant rest <= m.Keys
      invariant multiset(keys) + multiset(rest) == multiset(m.Keys)
    {
      var k :| k in rest;
      keys := keys + [k];
      assert multiset(rest) == multiset(rest - {k}) + multiset{k};
      rest := rest - {k};
    }
  }

  /** Collecting the keys of a map in any order and sorting them gives one result. */
  method SortedKeys<V>(m: map<string, V>) returns (keys: seq<string>)
    ensures keys == InOrder(m.Keys)
  {
    var unsorted := Keys(m);
    keys := Sort(unsorted);
    SortedUnique(keys, InOrder(m.Keys));
  }

  lemma InOrderMembers(s: set<string>, x: string)
    ensures x in InOrder(s) <==> x in s
  {
    assert x in multiset(InOrder(s)) <==> x in multiset(s);
  }

  /** strings.Join */
  function Join(parts: seq<string>, sep: string): string {
    if parts == [] then ""
    else if |parts| == 1 then parts[0]
    else parts[0] + sep + Join(parts[1..], sep)
  }

  /** Joining lists of parts puts one separator between them. */
  lemma {:induction false} JoinConcat(a: seq<string>, b: seq<string>, sep: string)
    requires a != [] && b != []
    ensures Join(a + b, sep) == Join(a, sep) + sep + Join(b, sep)
  {
    if |a| == 1 {
      assert (a + b)[1..] == b;
    } else {
      assert (a + b)[1..] == a[1..] + b;
      JoinConcat(a[1..], b, sep);
      assert (a[0] + sep + Join(a[1..], sep)) + sep + Join(b, sep)
          == a[0] + sep + (Join(a[1..], sep) + sep + Join(b, sep));
    }
  }
}

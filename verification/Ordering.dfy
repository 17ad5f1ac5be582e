/**
 sorted() over a set of identifiers: any strictly increasing listing of the set is the
 same sequence.
 */
module Ordering {
  import opened Numerics

  predicate Increasing(r: seq<Id>) {
    forall i, j :: 0 <= i < j < |r| ==> r[i] < r[j]
  }

  ghost predicate Lists(r: seq<Id>, s: set<Id>) {
    && Increasing(r)
    && (forall x :: x in s <==> x in r)
  }

  lemma SmallestExists(s: set<Id>) returns (m: Id)
    requires s != {}
    ensures m in s && forall x :: x in s ==> m <= x
    decreases |s|
  {
    m :| m in s;
    var rest := s - {m};
    assert forall x :: x in s ==> x == m || x in rest;
    if rest != {} {
      var n := SmallestExists(rest);
      if n < m {
        m := n;
      }
    }
  }

  ghost function Smallest(s: set<Id>): (m: Id)
    requires s != {}
    ensures m in s && forall x :: x in s ==> m <= x
  {
    assert exists m :: m in s && forall x :: x in s ==> m <= x by {
      var m := SmallestExists(s);
    }
    var m :| m in s && forall x :: x in s ==> m <= x;
    m
  }

  ghost function Sorted(s: set<Id>): (r: seq<Id>)
    ensures Lists(r, s)
    ensures |r| == |s|
    decreases |s|
  {
    if s == {} then
      []
    else
      var m := Smallest(s);
      [m] + Sorted(s - {m})
  }

  lemma {:induction false} ListingIsUnique(a: seq<Id>, b: seq<Id>, s: set<Id>)
    requires Lists(a, s) && Lists(b, s)
    ensures a == b
    decreases |a|
  {
    ListingLength(a, s);
    ListingLength(b, s);
    if a != [] {
      assert a[0] in s;
      assert a[0] in b && b[0] in s && b[0] in a;
      assert a[0] == b[0];
      var rest := s - {a[0]};
      TailLists(a, s);
      TailLists(b, s);
      ListingIsUnique(a[1..], b[1..], rest);
    }
  }

  lemma {:induction false} ListingLength(a: seq<Id>, s: set<Id>)
    requires Lists(a, s)
    ensures |a| == |s|
    decreases |a|
  {
    if a == [] {
      assert s == {};
    } else {
      assert a[0] in s;
      TailLists(a, s);
      ListingLength(a[1..], s - {a[0]});
    }
  }

  lemma TailLists(a: seq<Id>, s: set<Id>)
    requires Lists(a, s) && a != []
    ensures Lists(a[1..], s - {a[0]})
  {
    forall x
      ensures x in s - {a[0]} <==> x in a[1..]
    {
      if x in s && x != a[0] {
        var k :| 0 <= k < |a| && a[k] == x;
        assert a[1..][k - 1] == x;
      }
      if x in a[1..] {
        var k :| 0 <= k < |a[1..]| && a[1..][k] == x;
        assert a[k + 1] == x;
      }
    }
  }

  // Insert into an increasing listing, keeping it increasing.
  method SortIds(s: set<Id>) returns (r: seq<Id>)
    ensures r == Sorted(s)
  {
    r := [];
    var rest := s;
    while rest != {}
      invariant rest <= s
      invariant Lists(r, s - rest)
      decreases |rest|
    {
      var x :| x in rest;
      r := InsertId(r, x, s - rest);
      rest := rest - {x};
      assert s - rest == (s - (rest + {x})) + {x};
    }
    assert s - rest == s;
    ListingIsUnique(r, Sorted(s), s);
  }

  method InsertId(r: seq<Id>, x: Id, ghost s: set<Id>) returns (q: seq<Id>)
    requires Lists(r, s) && x !in s
    ensures Lists(q, s + {x})
  {
    var k := 0;
    while k < |r| && r[k] < x
      invariant 0 <= k <= |r|
      invariant forall i :: 0 <= i < k ==> r[i] < x
    {
      k := k + 1;
    }
    assert k < |r| ==> r[k] in s;
    q := r[..k] + [x] + r[k..];
    InsertedAt(r, x, k, s);
  }

  lemma InsertedAt(r: seq<Id>, x: Id, k: nat, s: set<Id>)
    requires Lists(r, s) && x !in s && k <= |r|
    requires forall i :: 0 <= i < k ==> r[i] < x
    requires k < |r| ==> x < r[k]
    ensures Lists(r[..k] + [x] + r[k..], s + {x})
  {
    var q := r[..k] + [x] + r[k..];
    forall i, j | 0 <= i < j < |q|
      ensures q[i] < q[j]
    {
      var before := if i < k then i else i - 1;
      var after := if j < k then j else j - 1;
      assert i < k ==> q[i] == r[i];
      assert j > k ==> q[j] == r[j - 1];
    }
    forall y
      ensures y in s + {x} <==> y in q
    {
      if y in r {
        var i :| 0 <= i < |r| && r[i] == y;
        assert q[if i < k then i else i + 1] == y;
      }
      assert q[k] == x;
    }
  }
}

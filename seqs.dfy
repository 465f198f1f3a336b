/**
 Facts about sequences used as recency orders: the set of their elements,
 freedom from duplicates, and removal of one element.
 */
module Seqs {

  function Elems<T>(s: seq<T>): set<T>
  {
    set x | x in s
  }

  predicate Distinct<T(==)>(s: seq<T>)
  {
    forall i, j :: 0 <= i < j < |s| ==> s[i] != s[j]
  }

  /** The position of the first occurrence of `x` in `s`. */
  function IndexOf<T(==)>(s: seq<T>, x: T): (i: nat)
    requires x in s
    ensures i < |s| && s[i] == x
    ensures x !in s[..i]
  {
    if s[0] == x then 0 else 1 + IndexOf(s[1..], x)
  }

  /**
   Moves the present `x` to the end of `s`: the elements before and after it
   close up in their order, and no element is gained or lost.
   */
  function Touch<T(==)>(s: seq<T>, x: T): (r: seq<T>)
    requires x in s && Distinct(s)
    ensures |r| == |s| && r[|r| - 1] == x
    ensures Elems(r) == Elems(s)
    ensures Distinct(r)
  {
    var i := IndexOf(s, x);
    var r := s[..i] + s[i + 1..] + [x];
    assert s == s[..i] + [x] + s[i + 1..];
    assert Elems(r) == Elems(s) by {
      assert Elems(s) == Elems(s[..i]) + {x} + Elems(s[i + 1..]);
      assert Elems(r) == Elems(s[..i]) + Elems(s[i + 1..]) + {x};
    }
    assert Distinct(r) by {
      forall p, q | 0 <= p < q < |r|
        ensures r[p] != r[q]
      {
        var p' := if p < i then p else p + 1;
        var q' := if q < i then q else if q < |r| - 1 then q + 1 else i;
        assert r[p] == s[p'] && r[q] == s[q'];
      }
    }
    r
  }

  /**
   Touching `x` leaves every other pair of elements in the order they had:
   only `x` changes its place among them.
   */
  lemma TouchKeepsOthersInOrder<T>(s: seq<T>, x: T, p: nat, q: nat)
    requires x in s && Distinct(s)
    requires p < q < |s| && s[p] != x && s[q] != x
    ensures s[p] in Touch(s, x) && s[q] in Touch(s, x)
    ensures IndexOf(Touch(s, x), s[p]) < IndexOf(Touch(s, x), s[q])
  {
    var i := IndexOf(s, x);
    var r := Touch(s, x);
    assert r == s[..i] + s[i + 1..] + [x];
    var p' := if p < i then p else p - 1;
    var q' := if q < i then q else q - 1;
    assert r[p'] == s[p] && r[q'] == s[q];
    assert IndexOf(r, s[p]) == p';
    assert IndexOf(r, s[q]) == q';
  }

  /** Appending an element not yet present keeps a sequence free of duplicates. */
  lemma AppendFresh<T>(s: seq<T>, x: T)
    requires Distinct(s) && x !in s
    ensures Distinct(s + [x])
    ensures Elems(s + [x]) == Elems(s) + {x}
  {
  }

  /** Dropping the first element of a sequence without duplicates removes just that element. */
  lemma DropFirst<T>(s: seq<T>)
    requires Distinct(s) && s != []
    ensures Distinct(s[1..])
    ensures Elems(s[1..]) == Elems(s) - {s[0]}
  {
    assert s == [s[0]] + s[1..];
  }

  /** A sequence without duplicates has as many elements as its length. */
  lemma {:induction false} DistinctCard<T>(s: seq<T>)
    requires Distinct(s)
    ensures |Elems(s)| == |s|
  {
    if s != [] {
      DistinctCard(s[1..]);
      assert Elems(s) == Elems(s[1..]) + {s[0]};
      assert s[0] !in Elems(s[1..]);
    }
  }

  /** A sequence without duplicates holds each value at most once. */
  lemma {:induction false} DistinctMultiplicity<T>(s: seq<T>, x: T)
    requires Distinct(s)
    ensures multiset(s)[x] <= 1
  {
    if s != [] {
      assert s == [s[0]] + s[1..];
      DistinctMultiplicity(s[1..], x);
      if s[0] == x {
        assert x !in s[1..];
      }
    }
  }

  /** Taking part of a multiset of a sequence without duplicates keeps it free of duplicates. */
  lemma DistinctSubMultiset<T>(r: seq<T>, s: seq<T>)
    requires multiset(r) <= multiset(s)
    requires Distinct(s)
    ensures Distinct(r)
  {
    forall i, j | 0 <= i < j < |r|
      ensures r[i] != r[j]
    {
      if r[i] == r[j] {
        var x := r[i];
        assert r == r[..i] + [x] + r[i + 1..j] + [x] + r[j + 1..];
        assert multiset(r)[x] >= 2;
        DistinctMultiplicity(s, x);
        assert false;
      }
    }
  }
}

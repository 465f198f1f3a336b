/**
 The ranking query `values().stream().sorted().limit(3)`: a stable sort by the
 account comparator (highest balance first), cut to its first three entries.
 */
module Ranking {
  import opened Accounts
  import opened Seqs

  /** The argument of `limit`. */
  const Limit: nat := 3

  function Min(x: nat, y: nat): nat
  {
    if x <= y then x else y
  }

  /** Non-increasing balances. */
  predicate SortedByBalance(s: seq<Account>)
  {
    forall i, j :: 0 <= i < j < |s| ==> s[i].balance >= s[j].balance
  }

  /** The balances of `s`, in order. */
  function Balances(s: seq<Account>): (r: seq<int>)
    ensures |r| == |s|
    ensures forall i :: 0 <= i < |s| ==> r[i] == s[i].balance
  {
    if s == [] then [] else [s[0].balance] + Balances(s[1..])
  }

  /**
   Inserts `x` into the sorted `s` before the first account it does not
   follow under `CompareTo`, that is, ahead of equal balances: a sort built from
   it keeps equal accounts in input order, as Java's stream sort does.
   */
  function Insert(x: Account, s: seq<Account>): (r: seq<Account>)
    requires SortedByBalance(s)
    ensures |r| == |s| + 1
    ensures SortedByBalance(r)
    ensures multiset(r) == multiset(s) + multiset{x}
    ensures r[0] == x || (s != [] && r[0] == s[0])
  {
    if s == [] then [x]
    else if CompareTo(x, s[0]) <= 0 then
      PrependSorted(x, s);
      [x] + s
    else
      SortedTail(s);
      var rest := Insert(x, s[1..]);
      InsertBehindFirst(x, s, rest);
      [s[0]] + rest
  }

  /**
   When `x` goes after the first account of `s`, that account followed by `x`
   inserted into the rest is sorted and holds the accounts of `s` and `x`.
   */
  lemma InsertBehindFirst(x: Account, s: seq<Account>, rest: seq<Account>)
    requires SortedByBalance(s) && s != [] && x.balance < s[0].balance
    requires SortedByBalance(rest) && multiset(rest) == multiset(s[1..]) + multiset{x}
    requires rest != [] && (rest[0] == x || (s[1..] != [] && rest[0] == s[1..][0]))
    ensures SortedByBalance([s[0]] + rest)
    ensures multiset([s[0]] + rest) == multiset(s) + multiset{x}
  {
    MultisetFirst(s);
    PrependSorted(s[0], rest);
  }

  /** An account with at least the first balance of a sorted sequence can go in front of it. */
  lemma PrependSorted(h: Account, t: seq<Account>)
    requires SortedByBalance(t)
    requires t != [] ==> t[0].balance <= h.balance
    ensures SortedByBalance([h] + t)
  {
    var r := [h] + t;
    forall i, j | 0 <= i < j < |r|
      ensures r[i].balance >= r[j].balance
    {
      assert r[j] == t[j - 1];
      if i > 0 {
        assert r[i] == t[i - 1];
      }
    }
  }

  /** `sorted()` under `Account.compareTo`. */
  function Sort(s: seq<Account>): (r: seq<Account>)
    ensures |r| == |s|
    ensures SortedByBalance(r)
    ensures multiset(r) == multiset(s)
  {
    if s == [] then []
    else
      MultisetFirst(s);
      Insert(s[0], Sort(s[1..]))
  }

  /** Strictly increasing balances. */
  predicate Ascending(s: seq<Account>)
  {
    forall i, j :: 0 <= i < j < |s| ==> s[i].balance < s[j].balance
  }

  /** `s` back to front. */
  function Reverse(s: seq<Account>): (r: seq<Account>)
    ensures |r| == |s|
    ensures forall i :: 0 <= i < |s| ==> r[i] == s[|s| - 1 - i]
  {
    if s == [] then [] else Reverse(s[1..]) + [s[0]]
  }

  /** An account with a balance below all of a sorted sequence's is inserted at its end. */
  lemma {:induction false} InsertLowest(x: Account, s: seq<Account>)
    requires SortedByBalance(s)
    requires forall i :: 0 <= i < |s| ==> x.balance < s[i].balance
    ensures Insert(x, s) == s + [x]
    decreases |s|
  {
    if s != [] {
      InsertLowest(x, s[1..]);
      assert s == [s[0]] + s[1..];
    }
  }

  /** Sorting accounts given in strictly increasing order of balance reverses them. */
  lemma {:induction false} SortAscending(s: seq<Account>)
    requires Ascending(s)
    ensures Sort(s) == Reverse(s)
    decreases |s|
  {
    if s != [] {
      var t := s[1..];
      SortAscending(t);
      InsertLowest(s[0], Reverse(t));
    }
  }

  /**
   Among accounts given in strictly increasing order of balance, the one ranked
   at position `i` is the `i`-th from the end.
   */
  lemma TopOfAscending(s: seq<Account>, i: nat)
    requires Ascending(s) && i < Min(Limit, |s|)
    ensures Top3(s)[i] == s[|s| - 1 - i]
  {
    SortAscending(s);
  }

  /**
   Sorting accounts already in non-increasing order of balance leaves them as
   they are: equal balances keep their order, as a stable sort must.
   */
  lemma {:induction false} SortSorted(s: seq<Account>)
    requires SortedByBalance(s)
    ensures Sort(s) == s
    decreases |s|
  {
    if s != [] {
      SortedTail(s);
      SortSorted(s[1..]);
      InsertFirstOfSorted(s);
    }
  }

  /** The first account of a sorted sequence goes back in front of the rest. */
  lemma InsertFirstOfSorted(s: seq<Account>)
    requires SortedByBalance(s) && s != []
    ensures SortedByBalance(s[1..])
    ensures Insert(s[0], s[1..]) == s
  {
    SortedTail(s);
    if s[1..] != [] {
      assert s[1..][0] == s[1];
      assert CompareTo(s[0], s[1..][0]) <= 0;
    }
    assert s == [s[0]] + s[1..];
  }

  /** `limit(3)` after `sorted()`: the first three accounts of the sorted input, or all of them. */
  function Top3(vs: seq<Account>): (r: seq<Account>)
    ensures |r| == Min(Limit, |vs|)
    ensures SortedByBalance(r)
  {
    Sort(vs)[..Min(Limit, |vs|)]
  }

  /**
   The top three are taken from the input, and no account left out has a
   higher balance than one taken.
   */
  lemma TopSelectsHighest(vs: seq<Account>)
    ensures multiset(Top3(vs)) <= multiset(vs)
    ensures forall a, b :: a in multiset(vs) - multiset(Top3(vs)) && b in Top3(vs) ==> a.balance <= b.balance
  {
    SortedPrefix(Sort(vs), Min(Limit, |vs|));
  }

  /** Every ranked account comes from the input. */
  lemma TopFromInput(vs: seq<Account>)
    ensures forall a :: a in Top3(vs) ==> a in vs
  {
    TopSelectsHighest(vs);
    forall a | a in Top3(vs)
      ensures a in vs
    {
      assert a in multiset(Top3(vs));
    }
  }

  /** A prefix of a sorted sequence holds the highest balances of the whole. */
  lemma SortedPrefix(s: seq<Account>, k: nat)
    requires SortedByBalance(s) && k <= |s|
    ensures SortedByBalance(s[..k])
    ensures multiset(s[..k]) <= multiset(s)
    ensures forall a, b :: a in multiset(s) - multiset(s[..k]) && b in s[..k] ==> a.balance <= b.balance
  {
    MultisetSplit(s, k);
    forall a, b | a in multiset(s) - multiset(s[..k]) && b in s[..k]
      ensures a.balance <= b.balance
    {
      assert a in multiset(s[k..]);
      SortedAcross(s, k, a, b);
    }
  }

  lemma MultisetSplit(s: seq<Account>, k: nat)
    requires k <= |s|
    ensures multiset(s) == multiset(s[..k]) + multiset(s[k..])
    ensures multiset(s) - multiset(s[..k]) == multiset(s[k..])
  {
    assert s == s[..k] + s[k..];
  }

  /** In a sorted sequence, an account after position `k` has no higher balance than one before it. */
  lemma SortedAcross(s: seq<Account>, k: nat, a: Account, b: Account)
    requires SortedByBalance(s) && k <= |s|
    requires a in s[k..] && b in s[..k]
    ensures a.balance <= b.balance
  {
    var p :| 0 <= p < |s| - k && s[k..][p] == a;
    var q :| 0 <= q < k && s[..k][q] == b;
    assert s[k + p] == a && s[q] == b;
  }

  /** Ranking accounts with distinct values never returns one twice. */
  lemma TopDistinct(vs: seq<Account>)
    requires Distinct(vs)
    ensures Distinct(Top3(vs))
  {
    TopSelectsHighest(vs);
    DistinctSubMultiset(Top3(vs), vs);
  }

  /** Removing one account keeps a sequence sorted. */
  lemma SortedWithout(t: seq<Account>, j: nat)
    requires SortedByBalance(t) && j < |t|
    ensures SortedByBalance(t[..j] + t[j + 1..])
  {
    var u := t[..j] + t[j + 1..];
    forall p, q | 0 <= p < q < |u|
      ensures u[p].balance >= u[q].balance
    {
      var p' := if p < j then p else p + 1;
      var q' := if q < j then q else q + 1;
      assert u[p] == t[p'] && u[q] == t[q'];
    }
  }

  /**
   In a sorted sequence whose account at `j` has the first balance, the
   accounts other than that one, in order, carry the balances of positions 1 on.
   */
  lemma RemoveEqualToFirst(t: seq<Account>, j: nat)
    requires SortedByBalance(t) && j < |t|
    requires t[j].balance == t[0].balance
    ensures forall k :: 0 < k < |t| ==> (t[..j] + t[j + 1..])[k - 1].balance == t[k].balance
  {
    var u := t[..j] + t[j + 1..];
    forall k | 0 < k < |t|
      ensures u[k - 1].balance == t[k].balance
    {
      if k <= j {
        assert u[k - 1] == t[k - 1];
      } else {
        assert u[k - 1] == t[k];
      }
    }
  }

  /** The first balance of a sorted sequence is the highest of its accounts. */
  lemma FirstIsHighest(s: seq<Account>, a: Account)
    requires SortedByBalance(s) && a in multiset(s)
    ensures a.balance <= s[0].balance
  {
    var i :| 0 <= i < |s| && s[i] == a;
  }

  /** Taking out the account at `j` leaves the multiset without that account. */
  lemma MultisetWithout(t: seq<Account>, j: nat)
    requires j < |t|
    ensures multiset(t[..j] + t[j + 1..]) == multiset(t) - multiset{t[j]}
  {
    assert t == t[..j] + [t[j]] + t[j + 1..];
  }

  /**
   Two sorted arrangements of the same accounts have the same balances position
   by position; only accounts of equal balance can trade places.
   */
  lemma {:induction false} SortedSameBalances(s: seq<Account>, t: seq<Account>)
    requires SortedByBalance(s) && SortedByBalance(t)
    requires multiset(s) == multiset(t)
    ensures |s| == |t|
    ensures forall k :: 0 <= k < |s| ==> s[k].balance == t[k].balance
    decreases |s|
  {
    assert |s| == |multiset(s)| == |t|;
    if s != [] {
      var rest := WithoutFirstMatch(s, t);
      SortedSameBalances(s[1..], rest);
      forall k | 0 < k < |s|
        ensures s[k].balance == t[k].balance
      {
        assert s[k] == s[1..][k - 1];
      }
    }
  }

  /**
   Taking the first account of `s` out of `t`, a sorted arrangement of the same
   accounts, leaves two sorted arrangements of the same accounts again, with
   `t`'s balances shifted down by one position.
   */
  lemma WithoutFirstMatch(s: seq<Account>, t: seq<Account>) returns (rest: seq<Account>)
    requires SortedByBalance(s) && SortedByBalance(t)
    requires multiset(s) == multiset(t) && s != []
    ensures s[0].balance == t[0].balance
    ensures SortedByBalance(s[1..]) && SortedByBalance(rest)
    ensures multiset(s[1..]) == multiset(rest)
    ensures |rest| == |t| - 1
    ensures forall k :: 0 < k < |t| ==> rest[k - 1].balance == t[k].balance
  {
    var a := s[0];
    assert a in multiset(t);
    FirstIsHighest(t, a);
    FirstIsHighest(s, t[0]);
    var j :| 0 <= j < |t| && t[j] == a;
    rest := t[..j] + t[j + 1..];
    RemoveEqualToFirst(t, j);
    SortedWithout(t, j);
    MultisetWithout(t, j);
    SortedTail(s);
    MultisetFirst(s);
  }

  /** Dropping the first account keeps a sequence sorted. */
  lemma SortedTail(s: seq<Account>)
    requires SortedByBalance(s) && s != []
    ensures SortedByBalance(s[1..])
  {
  }

  /** A nonempty sequence holds its first account and the accounts after it. */
  lemma MultisetFirst(s: seq<Account>)
    requires s != []
    ensures multiset(s) == multiset{s[0]} + multiset(s[1..])
  {
    assert s == [s[0]] + s[1..];
  }

  /**
   The balances of the ranking do not depend on the order in which the
   accounts are enumerated, only on which accounts there are.
   */
  lemma TopBalancesIgnoreOrder(vs: seq<Account>, ws: seq<Account>)
    requires multiset(vs) == multiset(ws)
    ensures Balances(Top3(vs)) == Balances(Top3(ws))
  {
    var sv, sw := Sort(vs), Sort(ws);
    SortedSameBalances(sv, sw);
    var k := Min(Limit, |vs|);
    var r, q := Top3(vs), Top3(ws);
    assert r == sv[..k];
    assert q == sw[..k];
    var br, bq := Balances(r), Balances(q);
    forall i | 0 <= i < k
      ensures br[i] == bq[i]
    {
      assert br[i] == sv[i].balance;
      assert bq[i] == sw[i].balance;
    }
  }

  /**
   The ranking's balances are the first three of any sorted arrangement of the
   same accounts.
   */
  lemma TopOfArrangement(vs: seq<Account>, ws: seq<Account>)
    requires multiset(vs) == multiset(ws) && SortedByBalance(ws)
    ensures |ws| == |vs|
    ensures Balances(Top3(vs)) == Balances(ws[..Min(Limit, |ws|)])
  {
    var sv := Sort(vs);
    SortedSameBalances(sv, ws);
    var k := Min(Limit, |vs|);
    var r, q := Top3(vs), ws[..k];
    assert r == sv[..k];
    var br, bq := Balances(r), Balances(q);
    forall i | 0 <= i < k
      ensures br[i] == bq[i]
    {
      assert br[i] == sv[i].balance;
      assert bq[i] == ws[i].balance;
    }
  }
}

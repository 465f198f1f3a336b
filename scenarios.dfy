/**
 The concrete scenarios of the account cache's unit tests, stated over the
 cache state that the class methods are proved to follow, with the tests' ids
 and capacities and any balances ordered as the tests order them; and one
 client of the class itself.
 */
module CacheScenarios {
  import opened Options
  import opened Seqs
  import opened Accounts
  import opened Ranking
  import opened LruCaches
  import opened AccountCaches

  /** A new account goes to the most recent end of a cache that has room for it. */
  lemma PutNew(s: CacheState<Int64, Account>, a: Account)
    requires CacheInv(s) && a.id !in s.entries && |s.order| < s.capacity
    ensures StoreAccount(s, a) == s.(entries := s.entries[a.id := a], order := s.order + [a.id])
  {
    SizeIsOrderLength(s);
    StoreBelowCapacity(s, a.id, a);
  }

  /** Two accounts with distinct ids stored into an empty cache with room for both. */
  lemma PutTwo(capacity: nat, x: Account, y: Account)
    requires capacity >= 2 && x.id != y.id
    ensures StoreAccount(StoreAccount(Empty(capacity), x), y) == CacheState(capacity, map[x.id := x, y.id := y], [x.id, y.id], 0)
  {
    var s0: CacheState<Int64, Account> := Empty(capacity);
    PutNew(s0, x);
    PutNew(StoreAccount(s0, x), y);
  }

  /** Reading the eldest of two accounts makes it the most recent and counts a hit. */
  lemma GetEldestOfTwo(x: Account, y: Account, hits: nat)
    requires x.id != y.id
    ensures FindAccount(CacheState(2, map[x.id := x, y.id := y], [x.id, y.id], hits), x.id).1
         == CacheState(2, map[x.id := x, y.id := y], [y.id, x.id], hits + 1)
  {
    assert IndexOf([x.id, y.id], x.id) == 0;
  }

  /** Updating the eldest of two accounts makes it the most recent, replacing its record. */
  lemma UpdateEldestOfTwo(x: Account, x': Account, y: Account, hits: nat)
    requires x.id != y.id && x'.id == x.id
    ensures StoreAccount(CacheState(2, map[x.id := x, y.id := y], [x.id, y.id], hits), x')
         == CacheState(2, map[x.id := x', y.id := y], [y.id, x.id], hits)
  {
    var s := CacheState(2, map[x.id := x, y.id := y], [x.id, y.id], hits);
    PairInv(x, y, hits);
    StoreResident(s, x.id, x');
    ReplaceResident(x, x', y);
  }

  /** The entries and order left when `x'` replaces the eldest `x` of a cache of two. */
  lemma ReplaceResident(x: Account, x': Account, y: Account)
    requires x.id != y.id && x'.id == x.id
    ensures map[x.id := x, y.id := y][x.id := x'] == map[x.id := x', y.id := y]
    ensures Touch([x.id, y.id], x.id) == [y.id, x.id]
  {
    assert IndexOf([x.id, y.id], x.id) == 0;
  }

  /** Two accounts with distinct ids, in either recency order, form a valid full cache of two. */
  lemma PairInv(x: Account, y: Account, hits: nat)
    requires x.id != y.id
    ensures CacheInv(CacheState(2, map[x.id := x, y.id := y], [x.id, y.id], hits))
    ensures CacheInv(CacheState(2, map[x.id := x, y.id := y], [y.id, x.id], hits))
    ensures |map[x.id := x, y.id := y]| == 2
  {
  }

  /** The entries and order left when `z` replaces the eldest `y` of a cache of two. */
  lemma ReplaceEldest(x: Account, y: Account, z: Account)
    requires x.id != y.id && z.id != x.id && z.id != y.id
    ensures map[x.id := x, y.id := y][z.id := z] - {y.id} == map[x.id := x, z.id := z]
    ensures [y.id, x.id][1..] + [z.id] == [x.id, z.id]
  {
  }

  /** A third account in a full cache of two evicts the eldest. */
  lemma EvictEldestOfTwo(x: Account, y: Account, z: Account, hits: nat)
    requires x.id != y.id && z.id != x.id && z.id != y.id
    ensures StoreAccount(CacheState(2, map[x.id := x, y.id := y], [y.id, x.id], hits), z)
         == CacheState(2, map[x.id := x, z.id := z], [x.id, z.id], hits)
  {
    var s := CacheState(2, map[x.id := x, y.id := y], [y.id, x.id], hits);
    PairInv(x, y, hits);
    StoreAtCapacity(s, z.id, z);
    ReplaceEldest(x, y, z);
  }

  /** The values of a valid cache of two, eldest first, in either recency order. */
  lemma PairValues(x: Account, z: Account, hits: nat)
    requires x.id != z.id
    ensures var vs := LinkedValues(CacheState(2, map[x.id := x, z.id := z], [x.id, z.id], hits));
      |vs| == 2 && vs[0] == x && vs[1] == z
    ensures var vs := LinkedValues(CacheState(2, map[x.id := x, z.id := z], [z.id, x.id], hits));
      |vs| == 2 && vs[0] == z && vs[1] == x
  {
    PairInv(x, z, hits);
  }

  /** Two values in ascending balance rank the second first. */
  lemma TopOfTwo(vs: seq<Account>)
    requires |vs| == 2 && vs[0].balance < vs[1].balance
    ensures |Top3(vs)| == 2 && Top3(vs)[0] == vs[1] && Top3(vs)[1] == vs[0]
  {
    TopOfAscending(vs, 0);
    TopOfAscending(vs, 1);
  }

  /** Two values in descending balance rank as they are. */
  lemma TopOfTwoDescending(vs: seq<Account>)
    requires |vs| == 2 && vs[0].balance > vs[1].balance
    ensures Top3(vs) == vs
  {
    SortSorted(vs);
  }

  /**
   Two resident accounts rank by balance, whatever their recency: with the
   lower balance as the eldest (`order == [x.id, z.id]`) or as the most
   recently used (`order == [z.id, x.id]`).
   */
  lemma RankTwoResidents(x: Account, z: Account, order: seq<Int64>, hits: nat)
    requires x.id != z.id && x.balance < z.balance
    requires order == [x.id, z.id] || order == [z.id, x.id]
    ensures var top := Top3AccountsByBalance(CacheState(2, map[x.id := x, z.id := z], order, hits));
      |top| == 2 && top[0] == z && top[1] == x
  {
    if order == [x.id, z.id] {
      RankLowerEldest(x, z, hits);
    } else {
      RankHigherEldest(x, z, hits);
    }
  }

  /** With the lower balance as the eldest, the two residents rank in reverse recency. */
  lemma RankLowerEldest(x: Account, z: Account, hits: nat)
    requires x.id != z.id && x.balance < z.balance
    ensures var top := Top3AccountsByBalance(CacheState(2, map[x.id := x, z.id := z], [x.id, z.id], hits));
      |top| == 2 && top[0] == z && top[1] == x
  {
    var s := CacheState(2, map[x.id := x, z.id := z], [x.id, z.id], hits);
    PairInv(x, z, hits);
    PairValues(x, z, hits);
    var vs := LinkedValues(s);
    TopOfTwo(vs);
    assert Top3AccountsByBalance(s) == Top3(vs);
  }

  /** With the higher balance as the eldest, the two residents rank in recency order. */
  lemma RankHigherEldest(x: Account, z: Account, hits: nat)
    requires x.id != z.id && x.balance < z.balance
    ensures var top := Top3AccountsByBalance(CacheState(2, map[x.id := x, z.id := z], [z.id, x.id], hits));
      |top| == 2 && top[0] == z && top[1] == x
  {
    var s := CacheState(2, map[x.id := x, z.id := z], [z.id, x.id], hits);
    PairInv(x, z, hits);
    PairValues(x, z, hits);
    var vs := LinkedValues(s);
    TopOfTwoDescending(vs);
    assert Top3AccountsByBalance(s) == Top3(vs);
  }

  /** `putAccount` applied to each of `accounts` in turn. */
  function PutAll(s: CacheState<Int64, Account>, accounts: seq<Account>): (r: CacheState<Int64, Account>)
    requires CacheInv(s)
    ensures CacheInv(r)
    decreases |accounts|
  {
    if accounts == [] then s else PutAll(StoreAccount(s, accounts[0]), accounts[1..])
  }

  /** A new account stored into a cache with room for it is enumerated last. */
  lemma PutNewEnumeratedLast(s: CacheState<Int64, Account>, a: Account)
    requires CacheInv(s) && a.id !in s.entries && |s.order| < s.capacity
    ensures LinkedValues(StoreAccount(s, a)) == LinkedValues(s) + [a]
    ensures StoreAccount(s, a).entries == s.entries[a.id := a]
  {
    PutNew(s, a);
    var vs, ws := LinkedValues(s), LinkedValues(StoreAccount(s, a));
    assert |ws| == |vs| + 1;
    forall i | 0 <= i < |ws|
      ensures ws[i] == (vs + [a])[i]
    {
      if i < |vs| {
        assert StoreAccount(s, a).order[i] == s.order[i];
      }
    }
  }

  /** The ids of `accounts`, in order. */
  function Ids(accounts: seq<Account>): (ids: seq<Int64>)
    ensures |ids| == |accounts|
    ensures forall i :: 0 <= i < |accounts| ==> ids[i] == accounts[i].id
  {
    seq(|accounts|, i requires 0 <= i < |accounts| => accounts[i].id)
  }

  /** Storing the first of several new accounts leaves room, and new ids, for the rest. */
  lemma PutFirstOfMany(s: CacheState<Int64, Account>, accounts: seq<Account>)
    requires CacheInv(s) && accounts != []
    requires Distinct(Ids(accounts)) && Elems(Ids(accounts)) !! s.entries.Keys
    requires |s.order| + |accounts| <= s.capacity
    ensures var s', rest := StoreAccount(s, accounts[0]), accounts[1..];
      && LinkedValues(s') == LinkedValues(s) + [accounts[0]]
      && Distinct(Ids(rest)) && Elems(Ids(rest)) !! s'.entries.Keys
      && |s'.order| + |rest| <= s'.capacity
  {
    var a, rest := accounts[0], accounts[1..];
    var ids := Ids(accounts);
    assert ids[0] == a.id;
    assert a.id !in s.entries;
    var s' := StoreAccount(s, a);
    PutNewEnumeratedLast(s, a);
    SizeIsOrderLength(s);
    SizeIsOrderLength(s');
    DropFirst(ids);
    assert ids[1..] == Ids(rest);
  }

  /**
   Accounts with distinct new ids stored into a cache with room for all of them
   evict nothing and are enumerated after the residents, in the order stored.
   */
  lemma {:induction false} PutAllWithinCapacity(s: CacheState<Int64, Account>, accounts: seq<Account>)
    requires CacheInv(s)
    requires Distinct(Ids(accounts)) && Elems(Ids(accounts)) !! s.entries.Keys
    requires |s.order| + |accounts| <= s.capacity
    ensures LinkedValues(PutAll(s, accounts)) == LinkedValues(s) + accounts
    decreases |accounts|
  {
    if accounts != [] {
      PutFirstOfMany(s, accounts);
      PutAllWithinCapacity(StoreAccount(s, accounts[0]), accounts[1..]);
      AppendFirstRest(LinkedValues(s), accounts);
    }
  }

  lemma AppendFirstRest<T>(vs: seq<T>, xs: seq<T>)
    requires xs != []
    ensures vs + xs == (vs + [xs[0]]) + xs[1..]
  {
    assert xs == [xs[0]] + xs[1..];
  }

  /** A stored account is found again under its id. */
  lemma GetAfterPut(a: Account)
    ensures FindAccount(StoreAccount(Empty(5), a), a.id).0 == Some(a)
  {
    PutNew(Empty(5), a);
  }

  /** An id never stored is reported absent and counts no hit. */
  lemma GetAbsent(id: Int64)
    ensures FindAccount(Empty(5), id).0 == None
    ensures FindAccount(Empty(5), id).1.hits == 0
  {
  }

  /** With two accounts resident the ranking returns both. */
  lemma RankFewerThanThree(b1: Int64, b2: Int64)
    ensures |Top3AccountsByBalance(StoreAccount(StoreAccount(Empty(5), Account(1, b1)), Account(2, b2)))| == 2
  {
    PutTwo(5, Account(1, b1), Account(2, b2));
    assert |map[1 := Account(1, b1), 2 := Account(2, b2)]| == 2;
  }

  /**
   Accounts with distinct ids and ascending balances, stored into an empty cache
   with room for all of them, rank highest balance first.
   */
  lemma RankAscendingPuts(capacity: nat, accounts: seq<Account>, i: nat)
    requires Distinct(Ids(accounts)) && Ascending(accounts) && |accounts| <= capacity
    requires i < Min(Limit, |accounts|)
    ensures var top := Top3AccountsByBalance(PutAll(Empty(capacity), accounts));
      |top| == Min(Limit, |accounts|) && top[i] == accounts[|accounts| - 1 - i]
  {
    PutAllFromEmpty(capacity, accounts);
    TopOfAscending(accounts, i);
  }

  /** Accounts with distinct ids stored into an empty cache with room for them are enumerated as stored. */
  lemma PutAllFromEmpty(capacity: nat, accounts: seq<Account>)
    requires Distinct(Ids(accounts)) && |accounts| <= capacity
    ensures LinkedValues(PutAll(Empty(capacity), accounts)) == accounts
  {
    var s0: CacheState<Int64, Account> := Empty(capacity);
    EmptyHoldsNothing(capacity, Ids(accounts));
    PutAllWithinCapacity(s0, accounts);
    AppendToEmpty(LinkedValues(s0), accounts);
  }

  /** An empty cache is keyed by id, holds none of `ids` and enumerates nothing. */
  lemma EmptyHoldsNothing(capacity: nat, ids: seq<Int64>)
    ensures var s0: CacheState<Int64, Account> := Empty(capacity);
      && CacheInv(s0) && Elems(ids) !! s0.entries.Keys && LinkedValues(s0) == [] && |s0.order| == 0
  {
  }

  /** Enumerating nothing and then `xs` enumerates `xs`. */
  lemma AppendToEmpty<T>(vs: seq<T>, xs: seq<T>)
    requires vs == []
    ensures vs + xs == xs
  {
  }

  /** Five ascending balances under the ids one to five. */
  lemma FiveAscending(b1: Int64, b2: Int64, b3: Int64, b4: Int64, b5: Int64)
    requires b1 < b2 < b3 < b4 < b5
    ensures var accounts := [Account(1, b1), Account(2, b2), Account(3, b3), Account(4, b4), Account(5, b5)];
      Distinct(Ids(accounts)) && Ascending(accounts)
  {
  }

  /** With five accounts resident the ranking keeps the three highest balances, highest first. */
  lemma RankMoreThanThree(b1: Int64, b2: Int64, b3: Int64, b4: Int64, b5: Int64)
    requires b1 < b2 < b3 < b4 < b5
    ensures
      var top := Top3AccountsByBalance(PutAll(Empty(5), [Account(1, b1), Account(2, b2), Account(3, b3), Account(4, b4), Account(5, b5)]));
      |top| == 3 && top[0].balance == b5 && top[1].balance == b4 && top[2].balance == b3
  {
    var accounts := [Account(1, b1), Account(2, b2), Account(3, b3), Account(4, b4), Account(5, b5)];
    FiveAscending(b1, b2, b3, b4, b5);
    RankAscendingPuts(5, accounts, 0);
    RankAscendingPuts(5, accounts, 1);
    RankAscendingPuts(5, accounts, 2);
  }

  /**
   In a cache of two, reading the eldest account makes the other one the
   eviction candidate, so a third account evicts that one instead.
   */
  lemma QueryProtectsFromEviction(b1: Int64, b2: Int64, b4: Int64)
    requires b1 < b4
    ensures
      var s2 := StoreAccount(StoreAccount(Empty(2), Account(1, b1)), Account(2, b2));
      var top := Top3AccountsByBalance(StoreAccount(FindAccount(s2, 1).1, Account(4, b4)));
      |top| == 2 && top[0].balance == b4 && top[1].balance == b1
  {
    var a1, a2, a4 := Account(1, b1), Account(2, b2), Account(4, b4);
    PutTwo(2, a1, a2);
    GetEldestOfTwo(a1, a2, 0);
    EvictEldestOfTwo(a1, a2, a4, 1);
    RankLowerEldest(a1, a4, 1);
  }

  /**
   In a cache of two, updating the eldest account makes the other one the
   eviction candidate, so a third account evicts that one instead.
   */
  lemma UpdateProtectsFromEviction(b1: Int64, b2: Int64, b1': Int64, b4: Int64)
    requires b1' < b4
    ensures
      var s2 := StoreAccount(StoreAccount(Empty(2), Account(1, b1)), Account(2, b2));
      var top := Top3AccountsByBalance(StoreAccount(StoreAccount(s2, Account(1, b1')), Account(4, b4)));
      |top| == 2 && top[0].balance == b4 && top[1].balance == b1'
  {
    var a1, a2, a1', a4 := Account(1, b1), Account(2, b2), Account(1, b1'), Account(4, b4);
    PutTwo(2, a1, a2);
    UpdateEldestOfTwo(a1, a1', a2, 0);
    EvictEldestOfTwo(a1', a2, a4, 0);
    RankLowerEldest(a1', a4, 0);
  }

  /** An empty cache ranks nothing. */
  lemma RankEmpty()
    ensures Top3AccountsByBalance(Empty(5)) == []
  {
  }

  /** Storing counts no hit; one successful lookup then counts exactly one. */
  lemma HitCount(a: Account)
    ensures StoreAccount(Empty(5), a).hits == 0
    ensures FindAccount(StoreAccount(Empty(5), a), a.id).1.hits == 1
  {
    PutNew(Empty(5), a);
  }

  /** After put(k, v) on a cache that can hold anything, get(k) returns v. */
  method PutThenGet(cache: AccountCacheImpl, account: Account) returns (found: Option<Account>)
    requires cache.Valid() && cache.lruCache.capacity > 0
    modifies cache.lruCache
    ensures cache.Valid()
    ensures found == Some(account)
    ensures cache.lruCache.hits == old(cache.lruCache.hits) + 1
  {
    cache.PutAccount(account);
    StoreKeepsValue(old(cache.lruCache.State()), account.id, account);
    found := cache.GetAccountById(account.id);
  }
}

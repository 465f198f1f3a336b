/**
 The account cache: accounts stored in an LRU cache under their own ids, with
 point lookups, upserts, the top-three ranking and the hit count. Each
 operation is one atomic step; the reader/writer lock around it is not modelled.
 */
module AccountCaches {
  import opened Options
  import opened Seqs
  import opened Accounts
  import opened Ranking
  import opened LruCaches

  /** Every account is stored under its own id. */
  ghost predicate KeyedById(m: map<Int64, Account>)
  {
    forall id :: id in m ==> m[id].id == id
  }

  /** The state of the account cache: a well-formed LRU cache of accounts keyed by their ids. */
  ghost predicate CacheInv(s: CacheState<Int64, Account>)
  {
    Inv(s) && KeyedById(s.entries)
  }

  /**
   `putAccount`: stores `account` under its own id as the most recent entry,
   evicting the least recently touched account when a new id overflows the
   cache. Every account stays stored under its own id.
   */
  function StoreAccount(s: CacheState<Int64, Account>, account: Account): (r: CacheState<Int64, Account>)
    requires CacheInv(s)
    ensures CacheInv(r)
  {
    assert KeyedById(s.entries[account.id := account]);
    Store(s, account.id, account).1
  }

  /**
   `getAccountById`: the account stored under `id`, found exactly when `id` is
   resident, and only ever the account with that id.
   */
  function FindAccount(s: CacheState<Int64, Account>, id: Int64): (r: (Option<Account>, CacheState<Int64, Account>))
    requires CacheInv(s)
    ensures CacheInv(r.1)
    ensures r.0.Some? <==> id in s.entries
    ensures r.0.Some? ==> r.0.value.id == id
    ensures r.0.Some? ==> r.0.value == s.entries[id]
  {
    Lookup(s, id)
  }

  /** The resident accounts, enumerated once per id, are pairwise distinct. */
  lemma ValuesDistinct(s: CacheState<Int64, Account>)
    requires CacheInv(s)
    ensures Distinct(LinkedValues(s))
  {
    var vs := LinkedValues(s);
    forall i, j | 0 <= i < j < |vs|
      ensures vs[i] != vs[j]
    {
      assert vs[i].id == s.order[i] && vs[j].id == s.order[j];
    }
  }

  /** Every enumerated value is resident under its own id. */
  lemma ValuesResident(s: CacheState<Int64, Account>)
    requires CacheInv(s)
    ensures forall a :: a in LinkedValues(s) ==> a.id in s.entries && s.entries[a.id] == a
  {
    var vs := LinkedValues(s);
    forall a | a in vs
      ensures a.id in s.entries && s.entries[a.id] == a
    {
      var p :| 0 <= p < |vs| && vs[p] == a;
      assert s.order[p] in s.entries;
    }
  }

  /** Every ranked account is resident, under its own id. */
  lemma TopAreResident(s: CacheState<Int64, Account>)
    requires CacheInv(s)
    ensures forall a :: a in Top3(LinkedValues(s)) ==> a.id in s.entries && s.entries[a.id] == a
  {
    ValuesResident(s);
    TopFromInput(LinkedValues(s));
  }

  /** Every resident value is enumerated. */
  lemma ValuesCover(s: CacheState<Int64, Account>)
    requires Inv(s)
    ensures forall id :: id in s.entries ==> s.entries[id] in LinkedValues(s)
  {
    forall id | id in s.entries
      ensures s.entries[id] in LinkedValues(s)
    {
      var p :| 0 <= p < |s.order| && s.order[p] == id;
      assert LinkedValues(s)[p] == s.entries[id];
    }
  }

  /** No resident left out of the ranking has a higher balance than a ranked account. */
  lemma TopExcludeOnlyLower(s: CacheState<Int64, Account>)
    requires Inv(s)
    ensures forall id, b :: id in s.entries && s.entries[id] !in Top3(LinkedValues(s)) && b in Top3(LinkedValues(s)) ==>
              s.entries[id].balance <= b.balance
  {
    var vs := LinkedValues(s);
    var top := Top3(vs);
    ValuesCover(s);
    TopSelectsHighest(vs);
    forall id, b | id in s.entries && s.entries[id] !in top && b in top
      ensures s.entries[id].balance <= b.balance
    {
      assert s.entries[id] in multiset(vs) - multiset(top);
    }
  }

  /**
   `getTop3AccountsByBalance`: as many resident accounts as there are, up to
   three, highest balances first.
   */
  function Top3AccountsByBalance(s: CacheState<Int64, Account>): (top: seq<Account>)
    requires CacheInv(s)
    ensures |top| == Min(Limit, |s.entries|)
    ensures SortedByBalance(top)
    ensures forall a :: a in top ==> a.id in s.entries && s.entries[a.id] == a
  {
    TopAreResident(s);
    Top3(LinkedValues(s))
  }

  /**
   The ranked accounts are resident under their own ids, each listed once, and
   no resident left out has a higher balance than one ranked.
   */
  lemma RankingOfResidents(s: CacheState<Int64, Account>)
    requires CacheInv(s)
    ensures var top := Top3AccountsByBalance(s);
      && Distinct(top)
      && (forall a :: a in top ==> a.id in s.entries && s.entries[a.id] == a)
      && (forall id, b :: id in s.entries && s.entries[id] !in top && b in top ==> s.entries[id].balance <= b.balance)
  {
    ValuesDistinct(s);
    TopDistinct(LinkedValues(s));
    TopAreResident(s);
    TopExcludeOnlyLower(s);
  }

  class AccountCacheImpl {
    const lruCache: LRUCache<Int64, Account>

    ghost predicate Valid()
      reads this, lruCache
    {
      CacheInv(lruCache.State())
    }

    constructor (capacity: nat)
      ensures Valid() && fresh(lruCache)
      ensures lruCache.State() == Empty(capacity)
    {
      lruCache := new LRUCache(capacity);
    }

    /**
     `getAccountById`: the account stored under `id`, if any, with the hit count
     and recency effect of the cache's lookup.
     */
    method GetAccountById(id: Int64) returns (account: Option<Account>)
      requires Valid()
      modifies lruCache
      ensures Valid()
      ensures (account, lruCache.State()) == FindAccount(old(lruCache.State()), id)
    {
      account := lruCache.Get(id);
    }

    /**
     `putAccount`: stores `account` under its id as the most recent entry,
     evicting the least recently touched one when a new id overflows the cache.
     */
    method PutAccount(account: Account)
      requires Valid()
      modifies lruCache
      ensures Valid()
      ensures lruCache.State() == StoreAccount(old(lruCache.State()), account)
    {
      var _ := lruCache.Put(account.id, account);
    }

    /**
     `getTop3AccountsByBalance`, over a snapshot of the values: the ranked
     accounts are resident, distinct, and outrank every resident left out. It
     changes no state.
     */
    method GetTop3AccountsByBalance() returns (top: seq<Account>)
      requires Valid()
      ensures top == Top3AccountsByBalance(lruCache.State())
      ensures Distinct(top)
      ensures forall a :: a in top ==> a.id in lruCache.entries && lruCache.entries[a.id] == a
      ensures forall id, b :: id in lruCache.entries && lruCache.entries[id] !in top && b in top ==>
                lruCache.entries[id].balance <= b.balance
    {
      var vs := lruCache.Values();
      top := Top3(vs);
      RankingOfResidents(lruCache.State());
    }

    /** `getAccountByIdHitCount`: the cache's hit counter, read without side effects. */
    method GetAccountByIdHitCount() returns (count: nat)
      requires Valid()
      ensures count == lruCache.State().hits
    {
      count := lruCache.GetCountGetByIdHit();
    }
  }
}

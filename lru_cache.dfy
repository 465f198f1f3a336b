/**
 A map of bounded size kept in access order: every successful lookup and every
 insertion or update moves its key to the most recent end, and inserting a new
 key beyond the capacity evicts the eldest one. Successful lookups are counted.

 `CacheState` is the abstract state, `Lookup` and `Store` say what `get` and
 `put` do to it, and the class `LRUCache` updates its fields in place and is
 proved to follow them.
 */
module LruCaches {
  import opened Options
  import opened Seqs

  /** The resident keys are listed in `order`, least recently touched first. */
  datatype CacheState<K, V> = CacheState(capacity: nat, entries: map<K, V>, order: seq<K>, hits: nat)

  /** The keys of the map are those of the order, each listed once, and there are at most `capacity`. */
  ghost predicate Inv<K, V>(s: CacheState<K, V>)
  {
    && s.entries.Keys == Elems(s.order)
    && Distinct(s.order)
    && |s.order| <= s.capacity
  }

  /** A new cache: no mappings and no hits. */
  function Empty<K, V>(capacity: nat): (s: CacheState<K, V>)
    ensures Inv(s) && s.capacity == capacity
    ensures s.entries == map[] && s.order == [] && s.hits == 0
  {
    CacheState(capacity, map[], [], 0)
  }

  /** The number of resident mappings equals the length of the recency order. */
  lemma SizeIsOrderLength<K, V>(s: CacheState<K, V>)
    requires Inv(s)
    ensures |s.entries| == |s.order|
  {
    DistinctCard(s.order);
    assert |s.entries| == |s.entries.Keys|;
  }

  /**
   `get`: a hit returns the stored value, counts once and makes the key the most
   recent, leaving the mappings alone; a miss returns nothing and changes nothing.
   */
  function Lookup<K, V>(s: CacheState<K, V>, key: K): (r: (Option<V>, CacheState<K, V>))
    requires Inv(s)
    ensures Inv(r.1)
    ensures r.1.capacity == s.capacity && r.1.entries == s.entries
    ensures key in s.entries ==>
      && r.0 == Some(s.entries[key])
      && r.1.hits == s.hits + 1
      && r.1.order == Touch(s.order, key)
    ensures key !in s.entries ==> r.0 == None && r.1 == s
  {
    if key in s.entries then
      (Some(s.entries[key]), s.(order := Touch(s.order, key), hits := s.hits + 1))
    else
      (None, s)
  }

  /**
   `put`: stores `value` under `key` as the most recent mapping and returns the
   value it replaced, leaving the hit count alone. The lemmas below say which
   mapping, if any, it evicts.
   */
  function Store<K, V>(s: CacheState<K, V>, key: K, value: V): (r: (Option<V>, CacheState<K, V>))
    requires Inv(s)
    ensures Inv(r.1)
    ensures r.1.capacity == s.capacity && r.1.hits == s.hits
    ensures r.0 == if key in s.entries then Some(s.entries[key]) else None
  {
    if key in s.entries then (Some(s.entries[key]), Refresh(s, key, value)) else (None, Admit(s, key, value))
  }

  /** Unless the capacity is 0, `put` leaves `value` under `key` as the most recent mapping. */
  lemma StoreKeepsValue<K, V>(s: CacheState<K, V>, key: K, value: V)
    requires Inv(s) && s.capacity > 0
    ensures var r := Store(s, key, value).1;
      && key in r.entries && r.entries[key] == value
      && r.order[|r.order| - 1] == key
  {
  }

  /** `put` adds no mapping but the one it stores and changes no other stored value. */
  lemma StoreChangesOnlyKey<K, V>(s: CacheState<K, V>, key: K, value: V)
    requires Inv(s)
    ensures var r := Store(s, key, value).1;
      forall k :: k in r.entries ==> k in s.entries[key := value] && r.entries[k] == s.entries[key := value][k]
  {
  }

  /** Updating a resident key evicts nothing: the map is updated and the key becomes the most recent. */
  lemma StoreResident<K, V>(s: CacheState<K, V>, key: K, value: V)
    requires Inv(s) && key in s.entries
    ensures Store(s, key, value).1 == s.(entries := s.entries[key := value], order := Touch(s.order, key))
  {
  }

  /** A new key below capacity is added as the most recent one, evicting nothing. */
  lemma StoreBelowCapacity<K, V>(s: CacheState<K, V>, key: K, value: V)
    requires Inv(s) && key !in s.entries && |s.entries| < s.capacity
    ensures Store(s, key, value).1 == s.(entries := s.entries[key := value], order := s.order + [key])
  {
  }

  /** A new key in a full cache evicts exactly the least recently touched mapping. */
  lemma StoreAtCapacity<K, V>(s: CacheState<K, V>, key: K, value: V)
    requires Inv(s) && key !in s.entries && |s.entries| == s.capacity > 0
    ensures Store(s, key, value).1 == s.(entries := s.entries[key := value] - {s.order[0]}, order := s.order[1..] + [key])
  {
  }

  /** With capacity 0 a new key is evicted as soon as it is inserted: nothing changes. */
  lemma StoreZeroCapacity<K, V>(s: CacheState<K, V>, key: K, value: V)
    requires Inv(s) && s.capacity == 0
    ensures Store(s, key, value).1 == s
  {
  }

  /** `put` of a resident key: the value is replaced and the key becomes the most recent. */
  function Refresh<K, V>(s: CacheState<K, V>, key: K, value: V): (r: CacheState<K, V>)
    requires Inv(s) && key in s.entries
    ensures Inv(r)
    ensures r.capacity == s.capacity && r.hits == s.hits
    ensures r.entries == s.entries[key := value]
    ensures r.order == Touch(s.order, key)
  {
    s.(entries := s.entries[key := value], order := Touch(s.order, key))
  }

  /**
   `put` of a new key: it is appended as the most recent one and, when that makes
   the map exceed its capacity, the eldest mapping is evicted.
   */
  function Admit<K, V>(s: CacheState<K, V>, key: K, value: V): (r: CacheState<K, V>)
    requires Inv(s) && key !in s.entries
    ensures Inv(r)
    ensures r.capacity == s.capacity && r.hits == s.hits
    ensures |s.entries| < s.capacity ==> r.entries == s.entries[key := value] && r.order == s.order + [key]
    ensures |s.entries| == s.capacity > 0 ==>
      && r.entries == s.entries[key := value] - {s.order[0]}
      && r.order == s.order[1..] + [key]
    ensures s.capacity == 0 ==> r == s
  {
    SizeIsOrderLength(s);
    AppendFresh(s.order, key);
    if |s.entries| < s.capacity then
      s.(entries := s.entries[key := value], order := s.order + [key])
    else if s.capacity == 0 then
      s
    else
      EvictEldestKeepsInv(s, key, value);
      s.(entries := s.entries[key := value] - {s.order[0]}, order := s.order[1..] + [key])
  }

  /** Appending a new key to a full cache and dropping the eldest keeps the invariant. */
  lemma EvictEldestKeepsInv<K, V>(s: CacheState<K, V>, key: K, value: V)
    requires Inv(s) && key !in s.entries && s.order != []
    ensures Inv(s.(entries := s.entries[key := value] - {s.order[0]}, order := s.order[1..] + [key]))
  {
    AppendFresh(s.order, key);
    DropFirst(s.order + [key]);
    assert (s.order + [key])[1..] == s.order[1..] + [key];
  }

  /** The values stored under `keys`, in the order of `keys`. */
  function ValuesOf<K, V>(keys: seq<K>, m: map<K, V>): (vs: seq<V>)
    requires forall k :: k in keys ==> k in m
    ensures |vs| == |keys|
    ensures forall i :: 0 <= i < |keys| ==> vs[i] == m[keys[i]]
  {
    if keys == [] then [] else [m[keys[0]]] + ValuesOf(keys[1..], m)
  }

  /**
   `values()`: every stored value once per key, enumerated in the map's linked
   order (least recently touched first). Reading them changes no state.
   */
  function LinkedValues<K, V>(s: CacheState<K, V>): (vs: seq<V>)
    requires Inv(s)
    ensures |vs| == |s.order| == |s.entries|
    ensures forall i :: 0 <= i < |s.order| ==> vs[i] == s.entries[s.order[i]]
  {
    SizeIsOrderLength(s);
    ValuesOf(s.order, s.entries)
  }

  /** `values()` holds exactly the stored values. */
  lemma LinkedValuesAreStored<K, V>(s: CacheState<K, V>)
    requires Inv(s)
    ensures Elems(LinkedValues(s)) == s.entries.Values
  {
    var vs := LinkedValues(s);
    forall v | v in s.entries.Values
      ensures v in Elems(vs)
    {
      var k :| k in s.entries && s.entries[k] == v;
      var i :| 0 <= i < |s.order| && s.order[i] == k;
      assert vs[i] == v;
    }
  }

  /** After `put(k, v)` on a cache of positive capacity, `get(k)` finds `v` and counts a hit. */
  lemma StoreThenLookup<K, V>(s: CacheState<K, V>, key: K, value: V)
    requires Inv(s) && s.capacity > 0
    ensures Lookup(Store(s, key, value).1, key).0 == Some(value)
    ensures Lookup(Store(s, key, value).1, key).1.hits == s.hits + 1
  {
  }

  /**
   Reading the eldest key of a cache holding two or more keys moves the
   eviction candidate to the key touched next after it.
   */
  lemma LookupEldestShiftsEviction<K, V>(s: CacheState<K, V>)
    requires Inv(s) && |s.order| >= 2
    ensures Lookup(s, s.order[0]).1.order[0] == s.order[1]
    ensures Lookup(s, s.order[0]).1.order[|s.order| - 1] == s.order[0]
  {
    assert IndexOf(s.order, s.order[0]) == 0;
    assert Touch(s.order, s.order[0]) == s.order[1..] + [s.order[0]];
  }

  /**
   A hit on `key`, by `get` or by `put` of a resident key, leaves the other keys
   in their eviction order: of two such keys the less recently touched one is
   still evicted first.
   */
  lemma TouchKeepsEvictionOrder<K, V>(s: CacheState<K, V>, key: K, value: V, p: nat, q: nat)
    requires Inv(s) && key in s.entries
    requires p < q < |s.order| && s.order[p] != key && s.order[q] != key
    ensures var o := Lookup(s, key).1.order;
      s.order[p] in o && s.order[q] in o && IndexOf(o, s.order[p]) < IndexOf(o, s.order[q])
    ensures var o := Store(s, key, value).1.order;
      s.order[p] in o && s.order[q] in o && IndexOf(o, s.order[p]) < IndexOf(o, s.order[q])
  {
    TouchKeepsOthersInOrder(s.order, key, p, q);
  }

  class LRUCache<K(==), V(==)> {
    const capacity: nat
    /** The resident mappings. */
    var entries: map<K, V>
    /** The resident keys, least recently touched first. */
    var order: seq<K>
    /** Number of lookups that found their key (`countGetByIdHit`). */
    var hits: nat

    function State(): CacheState<K, V>
      reads this
    {
      CacheState(capacity, entries, order, hits)
    }

    ghost predicate Valid()
      reads this
    {
      Inv(State())
    }

    constructor (capacity: nat)
      ensures Valid()
      ensures State() == Empty(capacity)
    {
      this.capacity := capacity;
      entries := map[];
      order := [];
      hits := 0;
    }

    /** `get`, with hit counting. */
    method Get(key: K) returns (value: Option<V>)
      requires Valid()
      modifies this
      ensures Valid()
      ensures (value, State()) == Lookup(old(State()), key)
    {
      ghost var s := State();
      if key in entries {
        value := Some(entries[key]);
        var o := Touch(order, key);
        assert s.(order := o, hits := s.hits + 1) == Lookup(s, key).1;
        order, hits := o, hits + 1;
      } else {
        value := None;
      }
    }

    /**
     `removeEldestEntry`: whether the eldest mapping goes once an insertion has
     left `size` mappings in the map.
     */
    predicate RemoveEldestEntry(size: nat)
    {
      size > capacity
    }

    /**
     Inserting a new key into a valid cache leaves one mapping more than before,
     and that is too many exactly when the cache was already full.
     */
    lemma EvictsOnlyWhenFull()
      requires Valid()
      ensures RemoveEldestEntry(|entries| + 1) <==> |entries| == capacity
    {
      SizeIsOrderLength(State());
    }

    /** `put`, inherited from the access-ordered map, with eviction through `RemoveEldestEntry`. */
    method Put(key: K, value: V) returns (previous: Option<V>)
      requires Valid()
      modifies this
      ensures Valid()
      ensures (previous, State()) == Store(old(State()), key, value)
    {
      ghost var s := State();
      var e, o := entries, order;
      if key in e {
        previous := Some(e[key]);
        e, o := e[key := value], Touch(o, key);
        assert s.(entries := e, order := o) == Refresh(s, key, value);
      } else {
        previous := None;
        SizeIsOrderLength(s);
        e, o := e[key := value], o + [key];
        assert |e| == |s.entries| + 1;
        if RemoveEldestEntry(|e|) {
          var eldest := o[0];
          e, o := e - {eldest}, o[1..];
          if s.capacity == 0 {
            assert e == s.entries && o == s.order by {
              assert s.entries == map[] && s.order == [];
            }
          } else {
            assert eldest == s.order[0];
            assert o == s.order[1..] + [key];
          }
        }
        assert s.(entries := e, order := o) == Admit(s, key, value);
      }
      entries, order := e, o;
    }

    /** `values()`: a snapshot of the stored values, in linked order. */
    function Values(): (vs: seq<V>)
      requires Valid()
      reads this
      ensures vs == LinkedValues(State())
    {
      ValuesOf(order, entries)
    }

    /** `getCountGetByIdHit`: the hit counter, read without side effects. */
    method GetCountGetByIdHit() returns (count: nat)
      ensures count == hits
    {
      count := hits;
    }
  }
}

/**
 An account record: an identity and a balance, both Java `long`, ordered by
 balance from the highest to the lowest.
 */
module Accounts {

  /** Java `int`, the type of the constructor's arguments. */
  type Int32 = x: int | -0x8000_0000 <= x < 0x8000_0000

  /** Java `long`, the type of the fields. */
  type Int64 = x: int | -0x8000_0000_0000_0000 <= x < 0x8000_0000_0000_0000

  /** Accounts are values here: the cache never shares a mutable record with its callers. */
  datatype Account = Account(id: Int64, balance: Int64)
  {
    /** `setId`: a record that differs from this one in its id only. */
    function SetId(newId: Int64): (r: Account)
      ensures r.id == newId && r.balance == balance
    {
      this.(id := newId)
    }

    /** `setBalance`: a record that differs from this one in its balance only. */
    function SetBalance(newBalance: Int64): (r: Account)
      ensures r.balance == newBalance && r.id == id
    {
      this.(balance := newBalance)
    }
  }

  /** The constructor widens its two `int` arguments into the `long` fields. */
  function NewAccount(id: Int32, balance: Int32): (a: Account)
    ensures a.id == id && a.balance == balance
  {
    Account(id, balance)
  }

  /** `Long.compare`: negative, zero or positive as `x` is below, equal to or above `y`. */
  function LongCompare(x: Int64, y: Int64): (r: int)
    ensures r < 0 <==> x < y
    ensures r == 0 <==> x == y
    ensures r > 0 <==> x > y
    ensures -1 <= r <= 1
  {
    if x < y then -1 else if x == y then 0 else 1
  }

  /**
   `compareTo`: the arguments of `Long.compare` are swapped, so an account with a
   higher balance orders first; ids play no part.
   */
  function CompareTo(a: Account, o: Account): (r: int)
    ensures r < 0 <==> a.balance > o.balance
    ensures r == 0 <==> a.balance == o.balance
    ensures r > 0 <==> a.balance < o.balance
  {
    LongCompare(o.balance, a.balance)
  }

  /** The comparator is antisymmetric: swapping the arguments negates the result. */
  lemma CompareToAntisymmetric(a: Account, b: Account)
    ensures CompareTo(a, b) == -CompareTo(b, a)
  {
  }

  /** The comparator is transitive, as the reverse of the order on balances. */
  lemma CompareToTransitive(a: Account, b: Account, c: Account)
    requires CompareTo(a, b) <= 0 && CompareTo(b, c) <= 0
    ensures CompareTo(a, c) <= 0
  {
  }
}

/** The storage buffer a production node is connected to. Only the three operations
    the production cycle relies on are modelled: has, take and put. */
module Storage {
  import opened Resources

  /** Inventory of a storage node; a type with no entry holds zero. */
  type Stockpile = map<ResourceType, nat>

  function Level(s: Stockpile, t: ResourceType): nat
  {
    if t in s then s[t] else 0
  }

  /** The stockpile after `n` units of `t` are removed. */
  function Withdrawn(s: Stockpile, t: ResourceType, n: nat): (r: Stockpile)
    requires n <= Level(s, t)
    ensures Level(r, t) + n == Level(s, t)
    ensures forall u :: u != t ==> Level(r, u) == Level(s, u)
  {
    s[t := Level(s, t) - n]
  }

  /** The stockpile after `n` units of `t` are added (no capacity limit). */
  function Deposited(s: Stockpile, t: ResourceType, n: nat): (r: Stockpile)
    ensures Level(r, t) == Level(s, t) + n
    ensures forall u :: u != t ==> Level(r, u) == Level(s, u)
  {
    s[t := Level(s, t) + n]
  }

  /** Taking and then putting back the same amount restores every level. */
  lemma TakePutRoundTrip(s: Stockpile, t: ResourceType, n: nat, u: ResourceType)
    requires n <= Level(s, t)
    ensures Level(Deposited(Withdrawn(s, t, n), t, n), u) == Level(s, u)
  {
  }

  class StorageNode {
    var stock: Stockpile

    constructor (initial: Stockpile)
      ensures stock == initial
    {
      stock := initial;
    }

    /** True iff at least `amount` units of `t` are in stock. */
    predicate HasResource(t: ResourceType, amount: nat): (r: bool)
      reads this
      ensures amount == 0 ==> r
      ensures r <==> amount == 0 || (t in stock && amount <= stock[t])
    {
      Level(stock, t) >= amount
    }

    /** Removes `amount` units of `t`; fails and changes nothing on insufficient stock. */
    method Take(t: ResourceType, amount: nat) returns (ok: bool)
      modifies this`stock
      ensures ok == old(HasResource(t, amount))
      ensures ok ==> stock == Withdrawn(old(stock), t, amount)
      ensures !ok ==> stock == old(stock)
    {
      ok := Level(stock, t) >= amount;
      if ok {
        stock := Withdrawn(stock, t, amount);
      }
    }

    /** Adds `amount` units of `t`. */
    method Put(t: ResourceType, amount: nat)
      modifies this`stock
      ensures stock == Deposited(old(stock), t, amount)
    {
      stock := Deposited(stock, t, amount);
    }
  }
}

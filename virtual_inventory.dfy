/** The spawner's virtual inventory: stacked items keyed by their signature.
    The inventory class itself is not modelled here; it appears only as far as
    the sale uses it (a consolidated snapshot, adding and removing lists of item
    stacks). */
module Inventory {

  /** Structural identity of a stackable item kind: its material and the
      identity-affecting metadata, compared by value. */
  datatype ItemSignature = ItemSignature(material: string, meta: string)

  /** A consolidated view: signature to stored count. */
  type Stock = map<ItemSignature, nat>

  /** An item stack to add or remove: a signature and an amount. */
  type ItemStack = (ItemSignature, nat)

  /** A stored signature always has a positive count. */
  ghost predicate Normal(m: Stock) {
    forall sig | sig in m :: m[sig] > 0
  }

  function Count(m: Stock, sig: ItemSignature): nat {
    if sig in m then m[sig] else 0
  }

  /** Total amount of `sig` in a list of item stacks. */
  function Qty(list: seq<ItemStack>, sig: ItemSignature): nat {
    if list == [] then 0
    else (if list[0].0 == sig then list[0].1 else 0) + Qty(list[1..], sig)
  }

  function AddOne(m: Stock, item: ItemStack): Stock {
    if item.1 == 0 then m else m[item.0 := Count(m, item.0) + item.1]
  }

  /** Removing more than is stored empties the slot (the signature disappears). */
  function RemoveOne(m: Stock, item: ItemStack): (r: Stock)
    ensures r.Keys <= m.Keys
    ensures Count(r, item.0) == if Count(m, item.0) <= item.1 then 0 else Count(m, item.0) - item.1
    ensures forall sig | sig in r && sig != item.0 :: r[sig] == m[sig]
  {
    if item.0 !in m then m
    else if m[item.0] <= item.1 then m - {item.0}
    else m[item.0 := m[item.0] - item.1]
  }

  function AddAll(m: Stock, list: seq<ItemStack>): (r: Stock)
    ensures m.Keys <= r.Keys
    ensures forall sig | sig in m :: r[sig] >= m[sig]
    decreases list
  {
    if list == [] then m else AddAll(AddOne(m, list[0]), list[1..])
  }

  function RemoveAll(m: Stock, list: seq<ItemStack>): Stock
    decreases list
  {
    if list == [] then m else RemoveAll(RemoveOne(m, list[0]), list[1..])
  }

  /** Adding a list raises every count by the list's amount of that signature. */
  lemma {:induction false} CountAddAll(m: Stock, list: seq<ItemStack>, sig: ItemSignature)
    ensures Count(AddAll(m, list), sig) == Count(m, sig) + Qty(list, sig)
    decreases list
  {
    if list != [] {
      CountAddAll(AddOne(m, list[0]), list[1..], sig);
    }
  }

  /** Removing a list lowers every count by the list's amount, never below zero. */
  lemma {:induction false} CountRemoveAll(m: Stock, list: seq<ItemStack>, sig: ItemSignature)
    ensures Count(RemoveAll(m, list), sig)
         == if Qty(list, sig) <= Count(m, sig) then Count(m, sig) - Qty(list, sig) else 0
    decreases list
  {
    if list != [] {
      CountRemoveAll(RemoveOne(m, list[0]), list[1..], sig);
    }
  }

  lemma {:induction false} AddAllNormal(m: Stock, list: seq<ItemStack>)
    requires Normal(m)
    ensures Normal(AddAll(m, list))
    decreases list
  {
    if list != [] {
      AddAllNormal(AddOne(m, list[0]), list[1..]);
    }
  }

  lemma {:induction false} RemoveAllNormal(m: Stock, list: seq<ItemStack>)
    requires Normal(m)
    ensures Normal(RemoveAll(m, list))
    decreases list
  {
    if list != [] {
      RemoveAllNormal(RemoveOne(m, list[0]), list[1..]);
    }
  }

  /** Two normal stocks with the same count for every signature are equal. */
  lemma NormalExtensional(a: Stock, b: Stock)
    requires Normal(a) && Normal(b)
    requires forall sig :: Count(a, sig) == Count(b, sig)
    ensures a == b
  {
    forall sig | sig in a ensures sig in b && a[sig] == b[sig] {
      assert Count(a, sig) == Count(b, sig);
    }
    forall sig | sig in b ensures sig in a {
      assert Count(a, sig) == Count(b, sig);
    }
  }

  /** The compensating re-add undoes the optimistic removal exactly, provided
      the removal did not ask for more of any signature than was stored. */
  lemma RemoveThenAddRestores(m: Stock, list: seq<ItemStack>)
    requires Normal(m)
    requires forall sig :: Qty(list, sig) <= Count(m, sig)
    ensures AddAll(RemoveAll(m, list), list) == m
  {
    var r := AddAll(RemoveAll(m, list), list);
    RemoveAllNormal(m, list);
    AddAllNormal(RemoveAll(m, list), list);
    forall sig ensures Count(r, sig) == Count(m, sig) {
      CountAddAll(RemoveAll(m, list), list, sig);
      CountRemoveAll(m, list, sig);
    }
    NormalExtensional(r, m);
  }

  class VirtualInventory {
    var items: Stock

    ghost predicate Valid()
      reads this
    {
      Normal(items)
    }

    constructor ()
      ensures Valid() && items == map[]
    {
      items := map[];
    }

    /** A snapshot of the stored stacks (`getConsolidatedItems`). */
    method GetConsolidatedItems() returns (snapshot: Stock)
      requires Valid()
      ensures snapshot == items && Normal(snapshot)
    {
      snapshot := items;
    }

    method AddItems(list: seq<ItemStack>)
      requires Valid()
      modifies this
      ensures Valid() && items == AddAll(old(items), list)
    {
      AddAllNormal(items, list);
      items := AddAll(items, list);
    }

    method RemoveItems(list: seq<ItemStack>)
      requires Valid()
      modifies this
      ensures Valid() && items == RemoveAll(old(items), list)
    {
      RemoveAllNormal(items, list);
      items := RemoveAll(items, list);
    }
  }
}

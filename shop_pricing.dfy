/** The pricing half of the shop integration (ShopGuiPlus.java): which stored
    items a sale takes, what they fetch per currency, the tax deduction and the
    currency an item is paid in. The shop plugin's price and shop queries are
    inputs; prices are exact reals standing for Java's doubles. */
module SalePricing {
  import opened Wrappers
  import opened JavaInt
  import opened Inventory
  import opened JavaString

  type PlayerId = string

  /** A currency of the shop plugin, by the name of its enum constant. */
  datatype EconomyType = EconomyType(name: string)

  const CUSTOM: EconomyType := EconomyType("CUSTOM")

  /** What the sale asks of the shop plugin: whether shops are loaded, an
      item's sell price for a player, the economy type of the item's shop (absent
      when the shop names none), the default provider's name, the enum's constant
      names, and for each currency whether a provider exists and a deposit succeeds. */
  datatype ShopApi = ShopApi(
    shopsLoaded: bool,
    sellPrice: (PlayerId, ItemSignature) -> real,
    shopEconomy: ItemSignature -> Option<EconomyType>,
    defaultProviderName: Option<string>,
    economyTypeNames: set<string>,
    hasProvider: EconomyType -> bool,
    depositSucceeds: EconomyType -> bool)

  // ---------------------------------------------------------------- currency

  /** `getEconomyType`: the shop's own economy type; else the default provider's
      upper-cased name when it names an enum constant; else CUSTOM. */
  function GetEconomyType(api: ShopApi, sig: ItemSignature): (r: EconomyType)
    ensures api.shopEconomy(sig).Some? ==> r == api.shopEconomy(sig).value
    ensures api.shopEconomy(sig).None? ==>
              (r == CUSTOM
               || (api.defaultProviderName.Some?
                   && r.name == ToUpperCase(api.defaultProviderName.value)
                   && r.name in api.economyTypeNames))
    ensures api.shopEconomy(sig).None? && api.defaultProviderName.Some?
            && ToUpperCase(api.defaultProviderName.value) in api.economyTypeNames ==>
              r.name == ToUpperCase(api.defaultProviderName.value)
  {
    match api.shopEconomy(sig)
    case Some(t) => t
    case None =>
      match api.defaultProviderName
      case None => CUSTOM
      case Some(name) =>
        var upper := ToUpperCase(name);
        if upper in api.economyTypeNames then EconomyType(upper) else CUSTOM
  }

  /** When every shop names a currency of the enum, so does the fallback chain, or it yields CUSTOM. */
  lemma EconomyTypeIsKnown(api: ShopApi, sig: ItemSignature)
    requires api.shopEconomy(sig).Some? ==> api.shopEconomy(sig).value.name in api.economyTypeNames
    ensures GetEconomyType(api, sig).name in api.economyTypeNames || GetEconomyType(api, sig) == CUSTOM
  {
  }

  // ---------------------------------------------------------------- tax

  /** `calculateNetAmount`: no deduction for a non-positive tax, else the tax share is taken off. */
  function CalculateNetAmount(gross: real, taxPercentage: real): (r: real)
    ensures taxPercentage <= 0.0 ==> r == gross
    ensures taxPercentage > 0.0 ==> r == gross - gross * taxPercentage / 100.0
  {
    if taxPercentage <= 0.0 then gross else gross * (1.0 - taxPercentage / 100.0)
  }

  /** For a tax between 0 and 100 percent the payout lies between nothing and the gross amount. */
  lemma NetAmountBounds(gross: real, taxPercentage: real)
    requires gross >= 0.0 && taxPercentage <= 100.0
    ensures 0.0 <= CalculateNetAmount(gross, taxPercentage) <= gross
  {
    if taxPercentage > 0.0 {
      assert gross * taxPercentage <= gross * 100.0;
    }
  }

  /** A higher tax never pays out more. */
  lemma NetAmountMonotone(gross: real, t1: real, t2: real)
    requires gross >= 0.0 && t1 <= t2
    ensures CalculateNetAmount(gross, t2) <= CalculateNetAmount(gross, t1)
  {
    if t1 > 0.0 {
      assert gross * t1 <= gross * t2;
    } else if t2 > 0.0 {
      assert gross * t2 >= 0.0;
    }
  }

  /** A tax above 100 percent turns a positive sale into a negative payout. */
  lemma NetAmountNegativeAboveFullTax(gross: real, taxPercentage: real)
    requires gross > 0.0 && taxPercentage > 100.0
    ensures CalculateNetAmount(gross, taxPercentage) < 0.0
  {
    var share := gross * taxPercentage / 100.0;
    assert gross * taxPercentage > gross * 100.0;
    assert share > gross;
    assert CalculateNetAmount(gross, taxPercentage) == gross - share;
  }

  // ---------------------------------------------------------------- price calculation

  /** An entry of the consolidated inventory map, as its iteration yields it. */
  type Entry = (ItemSignature, int)

  datatype SaleInfo = SaleInfo(amount: int, price: real, economyType: EconomyType)

  /** `SaleCalculationResult`. */
  datatype SaleCalculation = SaleCalculation(
    pricesByEconomy: map<EconomyType, real>,
    totalAmount: int,
    itemsToRemove: seq<ItemStack>,
    itemSales: map<string, SaleInfo>,
    valid: bool)

  /** An entry the sale takes: a positive amount with a positive sell price. */
  predicate Sellable(api: ShopApi, player: PlayerId, e: Entry) {
    e.1 > 0 && api.sellPrice(player, e.0) > 0.0
  }

  /** `(int) Math.min(amount, Integer.MAX_VALUE)`. */
  function RemoveAmount(amount: int): (r: int)
    ensures r <= INT_MAX
    ensures r == amount <==> amount <= INT_MAX
    ensures 0 <= amount ==> 0 <= r <= amount
  {
    if amount <= INT_MAX then amount else INT_MAX
  }

  /** The price of an entry uses the unclamped amount. */
  function ItemTotal(api: ShopApi, player: PlayerId, e: Entry): real {
    api.sellPrice(player, e.0) * (e.1 as real)
  }

  /** `Map.merge(key, value, Double::sum)`. */
  function Merge(m: map<EconomyType, real>, k: EconomyType, v: real): map<EconomyType, real> {
    m[k := (if k in m then m[k] else 0.0) + v]
  }

  const NoSale: SaleCalculation := SaleCalculation(map[], 0, [], map[], false)

  /** One iteration of the pricing loop. */
  function SaleStep(api: ShopApi, player: PlayerId, acc: SaleCalculation, e: Entry): SaleCalculation {
    if !Sellable(api, player, e) then acc
    else
      var economyType := GetEconomyType(api, e.0);
      var removeAmount := RemoveAmount(e.1);
      var totalItemPrice := ItemTotal(api, player, e);
      SaleCalculation(
        Merge(acc.pricesByEconomy, economyType, totalItemPrice),
        Wrap32(acc.totalAmount + removeAmount),
        acc.itemsToRemove + [(e.0, removeAmount)],
        acc.itemSales[e.0.material := SaleInfo(removeAmount, totalItemPrice, economyType)],
        true)
  }

  /** The calculation after the loop has seen `entries`. */
  function SaleOf(api: ShopApi, player: PlayerId, entries: seq<Entry>): SaleCalculation {
    if entries == [] then NoSale
    else SaleStep(api, player, SaleOf(api, player, entries[..|entries| - 1]), entries[|entries| - 1])
  }

  // Independent reference sums, one term per sellable entry.

  function SumRemoved(api: ShopApi, player: PlayerId, entries: seq<Entry>): int {
    if entries == [] then 0
    else
      var e := entries[|entries| - 1];
      SumRemoved(api, player, entries[..|entries| - 1]) + (if Sellable(api, player, e) then RemoveAmount(e.1) else 0)
  }

  function SumItemTotals(api: ShopApi, player: PlayerId, entries: seq<Entry>): real {
    if entries == [] then 0.0
    else
      var e := entries[|entries| - 1];
      SumItemTotals(api, player, entries[..|entries| - 1]) + (if Sellable(api, player, e) then ItemTotal(api, player, e) else 0.0)
  }

  function CurrencyTotal(api: ShopApi, player: PlayerId, entries: seq<Entry>, t: EconomyType): real {
    if entries == [] then 0.0
    else
      var e := entries[|entries| - 1];
      CurrencyTotal(api, player, entries[..|entries| - 1], t)
        + (if Sellable(api, player, e) && GetEconomyType(api, e.0) == t then ItemTotal(api, player, e) else 0.0)
  }

  function RemovedQty(api: ShopApi, player: PlayerId, entries: seq<Entry>, sig: ItemSignature): int {
    if entries == [] then 0
    else
      var e := entries[|entries| - 1];
      RemovedQty(api, player, entries[..|entries| - 1], sig)
        + (if Sellable(api, player, e) && e.0 == sig then RemoveAmount(e.1) else 0)
  }

  /** The result is valid exactly when some entry is sellable. */
  lemma {:induction false} SaleValidIff(api: ShopApi, player: PlayerId, entries: seq<Entry>)
    ensures SaleOf(api, player, entries).valid <==>
              exists i :: 0 <= i < |entries| && Sellable(api, player, entries[i])
  {
    if entries != [] {
      var n := |entries| - 1;
      SaleValidIff(api, player, entries[..n]);
      assert forall i | 0 <= i < n :: entries[..n][i] == entries[i];
      if SaleOf(api, player, entries[..n]).valid {
        var i :| 0 <= i < n && Sellable(api, player, entries[..n][i]);
        assert Sellable(api, player, entries[i]);
      }
    }
  }

  /** `totalAmount` is the sum of the removed amounts, wrapped to 32 bits as Java's `+=` does. */
  lemma {:induction false} SaleTotalAmount(api: ShopApi, player: PlayerId, entries: seq<Entry>)
    ensures SaleOf(api, player, entries).totalAmount == Wrap32(SumRemoved(api, player, entries))
  {
    if entries != [] {
      var n := |entries| - 1;
      SaleTotalAmount(api, player, entries[..n]);
      var e := entries[n];
      if Sellable(api, player, e) {
        Wrap32Add(SumRemoved(api, player, entries[..n]), RemoveAmount(e.1));
      }
    }
  }

  /** Per currency, the merged price is the sum of that currency's item totals,
      and the currencies present are those of the sellable entries. */
  lemma {:induction false} SalePricesPerCurrency(api: ShopApi, player: PlayerId, entries: seq<Entry>, t: EconomyType)
    ensures var prices := SaleOf(api, player, entries).pricesByEconomy;
            && (t in prices <==>
                  exists i :: 0 <= i < |entries| && Sellable(api, player, entries[i]) && GetEconomyType(api, entries[i].0) == t)
            && (t in prices ==> prices[t] == CurrencyTotal(api, player, entries, t))
            && (t !in prices ==> CurrencyTotal(api, player, entries, t) == 0.0)
  {
    if entries != [] {
      var n := |entries| - 1;
      SalePricesPerCurrency(api, player, entries[..n], t);
      assert forall i | 0 <= i < n :: entries[..n][i] == entries[i];
      var prices := SaleOf(api, player, entries[..n]).pricesByEconomy;
      if t in prices {
        var i :| 0 <= i < n && Sellable(api, player, entries[..n][i]) && GetEconomyType(api, entries[..n][i].0) == t;
        assert Sellable(api, player, entries[i]) && GetEconomyType(api, entries[i].0) == t;
      }
    }
  }

  /** Sum of the values of a currency map (`getTotalPrice`'s stream sum). */
  ghost function SumValues(m: map<EconomyType, real>): real {
    if m == map[] then 0.0
    else var k :| k in m; m[k] + SumValues(m - {k})
  }

  /** The sum does not depend on the key taken first. */
  lemma {:induction false} SumValuesRemove(m: map<EconomyType, real>, k: EconomyType)
    requires k in m
    ensures SumValues(m) == m[k] + SumValues(m - {k})
    decreases |m|
  {
    var j :| j in m && SumValues(m) == m[j] + SumValues(m - {j});
    if j != k {
      SumValuesRemove(m - {j}, k);
      SumValuesRemove(m - {k}, j);
      assert m - {j} - {k} == m - {k} - {j};
    }
  }

  /** Merging a price into a currency raises the total by exactly that price. */
  lemma SumValuesMerge(m: map<EconomyType, real>, k: EconomyType, v: real)
    ensures SumValues(Merge(m, k, v)) == SumValues(m) + v
  {
    var m' := Merge(m, k, v);
    SumValuesRemove(m', k);
    assert m' - {k} == m - {k};
    if k in m {
      SumValuesRemove(m, k);
    } else {
      assert m - {k} == m;
    }
  }

  /** `getTotalPrice`. */
  ghost function GetTotalPrice(sale: SaleCalculation): (r: real)
    ensures sale.pricesByEconomy == map[] ==> r == 0.0
    ensures (forall t | t in sale.pricesByEconomy :: sale.pricesByEconomy[t] >= 0.0) ==> r >= 0.0
  {
    SumValuesNonNegative(sale.pricesByEconomy);
    SumValues(sale.pricesByEconomy)
  }

  lemma {:induction false} SumValuesNonNegative(m: map<EconomyType, real>)
    ensures (forall t | t in m :: m[t] >= 0.0) ==> SumValues(m) >= 0.0
    decreases |m|
  {
    if m != map[] {
      var k :| k in m;
      SumValuesRemove(m, k);
      assert |m - {k}| < |m|;
      SumValuesNonNegative(m - {k});
    }
  }

  /** The total over all currencies is the sum of every sold item's total: merging by currency loses nothing. */
  lemma {:induction false} SaleTotalPrice(api: ShopApi, player: PlayerId, entries: seq<Entry>)
    ensures GetTotalPrice(SaleOf(api, player, entries)) == SumItemTotals(api, player, entries)
  {
    if entries != [] {
      var n := |entries| - 1;
      SaleTotalPrice(api, player, entries[..n]);
      var e := entries[n];
      if Sellable(api, player, e) {
        SumValuesMerge(SaleOf(api, player, entries[..n]).pricesByEconomy, GetEconomyType(api, e.0), ItemTotal(api, player, e));
      }
    }
  }

  lemma {:induction false} QtyAppend(list: seq<ItemStack>, item: ItemStack, sig: ItemSignature)
    ensures Qty(list + [item], sig) == Qty(list, sig) + (if item.0 == sig then item.1 else 0)
  {
    if list != [] {
      assert (list + [item])[1..] == list[1..] + [item];
      QtyAppend(list[1..], item, sig);
    }
  }

  /** The removal list asks, per signature, for the clamped amounts of its sellable entries. */
  lemma {:induction false} SaleRemovedQty(api: ShopApi, player: PlayerId, entries: seq<Entry>, sig: ItemSignature)
    ensures Qty(SaleOf(api, player, entries).itemsToRemove, sig) == RemovedQty(api, player, entries, sig)
  {
    if entries != [] {
      var n := |entries| - 1;
      SaleRemovedQty(api, player, entries[..n], sig);
      var e := entries[n];
      if Sellable(api, player, e) {
        QtyAppend(SaleOf(api, player, entries[..n]).itemsToRemove, (e.0, RemoveAmount(e.1)), sig);
      }
    }
  }

  /** The entries list each stored signature once, with its stored amount. */
  ghost predicate Enumerates(entries: seq<Entry>, items: Stock) {
    && (forall i | 0 <= i < |entries| :: entries[i].0 in items && entries[i].1 == items[entries[i].0])
    && (forall sig | sig in items :: exists i :: 0 <= i < |entries| && entries[i].0 == sig)
    && (forall i, j | 0 <= i < j < |entries| :: entries[i].0 != entries[j].0)
  }

  lemma {:induction false} RemovedQtyAbsent(api: ShopApi, player: PlayerId, entries: seq<Entry>, sig: ItemSignature)
    requires forall i | 0 <= i < |entries| :: entries[i].0 != sig
    ensures RemovedQty(api, player, entries, sig) == 0
  {
    if entries != [] {
      var n := |entries| - 1;
      assert forall i | 0 <= i < n :: entries[..n][i] == entries[i];
      RemovedQtyAbsent(api, player, entries[..n], sig);
    }
  }

  lemma {:induction false} RemovedQtyAt(api: ShopApi, player: PlayerId, entries: seq<Entry>, k: nat)
    requires k < |entries|
    requires forall i, j | 0 <= i < j < |entries| :: entries[i].0 != entries[j].0
    ensures RemovedQty(api, player, entries, entries[k].0)
         == if Sellable(api, player, entries[k]) then RemoveAmount(entries[k].1) else 0
  {
    var n := |entries| - 1;
    assert forall i | 0 <= i < n :: entries[..n][i] == entries[i];
    if k == n {
      RemovedQtyAbsent(api, player, entries[..n], entries[k].0);
    } else {
      RemovedQtyAt(api, player, entries[..n], k);
    }
  }

  /** For an enumeration of a stock, the sale removes of each signature its clamped
      stored amount when that entry is sellable and nothing otherwise, so never
      more than is stored. */
  lemma SaleRemovesFromStock(api: ShopApi, player: PlayerId, entries: seq<Entry>, items: Stock, sig: ItemSignature)
    requires Enumerates(entries, items)
    ensures Qty(SaleOf(api, player, entries).itemsToRemove, sig)
         == if sig in items && Sellable(api, player, (sig, items[sig] as int)) then RemoveAmount(items[sig]) else 0
    ensures Qty(SaleOf(api, player, entries).itemsToRemove, sig) <= Count(items, sig)
  {
    SaleRemovedQty(api, player, entries, sig);
    if sig in items {
      var k :| 0 <= k < |entries| && entries[k].0 == sig;
      RemovedQtyAt(api, player, entries, k);
    } else {
      RemovedQtyAbsent(api, player, entries, sig);
    }
  }

  /** `calculateSalePrices`: the loop over the inventory's entries, in iteration order. */
  method CalculateSalePrices(api: ShopApi, player: PlayerId, entries: seq<Entry>) returns (sale: SaleCalculation)
    ensures sale == SaleOf(api, player, entries)
  {
    var pricesByEconomy: map<EconomyType, real> := map[];
    var itemSales: map<string, SaleInfo> := map[];
    var itemsToRemove: seq<ItemStack> := [];
    var totalAmount := 0;
    var foundSellableItem := false;
    var i := 0;
    while i < |entries|
      invariant 0 <= i <= |entries|
      invariant SaleCalculation(pricesByEconomy, totalAmount, itemsToRemove, itemSales, foundSellableItem)
                == SaleOf(api, player, entries[..i])
    {
      assert entries[..i + 1][..i] == entries[..i] && entries[..i + 1][i] == entries[i];
      var template, amount := entries[i].0, entries[i].1;
      i := i + 1;
      if amount <= 0 {
        continue;
      }
      var sellPrice := api.sellPrice(player, template);
      if sellPrice <= 0.0 {
        continue;
      }
      var economyType := GetEconomyType(api, template);
      foundSellableItem := true;
      var removeAmount := RemoveAmount(amount);
      itemsToRemove := itemsToRemove + [(template, removeAmount)];
      var totalItemPrice := sellPrice * (amount as real);
      pricesByEconomy := Merge(pricesByEconomy, economyType, totalItemPrice);
      totalAmount := Wrap32(totalAmount + removeAmount);
      itemSales := itemSales[template.material := SaleInfo(removeAmount, totalItemPrice, economyType)];
      ghost var prev := SaleOf(api, player, entries[..i - 1]);
      assert totalItemPrice == ItemTotal(api, player, entries[i - 1]);
      assert pricesByEconomy == Merge(prev.pricesByEconomy, economyType, totalItemPrice);
    }
    assert entries[..|entries|] == entries;
    sale := SaleCalculation(pricesByEconomy, totalAmount, itemsToRemove, itemSales, foundSellableItem);
  }
}

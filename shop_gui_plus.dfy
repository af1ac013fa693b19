/** The stateful half of the shop integration (ShopGuiPlus.java): the sell
    cooldowns, the pending-sale markers, the spawner lock, and the sale flow that
    removes the sold items, pays per currency and puts the items back when the
    payment does not go through. The asynchronous steps run here one after the
    other; whether the payment answered in time and whether the sale answered
    within the short wait are inputs. Messages sent to the player and deposits
    made are recorded in ghost logs. */
module ShopGuiPlus {
  import opened Wrappers
  import opened Inventory
  import opened Spawners
  import opened SalePricing

  const SELL_COOLDOWN_MS: int := 500
  /** Entries older than this are pruned (`SELL_COOLDOWN_MS * 10`). */
  const COOLDOWN_RETENTION_MS: int := SELL_COOLDOWN_MS * 10

  /** A message key sent to a player. */
  datatype Message = Message(player: PlayerId, key: string)

  /** A deposit made through an economy provider. */
  datatype Deposit = Deposit(player: PlayerId, economyType: EconomyType, amount: real)

  /** How the wait for the payment task ended: it answered within the
      transaction timeout, or the wait threw (timeout or interruption). */
  datatype PaymentOutcome = Answered | TimedOut

  /** Why `sellAllItems` refused to start a sale. */
  datatype Rejection = ShopsNotLoaded | SaleInProgress | CoolingDown | SpawnerLocked

  // ---------------------------------------------------------------- cooldowns

  /** `isOnCooldown`: a player without an entry counts as having sold at time 0. */
  function IsOnCooldown(cooldowns: map<PlayerId, int>, player: PlayerId, now: int): (r: bool)
    ensures player in cooldowns ==> (r <==> now - cooldowns[player] < SELL_COOLDOWN_MS)
    ensures player !in cooldowns ==> (r <==> now < SELL_COOLDOWN_MS)
  {
    var lastSellTime := if player in cooldowns then cooldowns[player] else 0;
    now - lastSellTime < SELL_COOLDOWN_MS
  }

  /** The cooldown map after `clearOldCooldowns` at time `now`. */
  function Pruned(cooldowns: map<PlayerId, int>, now: int): (r: map<PlayerId, int>)
    ensures forall p | p in cooldowns :: p in r <==> now - cooldowns[p] <= COOLDOWN_RETENTION_MS
    ensures forall p | p in r :: p in cooldowns && r[p] == cooldowns[p]
  {
    map p | p in cooldowns && !(now - cooldowns[p] > COOLDOWN_RETENTION_MS) :: cooldowns[p]
  }

  /** Pruning never changes a cooldown verdict, now or later, as long as the recorded
      times are not negative: a pruned entry is long past its cooldown, and so is
      the time-0 default that replaces it. */
  lemma PruneKeepsVerdict(cooldowns: map<PlayerId, int>, now: int, later: int, player: PlayerId)
    requires now <= later
    requires forall p | p in cooldowns :: cooldowns[p] >= 0
    ensures IsOnCooldown(Pruned(cooldowns, now), player, later) == IsOnCooldown(cooldowns, player, later)
  {
    if player in cooldowns && player !in Pruned(cooldowns, now) {
      assert later - cooldowns[player] > COOLDOWN_RETENTION_MS;
    }
  }

  /** Without the non-negativity premise pruning can change a verdict: a future
      entry makes a long-silent player look cooled down after pruning. */
  lemma PruneNeedsNonNegativeTimes()
    ensures var cooldowns := map["p" := -6000];
            && !IsOnCooldown(cooldowns, "p", 0)
            && IsOnCooldown(Pruned(cooldowns, 0), "p", 0)
  {
    var cooldowns := map["p" := -6000];
    assert "p" !in Pruned(cooldowns, 0);
  }

  // ---------------------------------------------------------------- guards

  /** The guard chain of `sellAllItems`, checked in the source's order. */
  function SaleGuard(shopsLoaded: bool, pending: bool, coolingDown: bool, locked: bool): (r: Option<Rejection>)
    ensures r.None? <==> shopsLoaded && !pending && !coolingDown && !locked
    ensures r == Some(ShopsNotLoaded) <==> !shopsLoaded
    ensures r == Some(SaleInProgress) <==> shopsLoaded && pending
    ensures r == Some(CoolingDown) <==> shopsLoaded && !pending && coolingDown
    ensures r == Some(SpawnerLocked) <==> shopsLoaded && !pending && !coolingDown && locked
  {
    if !shopsLoaded then Some(ShopsNotLoaded)
    else if pending then Some(SaleInProgress)
    else if coolingDown then Some(CoolingDown)
    else if locked then Some(SpawnerLocked)
    else None
  }

  /** The message a rejection sends; a disabled shop sends none. */
  function RejectionMessages(player: PlayerId, r: Rejection): seq<Message> {
    match r
    case ShopsNotLoaded => []
    case SaleInProgress => [Message(player, "messages.transaction-in-progress")]
    case CoolingDown => [Message(player, "messages.sell-cooldown")]
    case SpawnerLocked => [Message(player, "messages.transaction-in-progress")]
  }

  // ---------------------------------------------------------------- the sale

  /** The iteration order of a consolidated inventory: each stored signature once. */
  ghost predicate KeyOrder(order: seq<ItemSignature>, items: Stock) {
    && (forall i | 0 <= i < |order| :: order[i] in items)
    && (forall sig | sig in items :: sig in order)
    && (forall i, j | 0 <= i < j < |order| :: order[i] != order[j])
  }

  /** The entries the pricing loop sees, in iteration order. */
  function EntriesOf(items: Stock, order: seq<ItemSignature>): (entries: seq<Entry>)
    requires forall i | 0 <= i < |order| :: order[i] in items
    ensures |entries| == |order|
    ensures forall i | 0 <= i < |order| :: entries[i] == (order[i], items[order[i]] as int)
  {
    if order == [] then [] else [(order[0], items[order[0]] as int)] + EntriesOf(items, order[1..])
  }

  lemma EntriesEnumerate(items: Stock, order: seq<ItemSignature>)
    requires KeyOrder(order, items)
    ensures Enumerates(EntriesOf(items, order), items)
  {
    var entries := EntriesOf(items, order);
    forall sig | sig in items ensures exists i :: 0 <= i < |entries| && entries[i].0 == sig {
      var i :| 0 <= i < |order| && order[i] == sig;
      assert entries[i].0 == sig;
    }
  }

  /** Every currency of the sale has a provider whose deposit goes through. */
  predicate PaysEveryCurrency(api: ShopApi, prices: map<EconomyType, real>) {
    forall t | t in prices :: api.hasProvider(t) && api.depositSucceeds(t)
  }

  /** The deposits for a list of currencies, each paid its net amount. */
  function DepositsFor(player: PlayerId, prices: map<EconomyType, real>, paid: seq<EconomyType>, tax: real): (r: seq<Deposit>)
    requires forall i | 0 <= i < |paid| :: paid[i] in prices
    ensures |r| == |paid|
    ensures forall i | 0 <= i < |paid| :: r[i] == Deposit(player, paid[i], CalculateNetAmount(prices[paid[i]], tax))
  {
    if paid == [] then []
    else DepositsFor(player, prices, paid[..|paid| - 1], tax)
           + [Deposit(player, paid[|paid| - 1], CalculateNetAmount(prices[paid[|paid| - 1]], tax))]
  }

  lemma DepositsForAppend(player: PlayerId, prices: map<EconomyType, real>, paid: seq<EconomyType>,
                          t: EconomyType, tax: real, earlier: seq<Deposit>)
    requires forall i | 0 <= i < |paid| :: paid[i] in prices
    requires t in prices
    ensures earlier + DepositsFor(player, prices, paid + [t], tax)
              == earlier + DepositsFor(player, prices, paid, tax) + [Deposit(player, t, CalculateNetAmount(prices[t], tax))]
  {
    assert (paid + [t])[..|paid|] == paid;
    var before := DepositsFor(player, prices, paid, tax);
    var d := Deposit(player, t, CalculateNetAmount(prices[t], tax));
    assert earlier + (before + [d]) == earlier + before + [d];
  }

  /** The payment loop's state: `paid` lists, without repeats, the currencies
      paid so far, all of which went through, and exactly those outside `todo`. */
  ghost predicate PayProgress(api: ShopApi, prices: map<EconomyType, real>, todo: set<EconomyType>,
                              paid: seq<EconomyType>) {
    && todo <= prices.Keys
    && (forall i | 0 <= i < |paid| ::
          paid[i] in prices && paid[i] !in todo && api.hasProvider(paid[i]) && api.depositSucceeds(paid[i]))
    && (forall t | t in prices && t !in todo :: t in paid)
    && (forall i, j | 0 <= i < j < |paid| :: paid[i] != paid[j])
  }

  lemma PayStep(api: ShopApi, prices: map<EconomyType, real>, todo: set<EconomyType>, paid: seq<EconomyType>,
                t: EconomyType)
    requires PayProgress(api, prices, todo, paid)
    requires t in todo && api.hasProvider(t) && api.depositSucceeds(t)
    ensures PayProgress(api, prices, todo - {t}, paid + [t])
  {
  }

  lemma PayDone(api: ShopApi, prices: map<EconomyType, real>, paid: seq<EconomyType>)
    requires PayProgress(api, prices, {}, paid)
    ensures PaysEveryCurrency(api, prices)
    ensures forall t | t in prices :: t in paid
  {
    forall t | t in prices ensures api.hasProvider(t) && api.depositSucceeds(t) {
      var i :| 0 <= i < |paid| && paid[i] == t;
    }
  }

  /** Whether `processSaleAsync` reports success, in terms of its inputs. */
  ghost predicate SaleSucceeds(api: ShopApi, player: PlayerId, items: Stock, order: seq<ItemSignature>,
                               payment: PaymentOutcome)
    requires forall i | 0 <= i < |order| :: order[i] in items
  {
    var sale := SaleOf(api, player, EntriesOf(items, order));
    items != map[] && sale.valid && payment == Answered && PaysEveryCurrency(api, sale.pricesByEconomy)
  }

  /** A record of the currencies a payment went through, in order: each priced,
      with a provider and a deposit that went through, none twice. */
  ghost predicate PaidRecord(api: ShopApi, prices: map<EconomyType, real>, paid: seq<EconomyType>) {
    && (forall i | 0 <= i < |paid| :: paid[i] in prices && api.hasProvider(paid[i]) && api.depositSucceeds(paid[i]))
    && (forall i, j | 0 <= i < j < |paid| :: paid[i] != paid[j])
  }

  /** The one message `processSaleAsync` sends: for an empty snapshot, for a
      snapshot with nothing sellable, for a completed sale (naming the tax when
      there is one), or for a sale whose payment failed. */
  function SaleMessage(player: PlayerId, items: Stock, sale: SaleCalculation, tax: real, success: bool): Message {
    if items == map[] then Message(player, "messages.no-items")
    else if !sale.valid then Message(player, "messages.no-sellable-items")
    else if success then Message(player, if tax > 0.0 then "messages.sell-all-tax" else "messages.sell-all")
    else Message(player, "messages.sell-failed")
  }

  class ShopGuiPlus {
    var sellCooldowns: map<PlayerId, int>
    var pendingSales: set<PlayerId>
    ghost var messages: seq<Message>
    ghost var deposits: seq<Deposit>

    constructor ()
      ensures sellCooldowns == map[] && pendingSales == {} && messages == [] && deposits == []
    {
      sellCooldowns, pendingSales := map[], {};
      messages, deposits := [], [];
    }

    /** `updateCooldown` */
    method UpdateCooldown(player: PlayerId, now: int)
      modifies this`sellCooldowns
      ensures sellCooldowns == old(sellCooldowns)[player := now]
    {
      sellCooldowns := sellCooldowns[player := now];
    }

    /** `clearOldCooldowns`: removes exactly the entries older than the retention time. */
    method ClearOldCooldowns(now: int)
      modifies this`sellCooldowns
      ensures sellCooldowns == Pruned(old(sellCooldowns), now)
    {
      var todo := sellCooldowns.Keys;
      while todo != {}
        invariant todo <= old(sellCooldowns).Keys
        invariant forall p | p in old(sellCooldowns) && p !in todo ::
                    (p in sellCooldowns <==> p in Pruned(old(sellCooldowns), now))
        invariant forall p | p in todo :: p in sellCooldowns
        invariant forall p | p in sellCooldowns :: p in old(sellCooldowns) && sellCooldowns[p] == old(sellCooldowns)[p]
        decreases |todo|
      {
        var p :| p in todo;
        todo := todo - {p};
        if now - sellCooldowns[p] > COOLDOWN_RETENTION_MS {
          sellCooldowns := sellCooldowns - {p};
        }
      }
    }

    /** The completion callback: clear the pending marker, release the lock and
        start the cooldown at the completion time, whatever the sale's outcome. */
    method CompleteSale(player: PlayerId, spawner: SpawnerData, doneAt: int)
      modifies this`pendingSales, this`sellCooldowns, spawner`locked
      ensures pendingSales == old(pendingSales) - {player}
      ensures !spawner.locked
      ensures sellCooldowns == old(sellCooldowns)[player := doneAt]
    {
      pendingSales := pendingSales - {player};
      spawner.locked := false;
      UpdateCooldown(player, doneAt);
    }

    /** `processTransactions`: pays each currency its net amount, visiting the
        currencies in the map's iteration order, and gives up at the first one
        without a provider or whose deposit throws; deposits already made stay.
        `paid` lists the currencies paid, in order. */
    method ProcessTransactions(api: ShopApi, player: PlayerId, prices: map<EconomyType, real>, tax: real)
      returns (ok: bool, ghost paid: seq<EconomyType>)
      modifies this`deposits
      ensures PaidRecord(api, prices, paid)
      ensures deposits == old(deposits) + DepositsFor(player, prices, paid, tax)
      ensures ok <==> PaysEveryCurrency(api, prices)
      ensures ok ==> forall t | t in prices :: t in paid
    {
      var todo := prices.Keys;
      paid := [];
      while todo != {}
        invariant PayProgress(api, prices, todo, paid)
        invariant deposits == old(deposits) + DepositsFor(player, prices, paid, tax)
        decreases |todo|
      {
        var economyType :| economyType in todo;
        var finalPrice := CalculateNetAmount(prices[economyType], tax);
        if !api.hasProvider(economyType) || !api.depositSucceeds(economyType) {
          assert !PaysEveryCurrency(api, prices);
          return false, paid;
        }
        DepositsForAppend(player, prices, paid, economyType, tax, old(deposits));
        deposits := deposits + [Deposit(player, economyType, finalPrice)];
        PayStep(api, prices, todo, paid, economyType);
        paid := paid + [economyType];
        todo := todo - {economyType};
      }
      PayDone(api, prices, paid);
      ok := true;
    }

    /** `processSaleAsync` as a sequential flow: take the snapshot, price it,
        remove the priced items, pay; on a failed or unanswered payment put the
        removed items back. `paid` lists the currencies deposited, in order; a
        refused payment keeps the deposits made before it. */
    method ProcessSaleAsync(api: ShopApi, player: PlayerId, spawner: SpawnerData, order: seq<ItemSignature>,
                            tax: real, payment: PaymentOutcome) returns (success: bool, ghost paid: seq<EconomyType>)
      requires spawner.virtualInventory.Valid()
      requires KeyOrder(order, spawner.virtualInventory.items)
      modifies this`messages, this`deposits, spawner.virtualInventory
      ensures spawner.virtualInventory.Valid()
      ensures success == SaleSucceeds(api, player, old(spawner.virtualInventory.items), order, payment)
      ensures !success ==> spawner.virtualInventory.items == old(spawner.virtualInventory.items)
      ensures success ==>
                var sale := SaleOf(api, player, EntriesOf(old(spawner.virtualInventory.items), order));
                && spawner.virtualInventory.items == RemoveAll(old(spawner.virtualInventory.items), sale.itemsToRemove)
                && messages == old(messages)
                     + [Message(player, if tax > 0.0 then "messages.sell-all-tax" else "messages.sell-all")]
      ensures old(spawner.virtualInventory.items) == map[] ==>
                messages == old(messages) + [Message(player, "messages.no-items")] && deposits == old(deposits)
      ensures payment == TimedOut ==> deposits == old(deposits)
      ensures var sale := SaleOf(api, player, EntriesOf(old(spawner.virtualInventory.items), order));
              && PaidRecord(api, sale.pricesByEconomy, paid)
              && deposits == old(deposits) + DepositsFor(player, sale.pricesByEconomy, paid, tax)
              && (success ==> forall t | t in sale.pricesByEconomy :: t in paid)
              && (old(spawner.virtualInventory.items) == map[] || !sale.valid || payment == TimedOut ==> paid == [])
              && messages == old(messages) + [SaleMessage(player, old(spawner.virtualInventory.items), sale, tax, success)]
    {
      var virtualInv := spawner.virtualInventory;
      var items := virtualInv.GetConsolidatedItems();
      if items == map[] {
        messages := messages + [Message(player, "messages.no-items")];
        assert DepositsFor(player, NoSale.pricesByEconomy, [], tax) == [];
        return false, [];
      }
      var entries := EntriesOf(items, order);
      var sale := CalculateSalePrices(api, player, entries);
      if !sale.valid {
        messages := messages + [Message(player, "messages.no-sellable-items")];
        assert DepositsFor(player, sale.pricesByEconomy, [], tax) == [];
        return false, [];
      }
      EntriesEnumerate(items, order);
      forall sig ensures Qty(sale.itemsToRemove, sig) <= Count(items, sig) {
        SaleRemovesFromStock(api, player, entries, items, sig);
      }
      RemoveThenAddRestores(items, sale.itemsToRemove);
      virtualInv.RemoveItems(sale.itemsToRemove);
      if payment == TimedOut {
        virtualInv.AddItems(sale.itemsToRemove);
        messages := messages + [Message(player, "messages.sell-failed")];
        assert DepositsFor(player, sale.pricesByEconomy, [], tax) == [];
        return false, [];
      }
      var paidAll;
      paidAll, paid := ProcessTransactions(api, player, sale.pricesByEconomy, tax);
      if !paidAll {
        virtualInv.AddItems(sale.itemsToRemove);
        messages := messages + [Message(player, "messages.sell-failed")];
        return false, paid;
      }
      messages := messages + [Message(player, if tax > 0.0 then "messages.sell-all-tax" else "messages.sell-all")];
      success := true;
    }

    /** `sellAllItems`: the guard chain, then the sale under the spawner's lock and
        a pending marker, then the completion bookkeeping at time `doneAt`. The
        answer is the sale's result when it finished within the short wait, and
        true (keep the menu open) when it did not. `paid` lists the currencies
        deposited, in order. */
    method SellAllItems(api: ShopApi, player: PlayerId, spawner: SpawnerData, now: int,
                        order: seq<ItemSignature>, tax: real, payment: PaymentOutcome,
                        finishedWithinWait: bool, doneAt: int) returns (result: bool, ghost paid: seq<EconomyType>)
      requires spawner.virtualInventory.Valid()
      requires KeyOrder(order, spawner.virtualInventory.items)
      modifies this, spawner`locked, spawner.virtualInventory
      ensures spawner.virtualInventory.Valid()
      ensures var rejection := SaleGuard(api.shopsLoaded, player in old(pendingSales),
                                         IsOnCooldown(old(sellCooldowns), player, now), old(spawner.locked));
              rejection.Some? ==>
                && !result
                && sellCooldowns == old(sellCooldowns) && pendingSales == old(pendingSales)
                && spawner.locked == old(spawner.locked)
                && spawner.virtualInventory.items == old(spawner.virtualInventory.items)
                && messages == old(messages) + RejectionMessages(player, rejection.value)
                && deposits == old(deposits)
      ensures var rejection := SaleGuard(api.shopsLoaded, player in old(pendingSales),
                                         IsOnCooldown(old(sellCooldowns), player, now), old(spawner.locked));
              rejection.None? ==>
                var succeeded := SaleSucceeds(api, player, old(spawner.virtualInventory.items), order, payment);
                && (result <==> !finishedWithinWait || succeeded)
                && pendingSales == old(pendingSales)
                && !spawner.locked
                && sellCooldowns == old(sellCooldowns)[player := doneAt]
                && (!succeeded ==> spawner.virtualInventory.items == old(spawner.virtualInventory.items))
      ensures var rejection := SaleGuard(api.shopsLoaded, player in old(pendingSales),
                                         IsOnCooldown(old(sellCooldowns), player, now), old(spawner.locked));
              rejection.None? ==>
                var items0 := old(spawner.virtualInventory.items);
                var sale := SaleOf(api, player, EntriesOf(items0, order));
                var succeeded := SaleSucceeds(api, player, items0, order, payment);
                && PaidRecord(api, sale.pricesByEconomy, paid)
                && deposits == old(deposits) + DepositsFor(player, sale.pricesByEconomy, paid, tax)
                && messages == old(messages) + [SaleMessage(player, items0, sale, tax, succeeded)]
                && (succeeded ==>
                      && spawner.virtualInventory.items == RemoveAll(items0, sale.itemsToRemove)
                      && forall t | t in sale.pricesByEconomy :: t in paid)
    {
      if !api.shopsLoaded {
        return false, [];
      }
      if player in pendingSales {
        messages := messages + [Message(player, "messages.transaction-in-progress")];
        return false, [];
      }
      if IsOnCooldown(sellCooldowns, player, now) {
        messages := messages + [Message(player, "messages.sell-cooldown")];
        return false, [];
      }
      if spawner.locked {
        messages := messages + [Message(player, "messages.transaction-in-progress")];
        return false, [];
      }
      spawner.locked := true;
      pendingSales := pendingSales + {player};
      var success;
      success, paid := ProcessSaleAsync(api, player, spawner, order, tax, payment);
      CompleteSale(player, spawner, doneAt);
      result := if finishedWithinWait then success else true;
    }
  }
}

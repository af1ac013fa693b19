# SmartSpawner core, modelled in Dafny

SmartSpawner is a Minecraft server plugin that turns mob spawners into stackable
machines: each holds a virtual inventory of loot, produces loot only while a
player is near, and can sell its stock through a shop plugin. This project
models five parts of it and proves properties of the model:

- **The spawner registry** (`spawner_manager.dfy`, module `SpawnerRegistry`).
  It keeps three hash indexes over the same spawner objects: by id, by block
  location and by world name. The registry does not keep them in agreement by
  itself. `Consistent` states the agreement the design needs, and each operation
  says when it keeps that agreement and when it does not: `addSpawner` overwrites
  without checks, and `cleanupAllSpawners` leaves the world index stale. When a
  spawner has no world, `loadSpawnerData` stops with a NullPointerException:
  the location key built at line 201 of SpawnerManager.java reads the world's
  name (line 48) before lines 203-208 test the world for null. The model
  returns false at that point, so the null test never sees a null world.
- **The activity scheduler** (`spawner_range_checker.dfy`, module `RangeChecker`).
  Once a second it checks each spawner: it scans the loaded chunks around it for
  a player in range, flips the spawner's stop flag when the answer changed, and
  starts or cancels the spawner's recurring loot task. The scheduler's task
  handles are numbers, and a ghost set records which handles are still live.
- **The explosion handler** (`spawner_explosion_listener.dfy`, module
  `ExplosionListener`).
  - With griefing off, registered spawner blocks are taken out of the
    explosion's block list, and their open menus are closed.
  - With griefing on, each such spawner is unregistered and its task is stopped.
- **The shop sale** (`shop_pricing.dfy`, module `SalePricing`, and
  `shop_gui_plus.dfy`, module `ShopGuiPlus`).
  - *Pricing:* which stored items are sold, what they fetch per currency, the
    tax deduction, and which currency pays for each item.
  - *The sale flow:* the sell cooldown, the pending-sale marker and the
    spawner lock. The sold items are removed before payment, each currency is
    paid in turn, and on a failed or unanswered payment the items are put back.
  - *Support modules:* the spawner's virtual inventory, in so far as the sale
    uses it (`virtual_inventory.dfy`, module `Inventory`), and the spawner
    object itself (`spawner_data.dfy`, module `Spawners`).
- **The language manager** (`language_manager.dfy`, module `Languages`, and
  `message_cache.dfy`, module `LruCache`).
  - *Loading:* each language file is merged with the default messages, then a
    language is chosen: the configured one, else English, else a new English
    file.
  - *Lookup:* current language, then English, then "Message not found",
    followed by placeholder replacement and the prefix.
  - *Other answers:* mob names, message types and number tiers.
  - *The cache:* every answer goes through a 100-entry LRU cache, an
    access-ordered `LinkedHashMap`. The model keys that cache by the request
    itself. With those keys, every cached value is the answer its request
    would get without the cache (the console-text methods, which share the source's keys, are
    left out).

The helper modules are:
- `JavaInt` (`java_int.dfy`): 32-bit `int` wrap-around.
- `JavaString` (`java_string.dfy`): `String.replace` and `toUpperCase`.
- `Wrappers` (`wrappers.dfy`): an `Option` type that stands for a Java reference that may be null.

Other conventions:
- A lookup that would throw a NullPointerException in Java answers `None`.
- Everything the plugin asks of the server, the shop plugin or the clock is an input: loaded chunks, entities in range, sell prices, economy providers, deposit outcomes, the current time, and, where a result depends on it, the iteration order of a hash map.
- What the plugin does to the world that the model does not carry out is recorded in ghost logs: file saves, menu refreshes, menu closes, messages and deposits.

All source paths below are relative to the repository root.

## Model

| member | source | states |
|---|---|---|
| JavaInt.Wrap32 | src/main/java/me/nighter/smartSpawner/listeners/SpawnerRangeChecker.java:52 | Java `int` arithmetic gives the unique 32-bit value congruent to the exact result modulo 2^32; a value that already fits is unchanged |
| JavaInt.Wrap32Add | src/main/java/me/nighter/smartSpawner/hooks/shops/api/shopguiplus/ShopGuiPlus.java:306 | wrapping after every `+=` gives the same value as wrapping the exact sum once |
| JavaString.ToUpperCase | src/main/java/me/nighter/smartSpawner/hooks/shops/api/shopguiplus/ShopGuiPlus.java:325 | same length, and every character is the upper-case form of the input character at that position |
| JavaString.ToUpperCaseIdempotent | src/main/java/me/nighter/smartSpawner/managers/LanguageManager.java:757 | upper-casing twice is the same as upper-casing once |
| JavaString.Replace | src/main/java/me/nighter/smartSpawner/managers/LanguageManager.java:517 | `String.replace` introduces no character that is in neither the string nor the replacement |
| JavaString.InsertEverywhere | src/main/java/me/nighter/smartSpawner/managers/LanguageManager.java:517 | `replace` with an empty target puts the replacement at each of the \|s\|+1 positions, so the length grows by (\|s\|+1)·\|replacement\| |
| JavaString.ReplaceAbsent | src/main/java/me/nighter/smartSpawner/managers/LanguageManager.java:517 | a placeholder that does not occur leaves the message unchanged |
| JavaString.ReplaceSelf | src/main/java/me/nighter/smartSpawner/managers/LanguageManager.java:517 | replacing a placeholder by itself leaves the message unchanged, even for the empty placeholder |
| JavaString.ReplaceKeepsLength | src/main/java/me/nighter/smartSpawner/managers/LanguageManager.java:541 | a replacement as long as its non-empty target keeps the message's length |
| Inventory.CountAddAll | src/main/java/me/nighter/smartSpawner/hooks/shops/api/shopguiplus/ShopGuiPlus.java:175 | adding a list of stacks raises each signature's count by exactly that signature's amount in the list |
| Inventory.AddAll | src/main/java/me/nighter/smartSpawner/hooks/shops/api/shopguiplus/ShopGuiPlus.java:175 | `addItems` keeps every stored signature and never lowers its count |
| Inventory.RemoveOne | src/main/java/me/nighter/smartSpawner/hooks/shops/api/shopguiplus/ShopGuiPlus.java:149 | removing a stack lowers its signature's count by the amount, to no less than zero (dropping the slot), adds no signature and leaves the others alone |
| Inventory.CountRemoveAll | src/main/java/me/nighter/smartSpawner/hooks/shops/api/shopguiplus/ShopGuiPlus.java:149 | removing a list lowers each count by the list's amount of that signature, and never below zero |
| Inventory.AddAllNormal | src/main/java/me/nighter/smartSpawner/hooks/shops/api/shopguiplus/ShopGuiPlus.java:175 | adding keeps every stored count positive |
| Inventory.RemoveAllNormal | src/main/java/me/nighter/smartSpawner/hooks/shops/api/shopguiplus/ShopGuiPlus.java:149 | removing keeps every stored count positive; an emptied signature disappears |
| Inventory.RemoveThenAddRestores | src/main/java/me/nighter/smartSpawner/hooks/shops/api/shopguiplus/ShopGuiPlus.java:172-178 | when a removal asked for no more of any signature than was stored, re-adding the removed list gives back exactly the original stock |
| Inventory.VirtualInventory.GetConsolidatedItems | src/main/java/me/nighter/smartSpawner/hooks/shops/api/shopguiplus/ShopGuiPlus.java:131 | the snapshot is the stored stock, and every count in it is positive |
| Inventory.VirtualInventory.AddItems | src/main/java/me/nighter/smartSpawner/hooks/shops/api/shopguiplus/ShopGuiPlus.java:175 | the new stock is the old stock with the list added, and the inventory stays valid |
| Inventory.VirtualInventory.RemoveItems | src/main/java/me/nighter/smartSpawner/hooks/shops/api/shopguiplus/ShopGuiPlus.java:149 | the new stock is the old stock with the list removed, and the inventory stays valid |
| SpawnerRegistry.KeyOfStructural | src/main/java/me/nighter/smartSpawner/spawner/properties/SpawnerManager.java:54-68 | two locations get the same location key exactly when world name, x, y and z all agree |
| SpawnerRegistry.KeyOf | src/main/java/me/nighter/smartSpawner/spawner/properties/SpawnerManager.java:47-52 | the key needs a world (the constructor reads its name) and keeps the world name and block coordinates |
| SpawnerRegistry.WorldAdd | src/main/java/me/nighter/smartSpawner/spawner/properties/SpawnerManager.java:83 | `computeIfAbsent(...).add`: the world gains an entry holding the spawner, and every other world's set is unchanged |
| SpawnerRegistry.WorldRemoveFacts | src/main/java/me/nighter/smartSpawner/spawner/properties/SpawnerManager.java:101-108 | only the spawner's world changes; that world keeps its entry exactly while its set still has a member |
| SpawnerRegistry.WorldRemove | src/main/java/me/nighter/smartSpawner/spawner/properties/SpawnerManager.java:101-108 | no world is added, the spawner is no longer in its world's set, and the world's entry is dropped rather than left empty |
| SpawnerRegistry.SumStacksRemove | src/main/java/me/nighter/smartSpawner/spawner/properties/SpawnerManager.java:136-138 | the stack sum over a set does not depend on the order in which members are taken |
| SpawnerRegistry.AddKeepsIdsAndLocations | src/main/java/me/nighter/smartSpawner/spawner/properties/SpawnerManager.java:78-79 | adding under a fresh id at a free block keeps the id and location indexes in agreement |
| SpawnerRegistry.AddKeepsWorlds | src/main/java/me/nighter/smartSpawner/spawner/properties/SpawnerManager.java:82-83 | adding under a fresh id keeps the world index in agreement with the id index |
| SpawnerRegistry.AddKeepsConsistent | src/main/java/me/nighter/smartSpawner/spawner/properties/SpawnerManager.java:77-87 | an addition under a fresh id at a free block keeps all three indexes in agreement |
| SpawnerRegistry.AddOverwriteBreaksConsistency | src/main/java/me/nighter/smartSpawner/spawner/properties/SpawnerManager.java:77-79 | re-adding a stored id whose spawner stands at another block always breaks agreement, because the old location slot is left behind |
| SpawnerRegistry.RemoveKeepsIdsAndLocations | src/main/java/me/nighter/smartSpawner/spawner/properties/SpawnerManager.java:95-110 | dropping the id slot and the spawner's location slot keeps those two indexes in agreement |
| SpawnerRegistry.RemoveKeepsWorlds | src/main/java/me/nighter/smartSpawner/spawner/properties/SpawnerManager.java:101-108 | dropping the spawner from its world set (and an emptied world) keeps the world index in agreement |
| SpawnerRegistry.RemoveKeepsConsistent | src/main/java/me/nighter/smartSpawner/spawner/properties/SpawnerManager.java:94-113 | removing a stored spawner from all three indexes keeps them in agreement |
| SpawnerRegistry.WorldIndexIsGrouping | src/main/java/me/nighter/smartSpawner/spawner/properties/SpawnerManager.java:121-124 | under agreement, a world's set is exactly the stored spawners of that world, and an absent world has none |
| SpawnerRegistry.GroupingAgrees | src/main/java/me/nighter/smartSpawner/spawner/properties/SpawnerManager.java:144-150 | grouping the stored spawners by world gives a world index that agrees with the id index |
| SpawnerRegistry.GroupAddOne | src/main/java/me/nighter/smartSpawner/spawner/properties/SpawnerManager.java:146-149 | grouping one more spawner is one `computeIfAbsent(...).add` on the previous grouping |
| SpawnerRegistry.CleanupLeavesWorldIndexStale | src/main/java/me/nighter/smartSpawner/spawner/properties/SpawnerManager.java:272-278 | empty id and location indexes never agree with a non-empty world index |
| SpawnerRegistry.FirstWithoutWorld | src/main/java/me/nighter/smartSpawner/spawner/properties/SpawnerManager.java:196-209 | the load's stopping point: every earlier entry has a world, and the entry at that point has none |
| SpawnerRegistry.LoadStep | src/main/java/me/nighter/smartSpawner/spawner/properties/SpawnerManager.java:201-205 | a loop step throws exactly at the first entry without a world; otherwise the prefix grown by the entry still has worlds only |
| SpawnerRegistry.LoadedIndexesAgree | src/main/java/me/nighter/smartSpawner/spawner/properties/SpawnerManager.java:185-209 | loading entries with distinct ids at distinct blocks, each stored under its own id, gives three agreeing indexes |
| SpawnerRegistry.ListDone | src/main/java/me/nighter/smartSpawner/spawner/properties/SpawnerManager.java:177-179 | the copied list has one element per id and holds exactly the stored spawners |
| SpawnerRegistry.ListDistinct | src/main/java/me/nighter/smartSpawner/spawner/properties/SpawnerManager.java:177-179 | under agreeing indexes that list repeats no spawner |
| SpawnerRegistry.SpawnerManager.AddSpawner | src/main/java/me/nighter/smartSpawner/spawner/properties/SpawnerManager.java:77-87 | overwrites the id slot, the location slot and the world set, and queues the id for saving; agreement is kept when the id is fresh and the block is free |
| SpawnerRegistry.SpawnerManager.RemoveSpawner | src/main/java/me/nighter/smartSpawner/spawner/properties/SpawnerManager.java:94-113 | removes a stored spawner from all three indexes; an absent id leaves them alone; the file delete is issued either way; agreement is kept |
| SpawnerRegistry.SpawnerManager.CountSpawnersInWorld | src/main/java/me/nighter/smartSpawner/spawner/properties/SpawnerManager.java:121-124 | the size of the world's set, 0 when the world is absent; under agreement, the number of stored spawners in that world |
| SpawnerRegistry.SpawnerManager.CountTotalSpawnersWithStacks | src/main/java/me/nighter/smartSpawner/spawner/properties/SpawnerManager.java:132-139 | the sum of stack sizes of the world's set, 0 when absent; under agreement, the sum over the stored spawners in that world |
| SpawnerRegistry.SpawnerManager.ReindexWorlds | src/main/java/me/nighter/smartSpawner/spawner/properties/SpawnerManager.java:144-150 | the world index becomes the grouping of the stored spawners by world, which restores full agreement when ids and locations agree |
| SpawnerRegistry.SpawnerManager.GroupWorlds | src/main/java/me/nighter/smartSpawner/spawner/properties/SpawnerManager.java:145-149 | the rebuild loop yields the grouping of the spawners by world, whatever order they are visited in |
| SpawnerRegistry.SpawnerManager.GetSpawnerByLocation | src/main/java/me/nighter/smartSpawner/spawner/properties/SpawnerManager.java:158-160 | finds the slot of the location's key, or nothing; under agreement the result is stored under its id and stands at that very block |
| SpawnerRegistry.SpawnerManager.GetSpawnerById | src/main/java/me/nighter/smartSpawner/spawner/properties/SpawnerManager.java:168-170 | the id's slot, or nothing; under agreement the result carries that id |
| SpawnerRegistry.SpawnerManager.GetAllSpawners | src/main/java/me/nighter/smartSpawner/spawner/properties/SpawnerManager.java:177-179 | a list as long as the id index, holding exactly the stored spawners, with no repeats under agreement |
| SpawnerRegistry.SpawnerManager.LoadSpawnerData | src/main/java/me/nighter/smartSpawner/spawner/properties/SpawnerManager.java:185-209 | indexes rebuilt from the loaded entries up to the first entry without a world; that entry throws after its id slot is written; a well-formed load succeeds with agreeing indexes |
| SpawnerRegistry.SpawnerManager.CleanupAllSpawners | src/main/java/me/nighter/smartSpawner/spawner/properties/SpawnerManager.java:272-278 | empties the id and location indexes and keeps the world index, so agreement holds exactly when the world index was empty |
| RangeChecker.ChunkCoord | src/main/java/me/nighter/smartSpawner/listeners/SpawnerRangeChecker.java:62-63 | `b >> 4` is the chunk containing block b, negative coordinates included: 16c ≤ b < 16c+16 |
| RangeChecker.ChunkRadius | src/main/java/me/nighter/smartSpawner/listeners/SpawnerRangeChecker.java:58 | `(range >> 4) + 1` chunks cover the range with one chunk to spare: 16(r−1) ≤ range < 16r |
| RangeChecker.RangeSquared | src/main/java/me/nighter/smartSpawner/listeners/SpawnerRangeChecker.java:52 | the intended squared range, never negative |
| RangeChecker.RangeSquaredAsWritten | src/main/java/me/nighter/smartSpawner/listeners/SpawnerRangeChecker.java:52 | the source's `range * range`: an `int`, congruent to the exact square modulo 2^32 |
| RangeChecker.RangeSquaredAgreesBelowOverflow | src/main/java/me/nighter/smartSpawner/listeners/SpawnerRangeChecker.java:52 | for ranges 0..46340 the source's `int` square equals the exact square |
| RangeChecker.RangeOverflowMissesPlayer | src/main/java/me/nighter/smartSpawner/listeners/SpawnerRangeChecker.java:52 | with range 46341 the source's square is negative, so a player standing on the spawner is not found, while the intended check finds them |
| RangeChecker.ScanForPlayer | src/main/java/me/nighter/smartSpawner/listeners/SpawnerRangeChecker.java:53-84 | finds a player exactly when some chunk of the grid around the spawner is loaded and the nearby-entities query holds a player within range |
| RangeChecker.TasksRemove | src/main/java/me/nighter/smartSpawner/listeners/SpawnerRangeChecker.java:119-124 | removing an id's task and cancelling its handle keeps the live handles equal to those in the task map |
| RangeChecker.TasksAdd | src/main/java/me/nighter/smartSpawner/listeners/SpawnerRangeChecker.java:110-116 | storing a newly issued task under a free id keeps the live handles equal to those in the task map |
| RangeChecker.SpawnerRangeChecker.StopSpawnerTask | src/main/java/me/nighter/smartSpawner/listeners/SpawnerRangeChecker.java:119-124 | removes the id's entry and cancels exactly its handle; no entry means no change, so a second call is a no-op; it restores the checker's invariant for a spawner already marked stopped |
| RangeChecker.SpawnerRangeChecker.StartSpawnerTask | src/main/java/me/nighter/smartSpawner/listeners/SpawnerRangeChecker.java:104-117 | cancels the id's old task, stores a new live task for this spawner with initial-delay argument 0 and the spawner's delay as period, and sets the next loot time to now + delay; no task is orphaned |
| RangeChecker.SpawnerRangeChecker.GetPlayersInRange | src/main/java/me/nighter/smartSpawner/listeners/SpawnerRangeChecker.java:126-128 | always the empty set: the map is created empty (line 31), cleared (line 134) and never written |
| RangeChecker.SpawnerRangeChecker.RunTask | src/main/java/me/nighter/smartSpawner/listeners/SpawnerRangeChecker.java:110-113 | a task still scheduled always produces loot, because stopping a spawner cancels its task (lines 88-99, 119-124) |
| RangeChecker.SpawnerRangeChecker.Cleanup | src/main/java/me/nighter/smartSpawner/listeners/SpawnerRangeChecker.java:130-135 | every task is cancelled and both maps are emptied |
| RangeChecker.SpawnerRangeChecker.UpdateSpawnerStatus | src/main/java/me/nighter/smartSpawner/listeners/SpawnerRangeChecker.java:45-102 | a spawner without a world is left alone; otherwise the stop flag becomes "no player found"; when the flag changes, one GUI refresh is requested and the task is started (the id's entry replaced by a fresh live task for this spawner with initial-delay argument 0 and the spawner's delay as period, only the old handle cancelled, other ids untouched) or stopped (the id's entry and its handle removed); when it does not change, nothing else changes; a spawner with a world and no player found is served by no task afterwards |
| RangeChecker.SpawnerRangeChecker.RangeCheckTick | src/main/java/me/nighter/smartSpawner/listeners/SpawnerRangeChecker.java:37-43 | after one tick, every registered spawner in a loaded world has its stop flag equal to "no player in range", and no task is orphaned |
| ExplosionListener.BlockLocation | src/main/java/me/nighter/smartSpawner/spawner/interactions/destroy/SpawnerExplosionListener.java:33 | a block's location has the block's world and coordinates |
| ExplosionListener.Unprotected | src/main/java/me/nighter/smartSpawner/spawner/interactions/destroy/SpawnerExplosionListener.java:31-55 | a block stays in the explosion exactly when it is not a registered spawner block |
| ExplosionListener.RemoveAll | src/main/java/me/nighter/smartSpawner/spawner/interactions/destroy/SpawnerExplosionListener.java:55 | `removeAll` keeps exactly the blocks that are not in the collected list |
| ExplosionListener.RemoveAllProtected | src/main/java/me/nighter/smartSpawner/spawner/interactions/destroy/SpawnerExplosionListener.java:29-55 | removing the collected registered spawner blocks gives exactly the unprotected list |
| ExplosionListener.RemoveAllNothing | src/main/java/me/nighter/smartSpawner/spawner/interactions/destroy/SpawnerExplosionListener.java:55 | removing an empty list changes nothing |
| ExplosionListener.ProtectedIds | src/main/java/me/nighter/smartSpawner/spawner/interactions/destroy/SpawnerExplosionListener.java:36-40 | at most one menu close per block of the list |
| ExplosionListener.ExplodedIdsMeaning | src/main/java/me/nighter/smartSpawner/spawner/interactions/destroy/SpawnerExplosionListener.java:41-44 | an id is exploded exactly when some registered spawner block of the list holds it |
| ExplosionListener.ProtectStep | src/main/java/me/nighter/smartSpawner/spawner/interactions/destroy/SpawnerExplosionListener.java:36-40 | one block of the protecting loop extends the collected blocks and the closed menus by that block's spawner, if it has one |
| ExplosionListener.GriefStep | src/main/java/me/nighter/smartSpawner/spawner/interactions/destroy/SpawnerExplosionListener.java:41-44 | one block of the griefing loop removes its spawner and task, so the removed ids stay exactly the exploded ids of the blocks seen so far |
| ExplosionListener.SpawnerExplosionListener.VisitBlock | src/main/java/me/nighter/smartSpawner/spawner/interactions/destroy/SpawnerExplosionListener.java:32-51 | a block is protected exactly when griefing is off and it is a registered spawner block; with griefing on, that spawner is unregistered and its task stopped; other blocks change nothing |
| ExplosionListener.SpawnerExplosionListener.ScanBlocks | src/main/java/me/nighter/smartSpawner/spawner/interactions/destroy/SpawnerExplosionListener.java:31-52 | the block loop: with griefing off, it collects the registered spawner blocks and changes no registry or task state; with griefing on, it collects nothing and removes the spawners and tasks of a subset of the exploded ids |
| ExplosionListener.SpawnerExplosionListener.ProtectBlocks | src/main/java/me/nighter/smartSpawner/spawner/interactions/destroy/SpawnerExplosionListener.java:31-52 | collects exactly the registered spawner blocks and closes their menus in order; registry, files and tasks are unchanged |
| ExplosionListener.SpawnerExplosionListener.GriefBlocks | src/main/java/me/nighter/smartSpawner/spawner/interactions/destroy/SpawnerExplosionListener.java:31-52 | for any registry state, the ids removed were each held by a registered spawner block of the list, and exactly their spawners and tasks are gone; when the indexes agreed, those are all the exploded ids and the indexes still agree |
| ExplosionListener.SpawnerExplosionListener.GriefVisit | src/main/java/me/nighter/smartSpawner/spawner/interactions/destroy/SpawnerExplosionListener.java:32-51 | one block with griefing on carries both loop facts: the removed ids grow by at most this block's registered spawner, and, when the indexes agreed, the progress over the exploded ids |
| ExplosionListener.RemovedStep | src/main/java/me/nighter/smartSpawner/spawner/interactions/destroy/SpawnerExplosionListener.java:41-44 | one griefing step keeps the removed ids within the exploded ids and the location index within the starting one, whatever the registry state |
| ExplosionListener.SpawnerExplosionListener.OnEntityExplosion | src/main/java/me/nighter/smartSpawner/spawner/interactions/destroy/SpawnerExplosionListener.java:28-56 | griefing off: the explosion keeps only unprotected blocks, the protected spawners' menus are closed, registry and tasks are untouched. Griefing on: the block list is untouched, and the spawners and tasks are the old ones minus the exploded ids; for any registry state, the spawners and tasks removed are those of a subset of the exploded ids, and the location index only loses slots |
| SalePricing.GetEconomyType | src/main/java/me/nighter/smartSpawner/hooks/shops/api/shopguiplus/ShopGuiPlus.java:316-334 | the shop's own currency; else the default provider's upper-cased name when it names a currency; else CUSTOM |
| SalePricing.EconomyTypeIsKnown | src/main/java/me/nighter/smartSpawner/hooks/shops/api/shopguiplus/ShopGuiPlus.java:316-334 | the chosen currency is a constant of the enum, or CUSTOM |
| SalePricing.CalculateNetAmount | src/main/java/me/nighter/smartSpawner/hooks/shops/api/shopguiplus/ShopGuiPlus.java:243-248 | no deduction for a non-positive tax; otherwise gross minus gross·tax/100 |
| SalePricing.NetAmountBounds | src/main/java/me/nighter/smartSpawner/hooks/shops/api/shopguiplus/ShopGuiPlus.java:243-248 | for a tax of at most 100 percent, the payout lies between 0 and the gross amount |
| SalePricing.NetAmountMonotone | src/main/java/me/nighter/smartSpawner/hooks/shops/api/shopguiplus/ShopGuiPlus.java:243-248 | a higher tax never pays out more |
| SalePricing.NetAmountNegativeAboveFullTax | src/main/java/me/nighter/smartSpawner/hooks/shops/api/shopguiplus/ShopGuiPlus.java:243-248 | a tax above 100 percent gives a positive sale a negative payout |
| SalePricing.SaleValidIff | src/main/java/me/nighter/smartSpawner/hooks/shops/api/shopguiplus/ShopGuiPlus.java:285-297 | the result is valid exactly when some entry has a positive amount and a positive sell price |
| SalePricing.SaleTotalAmount | src/main/java/me/nighter/smartSpawner/hooks/shops/api/shopguiplus/ShopGuiPlus.java:300-306 | `totalAmount` is the sum of the clamped removed amounts, wrapped to 32 bits |
| SalePricing.SalePricesPerCurrency | src/main/java/me/nighter/smartSpawner/hooks/shops/api/shopguiplus/ShopGuiPlus.java:304-305 | a currency is in the price map exactly when a sold item uses it, and its price is the sum of those items' totals |
| SalePricing.SumValuesRemove | src/main/java/me/nighter/smartSpawner/hooks/shops/api/shopguiplus/ShopGuiPlus.java:369-371 | the sum of a price map does not depend on the order of its entries |
| SalePricing.SumValuesMerge | src/main/java/me/nighter/smartSpawner/hooks/shops/api/shopguiplus/ShopGuiPlus.java:305 | `merge(..., Double::sum)` raises the map's total by exactly the merged price |
| SalePricing.SaleTotalPrice | src/main/java/me/nighter/smartSpawner/hooks/shops/api/shopguiplus/ShopGuiPlus.java:369-371 | `getTotalPrice` is the sum of every sold item's total: grouping by currency loses nothing |
| SalePricing.GetTotalPrice | src/main/java/me/nighter/smartSpawner/hooks/shops/api/shopguiplus/ShopGuiPlus.java:369-371 | zero for a sale with no prices, and never negative when no currency's total is |
| SalePricing.SumValuesNonNegative | src/main/java/me/nighter/smartSpawner/hooks/shops/api/shopguiplus/ShopGuiPlus.java:369-371 | a sum of non-negative currency totals is not negative |
| SalePricing.RemoveAmount | src/main/java/me/nighter/smartSpawner/hooks/shops/api/shopguiplus/ShopGuiPlus.java:300 | `(int) Math.min(amount, Integer.MAX_VALUE)`: never above `Integer.MAX_VALUE`, the amount itself exactly when it fits, and between 0 and the amount for a non-negative amount |
| SalePricing.SaleRemovedQty | src/main/java/me/nighter/smartSpawner/hooks/shops/api/shopguiplus/ShopGuiPlus.java:299-302 | for each signature, the removal list asks for the clamped amounts of that signature's sellable entries |
| SalePricing.SaleRemovesFromStock | src/main/java/me/nighter/smartSpawner/hooks/shops/api/shopguiplus/ShopGuiPlus.java:287-302 | for a snapshot, each signature loses its clamped stored amount when sellable and nothing otherwise, so never more than is stored |
| SalePricing.CalculateSalePrices | src/main/java/me/nighter/smartSpawner/hooks/shops/api/shopguiplus/ShopGuiPlus.java:280-314 | the loop computes the sale defined entry by entry, which the lemmas above characterise |
| ShopGuiPlus.IsOnCooldown | src/main/java/me/nighter/smartSpawner/hooks/shops/api/shopguiplus/ShopGuiPlus.java:50-54 | on cooldown exactly when less than 500 ms have passed since the last sale; a player with no entry counts as having sold at time 0 |
| ShopGuiPlus.PruneKeepsVerdict | src/main/java/me/nighter/smartSpawner/hooks/shops/api/shopguiplus/ShopGuiPlus.java:60-64 | when recorded times are not negative, pruning entries older than 5000 ms never changes a cooldown verdict, now or later |
| ShopGuiPlus.Pruned | src/main/java/me/nighter/smartSpawner/hooks/shops/api/shopguiplus/ShopGuiPlus.java:60-64 | an entry stays exactly when it is at most 5000 ms old, with its time unchanged, and nothing is added |
| ShopGuiPlus.PruneNeedsNonNegativeTimes | src/main/java/me/nighter/smartSpawner/hooks/shops/api/shopguiplus/ShopGuiPlus.java:60-64 | without that premise, pruning can put a player on cooldown |
| ShopGuiPlus.SaleGuard | src/main/java/me/nighter/smartSpawner/hooks/shops/api/shopguiplus/ShopGuiPlus.java:67-90 | the guards in order: shops not loaded, then a pending sale, then the cooldown, then a held lock; a sale starts exactly when none applies |
| ShopGuiPlus.EntriesOf | src/main/java/me/nighter/smartSpawner/hooks/shops/api/shopguiplus/ShopGuiPlus.java:287-289 | the entries the pricing loop sees: each signature in iteration order, with its stored amount |
| ShopGuiPlus.EntriesEnumerate | src/main/java/me/nighter/smartSpawner/hooks/shops/api/shopguiplus/ShopGuiPlus.java:287 | iterating a snapshot lists every stored signature exactly once, with its amount |
| ShopGuiPlus.DepositsFor | src/main/java/me/nighter/smartSpawner/hooks/shops/api/shopguiplus/ShopGuiPlus.java:219-233 | one deposit per paid currency, in order, each of that currency's net amount |
| ShopGuiPlus.PayDone | src/main/java/me/nighter/smartSpawner/hooks/shops/api/shopguiplus/ShopGuiPlus.java:219-240 | once the loop has visited every currency, every currency has a provider whose deposit succeeded |
| ShopGuiPlus.ShopGuiPlus.UpdateCooldown | src/main/java/me/nighter/smartSpawner/hooks/shops/api/shopguiplus/ShopGuiPlus.java:56-58 | the player's last sale time becomes now, and every other entry is unchanged |
| ShopGuiPlus.ShopGuiPlus.ClearOldCooldowns | src/main/java/me/nighter/smartSpawner/hooks/shops/api/shopguiplus/ShopGuiPlus.java:60-64 | removes exactly the entries older than 5000 ms |
| ShopGuiPlus.ShopGuiPlus.CompleteSale | src/main/java/me/nighter/smartSpawner/hooks/shops/api/shopguiplus/ShopGuiPlus.java:100-104 | whatever the outcome: the pending marker is cleared, the lock released, and the cooldown started |
| ShopGuiPlus.ShopGuiPlus.ProcessTransactions | src/main/java/me/nighter/smartSpawner/hooks/shops/api/shopguiplus/ShopGuiPlus.java:216-241 | succeeds exactly when every currency has a provider whose deposit succeeds; the deposits made are the net amounts of the currencies paid before the first failure, none twice |
| ShopGuiPlus.ShopGuiPlus.ProcessSaleAsync | src/main/java/me/nighter/smartSpawner/hooks/shops/api/shopguiplus/ShopGuiPlus.java:129-203 | success exactly when the stock is not empty, something is sellable, the payment answered and every currency paid; then the sold items are gone and every currency got its net amount; on any failure the stock is exactly as before, and a refused payment keeps the deposits made before the refusal; no deposit without a sale or after a timeout; exactly one message, chosen by the outcome |
| ShopGuiPlus.ShopGuiPlus.SellAllItems | src/main/java/me/nighter/smartSpawner/hooks/shops/api/shopguiplus/ShopGuiPlus.java:67-127 | a rejected sale changes nothing but the rejection message; an accepted one ends with the lock free, the marker gone and the cooldown started, with the sale's deposits and message; on success the sold items are gone and every currency was paid; it answers the sale's outcome, or true while the sale is still running |
| LruCache.Find | src/main/java/me/nighter/smartSpawner/managers/LanguageManager.java:380-387 | a key finds nothing exactly when no entry has it; what it finds is an entry's value |
| LruCache.Without | src/main/java/me/nighter/smartSpawner/managers/LanguageManager.java:380-387 | dropping a key keeps every other entry and only entries, and changes nothing when the key is absent |
| LruCache.WithoutDistinct | src/main/java/me/nighter/smartSpawner/managers/LanguageManager.java:380-387 | dropping a key keeps keys distinct, and drops exactly one entry when the key is present |
| LruCache.TouchedKeepsContents | src/main/java/me/nighter/smartSpawner/managers/LanguageManager.java:380-387 | an access-ordered lookup that hits changes no stored value and makes the key the most recent |
| LruCache.InsertedValid | src/main/java/me/nighter/smartSpawner/managers/LanguageManager.java:383-385 | `put` never lets the cache grow past 100 entries and keeps keys distinct |
| LruCache.InsertedFinds | src/main/java/me/nighter/smartSpawner/managers/LanguageManager.java:380-387 | after `put(k, v)`, k finds v, and every other key keeps its value unless it was the evicted eldest entry |
| LruCache.InsertedEvictsEldest | src/main/java/me/nighter/smartSpawner/managers/LanguageManager.java:383-385 | a new key in a full cache evicts exactly the least recently used entry |
| LruCache.MessageCache.Get | src/main/java/me/nighter/smartSpawner/managers/LanguageManager.java:380-387 | answers the stored value and moves a hit to the most recent place |
| LruCache.MessageCache.Put | src/main/java/me/nighter/smartSpawner/managers/LanguageManager.java:380-387 | stores the value as the most recent entry, evicting the eldest beyond 100 entries |
| LruCache.MessageCache.Clear | src/main/java/me/nighter/smartSpawner/managers/LanguageManager.java:398 | the cache becomes empty |
| Languages.MergedFilesComplete | src/main/java/me/nighter/smartSpawner/managers/LanguageManager.java:403-418 | every loaded language holds every default key, and is one of its files merged with the defaults |
| Languages.MergeDone | src/main/java/me/nighter/smartSpawner/managers/LanguageManager.java:475-485 | after the merge loop the file keeps its own values, takes the defaults for the missing keys, and reports a change exactly when a key was missing |
| Languages.SelectLanguageLoaded | src/main/java/me/nighter/smartSpawner/managers/LanguageManager.java:421-434 | the configured language when loaded, else English; the current file is the chosen code's file; only an English file is ever added; the result is empty exactly when neither language loaded and the English file could not be saved |
| Languages.SelectLanguage | src/main/java/me/nighter/smartSpawner/managers/LanguageManager.java:421-434 | the code is the configured one or English, the configured one whenever it loaded; the current file is the code's file; there is no current file exactly when neither file loaded and the English file could not be saved |
| Languages.Lookup | src/main/java/me/nighter/smartSpawner/managers/LanguageManager.java:493-498 | the current language's colorized value; else English's for a non-English language; else "Message not found: " + path; an absent file answers nothing |
| Languages.DefaultKeysFound | src/main/java/me/nighter/smartSpawner/managers/LanguageManager.java:475-498 | after merging, a default key is always answered from the current language, with no fallback and no not-found text |
| Languages.MobNameAsIntended | src/main/java/me/nighter/smartSpawner/managers/LanguageManager.java:728-732 | the source's fallback tests the language against the string "en", a test that never matches; it still gives the same name as the intended rule, which falls back to English only for other languages |
| Languages.MobName | src/main/java/me/nighter/smartSpawner/managers/LanguageManager.java:719-733 | the current file's entry when it has one; some answer whenever a file is current and the English file is loaded; no answer without a current file |
| Languages.JoinPrefix | src/main/java/me/nighter/smartSpawner/managers/LanguageManager.java:656 | an empty prefix gives the bare message; otherwise prefix, one space, then the message |
| Languages.ApplyPairsIgnoresTrailing | src/main/java/me/nighter/smartSpawner/managers/LanguageManager.java:515-519 | an unpaired trailing replacement is ignored |
| Languages.ApplyPairsIdentity | src/main/java/me/nighter/smartSpawner/managers/LanguageManager.java:515-519 | pairs that replace each placeholder by itself leave the message unchanged |
| Languages.Flatten | src/main/java/me/nighter/smartSpawner/managers/LanguageManager.java:529-532 | each entry contributes its key and its value, so the list is twice as long as the map |
| Languages.ApplyEntriesIsPairs | src/main/java/me/nighter/smartSpawner/managers/LanguageManager.java:540-542 | the map overload replaces exactly as the varargs overload does on the flattened entries |
| Languages.EntriesIn | src/main/java/me/nighter/smartSpawner/managers/LanguageManager.java:540 | the map's entries in iteration order, each with its value |
| Languages.ParseMessageType | src/main/java/me/nighter/smartSpawner/managers/LanguageManager.java:757 | `valueOf` accepts exactly the three constant names |
| Languages.MessageTypeNamed | src/main/java/me/nighter/smartSpawner/managers/LanguageManager.java:753-757 | a `.type` entry naming a type in any letter case selects that type |
| Languages.MessageTypeOf | src/main/java/me/nighter/smartSpawner/managers/LanguageManager.java:753-761 | a type other than CHAT comes only from a `.type` entry that upper-cases to that type's name |
| Languages.MessageTypeDefault | src/main/java/me/nighter/smartSpawner/managers/LanguageManager.java:753-762 | a missing or unrecognised `.type` entry gives CHAT |
| Languages.Tier | src/main/java/me/nighter/smartSpawner/managers/LanguageManager.java:870-879 | the template tier for each range of numbers, with both directions of each threshold |
| Languages.TierMonotone | src/main/java/me/nighter/smartSpawner/managers/LanguageManager.java:868-881 | a larger number never gets a smaller unit |
| Languages.TierScaledRange | src/main/java/me/nighter/smartSpawner/managers/LanguageManager.java:870-877 | the scaled value passed to the formatter is at least 1, and below 1000 below the trillions |
| Languages.SourceCacheKeysCollide | src/main/java/me/nighter/smartSpawner/managers/LanguageManager.java:505-512 | the source's key for `getMessage("a", "b", "c")` equals the one for `getMessage("ab", "c")`, so the second request is answered with the first one's text |
| Languages.CoherentFind | src/main/java/me/nighter/smartSpawner/managers/LanguageManager.java:488-491 | in a coherent cache a hit is the request's own uncached answer |
| Languages.CoherentInserted | src/main/java/me/nighter/smartSpawner/managers/LanguageManager.java:499 | storing an answer under its own request keeps the cache coherent |
| Languages.CoherentTouched | src/main/java/me/nighter/smartSpawner/managers/LanguageManager.java:488-491 | a lookup keeps the cache coherent |
| Languages.LanguageManager.constructor | src/main/java/me/nighter/smartSpawner/managers/LanguageManager.java:376-389 | a new manager has an empty cache; its languages, current file and code are SelectLanguage of the files merged with the defaults, and the files saved are the merged files that changed plus a created English file |
| Languages.LanguageManager.MergeDefaultMessages | src/main/java/me/nighter/smartSpawner/managers/LanguageManager.java:475-485 | the merged file is the defaults overridden by the file's own entries; a change is reported exactly when a default key was missing |
| Languages.LanguageManager.LoadLanguages | src/main/java/me/nighter/smartSpawner/managers/LanguageManager.java:391-435 | empties the cache, loads every file merged with the defaults, writes back the changed files and any new English file, then selects the language; it also models `reload` (lines 749-751) |
| Languages.LanguageManager.LoadFiles | src/main/java/me/nighter/smartSpawner/managers/LanguageManager.java:398-419 | the loaded languages are the merged files, a later file replacing an earlier one of the same code; exactly the changed files are written back |
| Languages.LanguageManager.SelectCurrent | src/main/java/me/nighter/smartSpawner/managers/LanguageManager.java:421-434 | picks the configured language, else English, else a newly saved English file of defaults, else none |
| Languages.LanguageManager.Cached | src/main/java/me/nighter/smartSpawner/managers/LanguageManager.java:488-491 | a hit is the request's uncached answer |
| Languages.LanguageManager.Store | src/main/java/me/nighter/smartSpawner/managers/LanguageManager.java:499 | once stored, the request finds the answer, and the cache stays coherent |
| Languages.LanguageManager.GetMessage | src/main/java/me/nighter/smartSpawner/managers/LanguageManager.java:487-501 | the answer is the uncached lookup, cached under its request |
| Languages.LanguageManager.ApplyReplacements | src/main/java/me/nighter/smartSpawner/managers/LanguageManager.java:515-519 | the pair loop applies the pairs in order, ignoring an unpaired last element |
| Languages.LanguageManager.ApplyEntryReplacements | src/main/java/me/nighter/smartSpawner/managers/LanguageManager.java:540-542 | the entry loop replaces each key by its value, in iteration order |
| Languages.LanguageManager.GetMessageWithReplacements | src/main/java/me/nighter/smartSpawner/managers/LanguageManager.java:503-523 | the lookup with the pairs applied, cached under its own request |
| Languages.LanguageManager.GetMessageWithEntries | src/main/java/me/nighter/smartSpawner/managers/LanguageManager.java:525-546 | the lookup with the map's entries applied in iteration order, cached under its own request |
| Languages.LanguageManager.GetMessageWithPrefix | src/main/java/me/nighter/smartSpawner/managers/LanguageManager.java:647-659 | the colorized prefix joined to the message, cached |
| Languages.LanguageManager.GetMessageWithPrefixReplacements | src/main/java/me/nighter/smartSpawner/managers/LanguageManager.java:661-678 | the prefix joined to the replaced message, cached |
| Languages.LanguageManager.GetMessageWithPrefixEntries | src/main/java/me/nighter/smartSpawner/managers/LanguageManager.java:680-698 | the prefix joined to the message with the map's entries applied, cached |
| Languages.LanguageManager.GetLocalizedMobName | src/main/java/me/nighter/smartSpawner/managers/LanguageManager.java:718-735 | the current file's mob name, else English's, else the type name, cached |
| Languages.LanguageManager.GetMessageType | src/main/java/me/nighter/smartSpawner/managers/LanguageManager.java:753-762 | the parsed `.type` entry; CHAT when it is missing; no answer without a current file |
| Languages.LanguageManager.FormatNumber | src/main/java/me/nighter/smartSpawner/managers/LanguageManager.java:868-881 | the number's tier template, and the number divided by the tier's unit |

## Left out

- **Language files on disk and YAML.** Files are inputs, given as a list of
  (code, flattened path map) pairs. `saveDefaultLanguageFiles`, `saveResource`,
  the YAML library and hierarchical paths are not modelled. The outcome of
  `createDefaultLanguageFile` is the input `englishSaveSucceeds`. Saves are
  recorded in the ghost log `savedFiles`.
- **Formatting and sending messages.** These are not modelled:
  - `sendMessage`, `getConsoleMessage`, `applyColorToConsole` and `getGuiTitle`;
  - `formatNumberWithDecimals` and `String.format`. `FormatNumber` returns the template and the scaled value instead.
- `colorize` (a regex and color-code library call) is a parameter of the manager.
- Language codes are plain strings. `SupportedLanguage.fromCode` is not part of this model.
- Languages.LanguageManager.GetLocalizedMobName: in the source, the prefix and mob-name cache keys use the enum's `toString` rather than its code. The model keys every request by the request itself, with the language code.
- **Concurrency in the shop sale.** The model runs every step in sequence. That covers:
  - the executor and the scheduler hops;
  - the 100 ms and 5000 ms waits, which become inputs;
  - the unlock from another thread.
- ShopGuiPlus.ShopGuiPlus.CompleteSale: its "whatever the outcome" holds only in the sequential model. Read from the text (not executed): a sale with something sellable cannot finish within the 100 ms wait, because its removal and payment are scheduled on the main thread (lines 148-158 and 165-170) that `sellAllItems` is blocking at line 114. The `whenComplete` callback then runs on the worker thread, where `lock.unlock()` (line 102) throws IllegalMonitorStateException. So `updateCooldown` (line 103) is not reached, and the main thread keeps the reentrant lock, whose `tryLock` (line 87) never refuses that thread again.
- ShopGuiPlus.ShopGuiPlus.ProcessSaleAsync: after a timeout the model deposits nothing. In the source, the payment task is not cancelled and may still pay after the items were put back.
- ShopGuiPlus.ShopGuiPlus.SellAllItems: the model's sale never throws, so the exceptional completion of the sale is not modelled. In the source, a shop query that throws inside the sale (`getItemStackPriceSell` at ShopGuiPlus.java:293 or `getItemStackShop(...).getEconomyType()` at line 317, both reached from `calculateSalePrices` at line 139, before the sale's own try block) completes the sale exceptionally. `sellAllItems` then answers false through the catch at lines 119-120, and the completion callback at lines 105-109 logs the error and sends "messages.sell-failed", with the items still in the inventory.
- ShopGuiPlus.ShopGuiPlus.SellAllItems: the catch at lines 122-126, for an exception raised while the sale is being started, is not modelled.
- **Shop side effects.** `logSalesAsync`, `sendSuccessMessage`'s placeholders and `updateInventoryDisplay` are not modelled. Only the message keys are logged.
- **Exceptions from the shop API.** A failed deposit is the input `depositSucceeds`.
- **`itemSales`.** It is computed, including its overwrite for two signatures of one material, but it is not otherwise used.
- Prices are exact reals; Java's double rounding is not modelled.
- Languages.LanguageManager.FormatNumber: the rounding of `formatNumberWithDecimals` at LanguageManager.java:883-888 ("%.1f" below 10, "%.0f" from 10 on) is not modelled, so a scaled value such as 999.999 is shown as "1000K"; Languages.TierScaledRange bounds only the value passed to the formatter.
- JavaString.ToUpperCase: upper-cases ASCII letters only. `toUpperCase(Locale.US)` at ShopGuiPlus.java:325 also maps non-ASCII letters (é to É, ı to I, ß to SS, which even changes the length); the model leaves them as they are. LanguageManager.java:757 upper-cases with the default locale. Under the Turkish locale that maps `i` to `İ`, so a `.type` entry of "action_bar" becomes "ACTİON_BAR" and gives CHAT. Languages.MessageTypeOf does not model that locale dependence.
- **The virtual inventory's own class.** It is modelled only through the three calls the sale makes.
- **Persistence and holograms in the registry.** The file handler's work is recorded as a ghost log of requests. These are not modelled:
  - `markSpawnerModified`, `queueSpawnerForSaving`, `saveSpawnerData` and `saveModifiedSpawners` (lines 227-252);
  - the hologram methods (lines 258-270) and the hologram branch of `loadSpawnerData`.
- SpawnerRegistry.SpawnerManager.CountTotalSpawnersWithStacks: the sum of stack sizes is exact. The model does not wrap it to 32 bits.
- SpawnerRegistry.SpawnerManager.AddSpawner: requires a spawner with a world. The source throws a NullPointerException there.
- SpawnerRegistry.SpawnerManager.RemoveSpawner: requires the stored spawner to have a world, for the same reason.
- SpawnerRegistry.SpawnerManager.ReindexWorlds: requires every stored spawner to have a world, for the same reason.
- SpawnerRegistry.SpawnerManager.GetSpawnerByLocation: requires a location with a world, for the same reason.
- ExplosionListener.SpawnerExplosionListener.OnEntityExplosion: requires every registered spawner to have a world, which `removeSpawner` dereferences.
- **Server state for the activity scheduler.** These become inputs of `WorldView`:
  - `isChunkLoaded` and `getNearbyEntities`;
  - entity coordinates, which are integers.
- The scheduler is modelled as handles plus a ghost set of live handles.
- `updateGuiForSpawner` is a ghost log of requested refreshes.
- `spawnLoot` is not modelled.
- Debug logging is not modelled.
- RangeChecker.SpawnerRangeChecker.RangeCheckTick: one clock value `now` serves the whole tick.
- RangeChecker.ScanForPlayer: uses the corrected squared range; see Findings.
- In the source the activity scheduler reads a different registry class (`managers.SpawnerManager`), which is not part of this model. The model reads the registry above, through `GetAllSpawners` and the spawners' fields.
- `getFormattedMobName` (colorize of the mob name) is not modelled; `colorize` is a parameter.
- `closeAllViewersInventory` of the explosion handler is a ghost log of spawner ids.
- ExplosionListener.SpawnerExplosionListener.GriefBlocks: with griefing on, only VisitBlock states the registry's file log (one delete request for the removed id). GriefBlocks, ScanBlocks and OnEntityExplosion do not state the file log, and they do not state the world index when the indexes did not agree.
- ShopGuiPlus.ShopGuiPlus.ClearOldCooldowns: `clearOldCooldowns` (ShopGuiPlus.java:60-64) is private and nothing in the file calls it. The cooldown map is therefore never pruned in the source. The method and ShopGuiPlus.PruneKeepsVerdict describe what a call would do.
- Languages.LanguageManager.GetMessage: `getConsoleMessage` (LanguageManager.java:547-561) reads and writes the same cache key, `path + "_" + code`, as `getMessage` (lines 488 and 499), and stores console (ANSI-coloured) text there. Its two overloads (lines 565-609) build the same keys as lines 505-512 and 529-532. So in the source, `getMessage("x")` after `getConsoleMessage("x")` answers with the console text. The model does not model the console methods and ignores their writes. Its cache coherence (CoherentCache) therefore covers only the player-facing methods.
- Hash-map iteration order takes two forms in the model:
  - Where a result depends on the order, the order is an input sequence. Examples are the pricing loop's `order`, the load's entry list and the language files' list.
  - The loops of ProcessTransactions, ClearOldCooldowns, ReindexWorlds, CountTotalSpawnersWithStacks, GetAllSpawners, the scheduler's Cleanup and MergeDefaultMessages pick each next element by an arbitrary choice (`:|`). Their contracts hold for every order, and they do not model which order the JVM uses.
- The Towny protection hook is a thin wrapper around another plugin's API. It is not modelled.

## Findings

| source | as written | input that shows it | evidently intended | confidence | as-written member | corrected member |
|---|---|---|---|---|---|---|
| src/main/java/me/nighter/smartSpawner/listeners/SpawnerRangeChecker.java:52 | `double rangeSquared = range * range` multiplies two `int`s, which wraps before the widening | range 46341: the square wraps to -2147479015, so no player is ever in range, not even one standing on the spawner | the exact square of the range | not executed | RangeChecker.RangeOverflowMissesPlayer | RangeChecker.ScanForPlayer |
| src/main/java/me/nighter/smartSpawner/managers/LanguageManager.java:505-512 | the cache key is the path with the replacements concatenated, with no separator and no language code | `getMessage("a", "b", "c")`, then `getMessage("ab", "c")`: both use the key "abc", so the second gets the first one's text | one cache entry per distinct request | not executed | Languages.SourceCacheKeysCollide | Languages.CoherentInserted |

/** The spawner object that the registry indexes, the range checker switches on and
    off, and the shop sells from. Its own class is not modelled here; only the
    members the modelled classes use appear. */
module Spawners {
  import opened Wrappers
  import Inventory

  /** A block location: the world (null when the world is not loaded) and block coordinates. */
  datatype Location = Location(world: Option<string>, x: int, y: int, z: int)

  class SpawnerData {
    const spawnerId: string
    const location: Location
    /** Activation radius in blocks (`getSpawnerRange`). */
    const range: int
    /** Delay between loot spawns (`getSpawnDelay`). */
    const spawnDelay: int
    const virtualInventory: Inventory.VirtualInventory
    var stackSize: int
    /** True while the spawner is stopped (no player in range). */
    var spawnerStop: bool
    var lastSpawnTime: int
    /** The spawner's `ReentrantLock`, held or free. */
    var locked: bool

    constructor (id: string, loc: Location, range: int, spawnDelay: int, stackSize: int)
      ensures spawnerId == id && location == loc && this.range == range
      ensures this.spawnDelay == spawnDelay && this.stackSize == stackSize
      ensures spawnerStop && !locked
      ensures fresh(virtualInventory) && virtualInventory.Valid() && virtualInventory.items == map[]
    {
      spawnerId := id;
      location := loc;
      this.range := range;
      this.spawnDelay := spawnDelay;
      this.stackSize := stackSize;
      spawnerStop := true;
      lastSpawnTime := 0;
      locked := false;
      virtualInventory := new Inventory.VirtualInventory();
    }
  }
}

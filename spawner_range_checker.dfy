/** The activity scheduler (SpawnerRangeChecker.java): once a second it decides, for
    every registered spawner, whether a player is within the spawner's range, flips
    the spawner's stop flag when that answer changed, and starts or cancels the
    spawner's recurring loot task. The world (loaded chunks, the nearby-entities
    query) is an input; the scheduler's task handles are numbers, and a ghost set
    records which of them are still live (not cancelled). */
module RangeChecker {
  import opened Wrappers
  import opened JavaInt
  import opened Spawners
  import SpawnerRegistry

  /** An entity found by the nearby-entities query, at integer coordinates. */
  datatype Entity = Entity(isPlayer: bool, x: int, y: int, z: int)

  /** What the checker asks of a world: whether the chunk at chunk coordinates
      (x, z) of the named world is loaded, and which entities the nearby-entities
      query returns around a location for a box of the given half-size. */
  datatype WorldView = WorldView(
    chunkLoaded: (string, int, int) -> bool,
    nearbyEntities: (Location, int) -> seq<Entity>)

  /** A recurring loot task as the scheduler hands it back: its handle, the
      spawner it serves, the delay before its first run and its period. */
  datatype ScheduledTask = ScheduledTask(handle: nat, spawner: SpawnerData, initialDelay: int, period: int)

  /** `b >> 4`: Java's arithmetic shift by four is the floor of b / 16, negative b included. */
  function ChunkCoord(b: int): (c: int)
    ensures 16 * c <= b < 16 * c + 16
  {
    b / 16
  }

  /** `(range >> 4) + 1`: the number of chunks that cover `range` blocks, plus a border chunk. */
  function ChunkRadius(range: int): (r: int)
    ensures 16 * (r - 1) <= range < 16 * r
  {
    range / 16 + 1
  }

  function DistanceSquared(e: Entity, loc: Location): int {
    (e.x - loc.x) * (e.x - loc.x) + (e.y - loc.y) * (e.y - loc.y) + (e.z - loc.z) * (e.z - loc.z)
  }

  /** The squared range as the source computes it: `range * range` is an `int`
      multiplication, widened to `double` only after it has wrapped around. */
  function RangeSquaredAsWritten(range: int): (r: int)
    ensures IsInt32(r) && (range * range - r) % TWO_32 == 0
  {
    Wrap32(range * range)
  }

  /** The squared range the comparison evidently intends. */
  function RangeSquared(range: int): (r: int)
    ensures r >= 0
  {
    range * range
  }

  /** For every range up to 46340 the two agree; from 46341 on the source's value is wrong. */
  lemma RangeSquaredAgreesBelowOverflow(range: int)
    requires 0 <= range <= 46340
    ensures RangeSquaredAsWritten(range) == RangeSquared(range)
  {
    MulMonotone(range, range, 46340);
    MulMonotone(46340, range, 46340);
    assert IsInt32(range * range);
  }

  lemma MulMonotone(a: nat, b: nat, c: nat)
    requires b <= c
    ensures a * b <= a * c
  {
    assert a * c - a * b == a * (c - b);
  }

  /** A player standing on a spawner of range 46341 is not counted as in range by
      the source (the wrapped square is negative), while it is by the intended check. */
  lemma RangeOverflowMissesPlayer(loc: Location)
    ensures var e := Entity(true, loc.x, loc.y, loc.z);
            && RangeSquaredAsWritten(46341) < 0
            && !(DistanceSquared(e, loc) <= RangeSquaredAsWritten(46341))
            && DistanceSquared(e, loc) <= RangeSquared(46341)
  {
    assert 46341 * 46341 == 2147488281;
    assert Wrap32(2147488281) == 2147488281 - TWO_32;
  }

  /** An entity the scan accepts: a player within the (intended) squared range. */
  predicate Qualifies(e: Entity, loc: Location, range: int) {
    e.isPlayer && DistanceSquared(e, loc) <= RangeSquared(range)
  }

  predicate LoadedAt(view: WorldView, world: string, baseX: int, baseZ: int, dx: int, dz: int) {
    view.chunkLoaded(world, baseX + dx, baseZ + dz)
  }

  /** Some chunk of the (2r+1) x (2r+1) grid around the base chunk is loaded. */
  ghost predicate SomeChunkLoaded(view: WorldView, world: string, baseX: int, baseZ: int, r: int) {
    exists dx, dz :: -r <= dx <= r && -r <= dz <= r && LoadedAt(view, world, baseX, baseZ, dx, dz)
  }

  ghost predicate PlayerInRange(nearby: seq<Entity>, loc: Location, range: int) {
    exists i :: 0 <= i < |nearby| && Qualifies(nearby[i], loc, range)
  }

  /** What the labelled chunk scan decides for a spawner at `loc` in world `world`. */
  ghost predicate PlayerFound(view: WorldView, world: string, loc: Location, range: int) {
    && SomeChunkLoaded(view, world, ChunkCoord(loc.x), ChunkCoord(loc.z), ChunkRadius(range))
    && PlayerInRange(view.nearbyEntities(loc, range), loc, range)
  }

  /** Steps 1-4 of `updateSpawnerStatus`: the nested chunk loops, each loaded chunk
      running the nearby-entities query, left at the first qualifying player. */
  method ScanForPlayer(view: WorldView, world: string, loc: Location, range: int) returns (found: bool)
    ensures found <==> PlayerFound(view, world, loc, range)
  {
    var chunkRadius := ChunkRadius(range);
    var baseX := ChunkCoord(loc.x);
    var baseZ := ChunkCoord(loc.z);
    ghost var query := view.nearbyEntities(loc, range);
    found := false;
    var dx := -chunkRadius;
    label chunkCheck:
    while dx <= chunkRadius
      invariant dx == -chunkRadius || -chunkRadius < dx <= chunkRadius + 1
      invariant !PlayerInRange(query, loc, range)
                || forall dx', dz' | -chunkRadius <= dx' < dx && -chunkRadius <= dz' <= chunkRadius ::
                     !LoadedAt(view, world, baseX, baseZ, dx', dz')
    {
      var dz := -chunkRadius;
      while dz <= chunkRadius
        invariant dz == -chunkRadius || -chunkRadius < dz <= chunkRadius + 1
        invariant !PlayerInRange(query, loc, range)
                  || ((forall dx', dz' | -chunkRadius <= dx' < dx && -chunkRadius <= dz' <= chunkRadius ::
                         !LoadedAt(view, world, baseX, baseZ, dx', dz'))
                      && forall dz' | -chunkRadius <= dz' < dz :: !LoadedAt(view, world, baseX, baseZ, dx, dz'))
      {
        if view.chunkLoaded(world, baseX + dx, baseZ + dz) {
          var nearbyEntities := view.nearbyEntities(loc, range);
          var i := 0;
          while i < |nearbyEntities|
            invariant 0 <= i <= |nearbyEntities|
            invariant forall j | 0 <= j < i :: !Qualifies(nearbyEntities[j], loc, range)
          {
            var entity := nearbyEntities[i];
            if entity.isPlayer && DistanceSquared(entity, loc) <= RangeSquared(range) {
              assert LoadedAt(view, world, baseX, baseZ, dx, dz);
              found := true;
              break chunkCheck;
            }
            i := i + 1;
          }
        }
        dz := dz + 1;
      }
      dx := dx + 1;
    }
  }

  /** `Map.getOrDefault`. */
  function MapGetOrDefault<K, V>(m: map<K, V>, k: K, default: V): (r: V)
    ensures k in m ==> r == m[k]
    ensures k !in m ==> r == default
  {
    if k in m then m[k] else default
  }

  /** The live task handles are exactly the handles of the task map, each below
      the next handle to issue and none shared by two ids. */
  ghost predicate TasksAgree(tasks: map<string, ScheduledTask>, live: set<nat>, next: nat) {
    && live == (set id | id in tasks :: tasks[id].handle)
    && (forall id | id in tasks :: tasks[id].handle < next)
    && (forall a, b | a in tasks && b in tasks && a != b :: tasks[a].handle != tasks[b].handle)
  }

  lemma TasksRemove(tasks: map<string, ScheduledTask>, live: set<nat>, next: nat, id: string)
    requires TasksAgree(tasks, live, next) && id in tasks
    ensures TasksAgree(tasks - {id}, live - {tasks[id].handle}, next)
  {
    var rest := tasks - {id};
    forall h | h in live - {tasks[id].handle} ensures h in (set i | i in rest :: rest[i].handle) {
      var i :| i in tasks && tasks[i].handle == h;
      assert i != id && rest[i] == tasks[i];
    }
  }

  lemma TasksAdd(tasks: map<string, ScheduledTask>, live: set<nat>, next: nat, id: string, task: ScheduledTask)
    requires TasksAgree(tasks, live, next) && id !in tasks && task.handle == next
    ensures TasksAgree(tasks[id := task], live + {next}, next + 1)
  {
    var grown := tasks[id := task];
    forall h | h in live + {next} ensures h in (set i | i in grown :: grown[i].handle) {
      if h != next {
        var i :| i in tasks && tasks[i].handle == h;
        assert i != id && grown[i] == tasks[i];
      } else {
        assert grown[id].handle == h;
      }
    }
  }

  /** The cancelling loop's state: the live handles are those of the tasks still to cancel. */
  ghost predicate CancelProgress(tasks: map<string, ScheduledTask>, todo: set<ScheduledTask>, live: set<nat>) {
    && todo <= tasks.Values
    && (forall a, b | a in tasks && b in tasks && a != b :: tasks[a].handle != tasks[b].handle)
    && live == set t | t in todo :: t.handle
  }

  lemma CancelStart(tasks: map<string, ScheduledTask>, live: set<nat>, next: nat)
    requires TasksAgree(tasks, live, next)
    ensures CancelProgress(tasks, tasks.Values, live)
  {
    forall h | h in live ensures h in set t | t in tasks.Values :: t.handle {
      var id :| id in tasks && tasks[id].handle == h;
      assert tasks[id] in tasks.Values;
    }
  }

  lemma CancelStep(tasks: map<string, ScheduledTask>, todo: set<ScheduledTask>, live: set<nat>, task: ScheduledTask)
    requires CancelProgress(tasks, todo, live) && task in todo
    ensures CancelProgress(tasks, todo - {task}, live - {task.handle})
  {
    var rest := todo - {task};
    forall h | h in live - {task.handle} ensures h in set t | t in rest :: t.handle {
      var t :| t in todo && t.handle == h;
      assert t != task;
    }
    forall t | t in rest ensures t.handle != task.handle {
      var a :| a in tasks && tasks[a] == t;
      var b :| b in tasks && tasks[b] == task;
      assert a != b;
    }
  }

  class SpawnerRangeChecker {
    var spawnerTasks: map<string, ScheduledTask>
    var playersInRange: map<string, set<string>>
    /** Next handle the scheduler gives out. */
    var nextHandle: nat
    /** Handles of the tasks that have not been cancelled. */
    ghost var liveTasks: set<nat>
    /** Spawner ids for which a GUI refresh was requested, in order. */
    ghost var guiUpdates: seq<string>

    /** The spawners the scheduled tasks serve. */
    ghost function TaskSpawners(): set<SpawnerData>
      reads this
    {
      set id | id in spawnerTasks :: spawnerTasks[id].spawner
    }

    /** The checker's invariant, except that the tasks kept under the ids of
        `exempt` may serve a stopped spawner:
        - no orphaned task: the live tasks are exactly those the map holds, one
          per id, and every handle was given out before;
        - `playersInRange` stays empty, since nothing ever writes to it;
        - every task is kept under its own spawner's id;
        - every task serves a running spawner, because a spawner's task is
          cancelled whenever the spawner is stopped. */
    ghost predicate ValidExcept(exempt: set<string>)
      reads this, TaskSpawners()
    {
      && TasksAgree(spawnerTasks, liveTasks, nextHandle)
      && playersInRange == map[]
      && (forall id | id in spawnerTasks :: spawnerTasks[id].spawner.spawnerId == id)
      && (forall id | id in spawnerTasks && id !in exempt :: !spawnerTasks[id].spawner.spawnerStop)
    }

    ghost predicate Valid()
      reads this, TaskSpawners()
    {
      ValidExcept({})
    }

    constructor ()
      ensures Valid() && spawnerTasks == map[] && playersInRange == map[] && liveTasks == {}
      ensures guiUpdates == []
    {
      spawnerTasks, playersInRange, nextHandle := map[], map[], 0;
      liveTasks, guiUpdates := {}, [];
    }

    /** `stopSpawnerTask`: removes the id's entry and cancels its task; nothing
        happens when there is no entry, so a second call changes nothing. The
        spawner may already be stopped, as it is when `updateSpawnerStatus`
        calls this. */
    method StopSpawnerTask(s: SpawnerData)
      requires ValidExcept({s.spawnerId})
      modifies this`spawnerTasks, this`liveTasks
      ensures Valid()
      ensures spawnerTasks == old(spawnerTasks) - {s.spawnerId}
      ensures s.spawnerId in old(spawnerTasks) ==>
                liveTasks == old(liveTasks) - {old(spawnerTasks)[s.spawnerId].handle}
      ensures s.spawnerId !in old(spawnerTasks) ==> liveTasks == old(liveTasks)
    {
      if s.spawnerId in spawnerTasks {
        var task := spawnerTasks[s.spawnerId];
        TasksRemove(spawnerTasks, liveTasks, nextHandle, s.spawnerId);
        spawnerTasks := spawnerTasks - {s.spawnerId};
        liveTasks := liveTasks - {task.handle};
      }
    }

    /** `startSpawnerTask`: cancels any task of the id, then schedules a new one,
        with initial-delay argument 0, and records when the first loot is due. Its only
        caller, `updateSpawnerStatus`, has just marked the spawner running. */
    method StartSpawnerTask(s: SpawnerData, now: int)
      requires Valid() && !s.spawnerStop
      modifies this`spawnerTasks, this`liveTasks, this`nextHandle, s`lastSpawnTime
      ensures Valid()
      ensures s.spawnerId in spawnerTasks
      ensures var task := spawnerTasks[s.spawnerId];
              && task.spawner == s && task.initialDelay == 0 && task.period == s.spawnDelay
              && task.handle !in old(liveTasks)
              && spawnerTasks == old(spawnerTasks)[s.spawnerId := task]
              && liveTasks == (old(liveTasks) - (if s.spawnerId in old(spawnerTasks)
                                                 then {old(spawnerTasks)[s.spawnerId].handle} else {}))
                              + {task.handle}
      ensures s.lastSpawnTime == now + s.spawnDelay
    {
      StopSpawnerTask(s);
      assert s !in TaskSpawners();
      s.lastSpawnTime := now + s.spawnDelay;
      assert Valid();
      ghost var handle := nextHandle;
      Schedule(s);
      ghost var task := ScheduledTask(handle, s, 0, s.spawnDelay);
      assert spawnerTasks == old(spawnerTasks)[s.spawnerId := task];
    }

    /** `runAtFixedRate` for a running spawner whose id has no task: the new task
        gets the next handle, initial-delay argument 0, period the spawner's delay. */
    method Schedule(s: SpawnerData)
      requires Valid() && !s.spawnerStop && s.spawnerId !in spawnerTasks
      modifies this`spawnerTasks, this`liveTasks, this`nextHandle
      ensures Valid()
      ensures old(nextHandle) !in old(liveTasks)
      ensures spawnerTasks == old(spawnerTasks)[s.spawnerId := ScheduledTask(old(nextHandle), s, 0, s.spawnDelay)]
      ensures liveTasks == old(liveTasks) + {old(nextHandle)}
    {
      var task := ScheduledTask(nextHandle, s, 0, s.spawnDelay);
      nextHandle := nextHandle + 1;
      TasksAdd(spawnerTasks, liveTasks, nextHandle - 1, s.spawnerId, task);
      spawnerTasks := spawnerTasks[s.spawnerId := task];
      liveTasks := liveTasks + {task.handle};
    }

    /** `getPlayersInRange`: the recorded set, or the empty set for an unknown
        id. Since nothing records a set, the answer is always empty. */
    method GetPlayersInRange(spawnerId: string) returns (r: set<string>)
      requires Valid()
      ensures r == {}
    {
      r := MapGetOrDefault(playersInRange, spawnerId, {});
    }

    /** One run of the body of the task kept under `id`: it spawns loot only
        while its spawner is not stopped. A task that is still scheduled always
        spawns loot, because stopping a spawner cancels its task. */
    method RunTask(id: string) returns (spawnsLoot: bool)
      requires Valid() && id in spawnerTasks
      ensures spawnsLoot
    {
      var task := spawnerTasks[id];
      spawnsLoot := !task.spawner.spawnerStop;
    }

    /** `cleanup`: cancels every task and empties both maps. */
    method Cleanup()
      requires Valid()
      modifies this`spawnerTasks, this`liveTasks, this`playersInRange
      ensures Valid()
      ensures spawnerTasks == map[] && playersInRange == map[] && liveTasks == {}
    {
      var todo := spawnerTasks.Values;
      CancelStart(spawnerTasks, liveTasks, nextHandle);
      while todo != {}
        invariant CancelProgress(spawnerTasks, todo, liveTasks)
        decreases |todo|
      {
        var task :| task in todo;
        CancelStep(spawnerTasks, todo, liveTasks, task);
        todo := todo - {task};
        liveTasks := liveTasks - {task.handle};
      }
      spawnerTasks := map[];
      playersInRange := map[];
    }

    /** `updateSpawnerStatus`: for a spawner in a loaded world, compute whether a
        player is in range; only when that differs from the stored flag, flip the
        flag, (re)start or stop its task and request a GUI refresh. */
    method UpdateSpawnerStatus(s: SpawnerData, view: WorldView, now: int)
      requires Valid()
      modifies this, s`spawnerStop, s`lastSpawnTime
      ensures Valid()
      ensures s.location.world.None? ==>
                && unchanged(this)
                && s.spawnerStop == old(s.spawnerStop) && s.lastSpawnTime == old(s.lastSpawnTime)
      ensures s.location.world.Some? ==>
                var found := PlayerFound(view, s.location.world.value, s.location, s.range);
                && s.spawnerStop == !found
                && playersInRange == old(playersInRange)
                && (old(s.spawnerStop) == !found ==>
                      && spawnerTasks == old(spawnerTasks) && liveTasks == old(liveTasks)
                      && guiUpdates == old(guiUpdates) && s.lastSpawnTime == old(s.lastSpawnTime))
                && (old(s.spawnerStop) != !found ==> guiUpdates == old(guiUpdates) + [s.spawnerId])
                && (old(s.spawnerStop) && found ==>
                      && s.spawnerId in spawnerTasks
                      && (var task := spawnerTasks[s.spawnerId];
                          && task.spawner == s && task.initialDelay == 0 && task.period == s.spawnDelay
                          && task.handle !in old(liveTasks)
                          && spawnerTasks == old(spawnerTasks)[s.spawnerId := task]
                          && liveTasks == (old(liveTasks) - (if s.spawnerId in old(spawnerTasks)
                                                             then {old(spawnerTasks)[s.spawnerId].handle} else {}))
                                          + {task.handle})
                      && s.lastSpawnTime == now + s.spawnDelay)
                && (!old(s.spawnerStop) && !found ==>
                      && spawnerTasks == old(spawnerTasks) - {s.spawnerId}
                      && (s.spawnerId in old(spawnerTasks) ==>
                            liveTasks == old(liveTasks) - {old(spawnerTasks)[s.spawnerId].handle})
                      && (s.spawnerId !in old(spawnerTasks) ==> liveTasks == old(liveTasks))
                      && s.lastSpawnTime == old(s.lastSpawnTime))
                && (!found ==> forall id | id in spawnerTasks :: spawnerTasks[id].spawner != s)
    {
      var world := s.location.world;
      if world.None? {
        return;
      }
      var playerFound := ScanForPlayer(view, world.value, s.location, s.range);
      var shouldStop := !playerFound;
      if s.spawnerStop != shouldStop {
        s.spawnerStop := shouldStop;
        if !shouldStop {
          StartSpawnerTask(s, now);
        } else {
          StopSpawnerTask(s);
        }
        guiUpdates := guiUpdates + [s.spawnerId];
      }
    }

    /** The body of the once-a-second task: `updateSpawnerStatus` for each spawner
        of `getAllSpawners`. Afterwards every one of them in a loaded world has
        its stop flag equal to "no player in range". */
    method RangeCheckTick(registry: SpawnerRegistry.SpawnerManager, view: WorldView, now: int)
      requires Valid()
      modifies this, registry.spawners.Values
      ensures Valid()
      ensures forall s | s in old(registry.spawners.Values) && s.location.world.Some? ::
                s.spawnerStop == !PlayerFound(view, s.location.world.value, s.location, s.range)
    {
      var all := registry.GetAllSpawners();
      var i := 0;
      while i < |all|
        invariant 0 <= i <= |all|
        invariant Valid()
        invariant forall j | 0 <= j < i && all[j].location.world.Some? ::
                    all[j].spawnerStop == !PlayerFound(view, all[j].location.world.value, all[j].location, all[j].range)
      {
        UpdateSpawnerStatus(all[i], view, now);
        i := i + 1;
      }
      assert forall s | s in old(registry.spawners.Values) :: s in all;
    }
  }
}

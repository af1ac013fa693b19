/** The explosion handler (SpawnerExplosionListener.java). With griefing off, every
    spawner block that belongs to a registered spawner is taken out of the explosion's
    block list, so it survives; with griefing on, the list is left alone and each such
    spawner is unregistered and its loot task stopped. */
module ExplosionListener {
  import opened Wrappers
  import opened Spawners
  import opened SpawnerRegistry
  import RangeChecker

  datatype Material = SPAWNER | OtherMaterial(name: string)

  /** A block caught in the explosion: its type and its position in the exploding world. */
  datatype Block = Block(material: Material, world: string, x: int, y: int, z: int)

  function BlockLocation(b: Block): (loc: Location)
    ensures loc.world == Some(b.world) && loc.x == b.x && loc.y == b.y && loc.z == b.z
  {
    Location(Some(b.world), b.x, b.y, b.z)
  }

  /** A spawner block whose location slot holds a registered spawner. */
  predicate IsRegisteredSpawner(li: map<LocationKey, SpawnerData>, b: Block) {
    b.material == SPAWNER && KeyOf(BlockLocation(b)) in li
  }

  /** The spawner registered at a block's location. */
  function SpawnerAt(li: map<LocationKey, SpawnerData>, b: Block): SpawnerData
    requires IsRegisteredSpawner(li, b)
  {
    li[KeyOf(BlockLocation(b))]
  }

  /** The blocks an explosion still destroys while griefing is off: the list in
      its order, without the registered spawner blocks. */
  function Unprotected(list: seq<Block>, li: map<LocationKey, SpawnerData>): (r: seq<Block>)
    ensures |r| <= |list|
    ensures forall b :: b in r <==> b in list && !IsRegisteredSpawner(li, b)
  {
    if list == [] then []
    else (if IsRegisteredSpawner(li, list[0]) then [] else [list[0]]) + Unprotected(list[1..], li)
  }

  /** `Collection.removeAll`: drops every element equal to one of `toRemove`, keeping the order. */
  function RemoveAll(list: seq<Block>, toRemove: seq<Block>): (r: seq<Block>)
    ensures |r| <= |list|
    ensures forall b :: b in r <==> b in list && b !in toRemove
  {
    if list == [] then []
    else (if list[0] in toRemove then [] else [list[0]]) + RemoveAll(list[1..], toRemove)
  }

  /** Removing the collected spawner blocks leaves exactly the unprotected blocks, in order. */
  lemma {:induction false} RemoveAllProtected(list: seq<Block>, toRemove: seq<Block>,
                                              li: map<LocationKey, SpawnerData>)
    requires forall b | b in list :: b in toRemove <==> IsRegisteredSpawner(li, b)
    ensures RemoveAll(list, toRemove) == Unprotected(list, li)
  {
    if list != [] {
      assert forall b | b in list[1..] :: b in list;
      RemoveAllProtected(list[1..], toRemove, li);
    }
  }

  /** With nothing collected, `removeAll` leaves the list as it was. */
  lemma {:induction false} RemoveAllNothing(list: seq<Block>)
    ensures RemoveAll(list, []) == list
  {
    if list != [] {
      RemoveAllNothing(list[1..]);
    }
  }

  /** Ids of the spawners whose viewers are closed, one per registered spawner block, in order. */
  function ProtectedIds(list: seq<Block>, li: map<LocationKey, SpawnerData>): (r: seq<string>)
    ensures |r| <= |list|
  {
    if list == [] then []
    else
      var b := list[|list| - 1];
      ProtectedIds(list[..|list| - 1], li) + (if IsRegisteredSpawner(li, b) then [SpawnerAt(li, b).spawnerId] else [])
  }

  /** Ids of the spawners registered at the spawner blocks of the list. */
  function ExplodedIds(list: seq<Block>, li: map<LocationKey, SpawnerData>): set<string> {
    if list == [] then {}
    else
      var b := list[|list| - 1];
      ExplodedIds(list[..|list| - 1], li) + (if IsRegisteredSpawner(li, b) then {SpawnerAt(li, b).spawnerId} else {})
  }

  /** An id is exploded exactly when some registered spawner block of the list holds it. */
  lemma {:induction false} ExplodedIdsMeaning(list: seq<Block>, li: map<LocationKey, SpawnerData>, id: string)
    ensures id in ExplodedIds(list, li) <==>
              exists i :: 0 <= i < |list| && IsRegisteredSpawner(li, list[i]) && SpawnerAt(li, list[i]).spawnerId == id
  {
    if list != [] {
      var n := |list| - 1;
      ExplodedIdsMeaning(list[..n], li, id);
      assert forall i | 0 <= i < n :: list[..n][i] == list[i];
      if id in ExplodedIds(list, li) && id !in ExplodedIds(list[..n], li) {
        assert IsRegisteredSpawner(li, list[n]) && SpawnerAt(li, list[n]).spawnerId == id;
      }
    }
  }

  /** The current indexes are the starting location index with the slots of the
      removed spawners dropped. */
  ghost predicate Tracks(li0: map<LocationKey, SpawnerData>, sp: map<string, SpawnerData>,
                         li: map<LocationKey, SpawnerData>) {
    && li.Keys <= li0.Keys
    && forall k | k in li0 :: (k in li <==> li0[k].spawnerId in sp) && (k in li ==> li[k] == li0[k])
  }

  /** Two location slots of agreeing indexes never hold spawners with the same id. */
  lemma SlotsHaveDistinctIds(sp: map<string, SpawnerData>, li: map<LocationKey, SpawnerData>,
                             k1: LocationKey, k2: LocationKey)
    requires IdsAndLocationsAgree(sp, li) && k1 in li && k2 in li
    ensures li[k1].spawnerId == li[k2].spawnerId ==> k1 == k2
  {
  }

  lemma TracksAfterRemove(sp0: map<string, SpawnerData>, li0: map<LocationKey, SpawnerData>,
                          sp: map<string, SpawnerData>, li: map<LocationKey, SpawnerData>, k: LocationKey)
    requires IdsAndLocationsAgree(sp0, li0) && Tracks(li0, sp, li) && k in li
    ensures Tracks(li0, sp - {li0[k].spawnerId}, li - {k})
  {
    forall k' | k' in li0
      ensures (k' in li - {k} <==> li0[k'].spawnerId in sp - {li0[k].spawnerId})
    {
      SlotsHaveDistinctIds(sp0, li0, k, k');
    }
  }

  /** Progress of the griefing loop over `prefix`: the spawners and tasks of the
      exploded ids are gone, and the location index tracks the rest. */
  ghost predicate GriefProgress(sp0: map<string, SpawnerData>, li0: map<LocationKey, SpawnerData>,
                                tasks0: map<string, RangeChecker.ScheduledTask>, prefix: seq<Block>,
                                sp: map<string, SpawnerData>, li: map<LocationKey, SpawnerData>,
                                tasks: map<string, RangeChecker.ScheduledTask>) {
    && Tracks(li0, sp, li)
    && sp == sp0 - ExplodedIds(prefix, li0)
    && tasks == tasks0 - ExplodedIds(prefix, li0)
  }

  lemma GriefStart(sp0: map<string, SpawnerData>, li0: map<LocationKey, SpawnerData>,
                   tasks0: map<string, RangeChecker.ScheduledTask>)
    requires IdsAndLocationsAgree(sp0, li0)
    ensures GriefProgress(sp0, li0, tasks0, [], sp0, li0, tasks0)
  {
    assert ExplodedIds([], li0) == {};
    assert sp0 - {} == sp0 && tasks0 - {} == tasks0;
  }

  /** One block of the griefing loop: the exploded ids grow by the block's spawner;
      when its slot is already empty, that spawner was removed for an earlier block. */
  lemma GriefStep(sp0: map<string, SpawnerData>, li0: map<LocationKey, SpawnerData>,
                  tasks0: map<string, RangeChecker.ScheduledTask>, prefix: seq<Block>, b: Block,
                  sp: map<string, SpawnerData>, li: map<LocationKey, SpawnerData>,
                  tasks: map<string, RangeChecker.ScheduledTask>,
                  sp': map<string, SpawnerData>, li': map<LocationKey, SpawnerData>,
                  tasks': map<string, RangeChecker.ScheduledTask>)
    requires IdsAndLocationsAgree(sp0, li0)
    requires GriefProgress(sp0, li0, tasks0, prefix, sp, li, tasks)
    requires IsRegisteredSpawner(li, b) ==>
               var id := SpawnerAt(li, b).spawnerId;
               sp' == sp - {id} && tasks' == tasks - {id} && li' == li - {KeyOf(BlockLocation(b))}
    requires !IsRegisteredSpawner(li, b) ==> sp' == sp && li' == li && tasks' == tasks
    ensures GriefProgress(sp0, li0, tasks0, prefix + [b], sp', li', tasks')
  {
    var gone := ExplodedIds(prefix, li0);
    assert (prefix + [b])[..|prefix|] == prefix;
    assert ExplodedIds(prefix + [b], li0)
        == gone + (if IsRegisteredSpawner(li0, b) then {SpawnerAt(li0, b).spawnerId} else {});
    if IsRegisteredSpawner(li, b) {
      var id := SpawnerAt(li, b).spawnerId;
      TracksAfterRemove(sp0, li0, sp, li, KeyOf(BlockLocation(b)));
      MinusStep(sp0, gone, id);
      MinusStep(tasks0, gone, id);
    } else if IsRegisteredSpawner(li0, b) {
      assert SpawnerAt(li0, b).spawnerId in sp0;
    }
  }

  /** Progress of the protecting loop over `prefix`: the collected blocks are its
      registered spawner blocks, and their spawners' menus were closed in order. */
  ghost predicate ProtectProgress(li0: map<LocationKey, SpawnerData>, prefix: seq<Block>, toRemove: seq<Block>,
                                  closes0: seq<string>, closes: seq<string>) {
    && (forall b :: b in toRemove <==> b in prefix && IsRegisteredSpawner(li0, b))
    && closes == closes0 + ProtectedIds(prefix, li0)
  }

  lemma ProtectStep(li0: map<LocationKey, SpawnerData>, prefix: seq<Block>, b: Block, toRemove: seq<Block>,
                    closes0: seq<string>, closes: seq<string>, protect: bool, closes': seq<string>)
    requires ProtectProgress(li0, prefix, toRemove, closes0, closes)
    requires protect <==> IsRegisteredSpawner(li0, b)
    requires closes' == closes + (if protect then [SpawnerAt(li0, b).spawnerId] else [])
    ensures ProtectProgress(li0, prefix + [b], if protect then toRemove + [b] else toRemove, closes0, closes')
  {
    assert (prefix + [b])[..|prefix|] == prefix;
  }

  /** The location index `li` is `li0` with some slots dropped and the rest as they were. */
  ghost predicate Shrunk(li: map<LocationKey, SpawnerData>, li0: map<LocationKey, SpawnerData>) {
    && li.Keys <= li0.Keys
    && forall k | k in li :: li[k] == li0[k]
  }

  /** What the griefing loop over `prefix` has done whether or not the indexes
      agree: the ids in `removed` were each held by a registered spawner block of
      the prefix, their spawners and tasks are gone and nothing else is, and the
      location index only lost slots. */
  ghost predicate Removed(sp0: map<string, SpawnerData>, li0: map<LocationKey, SpawnerData>,
                          tasks0: map<string, RangeChecker.ScheduledTask>, prefix: seq<Block>,
                          removed: set<string>,
                          sp: map<string, SpawnerData>, li: map<LocationKey, SpawnerData>,
                          tasks: map<string, RangeChecker.ScheduledTask>) {
    && removed <= ExplodedIds(prefix, li0)
    && sp == sp0 - removed
    && tasks == tasks0 - removed
    && Shrunk(li, li0)
  }

  lemma RemovedStart(sp0: map<string, SpawnerData>, li0: map<LocationKey, SpawnerData>,
                     tasks0: map<string, RangeChecker.ScheduledTask>)
    ensures Removed(sp0, li0, tasks0, [], {}, sp0, li0, tasks0)
  {
    assert sp0 - {} == sp0 && tasks0 - {} == tasks0;
  }

  /** One block of the griefing loop, with no assumption about the indexes: a
      block registered in the current index is registered, to the same spawner,
      in the starting one. */
  lemma RemovedStep(sp0: map<string, SpawnerData>, li0: map<LocationKey, SpawnerData>,
                    tasks0: map<string, RangeChecker.ScheduledTask>, prefix: seq<Block>, b: Block,
                    removed: set<string>,
                    sp: map<string, SpawnerData>, li: map<LocationKey, SpawnerData>,
                    tasks: map<string, RangeChecker.ScheduledTask>,
                    sp': map<string, SpawnerData>, li': map<LocationKey, SpawnerData>,
                    tasks': map<string, RangeChecker.ScheduledTask>)
    requires Removed(sp0, li0, tasks0, prefix, removed, sp, li, tasks)
    requires Shrunk(li', li)
    requires IsRegisteredSpawner(li, b) ==>
               var id := SpawnerAt(li, b).spawnerId;
               sp' == sp - {id} && tasks' == tasks - {id}
    requires !IsRegisteredSpawner(li, b) ==> sp' == sp && tasks' == tasks
    ensures Removed(sp0, li0, tasks0, prefix + [b],
                    removed + (if IsRegisteredSpawner(li, b) then {SpawnerAt(li, b).spawnerId} else {}),
                    sp', li', tasks')
  {
    assert (prefix + [b])[..|prefix|] == prefix;
    assert ExplodedIds(prefix + [b], li0)
        == ExplodedIds(prefix, li0) + (if IsRegisteredSpawner(li0, b) then {SpawnerAt(li0, b).spawnerId} else {});
    if IsRegisteredSpawner(li, b) {
      var id := SpawnerAt(li, b).spawnerId;
      assert IsRegisteredSpawner(li0, b) && SpawnerAt(li0, b) == SpawnerAt(li, b);
      MinusStep(sp0, removed, id);
      MinusStep(tasks0, removed, id);
    } else {
      assert removed + {} == removed;
    }
  }

  /** Every registered spawner has a world (what `removeSpawner` needs to compute its keys). */
  ghost predicate WorldsKnown(sp: map<string, SpawnerData>) {
    forall id | id in sp :: HasWorld(sp[id])
  }

  lemma MinusStep<V>(m: map<string, V>, gone: set<string>, id: string)
    ensures (m - gone) - {id} == m - (gone + {id})
  {
  }

  /** The explosion's block list, which the handler edits in place. */
  class ExplodeEvent {
    var blockList: seq<Block>

    constructor (blocks: seq<Block>)
      ensures blockList == blocks
    {
      blockList := blocks;
    }
  }

  class SpawnerExplosionListener {
    const spawnerManager: SpawnerManager
    const rangeChecker: RangeChecker.SpawnerRangeChecker
    /** Ids of the spawners whose open menus were asked to close, in order. */
    ghost var viewerCloses: seq<string>

    constructor (spawnerManager: SpawnerManager, rangeChecker: RangeChecker.SpawnerRangeChecker)
      ensures this.spawnerManager == spawnerManager && this.rangeChecker == rangeChecker
      ensures viewerCloses == []
    {
      this.spawnerManager := spawnerManager;
      this.rangeChecker := rangeChecker;
      viewerCloses := [];
    }

    /** The body of the block loop for one block: a registered spawner block is
        kept out of the explosion (and its menus closed) unless griefing is on, in
        which case the spawner is unregistered and its task stopped. */
    method VisitBlock(block: Block, allowGrief: bool) returns (protect: bool)
      requires rangeChecker.Valid()
      requires WorldsKnown(spawnerManager.spawners)
      modifies this`viewerCloses, spawnerManager, rangeChecker`spawnerTasks, rangeChecker`liveTasks
      ensures rangeChecker.Valid()
      ensures WorldsKnown(spawnerManager.spawners)
      ensures Shrunk(spawnerManager.locationIndex, old(spawnerManager.locationIndex))
      ensures protect <==> !allowGrief && IsRegisteredSpawner(old(spawnerManager.locationIndex), block)
      ensures !allowGrief || !IsRegisteredSpawner(old(spawnerManager.locationIndex), block) ==>
                && unchanged(spawnerManager)
                && rangeChecker.spawnerTasks == old(rangeChecker.spawnerTasks)
                && rangeChecker.liveTasks == old(rangeChecker.liveTasks)
      ensures !allowGrief ==>
                viewerCloses == old(viewerCloses)
                  + (if protect then [SpawnerAt(old(spawnerManager.locationIndex), block).spawnerId] else [])
      ensures allowGrief ==> viewerCloses == old(viewerCloses)
      ensures allowGrief && IsRegisteredSpawner(old(spawnerManager.locationIndex), block) ==>
                var id := SpawnerAt(old(spawnerManager.locationIndex), block).spawnerId;
                && spawnerManager.spawners == old(spawnerManager.spawners) - {id}
                && spawnerManager.fileOps == old(spawnerManager.fileOps) + [DeleteFromFile(id)]
                && rangeChecker.spawnerTasks == old(rangeChecker.spawnerTasks) - {id}
                && (old(spawnerManager.IndexesAgree()) ==>
                      && spawnerManager.IndexesAgree()
                      && spawnerManager.locationIndex == old(spawnerManager.locationIndex) - {KeyOf(BlockLocation(block))})
    {
      protect := false;
      if block.material == SPAWNER {
        var found := spawnerManager.GetSpawnerByLocation(BlockLocation(block));
        if found.Some? {
          var spawnerData := found.value;
          if !allowGrief {
            protect := true;
            viewerCloses := viewerCloses + [spawnerData.spawnerId];
          } else {
            var spawnerId := spawnerData.spawnerId;
            spawnerManager.RemoveSpawner(spawnerId);
            rangeChecker.StopSpawnerTask(spawnerData);
          }
        }
      }
    }

    /** The loop of `onEntityExplosion` over the explosion's blocks; returns the
        blocks to keep out of the explosion. */
    method ScanBlocks(blocks: seq<Block>, allowGrief: bool) returns (blocksToRemove: seq<Block>, ghost removed: set<string>)
      requires rangeChecker.Valid()
      requires WorldsKnown(spawnerManager.spawners)
      modifies this`viewerCloses, spawnerManager, rangeChecker`spawnerTasks, rangeChecker`liveTasks
      ensures rangeChecker.Valid()
      ensures !allowGrief ==>
                && spawnerManager.spawners == old(spawnerManager.spawners)
                && spawnerManager.locationIndex == old(spawnerManager.locationIndex)
                && spawnerManager.worldIndex == old(spawnerManager.worldIndex)
                && spawnerManager.fileOps == old(spawnerManager.fileOps)
                && rangeChecker.spawnerTasks == old(rangeChecker.spawnerTasks)
                && rangeChecker.liveTasks == old(rangeChecker.liveTasks)
                && ProtectProgress(old(spawnerManager.locationIndex), blocks, blocksToRemove,
                                   old(viewerCloses), viewerCloses)
      ensures allowGrief ==> blocksToRemove == [] && viewerCloses == old(viewerCloses)
      ensures allowGrief ==>
                Removed(old(spawnerManager.spawners), old(spawnerManager.locationIndex),
                        old(rangeChecker.spawnerTasks), blocks, removed,
                        spawnerManager.spawners, spawnerManager.locationIndex, rangeChecker.spawnerTasks)
      ensures allowGrief && old(spawnerManager.IndexesAgree()) ==>
                && spawnerManager.IndexesAgree()
                && GriefProgress(old(spawnerManager.spawners), old(spawnerManager.locationIndex),
                                 old(rangeChecker.spawnerTasks), blocks,
                                 spawnerManager.spawners, spawnerManager.locationIndex, rangeChecker.spawnerTasks)
    {
      removed := {};
      if allowGrief {
        removed := GriefBlocks(blocks);
        blocksToRemove := [];
      } else {
        blocksToRemove := ProtectBlocks(blocks);
      }
    }

    /** The loop with griefing disallowed: registered spawner blocks are collected
        and their viewers closed; the registry and the tasks stay as they are. */
    method ProtectBlocks(blocks: seq<Block>) returns (blocksToRemove: seq<Block>)
      requires rangeChecker.Valid()
      requires WorldsKnown(spawnerManager.spawners)
      modifies this`viewerCloses, spawnerManager, rangeChecker`spawnerTasks, rangeChecker`liveTasks
      ensures rangeChecker.Valid()
      ensures spawnerManager.spawners == old(spawnerManager.spawners)
      ensures spawnerManager.locationIndex == old(spawnerManager.locationIndex)
      ensures spawnerManager.worldIndex == old(spawnerManager.worldIndex)
      ensures spawnerManager.fileOps == old(spawnerManager.fileOps)
      ensures rangeChecker.spawnerTasks == old(rangeChecker.spawnerTasks)
      ensures rangeChecker.liveTasks == old(rangeChecker.liveTasks)
      ensures ProtectProgress(old(spawnerManager.locationIndex), blocks, blocksToRemove, old(viewerCloses), viewerCloses)
    {
      ghost var sp0, li0, wi0 := spawnerManager.spawners, spawnerManager.locationIndex, spawnerManager.worldIndex;
      ghost var files0 := spawnerManager.fileOps;
      ghost var tasks0, live0 := rangeChecker.spawnerTasks, rangeChecker.liveTasks;
      ghost var closes0 := viewerCloses;
      blocksToRemove := [];
      var i := 0;
      while i < |blocks|
        invariant 0 <= i <= |blocks|
        invariant rangeChecker.Valid()
        invariant WorldsKnown(spawnerManager.spawners)
        invariant spawnerManager.spawners == sp0 && spawnerManager.locationIndex == li0
        invariant spawnerManager.worldIndex == wi0 && spawnerManager.fileOps == files0
        invariant rangeChecker.spawnerTasks == tasks0 && rangeChecker.liveTasks == live0
        invariant ProtectProgress(li0, blocks[..i], blocksToRemove, closes0, viewerCloses)
      {
        var block := blocks[i];
        assert blocks[..i + 1] == blocks[..i] + [block];
        ghost var closes := viewerCloses;
        var protect := VisitBlock(block, false);
        ProtectStep(li0, blocks[..i], block, blocksToRemove, closes0, closes, protect, viewerCloses);
        if protect {
          blocksToRemove := blocksToRemove + [block];
        }
        i := i + 1;
      }
      assert blocks[..|blocks|] == blocks;
    }

    /** The loop with griefing allowed: each registered spawner block's spawner is
        removed from the registry and its task stopped. */
    method GriefBlocks(blocks: seq<Block>) returns (ghost removed: set<string>)
      requires rangeChecker.Valid()
      requires WorldsKnown(spawnerManager.spawners)
      modifies this`viewerCloses, spawnerManager, rangeChecker`spawnerTasks, rangeChecker`liveTasks
      ensures rangeChecker.Valid()
      ensures viewerCloses == old(viewerCloses)
      ensures Removed(old(spawnerManager.spawners), old(spawnerManager.locationIndex),
                      old(rangeChecker.spawnerTasks), blocks, removed,
                      spawnerManager.spawners, spawnerManager.locationIndex, rangeChecker.spawnerTasks)
      ensures old(spawnerManager.IndexesAgree()) ==>
                && spawnerManager.IndexesAgree()
                && GriefProgress(old(spawnerManager.spawners), old(spawnerManager.locationIndex),
                                 old(rangeChecker.spawnerTasks), blocks,
                                 spawnerManager.spawners, spawnerManager.locationIndex, rangeChecker.spawnerTasks)
    {
      ghost var sp0, li0 := spawnerManager.spawners, spawnerManager.locationIndex;
      ghost var tasks0 := rangeChecker.spawnerTasks;
      ghost var closes0 := viewerCloses;
      ghost var agree0 := spawnerManager.IndexesAgree();
      if agree0 {
        GriefStart(sp0, li0, tasks0);
      }
      RemovedStart(sp0, li0, tasks0);
      removed := {};
      var i := 0;
      while i < |blocks|
        invariant 0 <= i <= |blocks|
        invariant rangeChecker.Valid()
        invariant WorldsKnown(spawnerManager.spawners)
        invariant viewerCloses == closes0
        invariant agree0 ==> IdsAndLocationsAgree(sp0, li0)
        invariant Removed(sp0, li0, tasks0, blocks[..i], removed,
                          spawnerManager.spawners, spawnerManager.locationIndex, rangeChecker.spawnerTasks)
        invariant agree0 ==>
                    && spawnerManager.IndexesAgree()
                    && GriefProgress(sp0, li0, tasks0, blocks[..i],
                                     spawnerManager.spawners, spawnerManager.locationIndex, rangeChecker.spawnerTasks)
      {
        var block := blocks[i];
        removed := GriefVisit(block, agree0, sp0, li0, tasks0, blocks[..i], removed);
        assert blocks[..i + 1] == blocks[..i] + [block];
        i := i + 1;
      }
      assert blocks[..|blocks|] == blocks;
    }

    /** One block of the griefing loop, carrying the loop's progress. */
    method GriefVisit(block: Block, ghost agree: bool, ghost sp0: map<string, SpawnerData>,
                      ghost li0: map<LocationKey, SpawnerData>, ghost tasks0: map<string, RangeChecker.ScheduledTask>,
                      ghost prefix: seq<Block>, ghost removed: set<string>)
      returns (ghost removed': set<string>)
      requires rangeChecker.Valid()
      requires WorldsKnown(spawnerManager.spawners)
      requires agree ==>
                 && IdsAndLocationsAgree(sp0, li0)
                 && spawnerManager.IndexesAgree()
                 && GriefProgress(sp0, li0, tasks0, prefix,
                                  spawnerManager.spawners, spawnerManager.locationIndex, rangeChecker.spawnerTasks)
      requires Removed(sp0, li0, tasks0, prefix, removed,
                       spawnerManager.spawners, spawnerManager.locationIndex, rangeChecker.spawnerTasks)
      modifies this`viewerCloses, spawnerManager, rangeChecker`spawnerTasks, rangeChecker`liveTasks
      ensures rangeChecker.Valid()
      ensures WorldsKnown(spawnerManager.spawners)
      ensures viewerCloses == old(viewerCloses)
      ensures Removed(sp0, li0, tasks0, prefix + [block], removed',
                      spawnerManager.spawners, spawnerManager.locationIndex, rangeChecker.spawnerTasks)
      ensures agree ==>
                && spawnerManager.IndexesAgree()
                && GriefProgress(sp0, li0, tasks0, prefix + [block],
                                 spawnerManager.spawners, spawnerManager.locationIndex, rangeChecker.spawnerTasks)
    {
      ghost var sp, li, tasks := spawnerManager.spawners, spawnerManager.locationIndex, rangeChecker.spawnerTasks;
      var _ := VisitBlock(block, true);
      removed' := removed + (if IsRegisteredSpawner(li, block) then {SpawnerAt(li, block).spawnerId} else {});
      RemovedStep(sp0, li0, tasks0, prefix, block, removed, sp, li, tasks,
                  spawnerManager.spawners, spawnerManager.locationIndex, rangeChecker.spawnerTasks);
      if agree {
        GriefStep(sp0, li0, tasks0, prefix, block, sp, li, tasks,
                  spawnerManager.spawners, spawnerManager.locationIndex, rangeChecker.spawnerTasks);
      }
    }

    /** `onEntityExplosion`; `allowGrief` is the configuration flag read for the event. */
    method OnEntityExplosion(event: ExplodeEvent, allowGrief: bool) returns (ghost removed: set<string>)
      requires rangeChecker.Valid()
      requires WorldsKnown(spawnerManager.spawners)
      modifies this`viewerCloses, event`blockList, spawnerManager, rangeChecker`spawnerTasks, rangeChecker`liveTasks
      ensures rangeChecker.Valid()
      ensures !allowGrief ==>
                && event.blockList == Unprotected(old(event.blockList), old(spawnerManager.locationIndex))
                && viewerCloses == old(viewerCloses) + ProtectedIds(old(event.blockList), old(spawnerManager.locationIndex))
                && spawnerManager.spawners == old(spawnerManager.spawners)
                && spawnerManager.locationIndex == old(spawnerManager.locationIndex)
                && spawnerManager.worldIndex == old(spawnerManager.worldIndex)
                && spawnerManager.fileOps == old(spawnerManager.fileOps)
                && rangeChecker.spawnerTasks == old(rangeChecker.spawnerTasks)
                && rangeChecker.liveTasks == old(rangeChecker.liveTasks)
      ensures allowGrief ==>
                && event.blockList == old(event.blockList)
                && viewerCloses == old(viewerCloses)
      ensures allowGrief ==>
                && removed <= ExplodedIds(old(event.blockList), old(spawnerManager.locationIndex))
                && spawnerManager.spawners == old(spawnerManager.spawners) - removed
                && rangeChecker.spawnerTasks == old(rangeChecker.spawnerTasks) - removed
                && Shrunk(spawnerManager.locationIndex, old(spawnerManager.locationIndex))
      ensures allowGrief && old(spawnerManager.IndexesAgree()) ==>
                var gone := ExplodedIds(old(event.blockList), old(spawnerManager.locationIndex));
                && spawnerManager.IndexesAgree()
                && spawnerManager.spawners == old(spawnerManager.spawners) - gone
                && rangeChecker.spawnerTasks == old(rangeChecker.spawnerTasks) - gone
    {
      var blocks := event.blockList;
      ghost var li0 := spawnerManager.locationIndex;
      var blocksToRemove;
      blocksToRemove, removed := ScanBlocks(blocks, allowGrief);
      if !allowGrief {
        RemoveAllProtected(blocks, blocksToRemove, li0);
      } else {
        RemoveAllNothing(blocks);
      }
      event.blockList := RemoveAll(blocks, blocksToRemove);
    }
  }
}

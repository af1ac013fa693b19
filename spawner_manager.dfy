/** The spawner registry (SpawnerManager.java): three hash indexes over the same
    spawner objects, by id, by block location and by world name. The registry does
    not keep the three in agreement by itself; `Consistent` states the agreement the
    design asks for, and each operation says when it keeps it and when it does not. */
module SpawnerRegistry {
  import opened Wrappers
  import opened Spawners

  /** The location index key: world name and block coordinates, compared structurally. */
  datatype LocationKey = LocationKey(world: string, x: int, y: int, z: int)

  /** A record of what was handed to the persistence layer. */
  datatype FileOp = QueueSave(id: string) | DeleteFromFile(id: string)

  predicate HasWorld(s: SpawnerData) {
    s.location.world.Some?
  }

  function WorldName(s: SpawnerData): string
    requires HasWorld(s)
  {
    s.location.world.value
  }

  /** `new LocationKey(location)`: dereferences the world, so it needs one. */
  function KeyOf(loc: Location): (k: LocationKey)
    requires loc.world.Some?
    ensures Some(k.world) == loc.world && k.x == loc.x && k.y == loc.y && k.z == loc.z
  {
    LocationKey(loc.world.value, loc.x, loc.y, loc.z)
  }

  /** Two locations find the same slot exactly when world name and block
      coordinates agree (`equals`/`hashCode` of LocationKey). */
  lemma KeyOfStructural(a: Location, b: Location)
    requires a.world.Some? && b.world.Some?
    ensures KeyOf(a) == KeyOf(b) <==> (a.world == b.world && a.x == b.x && a.y == b.y && a.z == b.z)
  {
  }

  /** `worldIndex.computeIfAbsent(w, k -> new HashSet<>()).add(s)` */
  function WorldAdd(wi: map<string, set<SpawnerData>>, w: string, s: SpawnerData): (r: map<string, set<SpawnerData>>)
    ensures r.Keys == wi.Keys + {w} && s in r[w]
    ensures forall v | v in wi && v != w :: r[v] == wi[v]
  {
    wi[w := (if w in wi then wi[w] else {}) + {s}]
  }

  /** Removal from a world set, dropping the world once its set is empty. */
  function WorldRemove(wi: map<string, set<SpawnerData>>, w: string, s: SpawnerData): (r: map<string, set<SpawnerData>>)
    ensures r.Keys <= wi.Keys
    ensures forall v | v in r :: s !in r[v] || v != w
    ensures forall v | v in r :: r[v] != {} || (v != w && wi[v] == {})
  {
    if w !in wi then wi
    else if wi[w] - {s} == {} then wi - {w}
    else wi[w := wi[w] - {s}]
  }

  /** Only the world `w` is touched, and `w` stays only while its set keeps a member. */
  lemma WorldRemoveFacts(wi: map<string, set<SpawnerData>>, w: string, s: SpawnerData)
    ensures var r := WorldRemove(wi, w, s);
            && (forall v | v in wi && v != w :: v in r && r[v] == wi[v])
            && (w in r <==> w in wi && wi[w] - {s} != {})
            && (w in r ==> r[w] == wi[w] - {s})
            && r.Keys <= wi.Keys
  {
  }

  /** Every stored spawner is stored under its own id, has a world, and owns the
      location slot of its block; every location slot holds a stored spawner at that block. */
  ghost predicate IdsAndLocationsAgree(sp: map<string, SpawnerData>, li: map<LocationKey, SpawnerData>) {
    && (forall id | id in sp ::
          sp[id].spawnerId == id && HasWorld(sp[id])
          && KeyOf(sp[id].location) in li && li[KeyOf(sp[id].location)] == sp[id])
    && (forall k | k in li ::
          li[k].spawnerId in sp && sp[li[k].spawnerId] == li[k]
          && HasWorld(li[k]) && KeyOf(li[k].location) == k)
  }

  /** Every stored spawner is in the set of its world; every world set is non-empty
      and holds only stored spawners of that world. */
  ghost predicate WorldsAgree(sp: map<string, SpawnerData>, wi: map<string, set<SpawnerData>>) {
    && (forall id | id in sp ::
          HasWorld(sp[id]) && WorldName(sp[id]) in wi && sp[id] in wi[WorldName(sp[id])])
    && (forall w | w in wi ::
          wi[w] != {}
          && forall s | s in wi[w] ::
               s.spawnerId in sp && sp[s.spawnerId] == s && HasWorld(s) && WorldName(s) == w)
  }

  /** The three indexes agree: each stored spawner sits in exactly one location
      slot and exactly one world set, and nothing else sits in either. */
  ghost predicate Consistent(sp: map<string, SpawnerData>, li: map<LocationKey, SpawnerData>,
                             wi: map<string, set<SpawnerData>>) {
    IdsAndLocationsAgree(sp, li) && WorldsAgree(sp, wi)
  }

  /** The stored spawners of world `w`. */
  ghost function InWorld(sp: map<string, SpawnerData>, w: string): set<SpawnerData> {
    set s | s in sp.Values && HasWorld(s) && WorldName(s) == w
  }

  /** The world index a full rebuild produces from a set of spawners. */
  ghost function GroupByWorld(S: set<SpawnerData>): (r: map<string, set<SpawnerData>>)
    requires forall s | s in S :: HasWorld(s)
  {
    map w | w in WorldsIn(S) :: set s | s in S && WorldName(s) == w
  }

  /** The world names of a set of spawners. */
  ghost function WorldsIn(S: set<SpawnerData>): set<string>
    requires forall s | s in S :: HasWorld(s)
  {
    set s | s in S :: WorldName(s)
  }

  /** Sum of stack sizes over a set of spawners. */
  ghost function SumStacks(S: set<SpawnerData>): int
    reads S
  {
    if S == {} then 0 else var s :| s in S; s.stackSize + SumStacks(S - {s})
  }

  /** The sum does not depend on which element is taken first. */
  lemma {:induction false} SumStacksRemove(S: set<SpawnerData>, s: SpawnerData)
    requires s in S
    ensures SumStacks(S) == s.stackSize + SumStacks(S - {s})
    decreases |S|
  {
    var t :| t in S && SumStacks(S) == t.stackSize + SumStacks(S - {t});
    if t != s {
      SumStacksRemove(S - {t}, s);
      SumStacksRemove(S - {s}, t);
      assert S - {t} - {s} == S - {s} - {t};
    }
  }

  lemma AddKeepsIdsAndLocations(sp: map<string, SpawnerData>, li: map<LocationKey, SpawnerData>,
                                id: string, s: SpawnerData)
    requires IdsAndLocationsAgree(sp, li)
    requires HasWorld(s) && s.spawnerId == id && id !in sp && KeyOf(s.location) !in li
    ensures IdsAndLocationsAgree(sp[id := s], li[KeyOf(s.location) := s])
  {
  }

  lemma AddKeepsWorlds(sp: map<string, SpawnerData>, wi: map<string, set<SpawnerData>>, id: string, s: SpawnerData)
    requires WorldsAgree(sp, wi)
    requires HasWorld(s) && s.spawnerId == id && id !in sp
    ensures WorldsAgree(sp[id := s], WorldAdd(wi, WorldName(s), s))
  {
    var sp', wi' := sp[id := s], WorldAdd(wi, WorldName(s), s);
    forall w | w in wi'
      ensures forall t: SpawnerData | t in wi'[w] :: t.spawnerId in sp' && sp'[t.spawnerId] == t && HasWorld(t) && WorldName(t) == w
    {
      forall t: SpawnerData | t in wi'[w]
        ensures t.spawnerId in sp' && sp'[t.spawnerId] == t && HasWorld(t) && WorldName(t) == w
      {
        if t != s {
          assert w in wi && t in wi[w];
        }
      }
    }
  }

  /** Inserting a spawner under a fresh id at a free block keeps the indexes in agreement. */
  lemma AddKeepsConsistent(sp: map<string, SpawnerData>, li: map<LocationKey, SpawnerData>,
                           wi: map<string, set<SpawnerData>>, id: string, s: SpawnerData)
    requires Consistent(sp, li, wi)
    requires HasWorld(s) && s.spawnerId == id && id !in sp && KeyOf(s.location) !in li
    ensures Consistent(sp[id := s], li[KeyOf(s.location) := s], WorldAdd(wi, WorldName(s), s))
  {
    AddKeepsIdsAndLocations(sp, li, id, s);
    AddKeepsWorlds(sp, wi, id, s);
  }

  /** Without a collision check, re-adding an id whose old spawner stands at another
      block leaves the old spawner in the location index: agreement is lost. */
  lemma AddOverwriteBreaksConsistency(sp: map<string, SpawnerData>, li: map<LocationKey, SpawnerData>,
                                      wi: map<string, set<SpawnerData>>, id: string, s: SpawnerData)
    requires Consistent(sp, li, wi)
    requires HasWorld(s) && id in sp && sp[id] != s && KeyOf(sp[id].location) != KeyOf(s.location)
    ensures !Consistent(sp[id := s], li[KeyOf(s.location) := s], WorldAdd(wi, WorldName(s), s))
  {
    var old_ := sp[id];
    var k := KeyOf(old_.location);
    var sp', li' := sp[id := s], li[KeyOf(s.location) := s];
    assert k in li' && li'[k] == old_ && old_.spawnerId == id;
    assert sp'[id] != old_;
  }

  lemma RemoveKeepsIdsAndLocations(sp: map<string, SpawnerData>, li: map<LocationKey, SpawnerData>, id: string)
    requires IdsAndLocationsAgree(sp, li) && id in sp
    ensures IdsAndLocationsAgree(sp - {id}, li - {KeyOf(sp[id].location)})
  {
    var s := sp[id];
    var sp', li' := sp - {id}, li - {KeyOf(s.location)};
    forall j | j in sp'
      ensures KeyOf(sp'[j].location) in li' && li'[KeyOf(sp'[j].location)] == sp'[j]
    {
      assert sp[j].spawnerId == j && s.spawnerId == id;
    }
  }

  lemma RemoveKeepsWorlds(sp: map<string, SpawnerData>, wi: map<string, set<SpawnerData>>, id: string)
    requires WorldsAgree(sp, wi) && id in sp && sp[id].spawnerId == id
    requires forall j | j in sp :: sp[j].spawnerId == j
    ensures WorldsAgree(sp - {id}, WorldRemove(wi, WorldName(sp[id]), sp[id]))
  {
    var s := sp[id];
    var sp', wi' := sp - {id}, WorldRemove(wi, WorldName(s), s);
    WorldRemoveFacts(wi, WorldName(s), s);
    forall j | j in sp'
      ensures WorldName(sp'[j]) in wi' && sp'[j] in wi'[WorldName(sp'[j])]
    {
      assert sp[j].spawnerId == j;
      assert sp[j] != s;
      assert sp[j] in wi[WorldName(sp[j])];
      assert sp[j] in wi[WorldName(sp[j])] - {s};
    }
  }

  /** Removing a stored spawner from all three indexes keeps them in agreement. */
  lemma RemoveKeepsConsistent(sp: map<string, SpawnerData>, li: map<LocationKey, SpawnerData>,
                              wi: map<string, set<SpawnerData>>, id: string)
    requires Consistent(sp, li, wi) && id in sp
    ensures Consistent(sp - {id}, li - {KeyOf(sp[id].location)}, WorldRemove(wi, WorldName(sp[id]), sp[id]))
  {
    RemoveKeepsIdsAndLocations(sp, li, id);
    RemoveKeepsWorlds(sp, wi, id);
  }

  lemma RemoveKeepsConsistentIf(sp: map<string, SpawnerData>, li: map<LocationKey, SpawnerData>,
                                wi: map<string, set<SpawnerData>>, id: string)
    requires id in sp && HasWorld(sp[id])
    ensures Consistent(sp, li, wi) ==>
              Consistent(sp - {id}, li - {KeyOf(sp[id].location)}, WorldRemove(wi, WorldName(sp[id]), sp[id]))
  {
    if Consistent(sp, li, wi) {
      RemoveKeepsConsistent(sp, li, wi, id);
    }
  }

  /** Under agreement the world index is exactly the grouping of the stored spawners by world. */
  lemma {:induction false} WorldIndexIsGrouping(sp: map<string, SpawnerData>, li: map<LocationKey, SpawnerData>,
                                                wi: map<string, set<SpawnerData>>, w: string)
    requires Consistent(sp, li, wi)
    ensures w in wi ==> wi[w] == InWorld(sp, w)
    ensures w !in wi ==> InWorld(sp, w) == {}
  {
    forall s | s in InWorld(sp, w) ensures w in wi && s in wi[w] {
      var id :| id in sp && sp[id] == s;
    }
  }

  /** The world index obtained by grouping agrees with any id index whose spawners all have a world. */
  lemma GroupingAgrees(sp: map<string, SpawnerData>)
    requires forall id | id in sp :: sp[id].spawnerId == id && HasWorld(sp[id])
    ensures WorldsAgree(sp, GroupByWorld(sp.Values))
  {
    var g := GroupByWorld(sp.Values);
    forall id | id in sp ensures WorldName(sp[id]) in g && sp[id] in g[WorldName(sp[id])] {
      assert sp[id] in sp.Values;
    }
    forall w | w in g
      ensures g[w] != {}
      ensures forall s: SpawnerData | s in g[w] :: s.spawnerId in sp && sp[s.spawnerId] == s
    {
      var t :| t in sp.Values && WorldName(t) == w;
      assert t in g[w];
      forall s: SpawnerData | s in g[w] ensures s.spawnerId in sp && sp[s.spawnerId] == s {
        var id :| id in sp && sp[id] == s;
      }
    }
  }

  /** Growing the grouped set by one spawner is one `computeIfAbsent(...).add`. */
  lemma GroupAddOne(D: set<SpawnerData>, s: SpawnerData)
    requires forall t | t in D :: HasWorld(t)
    requires HasWorld(s)
    ensures GroupByWorld(D + {s}) == WorldAdd(GroupByWorld(D), WorldName(s), s)
  {
    var a, b := GroupByWorld(D + {s}), WorldAdd(GroupByWorld(D), WorldName(s), s);
    assert a.Keys == b.Keys by {
      forall w | w in b ensures w in a {
        if w != WorldName(s) {
          var t :| t in D && WorldName(t) == w;
          assert t in D + {s};
        }
      }
    }
    forall w | w in a ensures a[w] == b[w] {
    }
  }

  /** A cleared id index and location index next to a non-empty world index disagree. */
  lemma CleanupLeavesWorldIndexStale(wi: map<string, set<SpawnerData>>)
    requires wi != map[]
    ensures !Consistent(map[], map[], wi)
  {
    var w :| w in wi;
    if wi[w] != {} {
      var s :| s in wi[w];
    }
  }

  /** Folds of a loaded entry list into the three indexes, entry by entry. */
  function IdsOf(entries: seq<(string, SpawnerData)>): map<string, SpawnerData> {
    if entries == [] then map[]
    else IdsOf(entries[..|entries| - 1])[entries[|entries| - 1].0 := entries[|entries| - 1].1]
  }

  predicate AllHaveWorld(entries: seq<(string, SpawnerData)>) {
    forall i | 0 <= i < |entries| :: HasWorld(entries[i].1)
  }

  function LocationsOf(entries: seq<(string, SpawnerData)>): map<LocationKey, SpawnerData>
    requires AllHaveWorld(entries)
  {
    if entries == [] then map[]
    else LocationsOf(entries[..|entries| - 1])[KeyOf(entries[|entries| - 1].1.location) := entries[|entries| - 1].1]
  }

  function WorldsOf(entries: seq<(string, SpawnerData)>): map<string, set<SpawnerData>>
    requires AllHaveWorld(entries)
  {
    if entries == [] then map[]
    else WorldAdd(WorldsOf(entries[..|entries| - 1]), WorldName(entries[|entries| - 1].1), entries[|entries| - 1].1)
  }

  /** Index of the first loaded spawner without a world, or the length when there is none. */
  function FirstWithoutWorld(entries: seq<(string, SpawnerData)>): (p: nat)
    ensures p <= |entries| && AllHaveWorld(entries[..p])
    ensures p < |entries| ==> !HasWorld(entries[p].1)
  {
    if entries == [] then 0
    else if !HasWorld(entries[0].1) then 0
    else
      var q := FirstWithoutWorld(entries[1..]);
      assert entries[..q + 1] == [entries[0]] + entries[1..][..q];
      q + 1
  }

  /** One step of the load loop: entry `i` stops the load exactly when it is the
      first entry without a world. */
  lemma LoadStep(entries: seq<(string, SpawnerData)>, i: nat)
    requires i <= FirstWithoutWorld(entries) && i < |entries|
    ensures i == FirstWithoutWorld(entries) <==> !HasWorld(entries[i].1)
    ensures HasWorld(entries[i].1) ==> AllHaveWorld(entries[..i + 1])
  {
    var p := FirstWithoutWorld(entries);
    if i < p {
      assert entries[..p][i] == entries[i];
      var grown := entries[..i + 1];
      forall j | 0 <= j < |grown| ensures HasWorld(grown[j].1) {
        assert grown[j] == entries[..p][j];
      }
    }
  }

  /** The indexes of a prefix one entry longer. */
  lemma PrefixStep(entries: seq<(string, SpawnerData)>, i: nat)
    requires i < |entries|
    ensures IdsOf(entries[..i + 1]) == IdsOf(entries[..i])[entries[i].0 := entries[i].1]
    ensures AllHaveWorld(entries[..i + 1]) ==>
              && LocationsOf(entries[..i + 1]) == LocationsOf(entries[..i])[KeyOf(entries[i].1.location) := entries[i].1]
              && WorldsOf(entries[..i + 1]) == WorldAdd(WorldsOf(entries[..i]), WorldName(entries[i].1), entries[i].1)
  {
    var grown := entries[..i + 1];
    assert grown[..i] == entries[..i] && grown[i] == entries[i];
  }

  /** Entries with distinct ids (keys of the loaded map), each stored under its own id,
      at distinct blocks, all with a world. */
  ghost predicate WellFormedLoad(entries: seq<(string, SpawnerData)>) {
    && AllHaveWorld(entries)
    && (forall i | 0 <= i < |entries| :: entries[i].1.spawnerId == entries[i].0)
    && (forall i, j | 0 <= i < j < |entries| :: entries[i].0 != entries[j].0)
    && (forall i, j | 0 <= i < j < |entries| ::
          KeyOf(entries[i].1.location) != KeyOf(entries[j].1.location))
  }

  /** Loading entries with distinct ids at distinct blocks yields agreeing indexes. */
  lemma {:induction false} LoadedIndexesAgree(entries: seq<(string, SpawnerData)>)
    requires WellFormedLoad(entries)
    ensures Consistent(IdsOf(entries), LocationsOf(entries), WorldsOf(entries))
    decreases |entries|
  {
    if entries != [] {
      var n := |entries| - 1;
      var init := entries[..n];
      assert WellFormedLoad(init);
      LoadedIndexesAgree(init);
      var e := entries[n];
      assert e.0 !in IdsOf(init) by { IdsOfKeys(init); }
      assert KeyOf(e.1.location) !in LocationsOf(init) by { LocationsOfKeys(init); }
      AddKeepsConsistent(IdsOf(init), LocationsOf(init), WorldsOf(init), e.0, e.1);
    }
  }

  lemma {:induction false} IdsOfKeys(entries: seq<(string, SpawnerData)>)
    ensures IdsOf(entries).Keys == set i | 0 <= i < |entries| :: entries[i].0
    decreases |entries|
  {
    if entries != [] {
      var n := |entries| - 1;
      IdsOfKeys(entries[..n]);
      assert forall i | 0 <= i < n :: entries[..n][i] == entries[i];
    }
  }

  lemma {:induction false} LocationsOfKeys(entries: seq<(string, SpawnerData)>)
    requires AllHaveWorld(entries)
    ensures LocationsOf(entries).Keys == set i | 0 <= i < |entries| :: KeyOf(entries[i].1.location)
    decreases |entries|
  {
    if entries != [] {
      var n := |entries| - 1;
      assert AllHaveWorld(entries[..n]);
      LocationsOfKeys(entries[..n]);
      assert forall i | 0 <= i < n :: entries[..n][i] == entries[i];
    }
  }

  /** The listing loop's state: `r` holds the spawners of the ids in `ids`, which
      are the visited ids, each once. */
  ghost predicate ListProgress(sp: map<string, SpawnerData>, todo: set<string>, ids: seq<string>,
                               r: seq<SpawnerData>) {
    && todo <= sp.Keys
    && |r| == |ids| && |r| + |todo| == |sp|
    && (forall i | 0 <= i < |ids| :: ids[i] in sp && ids[i] !in todo && r[i] == sp[ids[i]])
    && (forall i, j | 0 <= i < j < |ids| :: ids[i] != ids[j])
    && (forall id | id in sp && id !in todo :: sp[id] in r)
  }

  lemma ListStep(sp: map<string, SpawnerData>, todo: set<string>, ids: seq<string>, r: seq<SpawnerData>, id: string)
    requires ListProgress(sp, todo, ids, r) && id in todo
    ensures ListProgress(sp, todo - {id}, ids + [id], r + [sp[id]])
  {
  }

  lemma ListDone(sp: map<string, SpawnerData>, ids: seq<string>, r: seq<SpawnerData>)
    requires ListProgress(sp, {}, ids, r)
    ensures |r| == |sp|
    ensures forall s :: s in r <==> s in sp.Values
  {
    forall s | s in sp.Values ensures s in r {
      var id :| id in sp && sp[id] == s;
    }
  }

  /** Under agreeing indexes every stored spawner carries its own id, so the list repeats none. */
  lemma ListDistinct(sp: map<string, SpawnerData>, li: map<LocationKey, SpawnerData>, ids: seq<string>,
                     r: seq<SpawnerData>)
    requires IdsAndLocationsAgree(sp, li)
    requires ListProgress(sp, {}, ids, r)
    ensures forall i, j | 0 <= i < j < |r| :: r[i] != r[j]
  {
    forall i, j | 0 <= i < j < |r| ensures r[i] != r[j] {
      assert r[i].spawnerId == ids[i] && r[j].spawnerId == ids[j];
    }
  }

  /** The grouping loop's state: `wi` groups the spawners already visited. */
  ghost predicate GroupProgress(all: set<SpawnerData>, todo: set<SpawnerData>, done: set<SpawnerData>,
                                wi: map<string, set<SpawnerData>>) {
    && (forall s | s in all :: HasWorld(s))
    && done + todo == all && done !! todo
    && wi == GroupByWorld(done)
  }

  lemma GroupStep(all: set<SpawnerData>, todo: set<SpawnerData>, done: set<SpawnerData>,
                  wi: map<string, set<SpawnerData>>, s: SpawnerData)
    requires GroupProgress(all, todo, done, wi) && s in todo
    ensures HasWorld(s)
    ensures GroupProgress(all, todo - {s}, done + {s}, WorldAdd(wi, WorldName(s), s))
  {
    GroupAddOne(done, s);
  }

  class SpawnerManager {
    var spawners: map<string, SpawnerData>
    var locationIndex: map<LocationKey, SpawnerData>
    var worldIndex: map<string, set<SpawnerData>>
    /** Requests made to the file handler, in order (persistence itself is not modelled). */
    ghost var fileOps: seq<FileOp>

    ghost predicate IndexesAgree()
      reads this
    {
      Consistent(spawners, locationIndex, worldIndex)
    }

    constructor ()
      ensures spawners == map[] && locationIndex == map[] && worldIndex == map[] && fileOps == []
      ensures IndexesAgree()
    {
      spawners, locationIndex, worldIndex := map[], map[], map[];
      fileOps := [];
    }

    /** `addSpawner`: overwrites the id slot and the location slot without any check. */
    method AddSpawner(id: string, s: SpawnerData)
      requires HasWorld(s)
      modifies this
      ensures spawners == old(spawners)[id := s]
      ensures locationIndex == old(locationIndex)[KeyOf(s.location) := s]
      ensures worldIndex == WorldAdd(old(worldIndex), WorldName(s), s)
      ensures spawners[id] == s && locationIndex[KeyOf(s.location)] == s && s in worldIndex[WorldName(s)]
      ensures fileOps == old(fileOps) + [QueueSave(id)]
      ensures (old(IndexesAgree()) && s.spawnerId == id && id !in old(spawners)
               && KeyOf(s.location) !in old(locationIndex)) ==> IndexesAgree()
    {
      if IndexesAgree() && s.spawnerId == id && id !in spawners && KeyOf(s.location) !in locationIndex {
        AddKeepsConsistent(spawners, locationIndex, worldIndex, id, s);
      }
      spawners := spawners[id := s];
      locationIndex := locationIndex[KeyOf(s.location) := s];
      var worldName := WorldName(s);
      worldIndex := WorldAdd(worldIndex, worldName, s);
      fileOps := fileOps + [QueueSave(id)];
    }

    /** `removeSpawner`: a no-op on the indexes for an absent id; the file delete is issued either way. */
    method RemoveSpawner(id: string)
      requires id in spawners ==> HasWorld(spawners[id])
      modifies this
      ensures id !in old(spawners) ==>
                spawners == old(spawners) && locationIndex == old(locationIndex) && worldIndex == old(worldIndex)
      ensures id in old(spawners) ==>
                && spawners == old(spawners) - {id}
                && locationIndex == old(locationIndex) - {KeyOf(old(spawners)[id].location)}
                && worldIndex == WorldRemove(old(worldIndex), WorldName(old(spawners)[id]), old(spawners)[id])
      ensures id !in spawners
      ensures fileOps == old(fileOps) + [DeleteFromFile(id)]
      ensures old(IndexesAgree()) ==> IndexesAgree()
    {
      if id in spawners {
        var s := spawners[id];
        ghost var sp, li, wi := spawners, locationIndex, worldIndex;
        locationIndex := locationIndex - {KeyOf(s.location)};
        var worldName := WorldName(s);
        worldIndex := WorldRemove(worldIndex, worldName, s);
        spawners := spawners - {id};
        RemoveKeepsConsistentIf(sp, li, wi, id);
      }
      fileOps := fileOps + [DeleteFromFile(id)];
    }

    /** `countSpawnersInWorld`: the size of the world's set, 0 when the world is absent. */
    method CountSpawnersInWorld(worldName: string) returns (n: int)
      ensures n == if worldName in worldIndex then |worldIndex[worldName]| else 0
      ensures IndexesAgree() ==> n == |InWorld(spawners, worldName)|
    {
      if IndexesAgree() {
        WorldIndexIsGrouping(spawners, locationIndex, worldIndex, worldName);
      }
      n := if worldName in worldIndex then |worldIndex[worldName]| else 0;
    }

    /** `countTotalSpawnersWithStacks`: the sum of stack sizes in the world's set, 0 when absent. */
    method CountTotalSpawnersWithStacks(worldName: string) returns (n: int)
      ensures n == if worldName in worldIndex then SumStacks(worldIndex[worldName]) else 0
      ensures IndexesAgree() ==> n == SumStacks(InWorld(spawners, worldName))
    {
      if IndexesAgree() {
        WorldIndexIsGrouping(spawners, locationIndex, worldIndex, worldName);
      }
      if worldName !in worldIndex {
        return 0;
      }
      var todo := worldIndex[worldName];
      n := 0;
      while todo != {}
        invariant todo <= worldIndex[worldName]
        invariant n + SumStacks(todo) == SumStacks(worldIndex[worldName])
        decreases |todo|
      {
        var s :| s in todo;
        SumStacksRemove(todo, s);
        n := n + s.stackSize;
        todo := todo - {s};
      }
    }

    /** `reindexWorlds`: rebuilds the world index from the id index. */
    method ReindexWorlds()
      requires forall id | id in spawners :: HasWorld(spawners[id])
      modifies this`worldIndex
      ensures worldIndex == GroupByWorld(spawners.Values)
      ensures (forall id | id in spawners :: spawners[id].spawnerId == id) ==> WorldsAgree(spawners, worldIndex)
      ensures IdsAndLocationsAgree(spawners, locationIndex) ==> IndexesAgree()
    {
      worldIndex := GroupWorlds(spawners.Values);
      if forall id | id in spawners :: spawners[id].spawnerId == id {
        GroupingAgrees(spawners);
      }
    }

    /** The loop of `reindexWorlds`: files each spawner under its world's name. */
    static method GroupWorlds(all: set<SpawnerData>) returns (wi: map<string, set<SpawnerData>>)
      requires forall s | s in all :: HasWorld(s)
      ensures wi == GroupByWorld(all)
    {
      var todo := all;
      ghost var done: set<SpawnerData> := {};
      wi := map[];
      while todo != {}
        invariant GroupProgress(all, todo, done, wi)
        decreases |todo|
      {
        var s :| s in todo;
        GroupStep(all, todo, done, wi, s);
        wi := WorldAdd(wi, WorldName(s), s);
        done := done + {s};
        todo := todo - {s};
      }
    }

    /** `getSpawnerByLocation`: structural lookup on world name and block coordinates. */
    method GetSpawnerByLocation(loc: Location) returns (r: Option<SpawnerData>)
      requires loc.world.Some?
      ensures r.Some? <==> KeyOf(loc) in locationIndex
      ensures r.Some? ==> r.value == locationIndex[KeyOf(loc)]
      ensures IndexesAgree() && r.Some? ==>
                r.value.spawnerId in spawners && spawners[r.value.spawnerId] == r.value
                && r.value.location.world == loc.world && r.value.location.x == loc.x
                && r.value.location.y == loc.y && r.value.location.z == loc.z
    {
      var key := KeyOf(loc);
      r := if key in locationIndex then Some(locationIndex[key]) else None;
    }

    /** `getSpawnerById` */
    method GetSpawnerById(id: string) returns (r: Option<SpawnerData>)
      ensures r.Some? <==> id in spawners
      ensures r.Some? ==> r.value == spawners[id]
      ensures IndexesAgree() && r.Some? ==> r.value.spawnerId == id
    {
      r := if id in spawners then Some(spawners[id]) else None;
    }

    /** `getAllSpawners`: a new list holding each id slot's spawner once. The list is a
        value, so changing it cannot change the registry. */
    method GetAllSpawners() returns (r: seq<SpawnerData>)
      ensures |r| == |spawners|
      ensures forall s :: s in r <==> s in spawners.Values
      ensures IndexesAgree() ==> forall i, j | 0 <= i < j < |r| :: r[i] != r[j]
    {
      var todo := spawners.Keys;
      ghost var ids: seq<string> := [];
      r := [];
      while todo != {}
        invariant ListProgress(spawners, todo, ids, r)
        decreases |todo|
      {
        var id :| id in todo;
        ListStep(spawners, todo, ids, r, id);
        r := r + [spawners[id]];
        ids := ids + [id];
        todo := todo - {id};
      }
      ListDone(spawners, ids, r);
      if IndexesAgree() {
        ListDistinct(spawners, locationIndex, ids, r);
      }
    }

    /** `loadSpawnerData`: clears the three indexes and rebuilds them from the loaded
        entries (in the loaded map's iteration order). The location key is built
        before the world is tested, so the first spawner without a world raises a
        NullPointerException (`ok == false`) after its id slot was written, and the
        source's skip of the world index for such spawners is never reached. */
    method LoadSpawnerData(loaded: seq<(string, SpawnerData)>) returns (ok: bool)
      modifies this
      ensures var p := FirstWithoutWorld(loaded);
              && ok == (p == |loaded|)
              && spawners == (if ok then IdsOf(loaded) else IdsOf(loaded[..p])[loaded[p].0 := loaded[p].1])
              && locationIndex == LocationsOf(loaded[..p])
              && worldIndex == WorldsOf(loaded[..p])
      ensures WellFormedLoad(loaded) ==> ok && IndexesAgree()
      ensures fileOps == old(fileOps)
    {
      spawners, locationIndex, worldIndex := map[], map[], map[];
      ghost var p := FirstWithoutWorld(loaded);
      var i := 0;
      while i < |loaded|
        invariant 0 <= i <= p
        invariant spawners == IdsOf(loaded[..i])
        invariant locationIndex == LocationsOf(loaded[..i]) && worldIndex == WorldsOf(loaded[..i])
        invariant fileOps == old(fileOps)
      {
        var (spawnerId, spawner) := loaded[i];
        LoadStep(loaded, i);
        PrefixStep(loaded, i);
        spawners := spawners[spawnerId := spawner];
        if spawner.location.world.None? {
          return false;
        }
        locationIndex := locationIndex[KeyOf(spawner.location) := spawner];
        var worldName := spawner.location.world.value;
        worldIndex := WorldAdd(worldIndex, worldName, spawner);
        i := i + 1;
      }
      assert loaded[..i] == loaded;
      ok := true;
      if WellFormedLoad(loaded) {
        LoadedIndexesAgree(loaded);
      }
    }

    /** `cleanupAllSpawners`: empties the id and location indexes; the world index is left as it was. */
    method CleanupAllSpawners()
      modifies this
      ensures spawners == map[] && locationIndex == map[] && worldIndex == old(worldIndex)
      ensures IndexesAgree() <==> worldIndex == map[]
      ensures fileOps == old(fileOps)
    {
      spawners := map[];
      locationIndex := map[];
      if worldIndex != map[] {
        CleanupLeavesWorldIndexStale(worldIndex);
      }
    }
  }
}

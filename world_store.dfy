/**
 * The JSON-backed world state of modules/world_state.py: three insertion-
 * ordered dicts (locations, factions, NPCs keyed by record id), each
 * persisted in its own file and fully rewritten after every effective
 * mutation. The file system is a map from path to file contents; JSON text
 * itself is not modelled, only what a file decodes to.
 */
module WorldStore {
  import opened Wrappers
  import opened Records
  import opened Dicts

  /** The three paths of config.py. */
  const LocationsFile := "data/world_state.json"
  const FactionsFile := "data/factions.json"
  const NpcsFile := "data/npcs.json"

  /** A decoded top-level JSON object: which of the three collection keys it has. */
  datatype JsonDoc = JsonDoc(
    locations: Option<seq<Location>>,
    factions: Option<seq<Faction>>,
    npcs: Option<seq<NPC>>)

  /** `{}`. */
  const EmptyDoc := JsonDoc(None, None, None)

  /** The contents of an existing file: zero bytes, text that is not valid
      JSON, or a decoded document. A path missing from the disk map has no file. */
  datatype FileData = Blank | Corrupt | Json(doc: JsonDoc)

  type Disk = map<string, FileData>

  /** `_safe_read(path)`: a missing, zero-size or undecodable file reads as `{}`. */
  function SafeRead(disk: Disk, path: string): (doc: JsonDoc)
    ensures path !in disk || disk[path] == Blank || disk[path] == Corrupt ==> doc == EmptyDoc
    ensures path in disk && disk[path].Json? ==> doc == disk[path].doc
  {
    if path in disk && disk[path].Json? then disk[path].doc else EmptyDoc
  }

  function LocationKey(l: Location): string { l.id }
  function FactionKey(f: Faction): string { f.id }
  function NpcKey(n: NPC): string { n.id }

  /** `{o["id"]: Location(**o) for o in locations.get("locations", [])}`. */
  function LoadLocations(disk: Disk): (d: Dict<Location>)
    ensures SafeRead(disk, LocationsFile).locations == None ==> d.order == [] && d.entries == map[]
  {
    FromList(SafeRead(disk, LocationsFile).locations.GetOr([]), LocationKey)
  }

  function LoadFactions(disk: Disk): (d: Dict<Faction>)
    ensures SafeRead(disk, FactionsFile).factions == None ==> d.order == [] && d.entries == map[]
  {
    FromList(SafeRead(disk, FactionsFile).factions.GetOr([]), FactionKey)
  }

  function LoadNpcs(disk: Disk): (d: Dict<NPC>)
    ensures SafeRead(disk, NpcsFile).npcs == None ==> d.order == [] && d.entries == map[]
  {
    FromList(SafeRead(disk, NpcsFile).npcs.GetOr([]), NpcKey)
  }

  /** The disk after `_save`: each file holds its one collection, in dict order. */
  function SavedDisk(disk: Disk, locs: Dict<Location>, facs: Dict<Faction>, npcs: Dict<NPC>): (out: Disk)
    requires locs.Valid() && facs.Valid() && npcs.Valid()
    ensures out.Keys == disk.Keys + {LocationsFile, FactionsFile, NpcsFile}
    ensures forall path :: path in disk && path !in {LocationsFile, FactionsFile, NpcsFile} ==> out[path] == disk[path]
  {
    disk[LocationsFile := Json(JsonDoc(Some(Values(locs)), None, None))]
        [FactionsFile := Json(JsonDoc(None, Some(Values(facs)), None))]
        [NpcsFile := Json(JsonDoc(None, None, Some(Values(npcs))))]
  }

  /** Every loaded store satisfies the key = id invariant. */
  lemma {:induction false} LoadIsKeyed(disk: Disk)
    ensures LoadLocations(disk).Valid() && KeyedBy(LoadLocations(disk), LocationKey)
    ensures LoadFactions(disk).Valid() && KeyedBy(LoadFactions(disk), FactionKey)
    ensures LoadNpcs(disk).Valid() && KeyedBy(LoadNpcs(disk), NpcKey)
  {
  }

  /** Round trip: loading what `_save` wrote gives back the same three dicts,
      entries and order, when every entry is stored under its own id. */
  lemma {:induction false} SaveThenLoad(disk: Disk, locs: Dict<Location>, facs: Dict<Faction>, npcs: Dict<NPC>)
    requires locs.Valid() && facs.Valid() && npcs.Valid()
    requires KeyedBy(locs, LocationKey) && KeyedBy(facs, FactionKey) && KeyedBy(npcs, NpcKey)
    ensures LocationsFile in SavedDisk(disk, locs, facs, npcs)
    ensures LoadLocations(SavedDisk(disk, locs, facs, npcs)) == locs
    ensures LoadFactions(SavedDisk(disk, locs, facs, npcs)) == facs
    ensures LoadNpcs(SavedDisk(disk, locs, facs, npcs)) == npcs
  {
    var saved := SavedDisk(disk, locs, facs, npcs);
    SavedFiles(disk, locs, facs, npcs);
    FromValues(locs, LocationKey);
    FromValues(facs, FactionKey);
    FromValues(npcs, NpcKey);
  }

  lemma {:induction false} SavedFiles(disk: Disk, locs: Dict<Location>, facs: Dict<Faction>, npcs: Dict<NPC>)
    requires locs.Valid() && facs.Valid() && npcs.Valid()
    ensures var saved := SavedDisk(disk, locs, facs, npcs);
      && SafeRead(saved, LocationsFile).locations == Some(Values(locs))
      && SafeRead(saved, FactionsFile).factions == Some(Values(facs))
      && SafeRead(saved, NpcsFile).npcs == Some(Values(npcs))
  {
    assert LocationsFile != FactionsFile && LocationsFile != NpcsFile && FactionsFile != NpcsFile by {
      assert LocationsFile[5] == 'w' && FactionsFile[5] == 'f' && NpcsFile[5] == 'n';
    }
  }

  /** A location record loaded from a file whose list names its id more than
      once is the last one with that id. */
  lemma {:induction false} LaterRecordWins(disk: Disk, i: nat)
    requires var ls := SafeRead(disk, LocationsFile).locations.GetOr([]);
      i < |ls| && forall j :: i < j < |ls| ==> ls[j].id != ls[i].id
    ensures var ls := SafeRead(disk, LocationsFile).locations.GetOr([]);
      LoadLocations(disk).entries[ls[i].id] == ls[i]
  {
    FromListLastWins(SafeRead(disk, LocationsFile).locations.GetOr([]), LocationKey, i);
  }

  /** The locations among `ls` whose parent is `parentId`, in order. */
  function Children(ls: seq<Location>, parentId: string): (r: seq<Location>)
    ensures forall l :: l in r <==> l in ls && l.parentLocation == parentId
    ensures |r| <= |ls|
    ensures (forall j :: 0 <= j < |ls| ==> ls[j].parentLocation == parentId) ==> r == ls
  {
    if ls == [] then []
    else (if ls[0].parentLocation == parentId then [ls[0]] else []) + Children(ls[1..], parentId)
  }

  /** `Children` filters piecewise, so the children keep their order. */
  lemma {:induction false} ChildrenAppend(a: seq<Location>, b: seq<Location>, parentId: string)
    ensures Children(a + b, parentId) == Children(a, parentId) + Children(b, parentId)
    decreases |a|
  {
    if a == [] {
      assert a + b == b;
    } else {
      assert (a + b)[0] == a[0];
      assert (a + b)[1..] == a[1..] + b;
      ChildrenAppend(a[1..], b, parentId);
    }
  }

  class WorldState {
    var locations: Dict<Location>
    var factions: Dict<Faction>
    var npcs: Dict<NPC>
    /** The files this store reads and rewrites. */
    var disk: Disk

    /** Each dict is well formed and stores every record under its own id. */
    ghost predicate Valid()
      reads this
    {
      && locations.Valid() && factions.Valid() && npcs.Valid()
      && KeyedBy(locations, LocationKey) && KeyedBy(factions, FactionKey) && KeyedBy(npcs, NpcKey)
    }

    /** `WorldState()`: start from empty dicts and `_load` from `disk0`. */
    constructor (disk0: Disk)
      ensures Valid()
      ensures LocationsFile !in disk0 ==>
        && locations == Empty() && factions == Empty() && npcs == Empty()
        && disk == SavedDisk(disk0, Empty(), Empty(), Empty())
      ensures LocationsFile in disk0 ==>
        && locations == LoadLocations(disk0) && factions == LoadFactions(disk0)
        && npcs == LoadNpcs(disk0) && disk == disk0
    {
      locations, factions, npcs := Empty(), Empty(), Empty();
      disk := disk0;
      new;
      Load();
    }

    /** `_load`: without a locations file, write the current dicts out as the
        scaffold (all three files, so existing faction and NPC files are
        overwritten); otherwise rebuild all three dicts from the files. */
    method Load()
      requires Valid()
      modifies this
      ensures Valid()
      ensures LocationsFile !in old(disk) ==>
        && locations == old(locations) && factions == old(factions) && npcs == old(npcs)
        && disk == SavedDisk(old(disk), locations, factions, npcs)
      ensures LocationsFile in old(disk) ==>
        && locations == LoadLocations(disk) && factions == LoadFactions(disk)
        && npcs == LoadNpcs(disk) && disk == old(disk)
    {
      if LocationsFile !in disk {
        Save();
        return;
      }
      LoadIsKeyed(disk);
      locations := LoadLocations(disk);
      factions := LoadFactions(disk);
      npcs := LoadNpcs(disk);
    }

    /** `_save`: rewrite all three files from the dicts. */
    method Save()
      requires Valid()
      modifies this`disk
      ensures disk == SavedDisk(old(disk), locations, factions, npcs)
    {
      disk := SavedDisk(disk, locations, factions, npcs);
    }

    /** `upsert_location`: full-record replacement under `loc.id`, then save. */
    method UpsertLocation(loc: Location)
      requires Valid()
      modifies this
      ensures Valid()
      ensures locations == Put(old(locations), loc.id, loc)
      ensures factions == old(factions) && npcs == old(npcs)
      ensures disk == SavedDisk(old(disk), locations, factions, npcs)
    {
      locations := Put(locations, loc.id, loc);
      Save();
    }

    /** `delete_location`: an absent id changes nothing and writes nothing. */
    method DeleteLocation(locId: string)
      requires Valid()
      modifies this
      ensures Valid()
      ensures factions == old(factions) && npcs == old(npcs)
      ensures locId !in old(locations.entries) ==> locations == old(locations) && disk == old(disk)
      ensures locId in old(locations.entries) ==>
        && locations == Remove(old(locations), locId)
        && disk == SavedDisk(old(disk), locations, factions, npcs)
    {
      if locId in locations.entries {
        locations := Remove(locations, locId);
        Save();
      }
    }

    /** `children_of(parent_id)`: the locations whose `parent_location` is
        `parentId`, in dict order. One pass, no recursion: a cycle of parent
        references cannot make it loop. */
    function ChildrenOf(parentId: string): (r: seq<Location>)
      reads this
      requires Valid()
      ensures forall l :: l in r <==> l in locations.entries.Values && l.parentLocation == parentId
      ensures r == Children(Values(locations), parentId)
    {
      var vs := Values(locations);
      assert forall l :: l in vs <==> l in locations.entries.Values by {
        forall l | l in locations.entries.Values ensures l in vs {
          var k :| k in locations.entries && locations.entries[k] == l;
          var i :| 0 <= i < |locations.order| && locations.order[i] == k;
          assert vs[i] == l;
        }
      }
      Children(vs, parentId)
    }

    /** `upsert_faction`. */
    method UpsertFaction(fac: Faction)
      requires Valid()
      modifies this
      ensures Valid()
      ensures factions == Put(old(factions), fac.id, fac)
      ensures locations == old(locations) && npcs == old(npcs)
      ensures disk == SavedDisk(old(disk), locations, factions, npcs)
    {
      factions := Put(factions, fac.id, fac);
      Save();
    }

    /** `delete_faction`. */
    method DeleteFaction(facId: string)
      requires Valid()
      modifies this
      ensures Valid()
      ensures locations == old(locations) && npcs == old(npcs)
      ensures facId !in old(factions.entries) ==> factions == old(factions) && disk == old(disk)
      ensures facId in old(factions.entries) ==>
        && factions == Remove(old(factions), facId)
        && disk == SavedDisk(old(disk), locations, factions, npcs)
    {
      if facId in factions.entries {
        factions := Remove(factions, facId);
        Save();
      }
    }

    /** `upsert_npc`. */
    method UpsertNpc(npc: NPC)
      requires Valid()
      modifies this
      ensures Valid()
      ensures npcs == Put(old(npcs), npc.id, npc)
      ensures locations == old(locations) && factions == old(factions)
      ensures disk == SavedDisk(old(disk), locations, factions, npcs)
    {
      npcs := Put(npcs, npc.id, npc);
      Save();
    }

    /** `delete_npc`. */
    method DeleteNpc(npcId: string)
      requires Valid()
      modifies this
      ensures Valid()
      ensures locations == old(locations) && factions == old(factions)
      ensures npcId !in old(npcs.entries) ==> npcs == old(npcs) && disk == old(disk)
      ensures npcId in old(npcs.entries) ==>
        && npcs == Remove(old(npcs), npcId)
        && disk == SavedDisk(old(disk), locations, factions, npcs)
    {
      if npcId in npcs.entries {
        npcs := Remove(npcs, npcId);
        Save();
      }
    }
  }

  /** A store built on the files a save left behind holds the dicts that were
      saved: the constructor's round trip. */
  method ReopenAfterSave(ws: WorldState) returns (ws': WorldState)
    requires ws.Valid()
    ensures ws'.locations == ws.locations && ws'.factions == ws.factions && ws'.npcs == ws.npcs
  {
    SaveThenLoad(ws.disk, ws.locations, ws.factions, ws.npcs);
    ws' := new WorldState(SavedDisk(ws.disk, ws.locations, ws.factions, ws.npcs));
  }
}

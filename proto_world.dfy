/**
 * The prototype world-state manager of data_models/world_state.py: one JSON
 * file with three sections (`npcs`, `corporations`, `locations`), each a
 * mapping from a key to the attributes of an entity of the dataclasses in
 * data_models/data_models.py. An entity is modelled by its class and its
 * attribute dictionary (`__dict__`), because `update_entity` may store a
 * value of any type in any existing attribute. The file is a value: missing,
 * not decodable as a JSON object, or a document with up to three sections.
 */
module ProtoWorld {
  import opened Wrappers

  /** The JSON values an attribute can hold (numbers as integers only). */
  datatype Value =
    | Null
    | Bool(b: bool)
    | Num(n: int)
    | Str(s: string)
    | List(items: seq<Value>)
    | Object(fields: map<string, Value>)

  datatype Kind = NpcKind | CorporationKind | LocationKind

  /** The dataclass attributes without a default: the `BaseEntity` fields
      `id`, `name` and `description`, and `district` for a `Location`. */
  function Required(kind: Kind): set<string> {
    {"id", "name", "description"} + (if kind == LocationKind then {"district"} else {})
  }

  /** The attributes with a default, and their defaults. */
  function Defaults(kind: Kind): map<string, Value> {
    map["notes" := List([])] +
    match kind
    case NpcKind =>
      map["role" := Str("Civilian"), "location" := Str("Unknown"),
          "relationships" := Object(map[]), "status" := Str("Alive")]
    case CorporationKind =>
      map["tier" := Str("Minor"), "assets" := List([]), "enemies" := List([])]
    case LocationKind =>
      map["security_level" := Str("Medium"), "points_of_interest" := List([])]
  }

  /** Every attribute of the class. */
  function Attributes(kind: Kind): set<string> {
    Required(kind) + Defaults(kind).Keys
  }

  datatype Entity = Entity(kind: Kind, attrs: map<string, Value>)

  /** An entity as its constructor builds it: exactly its class's
      attributes. */
  predicate Complete(e: Entity) {
    e.attrs.Keys == Attributes(e.kind)
  }

  /** Why loading stops: `json.load` fails, or an entry of a section does
      not fit its class's constructor (a `TypeError`). */
  datatype Error = BadJson | BadRecord(kind: Kind)

  /** `Kind(**v)`: every key must name an attribute and every attribute
      without a default must be given; the others take their defaults. */
  function Construct(kind: Kind, v: map<string, Value>): (r: Result<Entity, Error>)
    ensures r.Success? <==> Required(kind) <= v.Keys <= Attributes(kind)
    ensures r.Success? ==> r.value.kind == kind && Complete(r.value)
    ensures r.Success? ==> forall a :: a in v ==> r.value.attrs[a] == v[a]
    ensures r.Success? ==> forall a :: a in Defaults(kind) && a !in v ==> r.value.attrs[a] == Defaults(kind)[a]
  {
    if v.Keys <= Attributes(kind) && Required(kind) <= v.Keys then Success(Entity(kind, Defaults(kind) + v))
    else Failure(BadRecord(kind))
  }

  /** A section as the JSON file holds it: key to attribute dictionary. */
  type Section = map<string, map<string, Value>>

  /** `{k: Kind(**v) for k, v in section.items()}`; the first entry that
      does not fit raises, and then nothing is built. */
  function LoadSection(kind: Kind, sec: Section): (r: Result<map<string, Entity>, Error>)
    ensures r.Success? <==> forall k :: k in sec ==> Construct(kind, sec[k]).Success?
    ensures r.Success? ==> r.value.Keys == sec.Keys
    ensures r.Success? ==> forall k :: k in sec ==> r.value[k] == Construct(kind, sec[k]).value
  {
    if forall k :: k in sec ==> Construct(kind, sec[k]).Success? then
      Success(map k | k in sec :: Construct(kind, sec[k]).value)
    else Failure(BadRecord(kind))
  }

  /** `{k: v.__dict__ for k, v in store.items()}` */
  function Dump(store: map<string, Entity>): (sec: Section)
    ensures sec.Keys == store.Keys && forall k :: k in store ==> sec[k] == store[k].attrs
  {
    map k | k in store :: store[k].attrs
  }

  /** The three stores of the manager. */
  datatype World = World(npcs: map<string, Entity>, corporations: map<string, Entity>,
                         locations: map<string, Entity>)

  const EmptyWorld := World(map[], map[], map[])

  /** Every entity of `store` is a complete entity of class `kind`. */
  ghost predicate OfKind(store: map<string, Entity>, kind: Kind) {
    forall k :: k in store ==> store[k].kind == kind && Complete(store[k])
  }

  /** Every entity is complete and of the class its store holds. */
  ghost predicate WellTyped(w: World) {
    OfKind(w.npcs, NpcKind) && OfKind(w.corporations, CorporationKind) && OfKind(w.locations, LocationKind)
  }

  /** Replacing an entry by an entity of the store's class keeps the store
      well typed. */
  lemma {:induction false} OfKindUpdate(store: map<string, Entity>, kind: Kind, id: string, e: Entity)
    requires OfKind(store, kind) && e.kind == kind && Complete(e)
    ensures OfKind(store[id := e], kind)
  {
  }

  /** The world file. A section that the document lacks is `None`
      (`data.get(name, {})` reads it as empty). */
  datatype File = Missing | Undecodable | Doc(npcs: Option<Section>, corporations: Option<Section>,
                                              locations: Option<Section>)

  /** What `save_world` writes. */
  function Save(w: World): File {
    Doc(Some(Dump(w.npcs)), Some(Dump(w.corporations)), Some(Dump(w.locations)))
  }

  /** The stores after `load_world` and the error it raises, if any. */
  datatype Loaded = Loaded(world: World, error: Option<Error>)

  /** `load_world` on the stores `w`: the sections are read in the order
      npcs, corporations, locations, each store replaced as soon as its
      section is built, so a failing section leaves the earlier ones
      replaced and the later ones as they were. A missing file leaves the
      stores alone (and is then written from them). */
  function Load(f: File, w: World): (r: Loaded)
    ensures f.Missing? ==> r == Loaded(w, None)
    ensures f.Undecodable? ==> r == Loaded(w, Some(BadJson))
    ensures r.error == None ==> WellTyped(r.world) || f.Missing?
    ensures r.error != None ==> r.world.locations == w.locations
    ensures f.Doc? && LoadSection(NpcKind, f.npcs.GetOr(map[])).Success? ==>
      r.world.npcs == LoadSection(NpcKind, f.npcs.GetOr(map[])).value
    ensures f.Doc? && LoadSection(NpcKind, f.npcs.GetOr(map[])).Failure? ==> r.world == w
  {
    match f
    case Missing => Loaded(w, None)
    case Undecodable => Loaded(w, Some(BadJson))
    case Doc(n, c, l) =>
      match LoadSection(NpcKind, n.GetOr(map[]))
      case Failure(e) => Loaded(w, Some(e))
      case Success(ns) =>
        var w1 := w.(npcs := ns);
        match LoadSection(CorporationKind, c.GetOr(map[]))
        case Failure(e) => Loaded(w1, Some(e))
        case Success(cs) =>
          var w2 := w1.(corporations := cs);
          match LoadSection(LocationKind, l.GetOr(map[]))
          case Failure(e) => Loaded(w2, Some(e))
          case Success(ls) => Loaded(w2.(locations := ls), None)
  }

  /** A complete entity's own attributes rebuild it. */
  lemma {:induction false} ConstructOwn(e: Entity)
    requires Complete(e)
    ensures Construct(e.kind, e.attrs) == Success(e)
  {
    var d := Defaults(e.kind);
    assert d + e.attrs == e.attrs;
  }

  lemma {:induction false} LoadDumped(kind: Kind, store: map<string, Entity>)
    requires OfKind(store, kind)
    ensures LoadSection(kind, Dump(store)) == Success(store)
  {
    var d := Dump(store);
    forall k | k in d ensures Construct(kind, d[k]) == Success(store[k]) {
      ConstructOwn(store[k]);
    }
    var r := LoadSection(kind, d);
    assert r.Success?;
    assert r.value == store;
  }

  /** `save_world` then `load_world` gives back the three stores, under
      the keys they had (keys are not recomputed from entity ids), on any
      stores the manager held before. */
  lemma {:induction false} SaveThenLoad(w: World, before: World)
    requires WellTyped(w)
    ensures Load(Save(w), before) == Loaded(w, None)
  {
    var f := Save(w);
    LoadDumped(NpcKind, w.npcs);
    assert LoadSection(NpcKind, f.npcs.GetOr(map[])) == Success(w.npcs);
    LoadDumped(CorporationKind, w.corporations);
    assert LoadSection(CorporationKind, f.corporations.GetOr(map[])) == Success(w.corporations);
    LoadDumped(LocationKind, w.locations);
    assert LoadSection(LocationKind, f.locations.GetOr(map[])) == Success(w.locations);
  }

  // ---------------------------------------------------------------------
  // lookup and update
  // ---------------------------------------------------------------------

  /** The first store, in order, that holds `id`, and its entity there. */
  function Find(id: string, stores: seq<map<string, Entity>>): (r: Option<Entity>)
    ensures r == None <==> forall t :: 0 <= t < |stores| ==> id !in stores[t]
  {
    if stores == [] then None
    else if id in stores[0] then Some(stores[0][id])
    else Find(id, stores[1..])
  }

  /** `Find` returns the entity of the earliest store holding the id. */
  lemma {:induction false} FindFirst(id: string, stores: seq<map<string, Entity>>, t: nat)
    requires t < |stores| && id in stores[t]
    requires forall u :: 0 <= u < t ==> id !in stores[u]
    ensures Find(id, stores) == Some(stores[t][id])
  {
    if t > 0 {
      assert id !in stores[0];
      FindFirst(id, stores[1..], t - 1);
    }
  }

  /** The value the last update of attribute `a` sets, if any. */
  function LastSet(updates: seq<(string, Value)>, a: string): Option<Value> {
    if updates == [] then None
    else if updates[|updates| - 1].0 == a then Some(updates[|updates| - 1].1)
    else LastSet(updates[..|updates| - 1], a)
  }

  /** `for key, value in updates.items(): if hasattr(entity, key):
      setattr(entity, key, value)`, on the attribute dictionary. */
  function Apply(attrs: map<string, Value>, updates: seq<(string, Value)>): map<string, Value> {
    if updates == [] then attrs
    else
      var prev := Apply(attrs, updates[..|updates| - 1]);
      var (a, v) := updates[|updates| - 1];
      if a in prev then prev[a := v] else prev
  }

  /** Updating keeps the set of attributes, gives each existing attribute
      the last value an update assigns it, leaves the others as they were,
      and ignores keys that are not attributes. */
  lemma {:induction false} ApplySpec(attrs: map<string, Value>, updates: seq<(string, Value)>)
    ensures Apply(attrs, updates).Keys == attrs.Keys
    ensures forall a :: a in attrs ==> Apply(attrs, updates)[a] == LastSet(updates, a).GetOr(attrs[a])
  {
    if updates != [] {
      ApplySpec(attrs, updates[..|updates| - 1]);
    }
  }

  /** The entity after `update_entity`. */
  function Updated(e: Entity, updates: seq<(string, Value)>): (r: Entity)
    ensures r.kind == e.kind && (Complete(e) ==> Complete(r))
  {
    ApplySpec(e.attrs, updates);
    Entity(e.kind, Apply(e.attrs, updates))
  }

  /** The loop of `update_entity` over `updates.items()`. */
  method SetAttributes(attrs0: map<string, Value>, updates: seq<(string, Value)>) returns (attrs: map<string, Value>)
    ensures attrs == Apply(attrs0, updates)
  {
    attrs := attrs0;
    for i := 0 to |updates|
      invariant attrs == Apply(attrs0, updates[..i])
    {
      var (a, v) := updates[i];
      assert updates[..i + 1][..i] == updates[..i];
      if a in attrs {
        attrs := attrs[a := v];
      }
    }
    assert updates[..|updates|] == updates;
  }

  function StoresOf(w: World): seq<map<string, Entity>> {
    [w.npcs, w.corporations, w.locations]
  }

  /** Over the manager's three stores, `Find` is npcs first, then
      corporations, then locations. */
  lemma {:induction false} FindInWorld(w: World, id: string)
    ensures Find(id, StoresOf(w)) ==
      if id in w.npcs then Some(w.npcs[id])
      else if id in w.corporations then Some(w.corporations[id])
      else if id in w.locations then Some(w.locations[id])
      else None
  {
    var s := StoresOf(w);
    assert s[1..] == [w.corporations, w.locations];
    assert s[1..][1..] == [w.locations];
    assert Find(id, [w.locations]) == if id in w.locations then Some(w.locations[id]) else None by {
      assert [w.locations][1..] == [];
    }
  }

  /** `e` put under `id` into the store `get_entity` would find `id` in. */
  function ReplaceIn(w: World, id: string, e: Entity): World {
    if id in w.npcs then w.(npcs := w.npcs[id := e])
    else if id in w.corporations then w.(corporations := w.corporations[id := e])
    else if id in w.locations then w.(locations := w.locations[id := e])
    else w
  }

  /** The stores after `update_entity(id, updates)`: the entity `get_entity`
      finds is replaced by its updated self in the store it was found in. */
  function UpdateWorld(w: World, id: string, updates: seq<(string, Value)>): (r: World)
    ensures Find(id, StoresOf(w)) == None ==> r == w
  {
    match Find(id, StoresOf(w))
    case None => w
    case Some(e) => ReplaceIn(w, id, Updated(e, updates))
  }

  /** After an update, looking the id up gives the updated entity (or
      still nothing), and no store gains or loses a key. */
  lemma {:induction false} UpdateWorldFind(w: World, id: string, updates: seq<(string, Value)>)
    ensures var r := UpdateWorld(w, id, updates);
      && Find(id, StoresOf(r)) == (match Find(id, StoresOf(w)) case None => None case Some(e) => Some(Updated(e, updates)))
      && r.npcs.Keys == w.npcs.Keys && r.corporations.Keys == w.corporations.Keys && r.locations.Keys == w.locations.Keys
  {
    FindInWorld(w, id);
    FindInWorld(UpdateWorld(w, id, updates), id);
  }

  /** An update changes what no other id looks up to. */
  lemma {:induction false} UpdateWorldOthers(w: World, id: string, updates: seq<(string, Value)>, other: string)
    requires other != id
    ensures Find(other, StoresOf(UpdateWorld(w, id, updates))) == Find(other, StoresOf(w))
  {
    FindInWorld(w, other);
    FindInWorld(UpdateWorld(w, id, updates), other);
  }

  /** An update keeps every store well typed. */
  lemma {:induction false} UpdateWorldValid(w: World, id: string, updates: seq<(string, Value)>)
    requires WellTyped(w)
    ensures WellTyped(UpdateWorld(w, id, updates))
  {
    FindInWorld(w, id);
    if id in w.npcs {
      OfKindUpdate(w.npcs, NpcKind, id, Updated(w.npcs[id], updates));
    } else if id in w.corporations {
      OfKindUpdate(w.corporations, CorporationKind, id, Updated(w.corporations[id], updates));
    } else if id in w.locations {
      OfKindUpdate(w.locations, LocationKind, id, Updated(w.locations[id], updates));
    }
  }

  class WorldStateManager {
    var npcs: map<string, Entity>
    var corporations: map<string, Entity>
    var locations: map<string, Entity>
    /** The contents of the file at `filepath`. */
    var file: File

    function Stores(): seq<map<string, Entity>>
      reads this
    {
      StoresOf(Current())
    }

    function Current(): World
      reads this
    {
      World(npcs, corporations, locations)
    }

    ghost predicate Valid()
      reads this
    {
      WellTyped(Current())
    }

    /** `__init__` up to its `load_world()` call: three empty stores. */
    constructor(file: File)
      ensures Current() == EmptyWorld && this.file == file
    {
      npcs, corporations, locations := map[], map[], map[];
      this.file := file;
    }

    /** `save_world` */
    method SaveWorld()
      modifies this
      ensures file == Save(Current()) && Current() == old(Current())
    {
      file := Doc(Some(Dump(npcs)), Some(Dump(corporations)), Some(Dump(locations)));
    }

    /** `load_world`: rebuild the stores from the file; a missing file is
        answered by saving the current stores; any other failure is
        returned as the error the source raises. */
    method LoadWorld() returns (err: Option<Error>)
      modifies this
      ensures Current() == Load(old(file), old(Current())).world
      ensures err == Load(old(file), old(Current())).error
      ensures file == if old(file).Missing? then Save(old(Current())) else old(file)
      ensures err == None && old(Valid()) ==> Valid()
    {
      match file
      case Missing =>
        SaveWorld();
        return None;
      case Undecodable =>
        return Some(BadJson);
      case Doc(n, c, l) =>
        var ns := LoadSection(NpcKind, n.GetOr(map[]));
        if ns.Failure? {
          return Some(ns.error);
        }
        npcs := ns.value;
        var cs := LoadSection(CorporationKind, c.GetOr(map[]));
        if cs.Failure? {
          return Some(cs.error);
        }
        corporations := cs.value;
        var ls := LoadSection(LocationKind, l.GetOr(map[]));
        if ls.Failure? {
          return Some(ls.error);
        }
        locations := ls.value;
        return None;
    }

    /** `get_entity`: npcs first, then corporations, then locations; the
        first store that holds the id answers. */
    method GetEntity(id: string) returns (e: Option<Entity>)
      ensures e == Find(id, Stores())
    {
      var stores := [npcs, corporations, locations];
      for s := 0 to |stores|
        invariant Find(id, stores) == Find(id, stores[s..])
      {
        if id in stores[s] {
          return Some(stores[s][id]);
        }
        assert stores[s..][1..] == stores[s + 1..];
      }
      return None;
    }

    /** `update_entity`: the entity `get_entity` finds is changed in place,
        attribute by attribute; an unknown id changes nothing, and nothing
        is saved either way. */
    method UpdateEntity(id: string, updates: seq<(string, Value)>)
      modifies this
      ensures file == old(file)
      ensures Current() == UpdateWorld(old(Current()), id, updates)
      ensures old(Valid()) ==> Valid()
    {
      var found := GetEntity(id);
      if found.Some? {
        var attrs := SetAttributes(found.value.attrs, updates);
        PutBack(id, Entity(found.value.kind, attrs));
      }
      if old(Valid()) {
        UpdateWorldValid(old(Current()), id, updates);
      }
    }

    /** The in-place change of the found object: `id`'s entity becomes `e`
        in the store it sits in. */
    method PutBack(id: string, e: Entity)
      modifies this
      ensures file == old(file)
      ensures Current() == ReplaceIn(old(Current()), id, e)
    {
      if id in npcs {
        npcs := npcs[id := e];
      } else if id in corporations {
        corporations := corporations[id := e];
      } else if id in locations {
        locations := locations[id := e];
      }
    }
  }

  /** `WorldStateManager(filepath)`: the constructor, then `load_world`. */
  method Open(file: File) returns (m: WorldStateManager, err: Option<Error>)
    ensures fresh(m)
    ensures m.Current() == Load(file, EmptyWorld).world && err == Load(file, EmptyWorld).error
    ensures file.Missing? ==> m.Current() == EmptyWorld && m.file == Save(EmptyWorld)
    ensures err == None ==> m.Valid()
  {
    m := new WorldStateManager(file);
    err := m.LoadWorld();
  }
}

/**
 * The entity records of modules/data_models.py. Python dataclasses with
 * defaults become datatypes whose constructors carry the same defaults;
 * the field the source calls `type` is named `kind` here (`type` is a
 * keyword in Dafny).
 */
module Records {

  /** A place; it may nest under another one through `parentLocation`. */
  datatype Location = Location(
    id: string,
    name: string,
    description: string := "",
    kind: string := "Location",
    parentLocation: string := "",
    cityManager: string := "",
    securityProvider: string := "",
    region: string := "",
    factions: seq<string> := [],
    events: seq<string> := [])

  datatype NPC = NPC(
    id: string,
    name: string,
    description: string := "",
    role: string := "NPC",
    affiliation: string := "",
    location: string := "",
    homeLocation: string := "",
    currentLocation: string := "",
    notes: string := "",
    relationships: map<string, string> := map[])

  datatype Faction = Faction(
    id: string,
    name: string,
    kind: string := "gang",
    description: string := "")

  datatype Corporation = Corporation(
    id: string,
    name: string,
    tier: string := "AA",
    description: string := "")

  datatype Player = Player(
    id: string,
    handle: string,
    characterName: string,
    role: string,
    notes: string := "")

  /** The values a record gets for every field its constructor call leaves out. */
  lemma {:induction false} DefaultFields(id: string, name: string)
    ensures var l := Location(id, name);
      && l.description == "" && l.kind == "Location" && l.parentLocation == ""
      && l.cityManager == "" && l.securityProvider == "" && l.region == ""
      && l.factions == [] && l.events == []
    ensures var n := NPC(id, name);
      && n.description == "" && n.role == "NPC" && n.affiliation == "" && n.location == ""
      && n.homeLocation == "" && n.currentLocation == "" && n.notes == ""
      && n.relationships == map[]
    ensures Faction(id, name).kind == "gang" && Faction(id, name).description == ""
    ensures Corporation(id, name).tier == "AA" && Corporation(id, name).description == ""
    ensures forall handle, characterName, role :: Player(id, handle, characterName, role).notes == ""
  {
  }
}

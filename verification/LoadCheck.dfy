// Checking the durable state before the server builds its memory from it: what
// each row becomes, and which findings say so.

module LoadCheck {
  import opened Wrappers
  import opened World
  import Seqs
  import Task
  import opened Territory

  type Uuid = int

  datatype Status = Idle | Moving | Garrisoned | Hidden | Working | Attacking | Claiming | Dead

  datatype UnitType = Villager | Warrior | UnknownUnit(name: string) {
    /** Full health, for the types of the catalogue. */
    function MaxHP(): Option<int> {
      match this
      case Villager => Some(40)
      case Warrior => Some(60)
      case UnknownUnit(_) => None
    }
  }

  datatype Unit = Unit(id: int, player: Uuid, cityID: Option<int>, kind: UnitType, at: Tile,
                       hp: int, maxHP: int, status: Status, loot: int)

  datatype Presence = Online | OfflinePending | Protected

  datatype City = City(id: int, owner: Uuid, center: Tile, era: string, population: int, limit: int,
                       presence: Presence, lastOfflineAt: Option<int>, protectionUntil: Option<int>,
                       civilization: string)

  /** Of the catalogue; `valid` is what its own check says. */
  datatype Civilization = Civilization(code: string, valid: bool)

  datatype OwnerType = OwnerNone | OwnerPlayer | OwnerClan | OwnerFaction

  datatype Control = Control(territoryID: int, ownerType: OwnerType, ownerID: Option<string>, points: int,
                             contested: bool, capturedAt: Option<int>, version: int)

  datatype BuildingType = House | UnknownBuilding(name: string)
  datatype BuildingStatus = UnderConstruction | Complete | Destroyed
  datatype Building = Building(id: int, cityID: int, kind: BuildingType, status: BuildingStatus)

  datatype Production = Production(id: int, cityID: int, unitID: int)

  datatype Policy = Repair | Exclude | FailFast

  datatype Rule =
    | Unit001 | Unit004 | Unit007 | Unit009
    | City003 | City007 | City011 | City012 | City017
    | Econ003 | Econ004 | Terr005 | Terr006 | Terr007 | Player002 | Player012

  datatype Entity =
    UnitEntity(id: int) | CityEntity(id: int) | TerritoryEntity(id: int) | CivilizationEntity(code: string)

  datatype Severity = Medium | High | Critical

  datatype Finding = Finding(rule: Rule, policy: Policy, entity: Entity) {
    /** How bad it is follows from the rule. */
    function Severity(): Severity {
      match rule
      case Unit001 => Critical
      case Terr006 => Medium
      case Terr007 => Medium
      case _ => High
    }
  }

  const HOUSE_BONUS := 5
  const CONQUEST_BONUS := 5

  /** What a text id of a territory's owner stands for, as the UUID library
      reads it; it is one function for all of the input. */
  type Parser = string -> Option<Uuid>

  datatype Input = Input(
    world: Map, eraCaps: map<string, int>, parse: Parser, players: set<Uuid>,
    cities: seq<City>, units: seq<Unit>, garrisons: map<int, int>,
    controls: seq<Control>, territories: seq<Territory>, activeClaims: seq<int>,
    tasks: seq<Task.Task>, buildings: seq<Building>, productions: seq<Production>,
    civilizations: Option<seq<Civilization>>, now: int) {

    predicate Stands(t: Tile) {
      world.TerrainAt(t).Walkable()
    }

    // -------------------------------------------------------------------
    // Civilizations
    // -------------------------------------------------------------------

    function CivilizationFindings(c: Civilization): seq<Finding> {
      if c.valid then [] else [Finding(Player012, FailFast, CivilizationEntity(c.code))]
    }

    predicate InCatalogue(code: string) {
      civilizations.Some? && exists c :: c in civilizations.value && c.code == code
    }

    function CitizenFindings(c: City): seq<Finding> {
      if InCatalogue(c.civilization) then [] else [Finding(Player002, FailFast, CityEntity(c.id))]
    }

    // -------------------------------------------------------------------
    // Units
    // -------------------------------------------------------------------

    predicate Known(u: Unit) {
      u.kind.MaxHP().Some?
    }

    predicate Excluded(u: Unit) {
      !Known(u)
    }

    /** The garrison rows are the fact; a unit's status is read off them. */
    function StatusOf(u: Unit): Status {
      if u.status == Garrisoned && u.id !in garrisons then Idle
      else if u.status != Garrisoned && u.id in garrisons then Garrisoned
      else u.status
    }

    predicate WrongHealth(u: Unit) {
      Known(u) && (u.maxHP != u.kind.MaxHP().value || u.hp < 0 || u.hp > u.kind.MaxHP().value)
    }

    function HealthOf(u: Unit): int
      requires Known(u)
    {
      if u.hp < 0 then 0 else if u.hp > u.kind.MaxHP().value then u.kind.MaxHP().value else u.hp
    }

    function UnitAfter(u: Unit): Unit {
      if !Known(u) then u else
      u.(status := StatusOf(u), maxHP := u.kind.MaxHP().value, hp := HealthOf(u))
    }

    function UnitFindings(u: Unit): seq<Finding> {
      if !Known(u) then [Finding(Unit009, Exclude, UnitEntity(u.id))]
      else RowFindings(u) + PlaceFindings(u)
    }

    /** What is wrong with the row itself. */
    function RowFindings(u: Unit): seq<Finding> {
      (if StatusOf(u) != u.status then [Finding(Unit007, Repair, UnitEntity(u.id))] else [])
      + (if WrongHealth(u) then [Finding(Unit004, Repair, UnitEntity(u.id))] else [])
    }

    function PlaceFindings(u: Unit): seq<Finding> {
      if StatusOf(u) != Garrisoned && !Stands(u.at) then [Finding(Unit001, FailFast, UnitEntity(u.id))] else []
    }

    /** The units that enter the simulation, as the first pass leaves them. */
    function Admitted(): seq<Unit> {
      Seqs.Map(Seqs.Filter(SortedUnits(), Known), UnitAfter)
    }

    function SortedUnits(): seq<Unit> {
      Seqs.SortBy(units, UnitId)
    }

    predicate Changed(u: Unit) {
      UnitAfter(u) != u
    }

    ghost predicate Alive(id: int) {
      exists u :: u in units && u.id == id
    }

    // -------------------------------------------------------------------
    // Tasks
    // -------------------------------------------------------------------

    /** The task belongs to an admitted unit outside any garrison, is valid, and
        works only if its unit does. */
    predicate KeepsTask(t: Task.Task) {
      match Find(Admitted(), t.unitID)
      case None => false
      case Some(u) => u.status != Garrisoned && t.Validate() && (t.phase == Task.Working ==> u.status == Working)
    }

    predicate DropsTask(t: Task.Task) {
      !KeepsTask(t)
    }

    function SortedTasks(): seq<Task.Task> {
      Seqs.SortBy(tasks, TaskUnit)
    }

    function KeptTasks(): seq<Task.Task> {
      Seqs.Filter(SortedTasks(), KeepsTask)
    }

    function TaskFindings(t: Task.Task): seq<Finding> {
      if KeepsTask(t) then [] else [Finding(Econ003, Repair, UnitEntity(t.unitID))]
    }

    predicate HasWork(id: int) {
      exists t :: t in KeptTasks() && t.unitID == id && t.phase == Task.Working
    }

    predicate IsIdler(u: Unit) {
      u.status == Working && !HasWork(u.id)
    }

    /** A unit that works without a task at work is idle. */
    function UnitAtLast(u: Unit): Unit {
      if IsIdler(u) then u.(status := Idle) else u
    }

    function IdlerFindings(u: Unit): seq<Finding> {
      if IsIdler(u) then [Finding(Econ003, Repair, UnitEntity(u.id))] else []
    }

    // -------------------------------------------------------------------
    // Cities
    // -------------------------------------------------------------------

    /** Units of the city, the excluded ones too, and places reserved in training. */
    function PopulationOf(cityID: int): nat {
      Seqs.Count(units, LivesIn(cityID))
      + Seqs.Count(productions, TrainsIn(cityID))
    }

    function HousesOf(cityID: int): nat {
      Seqs.Count(Seqs.Filter(buildings, BuiltIn(cityID)), IsStandingHouse)
    }

    function PlayerOwner(ct: Control): Option<Uuid> {
      if ct.ownerType != OwnerPlayer || ct.ownerID.None? then None else parse(ct.ownerID.value)
    }

    /** Held by the player, and not where the city itself stands. */
    predicate Conquered(t: Territory, owner: Uuid, center: Tile) {
      && FindControl(controls, t.id).Some?
      && PlayerOwner(FindControl(controls, t.id).value) == Some(owner)
      && !t.Contains(center.x, center.y)
    }

    function Conquest(owner: Uuid, center: Tile): Territory -> bool {
      (t: Territory) => Conquered(t, owner, center)
    }

    function ConqueredBy(owner: Uuid, center: Tile): nat {
      Seqs.Count(territories, Conquest(owner, center))
    }

    function LimitOf(c: City): int {
      if c.era in eraCaps
      then eraCaps[c.era] + HOUSE_BONUS * HousesOf(c.id) + CONQUEST_BONUS * ConqueredBy(c.owner, c.center)
      else c.limit
    }

    function CityAfter(c: City): City {
      c.(population := PopulationOf(c.id),
         limit := LimitOf(c),
         lastOfflineAt := if c.presence != Online && c.lastOfflineAt.None? then Some(now) else c.lastOfflineAt,
         protectionUntil := if c.presence == Online then None else c.protectionUntil)
    }

    predicate ChangesCity(c: City) {
      CityAfter(c) != c
    }

    function CityFindings(c: City): seq<Finding> {
      GrowthFindings(c) + PresenceFindings(c)
    }

    function GrowthFindings(c: City): seq<Finding> {
      var bonus := HOUSE_BONUS * HousesOf(c.id) + CONQUEST_BONUS * ConqueredBy(c.owner, c.center);
      (if Stands(c.center) then [] else [Finding(City007, FailFast, CityEntity(c.id))])
      + (if c.population != PopulationOf(c.id) then [Finding(City017, Repair, CityEntity(c.id))] else [])
      + (if c.limit != LimitOf(c)
         then [Finding(if bonus > 0 then Econ004 else City003, Repair, CityEntity(c.id))] else [])
    }

    function PresenceFindings(c: City): seq<Finding> {
      (if c.presence != Online && c.lastOfflineAt.None? then [Finding(City011, Repair, CityEntity(c.id))] else [])
      + (if c.presence == Online && c.protectionUntil.Some? then [Finding(City012, Repair, CityEntity(c.id))] else [])
    }

    function SortedCities(): seq<City> {
      Seqs.SortBy(cities, CityId)
    }

    // -------------------------------------------------------------------
    // Controls
    // -------------------------------------------------------------------

    predicate PlayerExists(id: Option<string>) {
      id.Some? && parse(id.value).Some? && parse(id.value).value in players
    }

    predicate Orphaned(ct: Control) {
      ct.ownerType == OwnerPlayer && !PlayerExists(ct.ownerID)
    }

    predicate Undated(ct: Control) {
      !Orphaned(ct) && ct.ownerType != OwnerNone && ct.capturedAt.None?
    }

    predicate Misjudged(ct: Control) {
      ct.contested != (ct.territoryID in activeClaims)
    }

    predicate ChangesControl(ct: Control) {
      Misjudged(ct) || Orphaned(ct) || Undated(ct)
    }

    function ControlAfter(ct: Control): Control {
      var judged := ct.(contested := ct.territoryID in activeClaims);
      var owned := if Orphaned(ct) then judged.(ownerType := OwnerNone, ownerID := None, capturedAt := None)
                   else if Undated(ct) then judged.(capturedAt := Some(now)) else judged;
      if ChangesControl(ct) then owned.(version := ct.version + 1) else owned
    }

    function ControlFindings(ct: Control): seq<Finding> {
      var e := TerritoryEntity(ct.territoryID);
      (if Misjudged(ct) then [Finding(Terr006, Repair, e)] else [])
      + (if Orphaned(ct) then [Finding(Terr005, Repair, e)] else [])
      + (if Undated(ct) then [Finding(Terr007, Repair, e)] else [])
    }

    function SortedControls(): seq<Control> {
      Seqs.SortBy(controls, ControlTerritory)
    }
  }

  function UnitId(u: Unit): int {
    u.id
  }

  function TaskUnit(t: Task.Task): int {
    t.unitID
  }

  function CityId(c: City): int {
    c.id
  }

  function ControlTerritory(ct: Control): int {
    ct.territoryID
  }

  function BuiltIn(cityID: int): Building -> bool {
    (b: Building) => b.cityID == cityID
  }

  predicate IsStandingHouse(b: Building) {
    b.status == Complete && b.kind == House
  }

  function TrainsIn(cityID: int): Production -> bool {
    (p: Production) => p.unitID == 0 && p.cityID == cityID
  }

  function LivesIn(cityID: int): Unit -> bool {
    (u: Unit) => u.cityID == Some(cityID)
  }

  /** The row a table by id ends up holding: the last one inserted. */
  function Find(units: seq<Unit>, id: int): Option<Unit> {
    if |units| == 0 then None
    else if units[|units| - 1].id == id then Some(units[|units| - 1])
    else Find(units[..|units| - 1], id)
  }

  function FindControl(controls: seq<Control>, id: int): Option<Control> {
    if |controls| == 0 then None
    else if controls[|controls| - 1].territoryID == id then Some(controls[|controls| - 1])
    else FindControl(controls[..|controls| - 1], id)
  }

  /** What is left after checking. `cities` are the rows corrected in place. */
  datatype Outcome = Outcome(
    findings: seq<Finding>, units: seq<Unit>, cities: seq<City>,
    cityRepairs: seq<int>, unitRepairs: seq<int>, controlRepairs: seq<int>, garrisonDeletes: seq<int>,
    controls: seq<Control>, garrisons: map<int, int>, taskDeletes: seq<int>, tasks: seq<Task.Task>)

  function RowFinding(id: int): Finding {
    Finding(Unit007, Repair, UnitEntity(id))
  }

  function DeletedFindings(ids: seq<int>): seq<Finding> {
    Seqs.Map(ids, RowFinding)
  }

  /** The ids of a set, in order. */
  ghost predicate Lists(ids: seq<int>, s: set<int>) {
    (forall j, k :: 0 <= j < k < |ids| ==> ids[j] < ids[k]) && (forall x :: x in ids <==> x in s)
  }

  ghost function DeadRows(i: Input): set<int> {
    set id | id in i.garrisons && !i.Alive(id)
  }

  /** The whole result, field by field. */
  ghost predicate Checked(i: Input, r: Outcome) {
    && Lists(r.garrisonDeletes, DeadRows(i))
    && r.garrisons == (map id | id in i.garrisons && i.Alive(id) :: i.garrisons[id])
    && r.units == Seqs.Map(i.Admitted(), i.UnitAtLast)
    && r.tasks == i.KeptTasks()
    && r.taskDeletes == Seqs.Map(Seqs.Filter(i.SortedTasks(), i.DropsTask), TaskUnit)
    && r.unitRepairs == Seqs.AddNew(FirstRepairs(i), IdlerRepairs(i))
    && r.cities == Seqs.Map(i.SortedCities(), i.CityAfter)
    && r.cityRepairs == Seqs.AddNew([], CityChanges(i))
    && r.controls == Seqs.Map(i.SortedControls(), i.ControlAfter)
    && r.controlRepairs == Seqs.Map(Seqs.Filter(i.SortedControls(), i.ChangesControl), ControlTerritory)
    && r.findings ==
         Seqs.FlatMap(i.SortedUnits(), i.UnitFindings) + DeletedFindings(r.garrisonDeletes)
         + Seqs.FlatMap(i.SortedTasks(), i.TaskFindings) + Seqs.FlatMap(i.Admitted(), i.IdlerFindings)
         + CatalogueFindings(i)
         + Seqs.FlatMap(i.SortedCities(), i.CityFindings) + Seqs.FlatMap(i.SortedControls(), i.ControlFindings)
  }

  /** What is said of the catalogue of civilizations and of the cities that carry
      one; nothing without a catalogue. */
  function CatalogueFindings(i: Input): seq<Finding> {
    if i.civilizations.None? then [] else
    Seqs.FlatMap(i.civilizations.value, i.CivilizationFindings) + Seqs.FlatMap(i.SortedCities(), i.CitizenFindings)
  }

  function UnitChanges(i: Input): seq<int> {
    Seqs.Map(Seqs.Filter(i.SortedUnits(), i.Changed), UnitId)
  }

  function FirstRepairs(i: Input): seq<int> {
    Seqs.AddNew([], UnitChanges(i))
  }

  function IdlerRepairs(i: Input): seq<int> {
    Seqs.Map(Seqs.Filter(i.Admitted(), i.IsIdler), UnitId)
  }

  function CityChanges(i: Input): seq<int> {
    Seqs.Map(Seqs.Filter(i.SortedCities(), i.ChangesCity), CityId)
  }
}

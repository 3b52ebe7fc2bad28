// The checker itself: passes over the units, the tasks, the cities and the
// controls that correct rows in place and note what they did.

module LoadChecker {
  import opened Wrappers
  import opened World
  import Seqs
  import Task
  import opened Territory
  import opened LoadCheck

  class Checker {
    const input: Input
    var findings: seq<Finding>
    var units: seq<Unit>
    var cities: seq<City>
    var cityRepairs: seq<int>
    var unitRepairs: seq<int>
    var controlRepairs: seq<int>
    var garrisonDeletes: seq<int>
    var controls: seq<Control>
    var garrisons: map<int, int>
    var taskDeletes: seq<int>
    var tasks: seq<Task.Task>
    var citiesTouched: set<int>
    var unitsTouched: set<int>

    /** The sets only make the lists faster to search. */
    ghost predicate Valid()
      reads this`citiesTouched, this`cityRepairs, this`unitsTouched, this`unitRepairs
    {
      && (forall id :: id in citiesTouched <==> id in cityRepairs)
      && (forall id :: id in unitsTouched <==> id in unitRepairs)
    }

    constructor (i: Input)
      ensures input == i && Valid()
      ensures findings == [] && units == [] && cityRepairs == [] && unitRepairs == [] && controlRepairs == []
      ensures garrisonDeletes == [] && garrisons == map[] && taskDeletes == [] && tasks == [] && cities == []
      ensures controls == i.SortedControls()
    {
      input := i;
      findings, units, cities, cityRepairs, unitRepairs, controlRepairs := [], [], [], [], [], [];
      garrisonDeletes, garrisons, taskDeletes, tasks := [], map[], [], [];
      controls := i.SortedControls();
      citiesTouched, unitsTouched := {}, {};
    }

    method Find(rule: Rule, policy: Policy, entity: Entity)
      requires Valid()
      modifies this`findings
      ensures Valid() && findings == old(findings) + [Finding(rule, policy, entity)]
    {
      findings := findings + [Finding(rule, policy, entity)];
    }

    method TouchUnit(id: int)
      requires Valid()
      modifies this`unitsTouched, this`unitRepairs
      ensures Valid() && unitRepairs == Seqs.AddNew(old(unitRepairs), [id])
    {
      assert [id][..0] == [];
      if id !in unitsTouched {
        unitsTouched := unitsTouched + {id};
        unitRepairs := unitRepairs + [id];
      }
    }

    method TouchCity(id: int)
      requires Valid()
      modifies this`citiesTouched, this`cityRepairs
      ensures Valid() && cityRepairs == Seqs.AddNew(old(cityRepairs), [id])
    {
      assert [id][..0] == [];
      if id !in citiesTouched {
        citiesTouched := citiesTouched + {id};
        cityRepairs := cityRepairs + [id];
      }
    }

    // -------------------------------------------------------------------
    // Units
    // -------------------------------------------------------------------

    /** The status and the health of a unit of the catalogue. */
    method RepairUnit(row: Unit) returns (u: Unit)
      requires Valid() && input.Known(row)
      modifies this`findings, this`unitRepairs, this`unitsTouched
      ensures Valid() && findings == old(findings) + input.RowFindings(row)
      ensures u == input.UnitAfter(row)
      ensures unitRepairs == (if u != row then Seqs.AddNew(old(unitRepairs), [row.id]) else old(unitRepairs))
    {
      hide Checker.Valid, Seqs.AddNew;
      u := row;
      var e, max := UnitEntity(row.id), row.kind.MaxHP().value;
      var garrisoned := u.id in input.garrisons;
      if u.status == Garrisoned && !garrisoned {
        u := u.(status := Idle);
        TouchUnit(u.id);
        Find(Unit007, Repair, e);
      } else if u.status != Garrisoned && garrisoned {
        Find(Unit007, Repair, e);
        u := u.(status := Garrisoned);
        TouchUnit(u.id);
      }
      if u.maxHP != max || u.hp < 0 || u.hp > max {
        u := u.(maxHP := max);
        u := u.(hp := if u.hp < 0 then 0 else if u.hp > max then max else u.hp);
        TouchTwice(old(unitRepairs), row.id);
        TouchUnit(u.id);
        Find(Unit004, Repair, e);
      }
    }

    /** One unit of the first pass. */
    method CheckUnit(row: Unit)
      requires Valid()
      modifies this`findings, this`units, this`unitRepairs, this`unitsTouched
      ensures Valid() && findings == old(findings) + input.UnitFindings(row)
      ensures units == (if input.Known(row) then old(units) + [input.UnitAfter(row)] else old(units))
      ensures unitRepairs == (if input.Changed(row) then Seqs.AddNew(old(unitRepairs), [row.id]) else old(unitRepairs))
    {
      hide Checker.Valid, Seqs.AddNew, Input.RowFindings;
      if row.kind.MaxHP().None? {
        Find(Unit009, Exclude, UnitEntity(row.id));
        return;
      }
      var u := RepairUnit(row);
      if u.status != Garrisoned && !input.world.TerrainAt(u.at).Walkable() {
        Find(Unit001, FailFast, UnitEntity(u.id));
      }
      units := units + [u];
    }

    lemma TouchTwice(s: seq<int>, id: int)
      ensures Seqs.AddNew(Seqs.AddNew(s, [id]), [id]) == Seqs.AddNew(s, [id])
    {
      assert [id][..0] == [];
    }

    method CheckUnits() returns (alive: set<int>)
      requires Valid() && units == [] && unitRepairs == []
      modifies this`findings, this`units, this`unitRepairs, this`unitsTouched
      ensures Valid() && units == input.Admitted() && unitRepairs == FirstRepairs(input)
      ensures findings == old(findings) + Seqs.FlatMap(input.SortedUnits(), input.UnitFindings)
      ensures forall id :: id in alive <==> input.Alive(id)
    {
      hide Checker.Valid, Input.Known, Input.Changed, Input.UnitAfter, Input.UnitFindings, Input.Alive;
      hide Seqs.AddNew, Seqs.Map, Seqs.Filter, Seqs.FlatMap, Input.SortedUnits;
      var rows := input.SortedUnits();
      alive := {};
      Starts(rows);
      for k := 0 to |rows|
        invariant Valid()
        invariant units == Seqs.Map(Seqs.Filter(rows[..k], input.Known), input.UnitAfter)
        invariant unitRepairs == Seqs.AddNew([], Seqs.Map(Seqs.Filter(rows[..k], input.Changed), UnitId))
        invariant findings == old(findings) + Seqs.FlatMap(rows[..k], input.UnitFindings)
        invariant AreIds(alive, rows[..k])
      {
        Seqs.MapFilterStep(rows, k, input.Known, input.UnitAfter);
        Seqs.AddNewStep([], rows, k, input.Changed, UnitId);
        Seqs.FlatMapStep(old(findings), rows, k, input.UnitFindings);
        MoreIds(alive, rows, k);
        alive := alive + {rows[k].id};
        CheckUnit(rows[k]);
      }
      assert rows[..|rows|] == rows;
      AliveIds(input, alive);
    }

    /** What the first pass starts from. */
    lemma Starts(rows: seq<Unit>)
      ensures Seqs.Map(Seqs.Filter(rows[..0], input.Known), input.UnitAfter) == []
      ensures Seqs.AddNew([], Seqs.Map(Seqs.Filter(rows[..0], input.Changed), UnitId)) == []
      ensures Seqs.FlatMap(rows[..0], input.UnitFindings) == []
      ensures AreIds({}, rows[..0])
    {
    }

    method Units()
      requires Valid() && units == [] && unitRepairs == [] && garrisonDeletes == []
      modifies this`findings, this`units, this`unitRepairs, this`unitsTouched, this`garrisonDeletes, this`garrisons
      ensures Valid() && units == input.Admitted() && unitRepairs == FirstRepairs(input)
      ensures Lists(garrisonDeletes, DeadRows(input))
      ensures garrisons == map id | id in input.garrisons && input.Alive(id) :: input.garrisons[id]
      ensures findings == old(findings) + Seqs.FlatMap(input.SortedUnits(), input.UnitFindings)
                        + DeletedFindings(garrisonDeletes)
    {
      hide Checker.Valid, Input.Admitted, FirstRepairs, Seqs.FlatMap, Input.SortedUnits, Input.Alive;
      hide Input.UnitFindings;
      var alive := CheckUnits();
      ghost var start := findings;
      var ids := SortedIds(set id | id in input.garrisons && id !in alive);
      for k := 0 to |ids|
        invariant Valid() && units == input.Admitted() && unitRepairs == FirstRepairs(input)
        invariant garrisonDeletes == ids[..k]
        invariant findings == start + DeletedFindings(ids[..k])
      {
        Seqs.MapStep(ids, k, RowFinding);
        garrisonDeletes := garrisonDeletes + [ids[k]];
        Find(Unit007, Repair, UnitEntity(ids[k]));
      }
      assert ids[..|ids|] == ids;
      garrisons := map id | id in input.garrisons && id in alive :: input.garrisons[id];
    }

    // -------------------------------------------------------------------
    // Tasks
    // -------------------------------------------------------------------

    method CheckTask(t: Task.Task, table: map<int, Unit>)
      requires Valid() && IsTable(table, input.Admitted())
      modifies this`findings, this`tasks, this`taskDeletes
      ensures Valid() && findings == old(findings) + input.TaskFindings(t)
      ensures tasks == (if input.KeepsTask(t) then old(tasks) + [t] else old(tasks))
      ensures taskDeletes == (if input.DropsTask(t) then old(taskDeletes) + [t.unitID] else old(taskDeletes))
    {
      var drop := false;
      if t.unitID !in table {
        drop := true;
      } else if table[t.unitID].status == Garrisoned {
        drop := true;
      } else if !t.Validate() {
        drop := true;
      } else if t.phase == Task.Working && table[t.unitID].status != Working {
        drop := true;
      }
      if drop {
        taskDeletes := taskDeletes + [t.unitID];
        Find(Econ003, Repair, UnitEntity(t.unitID));
      } else {
        tasks := tasks + [t];
      }
    }

    method DropTasks(table: map<int, Unit>) returns (working: set<int>)
      requires Valid() && IsTable(table, input.Admitted()) && tasks == [] && taskDeletes == []
      modifies this`findings, this`tasks, this`taskDeletes
      ensures Valid() && tasks == input.KeptTasks()
      ensures taskDeletes == Seqs.Map(Seqs.Filter(input.SortedTasks(), input.DropsTask), TaskUnit)
      ensures findings == old(findings) + Seqs.FlatMap(input.SortedTasks(), input.TaskFindings)
      ensures forall id :: id in working <==> input.HasWork(id)
    {
      hide Checker.Valid, Input.KeepsTask, Input.DropsTask, Input.TaskFindings, Input.Admitted;
      hide Seqs.Map, Seqs.Filter, Seqs.FlatMap, Input.SortedTasks;
      var rows := input.SortedTasks();
      working := {};
      TasksStart(rows);
      for k := 0 to |rows|
        invariant Valid()
        invariant tasks == Seqs.Filter(rows[..k], input.KeepsTask)
        invariant taskDeletes == Seqs.Map(Seqs.Filter(rows[..k], input.DropsTask), TaskUnit)
        invariant findings == old(findings) + Seqs.FlatMap(rows[..k], input.TaskFindings)
        invariant AreWorkers(working, tasks)
      {
        Seqs.FilterStep(rows, k, input.KeepsTask);
        Seqs.MapFilterStep(rows, k, input.DropsTask, TaskUnit);
        Seqs.FlatMapStep(old(findings), rows, k, input.TaskFindings);
        MoreWorkers(working, tasks, rows[k]);
        CheckTask(rows[k], table);
        if input.KeepsTask(rows[k]) && rows[k].phase == Task.Working {
          working := working + {rows[k].unitID};
        }
      }
      assert rows[..|rows|] == rows;
    }

    lemma TasksStart(rows: seq<Task.Task>)
      ensures Seqs.Filter(rows[..0], input.KeepsTask) == []
      ensures Seqs.Map(Seqs.Filter(rows[..0], input.DropsTask), TaskUnit) == []
      ensures Seqs.FlatMap(rows[..0], input.TaskFindings) == []
    {
    }

    method StopIdlers(working: set<int>)
      requires Valid() && units == input.Admitted() && unitRepairs == FirstRepairs(input)
      requires forall id :: id in working <==> input.HasWork(id)
      modifies this`findings, this`units, this`unitRepairs, this`unitsTouched
      ensures Valid() && units == Seqs.Map(input.Admitted(), input.UnitAtLast)
      ensures unitRepairs == Seqs.AddNew(FirstRepairs(input), IdlerRepairs(input))
      ensures findings == old(findings) + Seqs.FlatMap(input.Admitted(), input.IdlerFindings)
    {
      hide Checker.Valid, Input.KeptTasks, Input.IdlerFindings, Input.UnitAtLast, Input.IsIdler, Input.HasWork;
      hide Seqs.Map, Seqs.Filter, Seqs.FlatMap, Seqs.AddNew, Seqs.Upto, Input.Admitted, FirstRepairs;
      ghost var rows := input.Admitted();
      IdlersStart(rows);
      Seqs.UptoEnds(rows, input.UnitAtLast);
      for k := 0 to |units|
        invariant Valid() && |units| == |rows| && units == Seqs.Upto(rows, k, input.UnitAtLast)
        invariant unitRepairs
            == Seqs.AddNew(FirstRepairs(input), Seqs.Map(Seqs.Filter(rows[..k], input.IsIdler), UnitId))
        invariant findings == old(findings) + Seqs.FlatMap(rows[..k], input.IdlerFindings)
      {
        Seqs.UptoStep(rows, k, input.UnitAtLast);
        Seqs.AddNewStep(FirstRepairs(input), rows, k, input.IsIdler, UnitId);
        Seqs.FlatMapStep(old(findings), rows, k, input.IdlerFindings);
        IdlerStep(units[k]);
        if units[k].status == Working && units[k].id !in working {
          units := units[k := units[k].(status := Idle)];
          TouchUnit(units[k].id);
          Find(Econ003, Repair, UnitEntity(units[k].id));
        }
      }
      assert rows[..|rows|] == rows;
    }

    lemma IdlersStart(rows: seq<Unit>)
      ensures Seqs.AddNew(FirstRepairs(input), Seqs.Map(Seqs.Filter(rows[..0], input.IsIdler), UnitId))
          == FirstRepairs(input)
      ensures Seqs.FlatMap(rows[..0], input.IdlerFindings) == []
    {
    }

    lemma IdlerStep(u: Unit)
      ensures input.IsIdler(u) <==> u.status == Working && !input.HasWork(u.id)
      ensures input.UnitAtLast(u) == (if input.IsIdler(u) then u.(status := Idle) else u)
      ensures input.IdlerFindings(u) == (if input.IsIdler(u) then [Finding(Econ003, Repair, UnitEntity(u.id))] else [])
    {
    }

    method Tasks()
      requires Valid() && units == input.Admitted() && unitRepairs == FirstRepairs(input) && tasks == []
          && taskDeletes == []
      modifies this`findings, this`units, this`unitRepairs, this`unitsTouched, this`tasks, this`taskDeletes
      ensures Valid() && units == Seqs.Map(input.Admitted(), input.UnitAtLast) && tasks == input.KeptTasks()
      ensures taskDeletes == Seqs.Map(Seqs.Filter(input.SortedTasks(), input.DropsTask), TaskUnit)
      ensures unitRepairs == Seqs.AddNew(FirstRepairs(input), IdlerRepairs(input))
      ensures findings == old(findings) + Seqs.FlatMap(input.SortedTasks(), input.TaskFindings)
                        + Seqs.FlatMap(input.Admitted(), input.IdlerFindings)
    {
      var table := TableOf(units);
      var working := DropTasks(table);
      StopIdlers(working);
    }

    // -------------------------------------------------------------------
    // Cities
    // -------------------------------------------------------------------

    method CountPopulation() returns (population: map<int, int>)
      ensures forall c :: At(population, c) == input.PopulationOf(c)
    {
      population := map[];
      var us, ps := input.units, input.productions;
      for k := 0 to |us|
        invariant forall c :: At(population, c) == Seqs.Count(us[..k], LivesIn(c))
      {
        assert us[..k + 1][..k] == us[..k];
        if us[k].cityID.Some? {
          var c := us[k].cityID.value;
          population := population[c := At(population, c) + 1];
        }
      }
      assert us[..|us|] == us;
      for k := 0 to |ps|
        invariant forall c :: At(population, c) == Seqs.Count(us, LivesIn(c)) + Seqs.Count(ps[..k], TrainsIn(c))
      {
        assert ps[..k + 1][..k] == ps[..k];
        if ps[k].unitID == 0 {
          population := population[ps[k].cityID := At(population, ps[k].cityID) + 1];
        }
      }
      assert ps[..|ps|] == ps;
    }

    method GroupBuildings() returns (groups: map<int, seq<Building>>)
      ensures forall c :: GroupAt(groups, c) == Seqs.Filter(input.buildings, BuiltIn(c))
    {
      groups := map[];
      var bs := input.buildings;
      for k := 0 to |bs|
        invariant forall c :: GroupAt(groups, c) == Seqs.Filter(bs[..k], BuiltIn(c))
      {
        assert bs[..k + 1][..k] == bs[..k];
        groups := groups[bs[k].cityID := GroupAt(groups, bs[k].cityID) + [bs[k]]];
      }
      assert bs[..|bs|] == bs;
    }

    method PopulationBonus(bs: seq<Building>) returns (bonus: int)
      ensures bonus == HOUSE_BONUS * Seqs.Count(bs, IsStandingHouse)
    {
      bonus := 0;
      for k := 0 to |bs|
        invariant bonus == HOUSE_BONUS * Seqs.Count(bs[..k], IsStandingHouse)
      {
        assert bs[..k + 1][..k] == bs[..k];
        if bs[k].status == Complete && bs[k].kind == House {
          bonus := bonus + HOUSE_BONUS;
        }
      }
      assert bs[..|bs|] == bs;
    }

    method CountConquered(table: map<int, Control>, owner: Uuid, center: Tile) returns (n: nat)
      requires IsControlTable(table, input.controls)
      ensures n == input.ConqueredBy(owner, center)
    {
      n := 0;
      var ts := input.territories;
      for k := 0 to |ts|
        invariant n == Seqs.Count(ts[..k], input.Conquest(owner, center))
      {
        assert ts[..k + 1][..k] == ts[..k];
        if ts[k].id in table && input.PlayerOwner(table[ts[k].id]) == Some(owner)
            && !ts[k].Contains(center.x, center.y) {
          n := n + 1;
        }
      }
      assert ts[..|ts|] == ts;
    }

    method CheckPresence(row: City) returns (c: City, touched: bool)
      requires Valid()
      modifies this`findings
      ensures Valid() && findings == old(findings) + input.PresenceFindings(row)
      ensures c == row.(lastOfflineAt := input.CityAfter(row).lastOfflineAt,
                        protectionUntil := input.CityAfter(row).protectionUntil)
      ensures touched <==> c != row
    {
      c, touched := row, false;
      if c.presence != Online && c.lastOfflineAt.None? {
        c := c.(lastOfflineAt := Some(input.now));
        touched := true;
        Find(City011, Repair, CityEntity(c.id));
      }
      if c.presence == Online && c.protectionUntil.Some? {
        c := c.(protectionUntil := None);
        touched := true;
        Find(City012, Repair, CityEntity(c.id));
      }
    }

    /** The population and the limit, given what was counted for the city. */
    method CheckGrowth(row: City, counted: int, houses: int, conquered: nat) returns (c: City, touched: bool)
      requires Valid() && counted == input.PopulationOf(row.id)
      requires houses == HOUSE_BONUS * input.HousesOf(row.id) && conquered == input.ConqueredBy(row.owner, row.center)
      modifies this`findings
      ensures Valid() && findings == old(findings) + input.GrowthFindings(row)
      ensures c == row.(population := input.PopulationOf(row.id), limit := input.LimitOf(row))
      ensures touched <==> c != row
    {
      hide Checker.Valid, Input.PopulationOf, Input.HousesOf, Input.ConqueredBy;
      var e := CityEntity(row.id);
      c, touched := row, false;
      if !input.world.TerrainAt(c.center).Walkable() {
        Find(City007, FailFast, e);
      }
      if c.population != counted {
        Find(City017, Repair, e);
        c := c.(population := counted);
        touched := true;
      }
      var bonus := houses + CONQUEST_BONUS * conquered;
      var limit := if c.era in input.eraCaps then input.eraCaps[c.era] + bonus else c.limit;
      if c.limit != limit {
        Find(if bonus > 0 then Econ004 else City003, Repair, e);
        c := c.(limit := limit);
        touched := true;
      }
    }

    /** One city, given what was counted for it. */
    method CheckCity(row: City, counted: int, houses: int, conquered: nat)
      requires Valid() && counted == input.PopulationOf(row.id)
      requires houses == HOUSE_BONUS * input.HousesOf(row.id) && conquered == input.ConqueredBy(row.owner, row.center)
      modifies this`findings, this`cities, this`cityRepairs, this`citiesTouched
      ensures Valid() && findings == old(findings) + input.CityFindings(row)
      ensures cities == old(cities) + [input.CityAfter(row)]
      ensures cityRepairs == (if input.ChangesCity(row) then Seqs.AddNew(old(cityRepairs), [row.id])
          else old(cityRepairs))
    {
      hide Checker.Valid, Input.PopulationOf, Input.HousesOf, Input.ConqueredBy, Input.LimitOf;
      hide Input.GrowthFindings, Seqs.AddNew;
      var grown, changed := CheckGrowth(row, counted, houses, conquered);
      var c, touched := CheckPresence(grown);
      assert input.PresenceFindings(grown) == input.PresenceFindings(row);
      if changed || touched {
        TouchCity(c.id);
      }
      cities := cities + [c];
    }

    method Cities()
      requires Valid() && cities == [] && cityRepairs == []
      modifies this`findings, this`cities, this`cityRepairs, this`citiesTouched
      ensures Valid() && cities == Seqs.Map(input.SortedCities(), input.CityAfter)
      ensures cityRepairs == Seqs.AddNew([], CityChanges(input))
      ensures findings == old(findings) + Seqs.FlatMap(input.SortedCities(), input.CityFindings)
    {
      hide Checker.Valid, Input.CityAfter, Input.CityFindings, Input.ChangesCity, Input.PopulationOf, Input.ConqueredBy;
      hide Seqs.Map, Seqs.Filter, Seqs.FlatMap, Seqs.AddNew, Seqs.Count, Input.SortedCities, FindControl;
      var population := CountPopulation();
      var groups := GroupBuildings();
      var table := ControlTableOf(input.controls);
      var rows := input.SortedCities();
      CitiesStart(rows);
      for k := 0 to |rows|
        invariant Valid()
        invariant cities == Seqs.Map(rows[..k], input.CityAfter)
        invariant cityRepairs == Seqs.AddNew([], Seqs.Map(Seqs.Filter(rows[..k], input.ChangesCity), CityId))
        invariant findings == old(findings) + Seqs.FlatMap(rows[..k], input.CityFindings)
      {
        Seqs.MapStep(rows, k, input.CityAfter);
        Seqs.AddNewStep([], rows, k, input.ChangesCity, CityId);
        Seqs.FlatMapStep(old(findings), rows, k, input.CityFindings);
        var conquered := CountConquered(table, rows[k].owner, rows[k].center);
        var houses := PopulationBonus(GroupAt(groups, rows[k].id));
        CheckCity(rows[k], At(population, rows[k].id), houses, conquered);
      }
      assert rows[..|rows|] == rows;
    }

    lemma CitiesStart(rows: seq<City>)
      ensures Seqs.Map(rows[..0], input.CityAfter) == []
      ensures Seqs.AddNew([], Seqs.Map(Seqs.Filter(rows[..0], input.ChangesCity), CityId)) == []
      ensures Seqs.FlatMap(rows[..0], input.CityFindings) == []
    {
    }

    // -------------------------------------------------------------------
    // Civilizations
    // -------------------------------------------------------------------

    /** The catalogue of civilizations, and that every city carries one of it. */
    method Civilizations()
      requires Valid()
      modifies this`findings
      ensures Valid() && findings == old(findings) + CatalogueFindings(input)
    {
      hide Checker.Valid, Seqs.FlatMap, Input.SortedCities;
      if input.civilizations.None? {
        return;
      }
      var civilizations, rows := input.civilizations.value, input.SortedCities();
      var known: set<string> := {};
      NoneFound(civilizations, rows);
      for k := 0 to |civilizations|
        invariant Valid() && forall code :: code in known <==> exists c :: c in civilizations[..k] && c.code == code
        invariant findings == old(findings) + Seqs.FlatMap(civilizations[..k], input.CivilizationFindings)
      {
        Seqs.FlatMapStep(old(findings), civilizations, k, input.CivilizationFindings);
        var civilization := civilizations[k];
        assert civilizations[..k + 1] == civilizations[..k] + [civilization];
        known := known + {civilization.code};
        if !civilization.valid {
          Find(Player012, FailFast, CivilizationEntity(civilization.code));
        }
      }
      assert civilizations[..|civilizations|] == civilizations;
      ghost var catalogue := findings;
      for k := 0 to |rows|
        invariant Valid() && findings == catalogue + Seqs.FlatMap(rows[..k], input.CitizenFindings)
      {
        Seqs.FlatMapStep(catalogue, rows, k, input.CitizenFindings);
        if rows[k].civilization !in known {
          Find(Player002, FailFast, CityEntity(rows[k].id));
        }
      }
      assert rows[..|rows|] == rows;
    }

    lemma NoneFound(civilizations: seq<Civilization>, rows: seq<City>)
      ensures Seqs.FlatMap(civilizations[..0], input.CivilizationFindings) == []
      ensures Seqs.FlatMap(rows[..0], input.CitizenFindings) == []
    {
    }

    // -------------------------------------------------------------------
    // Controls
    // -------------------------------------------------------------------

    /** One control, in its place. */
    method CheckControl(k: int, claimed: set<int>)
      requires Valid() && 0 <= k < |controls| && forall id :: id in claimed <==> id in input.activeClaims
      modifies this`findings, this`controls, this`controlRepairs
      ensures Valid() && findings == old(findings) + input.ControlFindings(old(controls[k]))
      ensures controls == old(controls)[k := input.ControlAfter(old(controls[k]))]
      ensures controlRepairs ==
        (if input.ChangesControl(old(controls[k])) then old(controlRepairs) + [old(controls[k]).territoryID]
         else old(controlRepairs))
    {
      var ct := controls[k];
      var e, touched := TerritoryEntity(ct.territoryID), false;
      if ct.contested != (ct.territoryID in claimed) {
        Find(Terr006, Repair, e);
        ct := ct.(contested := ct.territoryID in claimed);
        touched := true;
      }
      if ct.ownerType == OwnerPlayer && !input.PlayerExists(ct.ownerID) {
        Find(Terr005, Repair, e);
        ct := ct.(ownerType := OwnerNone, ownerID := None, capturedAt := None);
        touched := true;
      }
      if ct.ownerType != OwnerNone && ct.capturedAt.None? {
        ct := ct.(capturedAt := Some(input.now));
        touched := true;
        Find(Terr007, Repair, e);
      }
      if touched {
        ct := ct.(version := ct.version + 1);
        controlRepairs := controlRepairs + [ct.territoryID];
      }
      controls := controls[k := ct];
    }

    method Controls()
      requires Valid() && controls == input.SortedControls() && controlRepairs == []
      modifies this`findings, this`controls, this`controlRepairs
      ensures Valid() && controls == Seqs.Map(input.SortedControls(), input.ControlAfter)
      ensures controlRepairs == Seqs.Map(Seqs.Filter(input.SortedControls(), input.ChangesControl), ControlTerritory)
      ensures findings == old(findings) + Seqs.FlatMap(input.SortedControls(), input.ControlFindings)
    {
      hide Checker.Valid, Input.ControlAfter, Input.ControlFindings, Input.ChangesControl, Input.SortedControls;
      hide Seqs.Map, Seqs.Filter, Seqs.FlatMap, Seqs.Upto;
      var claimed := set id | id in input.activeClaims;
      ghost var rows := controls;
      ControlsStart(rows);
      Seqs.UptoEnds(rows, input.ControlAfter);
      for k := 0 to |controls|
        invariant Valid() && |controls| == |rows| && controls == Seqs.Upto(rows, k, input.ControlAfter)
        invariant controlRepairs == Seqs.Map(Seqs.Filter(rows[..k], input.ChangesControl), ControlTerritory)
        invariant findings == old(findings) + Seqs.FlatMap(rows[..k], input.ControlFindings)
      {
        Seqs.UptoStep(rows, k, input.ControlAfter);
        Seqs.MapFilterStep(rows, k, input.ChangesControl, ControlTerritory);
        Seqs.FlatMapStep(old(findings), rows, k, input.ControlFindings);
        CheckControl(k, claimed);
      }
      assert rows[..|rows|] == rows;
    }

    lemma ControlsStart(rows: seq<Control>)
      ensures Seqs.Map(Seqs.Filter(rows[..0], input.ChangesControl), ControlTerritory) == []
      ensures Seqs.FlatMap(rows[..0], input.ControlFindings) == []
    {
    }
  }

  /** Checks the input, pass by pass. */
  method Check(i: Input) returns (r: Outcome)
    ensures Checked(i, r)
  {
    hide Checker.Valid, Lists, DeadRows, FirstRepairs, IdlerRepairs, CityChanges, DeletedFindings, Input.Alive;
    hide Seqs.Map, Seqs.FlatMap, Seqs.Filter, Seqs.AddNew, Input.Admitted, Input.KeptTasks;
    hide Input.SortedUnits, Input.SortedTasks, Input.SortedCities, Input.SortedControls, CatalogueFindings;
    var c := new Checker(i);
    c.Units();
    c.Tasks();
    c.Civilizations();
    c.Cities();
    c.Controls();
    r := Outcome(c.findings, c.units, c.cities, c.cityRepairs, c.unitRepairs, c.controlRepairs, c.garrisonDeletes,
                 c.controls, c.garrisons, c.taskDeletes, c.tasks);
  }

  // ---------------------------------------------------------------------
  // Tables by id
  // ---------------------------------------------------------------------

  function At(counts: map<int, int>, id: int): int {
    if id in counts then counts[id] else 0
  }

  function GroupAt(groups: map<int, seq<Building>>, id: int): seq<Building> {
    if id in groups then groups[id] else []
  }

  ghost predicate IsTable(table: map<int, Unit>, units: seq<Unit>) {
    forall id :: (if id in table then Some(table[id]) else None) == LoadCheck.Find(units, id)
  }

  ghost predicate IsControlTable(table: map<int, Control>, controls: seq<Control>) {
    forall id :: (if id in table then Some(table[id]) else None) == FindControl(controls, id)
  }

  method TableOf(units: seq<Unit>) returns (table: map<int, Unit>)
    ensures IsTable(table, units)
  {
    table := map[];
    for k := 0 to |units|
      invariant IsTable(table, units[..k])
    {
      assert units[..k + 1][..k] == units[..k];
      table := table[units[k].id := units[k]];
    }
    assert units[..|units|] == units;
  }

  method ControlTableOf(controls: seq<Control>) returns (table: map<int, Control>)
    ensures IsControlTable(table, controls)
  {
    table := map[];
    for k := 0 to |controls|
      invariant IsControlTable(table, controls[..k])
    {
      assert controls[..k + 1][..k] == controls[..k];
      table := table[controls[k].territoryID := controls[k]];
    }
    assert controls[..|controls|] == controls;
  }

  ghost predicate AreIds(ids: set<int>, units: seq<Unit>) {
    forall id :: id in ids <==> exists u :: u in units && u.id == id
  }

  lemma MoreIds(ids: set<int>, rows: seq<Unit>, k: nat)
    requires k < |rows| && AreIds(ids, rows[..k])
    ensures AreIds(ids + {rows[k].id}, rows[..k + 1])
  {
    assert rows[..k + 1] == rows[..k] + [rows[k]];
  }

  ghost predicate AreWorkers(ids: set<int>, tasks: seq<Task.Task>) {
    forall id :: id in ids <==> exists t :: t in tasks && t.unitID == id && t.phase == Task.Working
  }

  lemma MoreWorkers(ids: set<int>, tasks: seq<Task.Task>, t: Task.Task)
    requires AreWorkers(ids, tasks)
    ensures AreWorkers(if t.phase == Task.Working then ids + {t.unitID} else ids, tasks + [t])
  {
  }

  lemma AliveIds(i: Input, ids: set<int>)
    requires AreIds(ids, i.SortedUnits())
    ensures forall id :: id in ids <==> i.Alive(id)
  {
    forall u: Unit ensures u in i.SortedUnits() <==> u in i.units {
      Seqs.InSort(i.units, UnitId, u);
    }
  }

  /** The library's sort, on the keys of a table. */
  method SortedIds(s: set<int>) returns (ids: seq<int>)
    ensures Lists(ids, s)
  {
    ids := [];
    var rest := s;
    while |rest| > 0
      invariant rest <= s && Lists(ids, s - rest)
    {
      SomeId(rest);
      var id :| id in rest;
      ids := Insert(ids, id);
      rest := rest - {id};
    }
  }

  lemma SomeId(s: set<int>)
    requires |s| > 0
    ensures exists id :: id in s
  {
    assert (forall id :: id !in s) ==> s == {};
  }

  method Insert(ids: seq<int>, id: int) returns (r: seq<int>)
    requires id !in ids && forall j, k :: 0 <= j < k < |ids| ==> ids[j] < ids[k]
    ensures forall j, k :: 0 <= j < k < |r| ==> r[j] < r[k]
    ensures forall x :: x in r <==> x in ids || x == id
  {
    var at := 0;
    while at < |ids| && ids[at] < id
      invariant 0 <= at <= |ids| && forall k :: 0 <= k < at ==> ids[k] < id
    {
      at := at + 1;
    }
    r := ids[..at] + [id] + ids[at..];
    assert ids == ids[..at] + ids[at..];
  }
}

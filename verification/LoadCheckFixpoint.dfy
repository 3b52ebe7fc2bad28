// What the check leaves behind: rows that satisfy the invariants, repair lists
// that are exactly the rows that changed, and nothing more to repair.

module LoadCheckFixpoint {
  import opened Wrappers
  import opened World
  import Seqs
  import Task
  import opened Territory
  import opened LoadCheck

  // ---------------------------------------------------------------------
  // Rows have one version each
  // ---------------------------------------------------------------------

  ghost predicate OneRowEach(units: seq<Unit>) {
    forall a, b :: a in units && b in units && a.id == b.id ==> a == b
  }

  ghost predicate OneControlEach(controls: seq<Control>) {
    forall a, b :: a in controls && b in controls && a.territoryID == b.territoryID ==> a == b
  }

  /** The primary keys of the tables. */
  ghost predicate UniqueIds(i: Input) {
    OneRowEach(i.units) && OneControlEach(i.controls)
  }

  lemma {:induction false} FindLooksUp(units: seq<Unit>, id: int)
    ensures match Find(units, id)
            case Some(u) => u in units && u.id == id
            case None => forall u :: u in units ==> u.id != id
  {
    if |units| > 0 {
      FindLooksUp(units[..|units| - 1], id);
      assert units == units[..|units| - 1] + [units[|units| - 1]];
    }
  }

  lemma FindsRow(units: seq<Unit>, u: Unit)
    requires OneRowEach(units) && u in units
    ensures Find(units, u.id) == Some(u)
  {
    FindLooksUp(units, u.id);
  }

  lemma {:induction false} FindControlLooksUp(controls: seq<Control>, id: int)
    ensures match FindControl(controls, id)
            case Some(ct) => ct in controls && ct.territoryID == id
            case None => forall ct :: ct in controls ==> ct.territoryID != id
  {
    if |controls| > 0 {
      FindControlLooksUp(controls[..|controls| - 1], id);
      assert controls == controls[..|controls| - 1] + [controls[|controls| - 1]];
    }
  }

  // ---------------------------------------------------------------------
  // Which rows are in each list
  // ---------------------------------------------------------------------

  lemma InMapIff<A, B>(s: seq<A>, f: A -> B, y: B)
    ensures y in Seqs.Map(s, f) <==> exists x :: x in s && f(x) == y
  {
    Seqs.InMap(s, f);
    if y in Seqs.Map(s, f) {
      var k :| 0 <= k < |s| && Seqs.Map(s, f)[k] == y;
      assert s[k] in s && f(s[k]) == y;
    }
    if x :| x in s && f(x) == y {
      var k :| 0 <= k < |s| && s[k] == x;
      assert Seqs.Map(s, f)[k] == y;
    }
  }

  lemma InAdmitted(i: Input, v: Unit)
    ensures v in i.Admitted() <==> exists u :: u in i.units && i.Known(u) && i.UnitAfter(u) == v
  {
    var known := Seqs.Filter(i.SortedUnits(), i.Known);
    InMapIff(known, i.UnitAfter, v);
    forall u: Unit ensures u in known <==> u in i.units && i.Known(u) {
      Seqs.InFilter(i.SortedUnits(), i.Known, u);
      Seqs.InSort(i.units, UnitId, u);
    }
  }

  lemma AdmittedOneEach(i: Input)
    requires OneRowEach(i.units)
    ensures OneRowEach(i.Admitted())
  {
    forall a, b | a in i.Admitted() && b in i.Admitted() && a.id == b.id ensures a == b {
      InAdmitted(i, a);
      InAdmitted(i, b);
    }
  }

  lemma InUnits(i: Input, r: Outcome, w: Unit)
    requires Checked(i, r)
    ensures w in r.units <==>
      exists u :: u in i.units && i.Known(u) && i.UnitAtLast(i.UnitAfter(u)) == w
  {
    InMapIff(i.Admitted(), i.UnitAtLast, w);
    if w in r.units {
      var v :| v in i.Admitted() && i.UnitAtLast(v) == w;
      InAdmitted(i, v);
    }
    if u :| u in i.units && i.Known(u) && i.UnitAtLast(i.UnitAfter(u)) == w {
      InAdmitted(i, i.UnitAfter(u));
    }
  }

  lemma InTasks(i: Input, t: Task.Task)
    ensures t in i.KeptTasks() <==> t in i.tasks && i.KeepsTask(t)
  {
    Seqs.InFilter(i.SortedTasks(), i.KeepsTask, t);
    Seqs.InSort(i.tasks, TaskUnit, t);
  }

  lemma InCities(i: Input, r: Outcome, d: City)
    requires Checked(i, r)
    ensures d in r.cities <==> exists c :: c in i.cities && i.CityAfter(c) == d
  {
    InMapIff(i.SortedCities(), i.CityAfter, d);
    forall c: City ensures c in i.SortedCities() <==> c in i.cities {
      Seqs.InSort(i.cities, CityId, c);
    }
  }

  lemma InControls(i: Input, r: Outcome, d: Control)
    requires Checked(i, r)
    ensures d in r.controls <==> exists ct :: ct in i.controls && i.ControlAfter(ct) == d
  {
    InMapIff(i.SortedControls(), i.ControlAfter, d);
    forall ct: Control ensures ct in i.SortedControls() <==> ct in i.controls {
      Seqs.InSort(i.controls, ControlTerritory, ct);
    }
  }

  // ---------------------------------------------------------------------
  // What the output satisfies
  // ---------------------------------------------------------------------

  ghost predicate UnitInvariants(r: Outcome, u: Unit) {
    && u.kind.MaxHP() == Some(u.maxHP) && 0 <= u.hp <= u.maxHP
    && (u.status == Garrisoned <==> u.id in r.garrisons)
    && (u.status == Working <==> exists t :: t in r.tasks && t.unitID == u.id && t.phase == Task.Working)
  }

  ghost predicate TaskInvariants(r: Outcome, t: Task.Task) {
    && t.Validate()
    && exists u :: u in r.units && u.id == t.unitID && u.status != Garrisoned
  }

  /** After the tasks, a unit works exactly when it has a task at work. */
  lemma WorksWithATask(i: Input, v: Unit)
    requires OneRowEach(i.units) && v in i.Admitted()
    ensures i.UnitAtLast(v).status == Working <==> i.HasWork(v.id)
  {
    AdmittedOneEach(i);
    FindsRow(i.Admitted(), v);
    forall t | t in i.KeptTasks() && t.unitID == v.id && t.phase == Task.Working ensures v.status == Working {
      InTasks(i, t);
    }
  }

  lemma UnitsAreSound(i: Input, r: Outcome, w: Unit)
    requires UniqueIds(i) && Checked(i, r) && w in r.units
    ensures UnitInvariants(r, w)
  {
    hide Checked;
    InUnits(i, r, w);
    GarrisonsOf(i, r);
    TasksOf(i, r);
    var u :| u in i.units && i.Known(u) && i.UnitAtLast(i.UnitAfter(u)) == w;
    InAdmitted(i, i.UnitAfter(u));
    WorksWithATask(i, i.UnitAfter(u));
    assert i.Alive(u.id);
  }

  lemma TasksAreSound(i: Input, r: Outcome, t: Task.Task)
    requires UniqueIds(i) && Checked(i, r) && t in r.tasks
    ensures TaskInvariants(r, t)
  {
    InTasks(i, t);
    FindLooksUp(i.Admitted(), t.unitID);
    var v := Find(i.Admitted(), t.unitID).value;
    InAdmitted(i, v);
    InUnits(i, r, i.UnitAtLast(v));
    assert i.UnitAtLast(v).status != Garrisoned;
  }

  /** Controls agree with the claims, owners exist and captures are dated. */
  lemma ControlsAreSound(i: Input, r: Outcome, d: Control)
    requires Checked(i, r) && d in r.controls
    ensures d.contested <==> d.territoryID in i.activeClaims
    ensures d.ownerType == OwnerPlayer ==> i.PlayerExists(d.ownerID)
    ensures d.ownerType != OwnerNone ==> d.capturedAt.Some?
  {
    hide Checked;
    InControls(i, r, d);
    var ct :| ct in i.controls && i.ControlAfter(ct) == d;
    assert i.Orphaned(ct) || i.Undated(ct) || ct.ownerType == OwnerNone || ct.capturedAt.Some?;
  }

  /** Populations are exact, limits follow the era, the houses and the conquests,
      and the marks of presence agree with the presence. */
  lemma CitiesAreSound(i: Input, r: Outcome, d: City)
    requires Checked(i, r) && d in r.cities
    ensures d.population == i.PopulationOf(d.id)
    ensures d.era in i.eraCaps ==>
      d.limit == i.eraCaps[d.era] + HOUSE_BONUS * i.HousesOf(d.id) + CONQUEST_BONUS * i.ConqueredBy(d.owner, d.center)
    ensures d.presence != Online ==> d.lastOfflineAt.Some?
    ensures d.presence == Online ==> d.protectionUntil.None?
  {
    InCities(i, r, d);
  }

  // ---------------------------------------------------------------------
  // Repair lists
  // ---------------------------------------------------------------------

  /** A unit is listed exactly when its row changed, and once. */
  lemma UnitRepairsAreChanges(i: Input, r: Outcome, id: int)
    requires Checked(i, r)
    ensures id in r.unitRepairs <==>
      exists u :: u in i.units && i.Known(u) && u.id == id && i.UnitAtLast(i.UnitAfter(u)) != u
    ensures Seqs.NoDuplicates(r.unitRepairs)
  {
    Seqs.InAddNew(FirstRepairs(i), IdlerRepairs(i), id);
    Seqs.InAddNew([], UnitChanges(i), id);
    Seqs.AddNewKeepsDistinct([], UnitChanges(i));
    Seqs.AddNewKeepsDistinct(FirstRepairs(i), IdlerRepairs(i));
    InChanges(i, id);
    InIdlers(i, id);
  }

  lemma InChanges(i: Input, id: int)
    ensures id in UnitChanges(i) <==> exists u :: u in i.units && i.Known(u) && u.id == id && i.UnitAfter(u) != u
  {
    var changed := Seqs.Filter(i.SortedUnits(), i.Changed);
    InMapIff(changed, UnitId, id);
    forall u: Unit ensures u in changed <==> u in i.units && i.Changed(u) {
      Seqs.InFilter(i.SortedUnits(), i.Changed, u);
      Seqs.InSort(i.units, UnitId, u);
    }
  }

  lemma InIdlers(i: Input, id: int)
    ensures id in IdlerRepairs(i) <==>
      exists u :: u in i.units && i.Known(u) && u.id == id && i.IsIdler(i.UnitAfter(u))
  {
    var idlers := Seqs.Filter(i.Admitted(), i.IsIdler);
    InMapIff(idlers, UnitId, id);
    forall v: Unit ensures v in idlers <==> v in i.Admitted() && i.IsIdler(v) {
      Seqs.InFilter(i.Admitted(), i.IsIdler, v);
    }
    if id in IdlerRepairs(i) {
      var v :| v in idlers && v.id == id;
      InAdmitted(i, v);
    }
    if u :| u in i.units && i.Known(u) && u.id == id && i.IsIdler(i.UnitAfter(u)) {
      InAdmitted(i, i.UnitAfter(u));
    }
  }

  // ---------------------------------------------------------------------
  // Checking what has been checked
  // ---------------------------------------------------------------------

  /** The next start reads back what the first one wrote: the corrected rows, and
      the excluded units as they were. */
  function Again(i: Input, r: Outcome, later: int): Input {
    i.(units := r.units + Seqs.Filter(i.units, i.Excluded),
       cities := r.cities, garrisons := r.garrisons, controls := r.controls, tasks := r.tasks, now := later)
  }

  ghost predicate NothingToRepair(r: Outcome) {
    forall f :: f in r.findings ==> f.policy != Repair
  }

  lemma InUnitsAgain(i: Input, r: Outcome, later: int, w: Unit)
    requires Checked(i, r)
    ensures w in Again(i, r, later).units <==> w in r.units || (w in i.units && !i.Known(w))
  {
    Seqs.InFilter(i.units, i.Excluded, w);
  }

  lemma AliveAgain(i: Input, r: Outcome, later: int, id: int)
    requires Checked(i, r)
    ensures Again(i, r, later).Alive(id) <==> i.Alive(id)
  {
    var a := Again(i, r, later);
    if i.Alive(id) {
      var u :| u in i.units && u.id == id;
      var w := if i.Known(u) then i.UnitAtLast(i.UnitAfter(u)) else u;
      InUnits(i, r, w);
      InUnitsAgain(i, r, later, w);
      assert w in a.units && w.id == id;
    }
    if a.Alive(id) {
      var w :| w in a.units && w.id == id;
      InUnits(i, r, w);
      InUnitsAgain(i, r, later, w);
    }
  }

  lemma TasksOf(i: Input, r: Outcome)
    requires Checked(i, r)
    ensures r.tasks == i.KeptTasks()
  {
  }

  lemma GarrisonsOf(i: Input, r: Outcome)
    requires Checked(i, r)
    ensures r.garrisons == map id | id in i.garrisons && i.Alive(id) :: i.garrisons[id]
  {
  }

  lemma NoDeadRowsAgain(i: Input, r: Outcome, later: int)
    requires Checked(i, r)
    ensures DeadRows(Again(i, r, later)) == {}
  {
    forall id | id in r.garrisons ensures Again(i, r, later).Alive(id) {
      AliveAgain(i, r, later, id);
    }
  }

  /** A unit that was admitted is left as it is by the next first pass. */
  lemma UnitStays(i: Input, r: Outcome, later: int, w: Unit)
    requires Checked(i, r) && w in r.units
    ensures Again(i, r, later).Known(w) && Again(i, r, later).UnitAfter(w) == w
    ensures forall f :: f in Again(i, r, later).UnitFindings(w) ==> f.policy != Repair
  {
    hide Checked;
    InUnits(i, r, w);
    GarrisonsOf(i, r);
    var u :| u in i.units && i.Known(u) && i.UnitAtLast(i.UnitAfter(u)) == w;
    assert i.Alive(u.id);
  }

  lemma AdmittedAgain(i: Input, r: Outcome, later: int, w: Unit)
    requires Checked(i, r)
    ensures w in Again(i, r, later).Admitted() <==> w in r.units
  {
    var a := Again(i, r, later);
    InAdmitted(a, w);
    if w in a.Admitted() {
      var u :| u in a.units && a.Known(u) && a.UnitAfter(u) == w;
      InUnitsAgain(i, r, later, u);
      UnitStays(i, r, later, u);
    }
    if w in r.units {
      InUnitsAgain(i, r, later, w);
      UnitStays(i, r, later, w);
    }
  }

  lemma AgainOneEach(i: Input, r: Outcome, later: int)
    requires OneRowEach(i.units) && Checked(i, r)
    ensures OneRowEach(Again(i, r, later).units)
  {
    hide Checked;
    var a := Again(i, r, later);
    forall x, y | x in a.units && y in a.units && x.id == y.id ensures x == y {
      InUnitsAgain(i, r, later, x);
      InUnitsAgain(i, r, later, y);
      InUnits(i, r, x);
      InUnits(i, r, y);
    }
  }

  lemma FindAgain(i: Input, r: Outcome, later: int, v: Unit)
    requires OneRowEach(i.units) && Checked(i, r) && v in i.Admitted()
    ensures Find(Again(i, r, later).Admitted(), v.id) == Some(i.UnitAtLast(v))
  {
    var a, w := Again(i, r, later), i.UnitAtLast(v);
    InAdmitted(i, v);
    InUnits(i, r, w);
    AdmittedAgain(i, r, later, w);
    AgainOneEach(i, r, later);
    AdmittedOneEach(a);
    FindsRow(a.Admitted(), w);
  }

  /** A task that was kept is kept again. */
  lemma TaskStays(i: Input, r: Outcome, later: int, t: Task.Task)
    requires OneRowEach(i.units) && Checked(i, r) && t in r.tasks
    ensures Again(i, r, later).KeepsTask(t)
  {
    InTasks(i, t);
    FindLooksUp(i.Admitted(), t.unitID);
    var v := Find(i.Admitted(), t.unitID).value;
    FindAgain(i, r, later, v);
    if t.phase == Task.Working {
      assert i.HasWork(v.id);
    }
  }

  lemma NoIdlersAgain(i: Input, r: Outcome, later: int, w: Unit)
    requires OneRowEach(i.units) && Checked(i, r) && w in Again(i, r, later).Admitted()
    ensures !Again(i, r, later).IsIdler(w)
  {
    var a := Again(i, r, later);
    AdmittedAgain(i, r, later, w);
    InMapIff(i.Admitted(), i.UnitAtLast, w);
    var v :| v in i.Admitted() && i.UnitAtLast(v) == w;
    WorksWithATask(i, v);
    if w.status == Working {
      var t :| t in i.KeptTasks() && t.unitID == v.id && t.phase == Task.Working;
      TaskStays(i, r, later, t);
      InTasks(a, t);
    }
  }

  /** Repairs move nobody in or out of a city. */
  lemma PopulationStays(i: Input, r: Outcome, later: int, cityID: int)
    requires Checked(i, r)
    ensures Again(i, r, later).PopulationOf(cityID) == i.PopulationOf(cityID)
  {
    var p := LivesIn(cityID);
    var known, excluded := Seqs.Filter(i.SortedUnits(), i.Known), Seqs.Filter(i.units, i.Excluded);
    Seqs.CountAppend(r.units, excluded, p);
    Seqs.CountMap(i.Admitted(), i.UnitAtLast, p);
    Seqs.CountMap(known, i.UnitAfter, p);
    Seqs.FilterSort(i.units, UnitId, i.Known, p);
    Seqs.CountSplits(i.units, i.Known, i.Excluded, p);
  }

  lemma ControlKeepsTerritory(i: Input)
    ensures forall ct :: i.ControlAfter(ct).territoryID == ct.territoryID
  {
  }

  lemma ControlFoundAgain(i: Input, r: Outcome, id: int)
    requires OneControlEach(i.controls) && Checked(i, r)
    ensures FindControl(i.controls, id).None? ==> FindControl(r.controls, id).None?
    ensures FindControl(i.controls, id).Some? ==>
      FindControl(r.controls, id) == Some(i.ControlAfter(FindControl(i.controls, id).value))
  {
    hide Checked, Input.ControlAfter;
    ControlKeepsTerritory(i);
    FindControlLooksUp(i.controls, id);
    FindControlLooksUp(r.controls, id);
    if FindControl(r.controls, id).Some? {
      InControls(i, r, FindControl(r.controls, id).value);
    }
    if FindControl(i.controls, id).Some? {
      InControls(i, r, i.ControlAfter(FindControl(i.controls, id).value));
    }
  }

  /** Territories are counted before the controls are repaired. A player who
      exists conquered the same ones either way; one who does not, none after. */
  lemma ConquestsAgain(i: Input, r: Outcome, later: int, owner: Uuid, center: Tile)
    requires OneControlEach(i.controls) && Checked(i, r)
    ensures Again(i, r, later).ConqueredBy(owner, center)
         == (if owner in i.players then i.ConqueredBy(owner, center) else 0)
  {
    hide Checked;
    var a := Again(i, r, later);
    forall t | t in i.territories
      ensures a.Conquest(owner, center)(t) == (owner in i.players && i.Conquest(owner, center)(t))
    {
      ControlFoundAgain(i, r, t.id);
    }
    if owner in i.players {
      Seqs.CountSame(i.territories, a.Conquest(owner, center), i.Conquest(owner, center));
    } else {
      Seqs.CountSame(i.territories, a.Conquest(owner, center), (t: Territory) => false);
      NoneCounted(i.territories);
    }
  }

  lemma {:induction false} NoneCounted(ts: seq<Territory>)
    ensures Seqs.Count(ts, (t: Territory) => false) == 0
  {
    if |ts| > 0 {
      NoneCounted(ts[..|ts| - 1]);
    }
  }

  /** Whether a city's limit was counted with territories that the same check
      then frees. */
  predicate Settled(i: Input, c: City) {
    c.era in i.eraCaps && c.owner !in i.players ==> i.ConqueredBy(c.owner, c.center) == 0
  }

  lemma SameHouses(i: Input, r: Outcome, later: int, cityID: int)
    ensures Again(i, r, later).HousesOf(cityID) == i.HousesOf(cityID)
  {
  }

  lemma CityStays(i: Input, r: Outcome, later: int, c: City)
    requires OneControlEach(i.controls) && Checked(i, r) && c in i.cities
    ensures (forall f :: f in Again(i, r, later).CityFindings(i.CityAfter(c)) ==> f.policy != Repair) <==> Settled(i, c)
  {
    hide Checked, Input.PopulationOf, Input.ConqueredBy, Input.HousesOf;
    var a, d := Again(i, r, later), i.CityAfter(c);
    SameHouses(i, r, later, c.id);
    PopulationStays(i, r, later, c.id);
    ConquestsAgain(i, r, later, c.owner, c.center);
    if !Settled(i, c) {
      var bonus := HOUSE_BONUS * a.HousesOf(d.id) + CONQUEST_BONUS * a.ConqueredBy(d.owner, d.center);
      assert Finding(if bonus > 0 then Econ004 else City003, Repair, CityEntity(d.id)) in a.CityFindings(d);
    }
  }

  lemma ControlStays(i: Input, r: Outcome, later: int, d: Control)
    requires Checked(i, r) && d in r.controls
    ensures Again(i, r, later).ControlFindings(d) == []
  {
    InControls(i, r, d);
  }

  // ---------------------------------------------------------------------
  // The fixpoint
  // ---------------------------------------------------------------------

  lemma InUnitFindings(i: Input, f: Finding)
    ensures f in Seqs.FlatMap(i.SortedUnits(), i.UnitFindings) <==> exists u :: u in i.units && f in i.UnitFindings(u)
  {
    Seqs.InFlatMap(i.SortedUnits(), i.UnitFindings, f);
    forall u: Unit ensures u in i.SortedUnits() <==> u in i.units {
      Seqs.InSort(i.units, UnitId, u);
    }
  }

  lemma InCityFindings(i: Input, f: Finding)
    ensures f in Seqs.FlatMap(i.SortedCities(), i.CityFindings) <==> exists c :: c in i.cities && f in i.CityFindings(c)
  {
    Seqs.InFlatMap(i.SortedCities(), i.CityFindings, f);
    forall c: City ensures c in i.SortedCities() <==> c in i.cities {
      Seqs.InSort(i.cities, CityId, c);
    }
  }

  ghost predicate NoRepair(findings: seq<Finding>) {
    forall f :: f in findings ==> f.policy != Repair
  }

  /** The part of a list of findings that each pass writes. */
  lemma PassesOf(i: Input, r: Outcome)
    requires Checked(i, r)
    ensures NothingToRepair(r) <==>
      && NoRepair(Seqs.FlatMap(i.SortedUnits(), i.UnitFindings)) && NoRepair(DeletedFindings(r.garrisonDeletes))
      && NoRepair(Seqs.FlatMap(i.SortedTasks(), i.TaskFindings))
      && NoRepair(Seqs.FlatMap(i.Admitted(), i.IdlerFindings))
      && NoRepair(Seqs.FlatMap(i.SortedCities(), i.CityFindings))
      && NoRepair(Seqs.FlatMap(i.SortedControls(), i.ControlFindings))
  {
    var a, b := Seqs.FlatMap(i.SortedUnits(), i.UnitFindings), DeletedFindings(r.garrisonDeletes);
    var c, d := Seqs.FlatMap(i.SortedTasks(), i.TaskFindings), Seqs.FlatMap(i.Admitted(), i.IdlerFindings);
    var e, g := Seqs.FlatMap(i.SortedCities(), i.CityFindings), Seqs.FlatMap(i.SortedControls(), i.ControlFindings);
    CatalogueQuiet(i);
    SevenParts(r.findings, a, b, c, d, CatalogueFindings(i), e, g);
  }

  lemma SevenParts(all: seq<Finding>, a: seq<Finding>, b: seq<Finding>, c: seq<Finding>,
                   d: seq<Finding>, k: seq<Finding>, e: seq<Finding>, g: seq<Finding>)
    requires all == a + b + c + d + k + e + g && NoRepair(k)
    ensures NoRepair(all) <==> NoRepair(a) && NoRepair(b) && NoRepair(c) && NoRepair(d) && NoRepair(e) && NoRepair(g)
  {
    forall f ensures f in all <==> f in a || f in b || f in c || f in d || f in k || f in e || f in g {
    }
  }

  /** The catalogue is never repaired. */
  lemma CatalogueQuiet(i: Input)
    ensures NoRepair(CatalogueFindings(i))
  {
    if i.civilizations.Some? {
      forall f | f in CatalogueFindings(i) ensures f.policy != Repair {
        Seqs.InFlatMap(i.civilizations.value, i.CivilizationFindings, f);
        Seqs.InFlatMap(i.SortedCities(), i.CitizenFindings, f);
      }
    }
  }

  lemma UnitsQuietAgain(a: Input, i: Input, r: Outcome, later: int)
    requires Checked(i, r) && a == Again(i, r, later)
    ensures NoRepair(Seqs.FlatMap(a.SortedUnits(), a.UnitFindings))
  {
    forall f | f in Seqs.FlatMap(a.SortedUnits(), a.UnitFindings) ensures f.policy != Repair {
      InUnitFindings(a, f);
      var u :| u in a.units && f in a.UnitFindings(u);
      InUnitsAgain(i, r, later, u);
      if u in r.units {
        UnitStays(i, r, later, u);
      }
    }
  }

  lemma TasksQuietAgain(a: Input, i: Input, r: Outcome, later: int)
    requires OneRowEach(i.units) && Checked(i, r) && a == Again(i, r, later)
    ensures NoRepair(Seqs.FlatMap(a.SortedTasks(), a.TaskFindings))
    ensures NoRepair(Seqs.FlatMap(a.Admitted(), a.IdlerFindings))
  {
    forall t | t in a.SortedTasks() ensures a.TaskFindings(t) == [] {
      Seqs.InSort(a.tasks, TaskUnit, t);
      TaskStays(i, r, later, t);
    }
    Seqs.FlatMapEmpty(a.SortedTasks(), a.TaskFindings);
    forall w | w in a.Admitted() ensures a.IdlerFindings(w) == [] {
      NoIdlersAgain(i, r, later, w);
    }
    Seqs.FlatMapEmpty(a.Admitted(), a.IdlerFindings);
  }

  lemma ControlsQuietAgain(a: Input, i: Input, r: Outcome, later: int)
    requires Checked(i, r) && a == Again(i, r, later)
    ensures NoRepair(Seqs.FlatMap(a.SortedControls(), a.ControlFindings))
  {
    forall d | d in a.SortedControls() ensures a.ControlFindings(d) == [] {
      Seqs.InSort(a.controls, ControlTerritory, d);
      ControlStays(i, r, later, d);
    }
    Seqs.FlatMapEmpty(a.SortedControls(), a.ControlFindings);
  }

  lemma CitiesQuietAgain(a: Input, i: Input, r: Outcome, later: int)
    requires OneControlEach(i.controls) && Checked(i, r) && a == Again(i, r, later)
    ensures NoRepair(Seqs.FlatMap(a.SortedCities(), a.CityFindings)) <==> forall c :: c in i.cities ==> Settled(i, c)
  {
    forall c | c in i.cities && NoRepair(Seqs.FlatMap(a.SortedCities(), a.CityFindings)) ensures Settled(i, c) {
      InCities(i, r, i.CityAfter(c));
      forall f | f in a.CityFindings(i.CityAfter(c)) ensures f.policy != Repair {
        InCityFindings(a, f);
      }
      CityStays(i, r, later, c);
    }
    if forall c :: c in i.cities ==> Settled(i, c) {
      forall f | f in Seqs.FlatMap(a.SortedCities(), a.CityFindings) ensures f.policy != Repair {
        InCityFindings(a, f);
        var d :| d in a.cities && f in a.CityFindings(d);
        InCities(i, r, d);
        var c :| c in i.cities && i.CityAfter(c) == d;
        CityStays(i, r, later, c);
      }
    }
  }

  /** One pass is enough, whenever the next start comes, exactly when no city was
      counted territories in the name of a player who does not exist. */
  lemma SecondRunFindsNothing(i: Input, r: Outcome, later: int, again: Outcome)
    requires UniqueIds(i) && Checked(i, r) && Checked(Again(i, r, later), again)
    ensures NothingToRepair(again) <==> forall c :: c in i.cities ==> Settled(i, c)
  {
    hide NoRepair;
    var a := Again(i, r, later);
    PassesOf(a, again);
    UnitsQuietAgain(a, i, r, later);
    TasksQuietAgain(a, i, r, later);
    CitiesQuietAgain(a, i, r, later);
    ControlsQuietAgain(a, i, r, later);
    NoRowsNoFindings(a, i, r, later, again);
  }

  lemma ListsNothing(ids: seq<int>, s: set<int>)
    requires Lists(ids, s)
    ensures ids == [] <==> s == {}
  {
    if ids != [] {
      assert ids[0] in ids;
    } else {
      assert forall x :: x in s ==> x in ids;
    }
  }

  lemma NoRowsNoFindings(a: Input, i: Input, r: Outcome, later: int, again: Outcome)
    requires Checked(i, r) && a == Again(i, r, later) && Checked(a, again)
    ensures NoRepair(DeletedFindings(again.garrisonDeletes))
  {
    NoDeadRowsAgain(i, r, later);
    ListsNothing(again.garrisonDeletes, DeadRows(a));
  }

  /** With the foreign key of a city's owner in force, one pass is enough: every
      start after a repair is clean. */
  lemma OwnedCitiesSettle(i: Input, r: Outcome, later: int, again: Outcome)
    requires UniqueIds(i) && Checked(i, r) && Checked(Again(i, r, later), again)
    requires forall c :: c in i.cities ==> c.owner in i.players
    ensures NothingToRepair(again)
  {
    hide Checked, UniqueIds, NothingToRepair;
    SecondRunFindsNothing(i, r, later, again);
  }

  /** Without it, a city keeps for one start the bonus of a territory that the
      check frees, and the next start repairs its limit again. */
  lemma OrphanCityNeedsTwoRuns()
    ensures exists i, c :: UniqueIds(i) && c in i.cities && !Settled(i, c)
  {
    var c := City(1, 7, Tile(0, 0), "STONE_AGE", 0, 15, Online, None, None, "");
    var t := Territory(1, "", 5, 5, 6, 6);
    var ct := Control(1, OwnerPlayer, Some("7"), 0, false, Some(0), 1);
    var i := Input(Map(9, 9, (t: Tile) => Grassland, {}), map["STONE_AGE" := 10], (s: string) => Some(7), {},
                   [c], [], map[], [ct], [t], [], [], [], [], None, 0);
    var none: seq<Territory> := [];
    assert [t][..0] == none;
    assert FindControl(i.controls, 1) == Some(ct);
    assert i.Conquest(c.owner, c.center)(t);
    assert Seqs.Count(none, i.Conquest(c.owner, c.center)) == 0;
    assert i.ConqueredBy(c.owner, c.center) == 1;
    assert UniqueIds(i) && c in i.cities && !Settled(i, c);
  }

  // ---------------------------------------------------------------------
  // What stops the start
  // ---------------------------------------------------------------------

  ghost predicate Fatal(r: Outcome) {
    exists f :: f in r.findings && f.policy == FailFast
  }

  /** A known unit outside any garrison on ground where nobody can stand. */
  predicate Misplaced(i: Input, u: Unit) {
    i.Known(u) && i.StatusOf(u) != Garrisoned && !i.Stands(u.at)
  }

  /** A city whose centre cannot stand, or whose civilization is not in the catalogue. */
  predicate Impossible(i: Input, c: City) {
    !i.Stands(c.center) || (i.civilizations.Some? && !i.InCatalogue(c.civilization))
  }

  ghost predicate CannotStart(i: Input) {
    || (exists u :: u in i.units && Misplaced(i, u))
    || (exists c :: c in i.cities && Impossible(i, c))
    || (i.civilizations.Some? && exists c :: c in i.civilizations.value && !c.valid)
  }

  ghost predicate FailsFast(findings: seq<Finding>) {
    exists f :: f in findings && f.policy == FailFast
  }

  lemma FailsFastParts(all: seq<Finding>, a: seq<Finding>, b: seq<Finding>, c: seq<Finding>,
                       d: seq<Finding>, k: seq<Finding>, e: seq<Finding>, g: seq<Finding>)
    requires all == a + b + c + d + k + e + g
    requires !FailsFast(b) && !FailsFast(c) && !FailsFast(d) && !FailsFast(g)
    ensures FailsFast(all) <==> FailsFast(a) || FailsFast(k) || FailsFast(e)
  {
    forall f ensures f in all <==> f in a || f in b || f in c || f in d || f in k || f in e || f in g {
    }
  }

  lemma UnitsFail(i: Input)
    ensures FailsFast(Seqs.FlatMap(i.SortedUnits(), i.UnitFindings)) <==> exists u :: u in i.units && Misplaced(i, u)
  {
    var all := Seqs.FlatMap(i.SortedUnits(), i.UnitFindings);
    if f :| f in all && f.policy == FailFast {
      InUnitFindings(i, f);
    }
    if u :| u in i.units && Misplaced(i, u) {
      var f := Finding(Unit001, FailFast, UnitEntity(u.id));
      assert f in i.UnitFindings(u);
      InUnitFindings(i, f);
    }
  }

  lemma CitiesFail(i: Input)
    ensures FailsFast(Seqs.FlatMap(i.SortedCities(), i.CityFindings)) <==>
            exists c :: c in i.cities && !i.Stands(c.center)
  {
    var all := Seqs.FlatMap(i.SortedCities(), i.CityFindings);
    if f :| f in all && f.policy == FailFast {
      InCityFindings(i, f);
    }
    if c :| c in i.cities && !i.Stands(c.center) {
      var f := Finding(City007, FailFast, CityEntity(c.id));
      assert f in i.CityFindings(c);
      InCityFindings(i, f);
    }
  }

  lemma CatalogueFails(i: Input)
    requires i.civilizations.Some?
    ensures FailsFast(CatalogueFindings(i)) <==>
      || (exists c :: c in i.civilizations.value && !c.valid)
      || exists c :: c in i.cities && !i.InCatalogue(c.civilization)
  {
    var civilizations, rows := i.civilizations.value, i.SortedCities();
    forall c: City ensures c in rows <==> c in i.cities {
      Seqs.InSort(i.cities, CityId, c);
    }
    if f :| f in CatalogueFindings(i) && f.policy == FailFast {
      Seqs.InFlatMap(civilizations, i.CivilizationFindings, f);
      Seqs.InFlatMap(rows, i.CitizenFindings, f);
    }
    if c :| c in civilizations && !c.valid {
      var f := Finding(Player012, FailFast, CivilizationEntity(c.code));
      assert f in i.CivilizationFindings(c);
      Seqs.InFlatMap(civilizations, i.CivilizationFindings, f);
    }
    if c :| c in i.cities && !i.InCatalogue(c.civilization) {
      var f := Finding(Player002, FailFast, CityEntity(c.id));
      assert f in i.CitizenFindings(c);
      Seqs.InFlatMap(rows, i.CitizenFindings, f);
    }
  }

  lemma OthersNeverFail(i: Input, ids: seq<int>)
    ensures !FailsFast(DeletedFindings(ids)) && !FailsFast(Seqs.FlatMap(i.SortedTasks(), i.TaskFindings))
    ensures !FailsFast(Seqs.FlatMap(i.Admitted(), i.IdlerFindings))
    ensures !FailsFast(Seqs.FlatMap(i.SortedControls(), i.ControlFindings))
  {
    forall f ensures f in DeletedFindings(ids) ==> f.policy == Repair {
      InMapIff(ids, RowFinding, f);
    }
    forall f ensures f in Seqs.FlatMap(i.SortedTasks(), i.TaskFindings) ==> f.policy == Repair {
      Seqs.InFlatMap(i.SortedTasks(), i.TaskFindings, f);
    }
    forall f ensures f in Seqs.FlatMap(i.Admitted(), i.IdlerFindings) ==> f.policy == Repair {
      Seqs.InFlatMap(i.Admitted(), i.IdlerFindings, f);
    }
    forall f ensures f in Seqs.FlatMap(i.SortedControls(), i.ControlFindings) ==> f.policy == Repair {
      Seqs.InFlatMap(i.SortedControls(), i.ControlFindings, f);
    }
  }

  /** The start is stopped exactly when a unit on the map or a city stands where
      nobody can, a city carries a civilization that the catalogue does not have, or
      the catalogue has one that is not valid. */
  lemma FatalIff(i: Input, r: Outcome)
    requires Checked(i, r)
    ensures Fatal(r) <==> CannotStart(i)
  {
    hide CatalogueFindings, Input.SortedUnits, Input.SortedCities, Input.SortedTasks, Input.SortedControls;
    hide Input.Admitted, DeletedFindings, Seqs.FlatMap, Seqs.Map, Seqs.Filter;
    var a, b := Seqs.FlatMap(i.SortedUnits(), i.UnitFindings), DeletedFindings(r.garrisonDeletes);
    var c, d := Seqs.FlatMap(i.SortedTasks(), i.TaskFindings), Seqs.FlatMap(i.Admitted(), i.IdlerFindings);
    var e, g := Seqs.FlatMap(i.SortedCities(), i.CityFindings), Seqs.FlatMap(i.SortedControls(), i.ControlFindings);
    OthersNeverFail(i, r.garrisonDeletes);
    UnitsFail(i);
    CitiesFail(i);
    if i.civilizations.Some? {
      CatalogueFails(i);
    } else {
      NoCatalogue(i);
    }
    FailsFastParts(r.findings, a, b, c, d, CatalogueFindings(i), e, g);
    assert Fatal(r) <==> FailsFast(r.findings);
  }

  lemma NoCatalogue(i: Input)
    requires i.civilizations.None?
    ensures !FailsFast(CatalogueFindings(i))
  {
  }

  /** Repairs neither bring about nor remove what stops the start. */
  lemma FatalAgain(i: Input, r: Outcome, later: int, again: Outcome)
    requires Checked(i, r) && Checked(Again(i, r, later), again)
    ensures Fatal(again) <==> Fatal(r)
  {
    hide Checked, Misplaced, Impossible;
    var a := Again(i, r, later);
    FatalIff(i, r);
    FatalIff(a, again);
    forall w | w in a.units && Misplaced(a, w) ensures exists u :: u in i.units && Misplaced(i, u) {
      InUnitsAgain(i, r, later, w);
      if w in r.units {
        InUnits(i, r, w);
        var u :| u in i.units && i.Known(u) && i.UnitAtLast(i.UnitAfter(u)) == w;
        SamePlace(i, r, later, u);
      } else {
        StillUnknown(i, r, later, w);
      }
    }
    forall u | u in i.units && Misplaced(i, u) ensures exists w :: w in a.units && Misplaced(a, w) {
      assert i.Known(u) by { KnownIfMisplaced(i, u); }
      var w := i.UnitAtLast(i.UnitAfter(u));
      InUnits(i, r, w);
      InUnitsAgain(i, r, later, w);
      SamePlace(i, r, later, u);
    }
    forall d ensures d in a.cities <==> exists c :: c in i.cities && i.CityAfter(c) == d {
      InCities(i, r, d);
    }
    forall c ensures Impossible(a, i.CityAfter(c)) <==> Impossible(i, c) {
      SameCity(i, r, later, c);
    }
  }

  lemma KnownIfMisplaced(i: Input, u: Unit)
    requires Misplaced(i, u)
    ensures i.Known(u)
  {
  }

  lemma StillUnknown(i: Input, r: Outcome, later: int, w: Unit)
    requires !i.Known(w)
    ensures !Misplaced(Again(i, r, later), w)
  {
  }

  lemma SameCity(i: Input, r: Outcome, later: int, c: City)
    ensures Impossible(Again(i, r, later), i.CityAfter(c)) <==> Impossible(i, c)
  {
    hide Input.PopulationOf, Input.LimitOf;
    assert Again(i, r, later).InCatalogue(c.civilization) <==> i.InCatalogue(c.civilization);
  }

  lemma SamePlace(i: Input, r: Outcome, later: int, u: Unit)
    requires Checked(i, r) && u in i.units && i.Known(u)
    ensures Misplaced(Again(i, r, later), i.UnitAtLast(i.UnitAfter(u))) <==> Misplaced(i, u)
  {
    hide Checked;
    var w := i.UnitAtLast(i.UnitAfter(u));
    InUnits(i, r, w);
    UnitStays(i, r, later, w);
    assert Again(i, r, later).StatusOf(w) == w.status;
  }

  /** Finding nothing to repair and having nothing to write are the same. */
  lemma NoFindingNoChange(i: Input, r: Outcome)
    requires Checked(i, r) && NothingToRepair(r)
    ensures r.units == Seqs.Filter(i.SortedUnits(), i.Known)
    ensures r.cities == i.SortedCities() && r.controls == i.SortedControls()
    ensures r.tasks == i.SortedTasks() && r.garrisons == i.garrisons
  {
    PassesOf(i, r);
    UnitsUntouched(i, r);
    CitiesUntouched(i, r);
    ControlsUntouched(i, r);
    TasksUntouched(i, r);
    QuietRows(r.garrisonDeletes);
    assert forall id :: id in i.garrisons && !i.Alive(id) ==> id in DeadRows(i);
  }

  lemma QuietRows(ids: seq<int>)
    requires NoRepair(DeletedFindings(ids))
    ensures ids == []
  {
    Seqs.InMap(ids, RowFinding);
    var rows := DeletedFindings(ids);
    assert forall k :: 0 <= k < |rows| ==> rows[k] in rows && rows[k].policy == Repair;
  }

  lemma UnitsUntouched(i: Input, r: Outcome)
    requires Checked(i, r) && NoRepair(Seqs.FlatMap(i.SortedUnits(), i.UnitFindings))
    requires NoRepair(Seqs.FlatMap(i.Admitted(), i.IdlerFindings))
    ensures r.units == Seqs.Filter(i.SortedUnits(), i.Known)
  {
    var known := Seqs.Filter(i.SortedUnits(), i.Known);
    forall u | u in known ensures i.UnitAfter(u) == u {
      Seqs.InFilter(i.SortedUnits(), i.Known, u);
      forall f | f in i.UnitFindings(u) ensures f.policy != Repair {
        Seqs.InFlatMap(i.SortedUnits(), i.UnitFindings, f);
      }
      assert i.UnitAfter(u) != u ==>
        || Finding(Unit007, Repair, UnitEntity(u.id)) in i.UnitFindings(u)
        || Finding(Unit004, Repair, UnitEntity(u.id)) in i.UnitFindings(u);
    }
    Seqs.MapSame(known, i.UnitAfter);
    forall u | u in i.Admitted() ensures i.UnitAtLast(u) == u {
      forall f | f in i.IdlerFindings(u) ensures f.policy != Repair {
        Seqs.InFlatMap(i.Admitted(), i.IdlerFindings, f);
      }
      assert i.IsIdler(u) ==> Finding(Econ003, Repair, UnitEntity(u.id)) in i.IdlerFindings(u);
    }
    Seqs.MapSame(i.Admitted(), i.UnitAtLast);
  }

  lemma CitiesUntouched(i: Input, r: Outcome)
    requires Checked(i, r) && NoRepair(Seqs.FlatMap(i.SortedCities(), i.CityFindings))
    ensures r.cities == i.SortedCities()
  {
    forall c | c in i.SortedCities() ensures i.CityAfter(c) == c {
      forall f | f in i.CityFindings(c) ensures f.policy != Repair {
        Seqs.InFlatMap(i.SortedCities(), i.CityFindings, f);
      }
      CityUntouched(i, c);
    }
    Seqs.MapSame(i.SortedCities(), i.CityAfter);
  }

  lemma CityUntouched(i: Input, c: City)
    requires NoRepair(i.CityFindings(c))
    ensures i.CityAfter(c) == c
  {
    var e := CityEntity(c.id);
    var bonus := HOUSE_BONUS * i.HousesOf(c.id) + CONQUEST_BONUS * i.ConqueredBy(c.owner, c.center);
    assert i.CityAfter(c) != c ==>
      || Finding(City017, Repair, e) in i.CityFindings(c)
      || Finding(if bonus > 0 then Econ004 else City003, Repair, e) in i.CityFindings(c)
      || Finding(City011, Repair, e) in i.CityFindings(c) || Finding(City012, Repair, e) in i.CityFindings(c);
  }

  lemma ControlsUntouched(i: Input, r: Outcome)
    requires Checked(i, r) && NoRepair(Seqs.FlatMap(i.SortedControls(), i.ControlFindings))
    ensures r.controls == i.SortedControls()
  {
    forall ct | ct in i.SortedControls() ensures i.ControlAfter(ct) == ct {
      forall f | f in i.ControlFindings(ct) ensures f.policy != Repair {
        Seqs.InFlatMap(i.SortedControls(), i.ControlFindings, f);
      }
      var e := TerritoryEntity(ct.territoryID);
      assert i.ChangesControl(ct) ==>
        || Finding(Terr006, Repair, e) in i.ControlFindings(ct)
        || Finding(Terr005, Repair, e) in i.ControlFindings(ct) || Finding(Terr007, Repair, e) in i.ControlFindings(ct);
    }
    Seqs.MapSame(i.SortedControls(), i.ControlAfter);
  }

  lemma TasksUntouched(i: Input, r: Outcome)
    requires Checked(i, r) && NoRepair(Seqs.FlatMap(i.SortedTasks(), i.TaskFindings))
    ensures r.tasks == i.SortedTasks()
  {
    forall t | t in i.SortedTasks() ensures i.KeepsTask(t) {
      forall f | f in i.TaskFindings(t) ensures f.policy != Repair {
        Seqs.InFlatMap(i.SortedTasks(), i.TaskFindings, f);
      }
      assert !i.KeepsTask(t) ==> Finding(Econ003, Repair, UnitEntity(t.unitID)) in i.TaskFindings(t);
    }
    Seqs.FilterAll(i.SortedTasks(), i.KeepsTask);
  }

  // ---------------------------------------------------------------------
  // The order of the unit repairs
  // ---------------------------------------------------------------------

  ghost predicate InOrder(ids: seq<int>) {
    forall j, k :: 0 <= j < k < |ids| ==> ids[j] < ids[k]
  }

  ghost predicate Ascends(ids: seq<int>) {
    forall j, k :: 0 <= j <= k < |ids| ==> ids[j] <= ids[k]
  }

  ghost predicate UnitsAscend(s: seq<Unit>) {
    forall j, k :: 0 <= j <= k < |s| ==> s[j].id <= s[k].id
  }

  lemma {:induction false} FilterKeepsOrder(s: seq<Unit>, p: Unit -> bool)
    requires UnitsAscend(s)
    ensures UnitsAscend(Seqs.Filter(s, p))
  {
    if |s| > 0 {
      var init := s[..|s| - 1];
      FilterKeepsOrder(init, p);
      var kept := Seqs.Filter(init, p);
      forall k | 0 <= k < |kept| ensures kept[k].id <= s[|s| - 1].id {
        Seqs.InFilter(init, p, kept[k]);
      }
    }
  }

  lemma {:induction false} AddNewAppends(s: seq<int>, more: seq<int>)
    ensures s <= Seqs.AddNew(s, more)
  {
    if |more| > 0 {
      AddNewAppends(s, more[..|more| - 1]);
    }
  }

  /** What the second pass adds keeps its own order, and comes after. */
  lemma {:induction false} AddNewOrder(s: seq<int>, more: seq<int>)
    requires Ascends(more)
    ensures s <= Seqs.AddNew(s, more) && InOrder(Seqs.AddNew(s, more)[|s|..])
    ensures forall x :: x in Seqs.AddNew(s, more)[|s|..] ==> x in more
  {
    AddNewAppends(s, more);
    if |more| > 0 {
      var init, x := more[..|more| - 1], more[|more| - 1];
      AddNewAppends(s, init);
      AddNewOrder(s, init);
      var rest := Seqs.AddNew(s, init);
      AppendOne(s, rest, x);
      forall y | y in rest[|s|..] && x !in rest ensures y < x {
        var k :| 0 <= k < |init| && init[k] == y;
        assert more[k] <= more[|more| - 1];
        assert rest == s + rest[|s|..];
      }
    }
  }

  lemma AppendOne(s: seq<int>, rest: seq<int>, x: int)
    requires s <= rest && InOrder(rest[|s|..])
    ensures (rest + [x])[|s|..] == rest[|s|..] + [x]
    ensures (forall y :: y in rest[|s|..] ==> y < x) ==> InOrder((rest + [x])[|s|..])
  {
    var tail := rest[|s|..];
    assert (rest + [x])[|s|..] == tail + [x];
    assert forall k :: 0 <= k < |tail| ==> tail[k] in tail;
  }

  /** Nothing that was there is added again. */
  lemma AddNewFresh(s: seq<int>, more: seq<int>, x: int)
    requires Seqs.NoDuplicates(Seqs.AddNew(s, more)) && s <= Seqs.AddNew(s, more)
    ensures x in Seqs.AddNew(s, more)[|s|..] <==> x in more && x !in s
  {
    var all := Seqs.AddNew(s, more);
    var tail := all[|s|..];
    assert all == s + tail;
    Seqs.InAddNew(s, more, x);
  }

  lemma AppendInOrder(first: seq<int>, tail: seq<int>)
    requires InOrder(first) && InOrder(tail)
    ensures InOrder(first + tail) <==> forall a, b :: a in first && b in tail ==> a < b
  {
    var all := first + tail;
    assert forall k :: 0 <= k < |first| ==> first[k] in first;
    assert forall k :: 0 <= k < |tail| ==> tail[k] in tail;
    if InOrder(all) {
      forall a, b | a in first && b in tail ensures a < b {
        var j :| 0 <= j < |first| && first[j] == a;
        var k :| 0 <= k < |tail| && tail[k] == b;
        assert all[j] < all[|first| + k];
      }
    }
  }

  lemma TwoPassesInOrder(changes: seq<int>, idlers: seq<int>)
    requires Ascends(changes) && Ascends(idlers)
    ensures InOrder(Seqs.AddNew(Seqs.AddNew([], changes), idlers)) <==>
      forall a, b :: a in changes && b in idlers && b !in changes ==> a < b
  {
    hide Seqs.AddNew, InOrder, Ascends, Seqs.NoDuplicates;
    var none: seq<int> := [];
    var first := Seqs.AddNew(none, changes);
    AddNewOrder(none, changes);
    Seqs.AddNewKeepsDistinct(none, changes);
    assert first[0..] == first;
    AddNewOrder(first, idlers);
    Seqs.AddNewKeepsDistinct(first, idlers);
    var all := Seqs.AddNew(first, idlers);
    AppendInOrder(first, all[|first|..]);
    assert all == first + all[|first|..];
    forall x ensures x in first <==> x in changes {
      Seqs.InAddNew(none, changes, x);
    }
    forall x ensures x in all[|first|..] <==> x in idlers && x !in changes {
      AddNewFresh(first, idlers, x);
    }
  }

  /** The list is meant to be in order of id. It is written in two passes, so it
      is exactly when every unit that only the second one idles has a greater id
      than all that the first one changed. */
  lemma UnitRepairsInOrder(i: Input, r: Outcome)
    requires Checked(i, r)
    ensures InOrder(r.unitRepairs) <==>
      forall a, b :: a in UnitChanges(i) && b in IdlerRepairs(i) && b !in UnitChanges(i) ==> a < b
  {
    SortedIds(i);
    TwoPassesInOrder(UnitChanges(i), IdlerRepairs(i));
  }

  lemma SortedIds(i: Input)
    ensures Ascends(UnitChanges(i)) && Ascends(IdlerRepairs(i))
  {
    Seqs.SortIsSorted(i.units, UnitId);
    assert UnitsAscend(i.SortedUnits());
    FilterKeepsOrder(i.SortedUnits(), i.Changed);
    Seqs.InMap(Seqs.Filter(i.SortedUnits(), i.Changed), UnitId);
    var known := Seqs.Filter(i.SortedUnits(), i.Known);
    FilterKeepsOrder(i.SortedUnits(), i.Known);
    Seqs.InMap(known, i.UnitAfter);
    FilterKeepsOrder(i.Admitted(), i.IsIdler);
    Seqs.InMap(Seqs.Filter(i.Admitted(), i.IsIdler), UnitId);
  }

  /** A unit over its greatest health and a lower one that works at nothing. */
  lemma UnitRepairsOutOfOrder(i: Input, idle: Unit, strong: Unit, r: Outcome)
    requires Checked(i, r) && idle in i.units && strong in i.units && i.tasks == [] && i.garrisons == map[]
    requires idle == Unit(1, 7, None, Villager, Tile(0, 0), 40, 40, Working, 0)
    requires strong == Unit(2, 7, None, Villager, Tile(0, 0), 50, 40, Idle, 0)
    requires forall u :: u in i.units ==> u == idle || u == strong
    ensures !InOrder(r.unitRepairs)
  {
    InChanges(i, 2);
    InChanges(i, 1);
    InIdlers(i, 1);
    assert i.KeptTasks() == [];
    assert i.Changed(strong) && !i.Changed(idle) && i.IsIdler(i.UnitAfter(idle));
    UnitRepairsInOrder(i, r);
  }
}

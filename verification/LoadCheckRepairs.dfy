// What the check at start-up does to each row, told from the rows that it reads.

module LoadCheckRepairs {
  import opened Wrappers
  import opened World
  import Seqs
  import Task
  import opened Territory
  import opened LoadCheck
  import opened LoadCheckFixpoint

  // ---------------------------------------------------------------------
  // Units
  // ---------------------------------------------------------------------

  /** Of the catalogue. */
  predicate Listed(u: Unit) {
    u.kind == Villager || u.kind == Warrior
  }

  /** Health of a unit of the catalogue that is whole. */
  function Whole(u: Unit): int {
    if u.kind == Villager then 40 else 60
  }

  /** The status that a unit is left with: that of its garrison row if there is one;
      without one it is in no garrison, and works only with a task at work. */
  function StatusLeft(i: Input, u: Unit, atWork: bool): Status {
    if u.id in i.garrisons then Garrisoned
    else if u.status == Garrisoned || (u.status == Working && !atWork) then Idle
    else u.status
  }

  /** The unit with a health in range as near as can be to what it had. */
  ghost predicate Heals(u: Unit, w: Unit) {
    && w.maxHP == Whole(u) && 0 <= w.hp <= Whole(u)
    && (0 <= u.hp <= Whole(u) ==> w.hp == u.hp) && (u.hp < 0 ==> w.hp == 0) && (u.hp > Whole(u) ==> w.hp == Whole(u))
  }

  /** A task that stays is at work for this unit. */
  ghost predicate AtWork(i: Input, id: int) {
    exists t :: t in i.tasks && SoundTask(i, t) && t.unitID == id && t.phase == Task.Working
  }

  /** Exactly the units of the catalogue enter, each with its status and health put
      right and everything else as it was. */
  lemma UnitsMean(i: Input, r: Outcome, u: Unit)
    requires UniqueIds(i) && Checked(i, r) && u in i.units
    ensures Listed(u) <==> exists w :: w in r.units && w.id == u.id
    ensures forall w :: w in r.units && w.id == u.id ==>
      Heals(u, w) && w == u.(status := StatusLeft(i, u, AtWork(i, u.id)), maxHP := w.maxHP, hp := w.hp)
  {
    hide Checked, SoundTask;
    if Listed(u) {
      InUnits(i, r, i.UnitAtLast(i.UnitAfter(u)));
    }
    forall w | w in r.units && w.id == u.id
      ensures Listed(u) && Heals(u, w)
      ensures w == u.(status := StatusLeft(i, u, AtWork(i, u.id)), maxHP := w.maxHP, hp := w.hp)
    {
      InUnits(i, r, w);
      var v :| v in i.units && i.Known(v) && i.UnitAtLast(i.UnitAfter(v)) == w;
      assert v == u;
      WorkMeans(i, u.id);
    }
  }

  lemma WorkMeans(i: Input, id: int)
    requires OneRowEach(i.units)
    ensures i.HasWork(id) <==> AtWork(i, id)
  {
    hide SoundTask;
    forall t ensures t in i.KeptTasks() <==> t in i.tasks && SoundTask(i, t) {
      InTasks(i, t);
      if t in i.tasks {
        KeptMeans(i, t);
      }
    }
  }

  // ---------------------------------------------------------------------
  // Tasks
  // ---------------------------------------------------------------------

  /** The row check of a task, field by field. */
  predicate SoundRow(t: Task.Task) {
    && (t.kind == Task.GatherWood || t.kind == Task.GatherStone)
    && (t.phase == Task.ToResource || t.phase == Task.Working || t.phase == Task.ToDeposit)
    && (if t.phase == Task.Working then t.phaseUntilMs > 0 else t.phaseUntilMs <= 0)
    && t.carrying >= 0 && t.tripsDone >= 0
  }

  /** A task of a unit of the catalogue without a garrison row, sound in itself, and
      at work only if the unit is. */
  ghost predicate SoundTask(i: Input, t: Task.Task) {
    && SoundRow(t)
    && exists u :: u in i.units && u.id == t.unitID && Listed(u) && u.id !in i.garrisons
                && (t.phase == Task.Working ==> u.status == Working)
  }

  lemma KeptMeans(i: Input, t: Task.Task)
    requires OneRowEach(i.units)
    ensures i.KeepsTask(t) <==> SoundTask(i, t)
  {
    FindLooksUp(i.Admitted(), t.unitID);
    AdmittedOneEach(i);
    if i.KeepsTask(t) {
      var v := Find(i.Admitted(), t.unitID).value;
      InAdmitted(i, v);
    }
    if SoundTask(i, t) {
      var u :| u in i.units && u.id == t.unitID && Listed(u) && u.id !in i.garrisons
            && (t.phase == Task.Working ==> u.status == Working);
      InAdmitted(i, i.UnitAfter(u));
      FindsRow(i.Admitted(), i.UnitAfter(u));
    }
  }

  /** Exactly the sound tasks stay, and exactly the units of all others are listed for
      deletion. */
  lemma TasksMean(i: Input, r: Outcome, t: Task.Task, id: int)
    requires UniqueIds(i) && Checked(i, r)
    ensures t in r.tasks <==> t in i.tasks && SoundTask(i, t)
    ensures id in r.taskDeletes <==> exists d :: d in i.tasks && d.unitID == id && !SoundTask(i, d)
  {
    hide SoundTask;
    TasksOf(i, r);
    InTasks(i, t);
    KeptMeans(i, t);
    var dropped := Seqs.Filter(i.SortedTasks(), i.DropsTask);
    InMapIff(dropped, TaskUnit, id);
    forall d ensures d in dropped <==> d in i.tasks && !SoundTask(i, d) {
      Seqs.InFilter(i.SortedTasks(), i.DropsTask, d);
      Seqs.InSort(i.tasks, TaskUnit, d);
      KeptMeans(i, d);
    }
  }

  /** A garrison row stays exactly if its unit exists, known or not, and is listed for
      deletion otherwise. */
  lemma GarrisonsMean(i: Input, r: Outcome, id: int)
    requires Checked(i, r)
    ensures id in r.garrisons <==> id in i.garrisons && exists u :: u in i.units && u.id == id
    ensures id in r.garrisons ==> r.garrisons[id] == i.garrisons[id]
    ensures id in r.garrisonDeletes <==> id in i.garrisons && forall u :: u in i.units ==> u.id != id
  {
  }

  // ---------------------------------------------------------------------
  // Controls
  // ---------------------------------------------------------------------

  /** Held in the name of a player who does not exist. */
  predicate Ownerless(i: Input, ct: Control) {
    && ct.ownerType == OwnerPlayer
    && !(ct.ownerID.Some? && i.parse(ct.ownerID.value).Some? && i.parse(ct.ownerID.value).value in i.players)
  }

  /** A control as it is left: freed if its owner does not exist, contested exactly if
      it is claimed, dated now if it is owned without a date, and one version further
      if any of this changed it. */
  ghost predicate Settles(i: Input, ct: Control, d: Control) {
    && d.territoryID == ct.territoryID && d.points == ct.points
    && (d.contested <==> ct.territoryID in i.activeClaims)
    && (if Ownerless(i, ct) then d.ownerType == OwnerNone && d.ownerID == None && d.capturedAt == None
        else d.ownerType == ct.ownerType && d.ownerID == ct.ownerID
             && d.capturedAt ==
                if ct.ownerType != OwnerNone && ct.capturedAt == None then Some(i.now) else ct.capturedAt)
    && d.version == ct.version + (if d.(version := ct.version) == ct then 0 else 1)
  }

  lemma SettledControl(i: Input, ct: Control)
    ensures Settles(i, ct, i.ControlAfter(ct))
    ensures i.ControlAfter(ct) != ct <==> i.ChangesControl(ct)
  {
  }

  lemma ControlsMean(i: Input, r: Outcome, ct: Control)
    requires UniqueIds(i) && Checked(i, r) && ct in i.controls
    ensures exists d :: d in r.controls && d.territoryID == ct.territoryID
    ensures forall d :: d in r.controls && d.territoryID == ct.territoryID ==>
      && Settles(i, ct, d)
      && (ct.territoryID in r.controlRepairs <==> d != ct)
  {
    hide Settles, Input.ChangesControl;
    var changed := Seqs.Filter(i.SortedControls(), i.ChangesControl);
    SettledControl(i, ct);
    InControls(i, r, i.ControlAfter(ct));
    RepairedControls(i, r, ct);
    forall d | d in r.controls && d.territoryID == ct.territoryID ensures d == i.ControlAfter(ct) {
      InControls(i, r, d);
    }
  }

  lemma RepairedControls(i: Input, r: Outcome, ct: Control)
    requires UniqueIds(i) && Checked(i, r) && ct in i.controls
    ensures ct.territoryID in r.controlRepairs <==> i.ChangesControl(ct)
  {
    hide Input.ChangesControl;
    var changed := Seqs.Filter(i.SortedControls(), i.ChangesControl);
    InMapIff(changed, ControlTerritory, ct.territoryID);
    forall x: Control ensures x in changed <==> x in i.controls && i.ChangesControl(x) {
      Seqs.InFilter(i.SortedControls(), i.ChangesControl, x);
      Seqs.InSort(i.controls, ControlTerritory, x);
    }
  }

  // ---------------------------------------------------------------------
  // Cities
  // ---------------------------------------------------------------------

  ghost function Where<A(!new)>(s: seq<A>, p: A -> bool): set<int> {
    set k | 0 <= k < |s| && p(s[k])
  }

  lemma {:induction false} CountIs<A(!new)>(s: seq<A>, p: A -> bool)
    ensures Seqs.Count(s, p) == |Where(s, p)|
  {
    if |s| == 0 {
      assert Where(s, p) == {};
    } else {
      var init, n := s[..|s| - 1], |s| - 1;
      CountIs(init, p);
      assert Where(s, p) == Where(init, p) + (if p(s[n]) then {n} else {});
    }
  }

  ghost function Living(i: Input, cityID: int): set<int> {
    set k | 0 <= k < |i.units| && i.units[k].cityID == Some(cityID)
  }

  /** Trainings that have not given a unit yet. */
  ghost function Training(i: Input, cityID: int): set<int> {
    set k | 0 <= k < |i.productions| && i.productions[k].cityID == cityID && i.productions[k].unitID == 0
  }

  ghost function Houses(i: Input, cityID: int): set<int> {
    set k | 0 <= k < |i.buildings| && i.buildings[k].cityID == cityID
         && i.buildings[k].kind == House && i.buildings[k].status == Complete
  }

  ghost function Holdings(i: Input, owner: Uuid, center: Tile): set<int> {
    set k | 0 <= k < |i.territories| && HoldsAway(i, owner, center, i.territories[k])
  }

  /** Places of a city that are taken: by its units, known or not, and in training. */
  ghost function Inhabitants(i: Input, cityID: int): nat {
    |Living(i, cityID)| + |Training(i, cityID)|
  }

  ghost predicate HoldsAway(i: Input, owner: Uuid, center: Tile, t: Territory) {
    && !(t.minX <= center.x <= t.maxX && t.minY <= center.y <= t.maxY)
    && exists ct :: ct in i.controls && ct.territoryID == t.id && ct.ownerType == OwnerPlayer
                 && ct.ownerID.Some? && i.parse(ct.ownerID.value) == Some(owner)
  }

  /** The limit of a city: that of its era, five for each complete house, and five for
      each territory held elsewhere. */
  ghost function Room(i: Input, c: City): int
    requires c.era in i.eraCaps
  {
    i.eraCaps[c.era] + 5 * |Houses(i, c.id)| + 5 * |Holdings(i, c.owner, c.center)|
  }

  lemma {:induction false} HousesAre(buildings: seq<Building>, cityID: int)
    ensures Seqs.Count(Seqs.Filter(buildings, BuiltIn(cityID)), IsStandingHouse)
         == Seqs.Count(buildings, (b: Building) => b.cityID == cityID && b.kind == House && b.status == Complete)
  {
    if |buildings| > 0 {
      HousesAre(buildings[..|buildings| - 1], cityID);
      var kept := Seqs.Filter(buildings[..|buildings| - 1], BuiltIn(cityID));
      assert (kept + [buildings[|buildings| - 1]])[..|kept|] == kept;
    }
  }

  lemma ConqueredMeans(i: Input, owner: Uuid, center: Tile, t: Territory)
    requires OneControlEach(i.controls)
    ensures i.Conquered(t, owner, center) <==> HoldsAway(i, owner, center, t)
  {
    FindControlLooksUp(i.controls, t.id);
  }

  lemma InhabitantsAre(i: Input, cityID: int)
    ensures i.PopulationOf(cityID) == Inhabitants(i, cityID)
  {
    CountIs(i.units, LivesIn(cityID));
    CountIs(i.productions, TrainsIn(cityID));
    assert Where(i.units, LivesIn(cityID)) == Living(i, cityID);
    assert Where(i.productions, TrainsIn(cityID)) == Training(i, cityID);
  }

  lemma GrowthIs(i: Input, c: City)
    requires UniqueIds(i)
    ensures i.HousesOf(c.id) == |Houses(i, c.id)|
    ensures i.ConqueredBy(c.owner, c.center) == |Holdings(i, c.owner, c.center)|
  {
    hide Input.Conquered, HoldsAway;
    var house := (b: Building) => b.cityID == c.id && b.kind == House && b.status == Complete;
    HousesAre(i.buildings, c.id);
    Seqs.CountSame(i.buildings, (b: Building) => b.cityID == c.id && b.kind == House && b.status == Complete, house);
    CountIs(i.buildings, house);
    assert Where(i.buildings, house) == Houses(i, c.id);
    CountIs(i.territories, i.Conquest(c.owner, c.center));
    forall k | 0 <= k < |i.territories|
      ensures i.Conquest(c.owner, c.center)(i.territories[k]) <==> HoldsAway(i, c.owner, c.center, i.territories[k])
    {
      ConqueredMeans(i, c.owner, c.center, i.territories[k]);
    }
    assert Where(i.territories, i.Conquest(c.owner, c.center)) == Holdings(i, c.owner, c.center);
  }

  lemma RoomIs(i: Input, c: City)
    requires UniqueIds(i) && c.era in i.eraCaps
    ensures i.LimitOf(c) == Room(i, c)
  {
    hide Input.HousesOf, Input.ConqueredBy;
    GrowthIs(i, c);
  }

  /** A city as it is left: its population counted, its limit that of a known era, off
      line dated now if it was not, without protection while it is on line, and
      everything else as it was. */
  ghost predicate Keeps(i: Input, c: City, d: City) {
    && d == c.(population := Inhabitants(i, c.id), limit := if c.era in i.eraCaps then Room(i, c) else c.limit,
               lastOfflineAt := d.lastOfflineAt, protectionUntil := d.protectionUntil)
    && d.lastOfflineAt == (if c.presence != Online && c.lastOfflineAt == None then Some(i.now) else c.lastOfflineAt)
    && d.protectionUntil == (if c.presence == Online then None else c.protectionUntil)
  }

  lemma KeepsCity(i: Input, c: City, d: City)
    requires UniqueIds(i)
    ensures Keeps(i, c, d) <==> d == i.CityAfter(c)
  {
    hide Inhabitants, Room, Input.PopulationOf, Input.HousesOf, Input.ConqueredBy;
    InhabitantsAre(i, c.id);
    if c.era in i.eraCaps {
      RoomIs(i, c);
    }
  }

  /** A city is listed for repair exactly if it is not left as it was. */
  lemma CitiesMean(i: Input, r: Outcome, d: City, id: int)
    requires UniqueIds(i) && Checked(i, r)
    ensures d in r.cities <==> exists c :: c in i.cities && Keeps(i, c, d)
    ensures id in r.cityRepairs <==> exists c :: c in i.cities && c.id == id && !Keeps(i, c, c)
  {
    hide Keeps, Input.CityAfter;
    InCities(i, r, d);
    forall c, x ensures Keeps(i, c, x) <==> x == i.CityAfter(c) {
      KeepsCity(i, c, x);
    }
    var changed := Seqs.Filter(i.SortedCities(), i.ChangesCity);
    Seqs.InAddNew([], CityChanges(i), id);
    InMapIff(changed, CityId, id);
    forall c: City ensures c in changed <==> c in i.cities && !Keeps(i, c, c) {
      Seqs.InFilter(i.SortedCities(), i.ChangesCity, c);
      Seqs.InSort(i.cities, CityId, c);
    }
  }

  // ---------------------------------------------------------------------
  // Findings
  // ---------------------------------------------------------------------

  /** Inside the world, on neither a mountain nor water. */
  predicate Ground(m: Map, t: Tile) {
    0 <= t.x < m.width && 0 <= t.y < m.height && m.terrain(t) != Mountain && m.terrain(t) != Water
  }

  /** What is said of a unit row. */
  predicate OfUnit(i: Input, u: Unit, f: Finding) {
    && f.entity == UnitEntity(u.id)
    && match f.rule
       case Unit009 => f.policy == Exclude && !Listed(u)
       case Unit007 => f.policy == Repair && Listed(u) && (u.status == Garrisoned) != (u.id in i.garrisons)
       case Unit004 => f.policy == Repair && Listed(u) && !(u.maxHP == Whole(u) && 0 <= u.hp <= Whole(u))
       case Unit001 => f.policy == FailFast && Listed(u) && u.id !in i.garrisons && !Ground(i.world, u.at)
       case _ => false
  }

  lemma UnitRowSays(i: Input, u: Unit, f: Finding)
    ensures f in i.UnitFindings(u) <==> OfUnit(i, u, f)
  {
  }

  /** What is said of a city row. Its limit is told by another rule where houses or
      conquests add to it. */
  ghost predicate OfCity(i: Input, c: City, f: Finding) {
    && f.entity == CityEntity(c.id)
    && match f.rule
       case City007 => f.policy == FailFast && !Ground(i.world, c.center)
       case City017 => f.policy == Repair && c.population != Inhabitants(i, c.id)
       case City003 => f.policy == Repair && WrongLimit(i, c) && !Grown(i, c)
       case Econ004 => f.policy == Repair && WrongLimit(i, c) && Grown(i, c)
       case City011 => f.policy == Repair && c.presence != Online && c.lastOfflineAt == None
       case City012 => f.policy == Repair && c.presence == Online && c.protectionUntil != None
       case _ => false
  }

  ghost predicate WrongLimit(i: Input, c: City) {
    c.era in i.eraCaps && c.limit != Room(i, c)
  }

  ghost predicate Grown(i: Input, c: City) {
    |Houses(i, c.id)| > 0 || |Holdings(i, c.owner, c.center)| > 0
  }

  lemma CityRowSays(i: Input, c: City, f: Finding)
    requires UniqueIds(i)
    ensures f in i.CityFindings(c) <==> OfCity(i, c, f)
  {
    hide Inhabitants, Houses, Holdings, Input.PopulationOf, Input.HousesOf, Input.ConqueredBy;
    InhabitantsAre(i, c.id);
    GrowthIs(i, c);
  }

  /** What is said of a control. */
  predicate OfControl(i: Input, ct: Control, f: Finding) {
    && f.policy == Repair && f.entity == TerritoryEntity(ct.territoryID)
    && match f.rule
       case Terr006 => ct.contested != (ct.territoryID in i.activeClaims)
       case Terr005 => Ownerless(i, ct)
       case Terr007 => !Ownerless(i, ct) && ct.ownerType != OwnerNone && ct.capturedAt == None
       case _ => false
  }

  lemma ControlSays(i: Input, ct: Control, f: Finding)
    ensures f in i.ControlFindings(ct) <==> OfControl(i, ct, f)
  {
  }

  /** Works without a task at work, and without a garrison row. */
  ghost predicate Idles(i: Input, u: Unit) {
    Listed(u) && u.status == Working && u.id !in i.garrisons && !AtWork(i, u.id)
  }

  predicate Foreign(i: Input, c: City)
    requires i.civilizations.Some?
  {
    forall v :: v in i.civilizations.value ==> v.code != c.civilization
  }

  /** Of the civilizations, if there is a catalogue: one that is not valid, or a city
      that carries one from elsewhere. */
  ghost predicate OfCatalogue(i: Input, f: Finding) {
    && i.civilizations.Some? && f.policy == FailFast
    && if f.rule == Player012 then
         exists c :: c in i.civilizations.value && !c.valid && f.entity == CivilizationEntity(c.code)
       else
         f.rule == Player002 && exists c :: c in i.cities && f.entity == CityEntity(c.id) && Foreign(i, c)
  }

  lemma CatalogueSays(i: Input, f: Finding)
    ensures f in CatalogueFindings(i) <==> OfCatalogue(i, f)
  {
    if i.civilizations.Some? {
      InvalidSay(i, f);
      ForeignSay(i, f);
    }
  }

  lemma InvalidSay(i: Input, f: Finding)
    requires i.civilizations.Some?
    ensures f in Seqs.FlatMap(i.civilizations.value, i.CivilizationFindings) <==>
      f.rule == Player012 && f.policy == FailFast
      && exists c :: c in i.civilizations.value && !c.valid && f.entity == CivilizationEntity(c.code)
  {
    Seqs.InFlatMap(i.civilizations.value, i.CivilizationFindings, f);
    if c :| c in i.civilizations.value && !c.valid && f == Finding(Player012, FailFast, CivilizationEntity(c.code)) {
      assert f in i.CivilizationFindings(c);
    }
  }

  lemma ForeignSay(i: Input, f: Finding)
    requires i.civilizations.Some?
    ensures f in Seqs.FlatMap(i.SortedCities(), i.CitizenFindings) <==>
      f.rule == Player002 && f.policy == FailFast
      && exists c :: c in i.cities && f.entity == CityEntity(c.id) && Foreign(i, c)
  {
    hide Foreign, Input.InCatalogue;
    Seqs.InFlatMap(i.SortedCities(), i.CitizenFindings, f);
    forall c: City ensures c in i.SortedCities() <==> c in i.cities {
      Seqs.InSort(i.cities, CityId, c);
    }
    forall c: City ensures i.InCatalogue(c.civilization) <==> !Foreign(i, c) {
      ForeignIs(i, c);
    }
  }

  lemma ForeignIs(i: Input, c: City)
    requires i.civilizations.Some?
    ensures i.InCatalogue(c.civilization) <==> !Foreign(i, c)
  {
  }

  /** Of a unit's work: a task that is not sound, or a unit that works without one. */
  ghost predicate OfWork(i: Input, f: Finding) {
    && f.rule == Econ003 && f.policy == Repair
    && ((exists t :: t in i.tasks && !SoundTask(i, t) && f.entity == UnitEntity(t.unitID))
        || exists u :: u in i.units && Idles(i, u) && f.entity == UnitEntity(u.id))
  }

  lemma WorkSays(i: Input, f: Finding)
    requires OneRowEach(i.units)
    ensures f in Seqs.FlatMap(i.SortedTasks(), i.TaskFindings) || f in Seqs.FlatMap(i.Admitted(), i.IdlerFindings)
       <==> OfWork(i, f)
  {
    hide SoundTask, Idles;
    DropsSay(i, f);
    IdlersSay(i, f);
  }

  lemma DropsSay(i: Input, f: Finding)
    requires OneRowEach(i.units)
    ensures f in Seqs.FlatMap(i.SortedTasks(), i.TaskFindings) <==>
      f.rule == Econ003 && f.policy == Repair
      && exists t :: t in i.tasks && !SoundTask(i, t) && f.entity == UnitEntity(t.unitID)
  {
    hide SoundTask, Input.KeepsTask;
    Seqs.InFlatMap(i.SortedTasks(), i.TaskFindings, f);
    forall t ensures t in i.SortedTasks() <==> t in i.tasks {
      Seqs.InSort(i.tasks, TaskUnit, t);
    }
    forall t
      ensures f in i.TaskFindings(t) <==> !SoundTask(i, t) && f == Finding(Econ003, Repair, UnitEntity(t.unitID))
    {
      KeptMeans(i, t);
    }
  }

  lemma IdlersSay(i: Input, f: Finding)
    requires OneRowEach(i.units)
    ensures f in Seqs.FlatMap(i.Admitted(), i.IdlerFindings) <==>
      f.rule == Econ003 && f.policy == Repair
      && exists u :: u in i.units && Idles(i, u) && f.entity == UnitEntity(u.id)
  {
    hide AtWork, Input.HasWork;
    Seqs.InFlatMap(i.Admitted(), i.IdlerFindings, f);
    forall v ensures v in i.Admitted() <==> exists u :: u in i.units && Listed(u) && i.UnitAfter(u) == v {
      InAdmitted(i, v);
    }
    forall u ensures Idles(i, u) <==> Listed(u) && i.IsIdler(i.UnitAfter(u)) {
      WorkMeans(i, u.id);
    }
    if u :| u in i.units && Idles(i, u) && f == Finding(Econ003, Repair, UnitEntity(u.id)) {
      assert i.UnitAfter(u) in i.Admitted() && f in i.IdlerFindings(i.UnitAfter(u));
    }
  }

  /** Garrisons nobody. */
  ghost predicate OfGarrison(i: Input, f: Finding) {
    && f.rule == Unit007 && f.policy == Repair && f.entity.UnitEntity?
    && f.entity.id in i.garrisons && forall u :: u in i.units ==> u.id != f.entity.id
  }

  lemma GarrisonSays(i: Input, r: Outcome, f: Finding)
    requires Checked(i, r)
    ensures f in DeletedFindings(r.garrisonDeletes) <==> OfGarrison(i, f)
  {
    InMapIff(r.garrisonDeletes, RowFinding, f);
    if OfGarrison(i, f) {
      assert RowFinding(f.entity.id) == f;
    }
  }

  /** The findings are exactly those that the rows call for, each of its rule, with
      its policy and of its entity. */
  lemma FindingsMean(i: Input, r: Outcome, f: Finding)
    requires UniqueIds(i) && Checked(i, r)
    ensures f in r.findings <==>
      || (exists u :: u in i.units && OfUnit(i, u, f)) || OfGarrison(i, f) || OfWork(i, f) || OfCatalogue(i, f)
      || (exists c :: c in i.cities && OfCity(i, c, f)) || exists ct :: ct in i.controls && OfControl(i, ct, f)
    ensures f.Severity() == Critical <==> f.rule == Unit001
    ensures f.Severity() == Medium <==> f.rule == Terr006 || f.rule == Terr007
  {
    hide OfUnit, OfCity, OfControl, OfGarrison, OfWork, OfCatalogue, Input.UnitFindings, Input.CityFindings;
    hide Input.ControlFindings, DeletedFindings, CatalogueFindings, Input.TaskFindings, Input.IdlerFindings;
    InUnitFindings(i, f);
    InCityFindings(i, f);
    Seqs.InFlatMap(i.SortedControls(), i.ControlFindings, f);
    forall ct ensures ct in i.SortedControls() <==> ct in i.controls {
      Seqs.InSort(i.controls, ControlTerritory, ct);
    }
    forall u ensures f in i.UnitFindings(u) <==> OfUnit(i, u, f) {
      UnitRowSays(i, u, f);
    }
    forall c ensures f in i.CityFindings(c) <==> OfCity(i, c, f) {
      CityRowSays(i, c, f);
    }
    forall ct ensures f in i.ControlFindings(ct) <==> OfControl(i, ct, f) {
      ControlSays(i, ct, f);
    }
    GarrisonSays(i, r, f);
    WorkSays(i, f);
    CatalogueSays(i, f);
    FindingParts(i, r, f);
  }

  lemma FindingParts(i: Input, r: Outcome, f: Finding)
    requires Checked(i, r)
    ensures f in r.findings <==>
      || f in Seqs.FlatMap(i.SortedUnits(), i.UnitFindings) || f in DeletedFindings(r.garrisonDeletes)
      || f in Seqs.FlatMap(i.SortedTasks(), i.TaskFindings) || f in Seqs.FlatMap(i.Admitted(), i.IdlerFindings)
      || f in CatalogueFindings(i) || f in Seqs.FlatMap(i.SortedCities(), i.CityFindings)
      || f in Seqs.FlatMap(i.SortedControls(), i.ControlFindings)
  {
    hide DeletedFindings, CatalogueFindings;
  }

  // ---------------------------------------------------------------------
  // Order
  // ---------------------------------------------------------------------

  lemma {:induction false} FilterSorted<A>(s: seq<A>, p: A -> bool, key: A -> int)
    requires Seqs.SortedBy(s, key)
    ensures Seqs.SortedBy(Seqs.Filter(s, p), key)
  {
    if |s| > 0 {
      var init, last := s[..|s| - 1], s[|s| - 1];
      FilterSorted(init, p, key);
      var kept := Seqs.Filter(init, p);
      forall j | 0 <= j < |kept| ensures key(kept[j]) <= key(last) {
        Seqs.InFilter(init, p, kept[j]);
        assert kept[j] in init;
      }
    }
  }

  lemma MapSorted<A>(s: seq<A>, f: A -> A, key: A -> int)
    requires Seqs.SortedBy(s, key) && forall x :: x in s ==> key(f(x)) == key(x)
    ensures Seqs.SortedBy(Seqs.Map(s, f), key)
  {
    Seqs.InMap(s, f);
  }

  lemma KeysAscend<A>(s: seq<A>, key: A -> int)
    requires Seqs.SortedBy(s, key)
    ensures Ascends(Seqs.Map(s, key))
  {
    Seqs.InMap(s, key);
  }

  /** Whatever order the rows come in, what is left of them and what is to be written
      is in order of id, but for the list of units. */
  lemma ListsInOrder(i: Input, r: Outcome)
    requires Checked(i, r)
    ensures Seqs.SortedBy(r.units, UnitId) && Seqs.SortedBy(r.tasks, TaskUnit)
    ensures Seqs.SortedBy(r.cities, CityId) && Seqs.SortedBy(r.controls, ControlTerritory)
    ensures InOrder(r.cityRepairs) && Ascends(r.controlRepairs) && Ascends(r.taskDeletes) && InOrder(r.garrisonDeletes)
  {
    hide InOrder, Input.KeepsTask, Input.UnitAfter, Input.UnitAtLast, Input.CityAfter, Input.ControlAfter;
    Seqs.SortIsSorted(i.units, UnitId);
    Seqs.SortIsSorted(i.tasks, TaskUnit);
    Seqs.SortIsSorted(i.cities, CityId);
    Seqs.SortIsSorted(i.controls, ControlTerritory);
    KeepIds(i);
    FilterSorted(i.SortedUnits(), i.Known, UnitId);
    MapSorted(Seqs.Filter(i.SortedUnits(), i.Known), i.UnitAfter, UnitId);
    MapSorted(i.Admitted(), i.UnitAtLast, UnitId);
    FilterSorted(i.SortedTasks(), i.KeepsTask, TaskUnit);
    FilterSorted(i.SortedTasks(), i.DropsTask, TaskUnit);
    KeysAscend(Seqs.Filter(i.SortedTasks(), i.DropsTask), TaskUnit);
    MapSorted(i.SortedCities(), i.CityAfter, CityId);
    FilterSorted(i.SortedCities(), i.ChangesCity, CityId);
    KeysAscend(Seqs.Filter(i.SortedCities(), i.ChangesCity), CityId);
    AddNewOrder([], CityChanges(i));
    assert Seqs.AddNew([], CityChanges(i))[0..] == Seqs.AddNew([], CityChanges(i));
    MapSorted(i.SortedControls(), i.ControlAfter, ControlTerritory);
    FilterSorted(i.SortedControls(), i.ChangesControl, ControlTerritory);
    KeysAscend(Seqs.Filter(i.SortedControls(), i.ChangesControl), ControlTerritory);
    ListsAscend(r.garrisonDeletes, DeadRows(i));
  }

  lemma ListsAscend(ids: seq<int>, s: set<int>)
    requires Lists(ids, s)
    ensures InOrder(ids)
  {
  }

  lemma KeepIds(i: Input)
    ensures forall u :: UnitId(i.UnitAfter(u)) == UnitId(u) && UnitId(i.UnitAtLast(u)) == UnitId(u)
    ensures forall c :: CityId(i.CityAfter(c)) == CityId(c)
    ensures forall ct :: ControlTerritory(i.ControlAfter(ct)) == ControlTerritory(ct)
  {
  }

  /** When a finding is made: of units, of garrisons of nobody, of work, of civilizations,
      of the cities that carry them, of cities and of controls. */
  ghost function Turn(i: Input, f: Finding): nat {
    match f.rule
    case Unit009 => 0
    case Unit004 => 0
    case Unit001 => 0
    case Unit007 => if f.entity.UnitEntity? && i.Alive(f.entity.id) then 0 else 1
    case Econ003 => 2
    case Player012 => 3
    case Player002 => 4
    case Terr005 => 6
    case Terr006 => 6
    case Terr007 => 6
    case _ => 5
  }

  function Number(e: Entity): int {
    match e
    case UnitEntity(id) => id
    case CityEntity(id) => id
    case TerritoryEntity(id) => id
    case CivilizationEntity(_) => 0
  }

  /** In each turn by id, but for that of work, which looks at tasks and then at units,
      and that of the catalogue, which has an order of its own. */
  ghost predicate Follows(i: Input, f: Finding, g: Finding) {
    || Turn(i, f) < Turn(i, g)
    || (Turn(i, f) == Turn(i, g) && (Turn(i, f) == 2 || Turn(i, f) == 3 || Number(f.entity) <= Number(g.entity)))
  }

  ghost predicate InTurn(i: Input, findings: seq<Finding>) {
    forall j, k :: 0 <= j < k < |findings| ==> Follows(i, findings[j], findings[k])
  }

  ghost predicate Between(i: Input, findings: seq<Finding>, first: nat, last: nat) {
    forall f :: f in findings ==> first <= Turn(i, f) <= last
  }

  /** In turn, and all in these turns. */
  ghost predicate Made(i: Input, findings: seq<Finding>, first: nat, last: nat) {
    InTurn(i, findings) && Between(i, findings, first, last)
  }

  /** Several findings of one row are made in one turn. */
  lemma {:induction false} RowsInTurn<A(!new)>(i: Input, s: seq<A>, f: A -> seq<Finding>, key: A -> int, turn: nat)
    requires Seqs.SortedBy(s, key)
    requires forall x, y :: x in s && y in f(x) ==> Turn(i, y) == turn && Number(y.entity) == key(x)
    ensures Made(i, Seqs.FlatMap(s, f), turn, turn)
  {
    hide Turn, Number;
    if |s| > 0 {
      var init, last := s[..|s| - 1], s[|s| - 1];
      RowsInTurn(i, init, f, key, turn);
      var before := Seqs.FlatMap(init, f);
      forall y | y in before ensures Number(y.entity) <= key(last) {
        Seqs.InFlatMap(init, f, y);
        var x :| x in init && y in f(x);
      }
      assert Seqs.FlatMap(s, f) == before + f(last);
    }
  }

  lemma {:induction false} FreeInTurn<A(!new)>(i: Input, s: seq<A>, f: A -> seq<Finding>, turn: nat)
    requires (turn == 2 || turn == 3) && forall x, y :: x in s && y in f(x) ==> Turn(i, y) == turn
    ensures Made(i, Seqs.FlatMap(s, f), turn, turn)
  {
    hide Turn, Number;
    forall y | y in Seqs.FlatMap(s, f) ensures Turn(i, y) == turn {
      Seqs.InFlatMap(s, f, y);
    }
  }

  lemma JoinTurns(i: Input, a: seq<Finding>, b: seq<Finding>, first: nat, upto: nat, from: nat, last: nat)
    requires Made(i, a, first, upto) && Made(i, b, from, last) && first <= upto && from <= last
    requires upto < from || upto == from == last == 2
    ensures Made(i, a + b, first, last)
  {
    hide Turn, Number;
  }

  /** The findings come in the order of the passes, and of one pass by id. */
  lemma FindingsInOrder(i: Input, r: Outcome)
    requires Checked(i, r)
    ensures InTurn(i, r.findings)
  {
    hide Turn, Number, InTurn, Made, Input.SortedUnits, Input.SortedTasks, Input.SortedCities, Input.SortedControls;
    hide Input.Admitted, DeletedFindings, CatalogueFindings;
    var a, b := Seqs.FlatMap(i.SortedUnits(), i.UnitFindings), DeletedFindings(r.garrisonDeletes);
    var c, d := Seqs.FlatMap(i.SortedTasks(), i.TaskFindings), Seqs.FlatMap(i.Admitted(), i.IdlerFindings);
    var e, g := Seqs.FlatMap(i.SortedCities(), i.CityFindings), Seqs.FlatMap(i.SortedControls(), i.ControlFindings);
    UnitTurn(i);
    GarrisonTurn(i, r);
    WorkTurn(i);
    CatalogueTurn(i);
    CityTurn(i);
    ControlTurn(i);
    SevenTurns(i, a, b, c, d, CatalogueFindings(i), e, g);
    MadeInTurn(i, r.findings);
  }

  lemma SevenTurns(i: Input, a: seq<Finding>, b: seq<Finding>, c: seq<Finding>,
                   d: seq<Finding>, k: seq<Finding>, e: seq<Finding>, g: seq<Finding>)
    requires Made(i, a, 0, 0) && Made(i, b, 1, 1) && Made(i, c, 2, 2) && Made(i, d, 2, 2)
    requires Made(i, k, 3, 4) && Made(i, e, 5, 5) && Made(i, g, 6, 6)
    ensures Made(i, a + b + c + d + k + e + g, 0, 6)
  {
    hide Made;
    JoinTurns(i, c, d, 2, 2, 2, 2);
    JoinTurns(i, a, b, 0, 0, 1, 1);
    JoinTurns(i, a + b, c + d, 0, 1, 2, 2);
    assert a + b + (c + d) == a + b + c + d;
    JoinTurns(i, a + b + c + d, k, 0, 2, 3, 4);
    JoinTurns(i, a + b + c + d + k, e, 0, 4, 5, 5);
    JoinTurns(i, a + b + c + d + k + e, g, 0, 5, 6, 6);
  }

  lemma MadeInTurn(i: Input, findings: seq<Finding>)
    requires Made(i, findings, 0, 6)
    ensures InTurn(i, findings)
  {
  }

  lemma SortedRows(i: Input)
    ensures Seqs.SortedBy(i.SortedUnits(), UnitId) && Seqs.SortedBy(i.SortedCities(), CityId)
    ensures Seqs.SortedBy(i.SortedControls(), ControlTerritory)
    ensures forall u: Unit :: u in i.SortedUnits() <==> u in i.units
  {
    Seqs.SortIsSorted(i.units, UnitId);
    Seqs.SortIsSorted(i.cities, CityId);
    Seqs.SortIsSorted(i.controls, ControlTerritory);
    forall u: Unit ensures u in i.SortedUnits() <==> u in i.units {
      Seqs.InSort(i.units, UnitId, u);
    }
  }

  lemma UnitTurn(i: Input)
    ensures Made(i, Seqs.FlatMap(i.SortedUnits(), i.UnitFindings), 0, 0)
  {
    hide Turn, Number, Made, Input.UnitFindings, Input.SortedUnits, Seqs.SortedBy, Seqs.FlatMap;
    SortedRows(i);
    forall u, f | u in i.SortedUnits() && f in i.UnitFindings(u)
      ensures Turn(i, f) == 0 && Number(f.entity) == UnitId(u)
    {
      OfOneUnit(i, u, f);
    }
    RowsInTurn(i, i.SortedUnits(), i.UnitFindings, UnitId, 0);
  }

  lemma OfOneUnit(i: Input, u: Unit, f: Finding)
    requires u in i.units && f in i.UnitFindings(u)
    ensures Turn(i, f) == 0 && Number(f.entity) == u.id
  {
    UnitRowSays(i, u, f);
  }

  lemma GarrisonTurn(i: Input, r: Outcome)
    requires Checked(i, r)
    ensures Made(i, DeletedFindings(r.garrisonDeletes), 1, 1)
  {
    Seqs.InMap(r.garrisonDeletes, RowFinding);
    var b := DeletedFindings(r.garrisonDeletes);
    forall f | f in b ensures Turn(i, f) == 1 {
      GarrisonSays(i, r, f);
    }
    forall j, k | 0 <= j < k < |b| ensures Follows(i, b[j], b[k]) {
      assert b[j] in b && b[k] in b;
    }
  }

  lemma WorkTurn(i: Input)
    ensures Made(i, Seqs.FlatMap(i.SortedTasks(), i.TaskFindings), 2, 2)
    ensures Made(i, Seqs.FlatMap(i.Admitted(), i.IdlerFindings), 2, 2)
  {
    FreeInTurn(i, i.SortedTasks(), i.TaskFindings, 2);
    FreeInTurn(i, i.Admitted(), i.IdlerFindings, 2);
  }

  lemma CatalogueTurn(i: Input)
    ensures Made(i, CatalogueFindings(i), 3, 4)
  {
    if i.civilizations.Some? {
      hide Turn, Number, Made, Input.CivilizationFindings, Input.CitizenFindings, Input.SortedCities;
      OfCivilizations(i);
      OfCitizens(i);
      SortedRows(i);
      FreeInTurn(i, i.civilizations.value, i.CivilizationFindings, 3);
      RowsInTurn(i, i.SortedCities(), i.CitizenFindings, CityId, 4);
      var v := Seqs.FlatMap(i.civilizations.value, i.CivilizationFindings);
      JoinTurns(i, v, Seqs.FlatMap(i.SortedCities(), i.CitizenFindings), 3, 3, 4, 4);
    }
  }

  lemma OfCivilizations(i: Input)
    ensures forall c, f :: f in i.CivilizationFindings(c) ==> Turn(i, f) == 3
  {
  }

  lemma OfCitizens(i: Input)
    ensures forall c, f :: f in i.CitizenFindings(c) ==> Turn(i, f) == 4 && Number(f.entity) == CityId(c)
  {
    hide Input.InCatalogue;
  }

  lemma CityTurn(i: Input)
    ensures Made(i, Seqs.FlatMap(i.SortedCities(), i.CityFindings), 5, 5)
  {
    hide Turn, Number, Made, Input.CityFindings, Input.SortedCities, Seqs.SortedBy, Seqs.FlatMap;
    SortedRows(i);
    forall c, f | c in i.SortedCities() && f in i.CityFindings(c)
      ensures Turn(i, f) == 5 && Number(f.entity) == CityId(c)
    {
      OfOneCity(i, c, f);
    }
    RowsInTurn(i, i.SortedCities(), i.CityFindings, CityId, 5);
  }

  lemma OfOneCity(i: Input, c: City, f: Finding)
    requires f in i.CityFindings(c)
    ensures Turn(i, f) == 5 && Number(f.entity) == c.id
  {
    hide Input.PopulationOf, Input.LimitOf, Input.HousesOf, Input.ConqueredBy;
  }

  lemma ControlTurn(i: Input)
    ensures Made(i, Seqs.FlatMap(i.SortedControls(), i.ControlFindings), 6, 6)
  {
    hide Turn, Number, Made, Input.ControlFindings, Input.SortedControls, Seqs.SortedBy, Seqs.FlatMap;
    SortedRows(i);
    forall ct, f | ct in i.SortedControls() && f in i.ControlFindings(ct)
      ensures Turn(i, f) == 6 && Number(f.entity) == ControlTerritory(ct)
    {
      OfOneControl(i, ct, f);
    }
    RowsInTurn(i, i.SortedControls(), i.ControlFindings, ControlTerritory, 6);
  }

  lemma OfOneControl(i: Input, ct: Control, f: Finding)
    requires f in i.ControlFindings(ct)
    ensures Turn(i, f) == 6 && Number(f.entity) == ct.territoryID
  {
  }
}

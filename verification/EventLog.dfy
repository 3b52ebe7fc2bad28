// The event log of a player: which rows tell them something, how rows are
// grouped into entries, and where a page is cut.

module EventLog {
  import opened Wrappers

  /** Players are known by number; nobody is NIL. */
  type Uuid = int
  const NIL: Uuid := 0

  datatype Kind =
    | UnitLost | EnemyKilled | Pillaged | PillageDone | HouseLost | HouseDestroyed
    | TreatyOffered | TreatyWithdrawn | TreatyAccepted | TreatyRejected
    | TreatyOfferExpired | TreatyBreakAnnounced | TreatyEnded
    | TradeOffered | TradeAccepted | TradeRejected | TradeWithdrawn | TradeOfferExpired
    | TerritoryClaimed | TerritoryLost | TerritoryTaken

  datatype EventType =
    | UnitKilled | CityPillaged | BuildingDestroyed
    | TreatyProposedEvent | TreatyWithdrawnEvent | TreatyAcceptedEvent | TreatyRejectedEvent
    | TreatyExpiredEvent | TreatyBreakAnnouncedEvent | TreatyBrokenEvent
    | TradeProposedEvent | TradeAcceptedEvent | TradeRejectedEvent | TradeWithdrawnEvent | TradeExpiredEvent
    | TerritoryClaimStarted | TerritoryControlChanged
    | OtherEvent

  datatype Line = Line(resource: string, amount: int)

  datatype Event = Event(
    id: int, kind: EventType, playerID: Uuid, counterpart: Uuid, atMs: int,
    unitType: string, amount: int, x: int, y: int, hasTile: bool,
    treatyType: string, from: string, byPlayer: Uuid, breaksAtMs: int,
    give: seq<Line>, want: seq<Line>, territoryID: int, territoryName: string)

  datatype Entry = Entry(
    id: int, kind: Kind, firstAtMs: int, lastAtMs: int, count: nat, other: Uuid,
    unitType: string, amount: int, treatyType: string, proposedByMe: bool,
    x: int, y: int, hasTile: bool, breaksAtMs: int,
    tradeGive: seq<Line>, tradeGet: seq<Line>, territoryID: int, territoryName: string)

  // ---------------------------------------------------------------------
  // Classifying
  // ---------------------------------------------------------------------

  function TradeKind(t: EventType): Option<Kind> {
    match t
    case TradeProposedEvent => Some(TradeOffered)
    case TradeAcceptedEvent => Some(TradeAccepted)
    case TradeRejectedEvent => Some(TradeRejected)
    case TradeWithdrawnEvent => Some(TradeWithdrawn)
    case TradeExpiredEvent => Some(TradeOfferExpired)
    case _ => None
  }

  /** Who gave the order of a treaty or a trade; old rows say so by their roles. */
  function Actor(e: Event): Uuid {
    if e.byPlayer != NIL then e.byPlayer else
    match e.kind
    case TradeProposedEvent => e.playerID
    case TradeWithdrawnEvent => e.playerID
    case TradeAcceptedEvent => e.counterpart
    case TradeRejectedEvent => e.counterpart
    case TreatyProposedEvent => e.playerID
    case TreatyWithdrawnEvent => e.playerID
    case TreatyAcceptedEvent => e.counterpart
    case TreatyRejectedEvent => e.counterpart
    case _ => NIL
  }

  /** What entry a row makes for a viewer, and who the other player is. */
  function Classify(viewer: Uuid, e: Event): Option<(Kind, Uuid)> {
    if viewer == NIL || (e.playerID != viewer && e.counterpart != viewer) then None else
    var other := if e.counterpart == viewer then e.playerID else e.counterpart;
    if other == NIL || other == viewer then None else
    var mine := e.playerID == viewer;
    match e.kind
    case UnitKilled => Some((if mine then UnitLost else EnemyKilled, other))
    case CityPillaged => Some((if mine then Pillaged else PillageDone, other))
    case BuildingDestroyed => Some((if mine then HouseLost else HouseDestroyed, other))
    case TerritoryClaimStarted => if mine then Some((TerritoryClaimed, other)) else None
    case TerritoryControlChanged => Some((if mine then TerritoryLost else TerritoryTaken, other))
    case _ => if TradeKind(e.kind).Some? then ClassifyTrade(viewer, e, other) else ClassifyTreaty(viewer, e, other)
  }

  /** Of a trade or a treaty a player is not told what they ordered. */
  function ClassifyTrade(viewer: Uuid, e: Event, other: Uuid): Option<(Kind, Uuid)>
    requires TradeKind(e.kind).Some?
  {
    var kind := TradeKind(e.kind).value;
    if kind != TradeOfferExpired && Actor(e) == viewer then None else Some((kind, other))
  }

  function ClassifyTreaty(viewer: Uuid, e: Event, other: Uuid): Option<(Kind, Uuid)> {
    var ordered := Actor(e) == viewer;
    match e.kind
    case TreatyProposedEvent => if ordered then None else Some((TreatyOffered, other))
    case TreatyWithdrawnEvent => if ordered then None else Some((TreatyWithdrawn, other))
    case TreatyAcceptedEvent => if ordered then None else Some((TreatyAccepted, other))
    case TreatyRejectedEvent => if ordered then None else Some((TreatyRejected, other))
    case TreatyBreakAnnouncedEvent => if Actor(e) == NIL || ordered then None else Some((TreatyBreakAnnounced, other))
    case TreatyExpiredEvent =>
      if e.from == "PROPOSED" then Some((TreatyOfferExpired, other))
      else if e.from == "ACTIVE" then Some((TreatyEnded, other))
      else None
    case TreatyBrokenEvent => Some((TreatyEnded, other))
    case _ => None
  }

  /** A row speaks only to its two players, each about the other; of an offer made,
      answered or taken back by a player it never tells that same player. */
  lemma ClassifyIsPrivate(viewer: Uuid, e: Event)
    requires Classify(viewer, e).Some?
    ensures viewer != NIL && viewer in {e.playerID, e.counterpart}
    ensures var other := Classify(viewer, e).value.1;
            other != NIL && other != viewer && {viewer, other} == {e.playerID, e.counterpart}
    ensures Actor(e) == viewer ==>
              Classify(viewer, e).value.0 !in
                {TreatyOffered, TreatyWithdrawn, TreatyAccepted, TreatyRejected, TreatyBreakAnnounced,
                 TradeOffered, TradeAccepted, TradeRejected, TradeWithdrawn}
  {}

  /** The row is about two different players. */
  predicate Between(e: Event) {
    e.playerID != NIL && e.counterpart != NIL && e.playerID != e.counterpart
  }

  /** What each of the two players is told, if anything, and about the other. */
  ghost predicate Tells(e: Event, toPlayer: Option<Kind>, toCounterpart: Option<Kind>) {
    && Classify(e.playerID, e) == (if toPlayer.Some? then Some((toPlayer.value, e.counterpart)) else None)
    && Classify(e.counterpart, e) == (if toCounterpart.Some? then Some((toCounterpart.value, e.playerID)) else None)
  }

  /** Both are told, except who did it. */
  ghost predicate TellsAllBut(e: Event, author: Uuid, kind: Kind) {
    Tells(e, if author == e.playerID then None else Some(kind), if author == e.counterpart then None else Some(kind))
  }

  /** Who did it: as the row says, or in rows that do not say, the one given. */
  function Author(e: Event, unsaid: Uuid): Uuid {
    if e.byPlayer == NIL then unsaid else e.byPlayer
  }

  /** The whole table: what happens tells the victim of the loss and the other one of
      the gain, a claim only the owner, an act of diplomacy or trade everyone but its
      author, and what ends by itself both. */
  lemma WhoIsTold(e: Event)
    ensures forall v :: (v != e.playerID && v != e.counterpart) || !Between(e) ==> Classify(v, e).None?
    ensures Between(e) ==>
      && (e.kind == UnitKilled ==> Tells(e, Some(UnitLost), Some(EnemyKilled)))
      && (e.kind == CityPillaged ==> Tells(e, Some(Pillaged), Some(PillageDone)))
      && (e.kind == BuildingDestroyed ==> Tells(e, Some(HouseLost), Some(HouseDestroyed)))
      && (e.kind == TerritoryControlChanged ==> Tells(e, Some(TerritoryLost), Some(TerritoryTaken)))
      && (e.kind == TerritoryClaimStarted ==> Tells(e, Some(TerritoryClaimed), None))
      && (e.kind == OtherEvent ==> Tells(e, None, None))
    ensures Between(e) ==>
      && (e.kind == TreatyProposedEvent ==> TellsAllBut(e, Author(e, e.playerID), TreatyOffered))
      && (e.kind == TreatyWithdrawnEvent ==> TellsAllBut(e, Author(e, e.playerID), TreatyWithdrawn))
      && (e.kind == TreatyAcceptedEvent ==> TellsAllBut(e, Author(e, e.counterpart), TreatyAccepted))
      && (e.kind == TreatyRejectedEvent ==> TellsAllBut(e, Author(e, e.counterpart), TreatyRejected))
      && (e.kind == TreatyBreakAnnouncedEvent && e.byPlayer != NIL ==> TellsAllBut(e, e.byPlayer, TreatyBreakAnnounced))
      && (e.kind == TreatyBreakAnnouncedEvent && e.byPlayer == NIL ==> Tells(e, None, None))
      && (e.kind == TreatyBrokenEvent ==> Tells(e, Some(TreatyEnded), Some(TreatyEnded)))
      && (e.kind == TreatyExpiredEvent && e.from == "PROPOSED" ==>
            Tells(e, Some(TreatyOfferExpired), Some(TreatyOfferExpired)))
      && (e.kind == TreatyExpiredEvent && e.from == "ACTIVE" ==> Tells(e, Some(TreatyEnded), Some(TreatyEnded)))
      && (e.kind == TreatyExpiredEvent && e.from != "PROPOSED" && e.from != "ACTIVE" ==> Tells(e, None, None))
    ensures Between(e) ==>
      && (e.kind == TradeProposedEvent ==> TellsAllBut(e, Author(e, e.playerID), TradeOffered))
      && (e.kind == TradeWithdrawnEvent ==> TellsAllBut(e, Author(e, e.playerID), TradeWithdrawn))
      && (e.kind == TradeAcceptedEvent ==> TellsAllBut(e, Author(e, e.counterpart), TradeAccepted))
      && (e.kind == TradeRejectedEvent ==> TellsAllBut(e, Author(e, e.counterpart), TradeRejected))
      && (e.kind == TradeExpiredEvent ==> Tells(e, Some(TradeOfferExpired), Some(TradeOfferExpired)))
  {
  }

  const NOTICE_KINDS: seq<Kind> := [
    UnitLost, EnemyKilled, PillageDone, HouseDestroyed, TerritoryClaimed, TerritoryLost, TerritoryTaken]

  datatype Notice = Notice(to: Uuid, kind: Kind, other: Uuid)

  const TREATY_EVENTS := {TreatyProposedEvent, TreatyWithdrawnEvent, TreatyAcceptedEvent, TreatyRejectedEvent,
                          TreatyExpiredEvent, TreatyBreakAnnouncedEvent, TreatyBrokenEvent}
  const TRADE_EVENTS := {TradeProposedEvent, TradeAcceptedEvent, TradeRejectedEvent, TradeWithdrawnEvent,
                         TradeExpiredEvent}
  const TERRITORY_EVENTS := {TerritoryClaimStarted, TerritoryControlChanged}
  const WAR_EVENTS := {UnitKilled, CityPillaged, BuildingDestroyed}

  /** The live notice that a player gets, if any: what their log would tell them, of
      the kinds that notify. */
  function Live(e: Event, to: Uuid): seq<Notice> {
    var c := Classify(to, e);
    if c.Some? && c.value.0 in NOTICE_KINDS then [Notice(to, c.value.0, c.value.1)] else []
  }

  /** Of a death and of a territory that changes hands both players are told, of a
      pillage and a ruin who did it, of a claim the owner; in this order. */
  function Noticed(e: Event): seq<Notice> {
    if !Between(e) then []
    else if e.kind == UnitKilled then
      [Notice(e.playerID, UnitLost, e.counterpart), Notice(e.counterpart, EnemyKilled, e.playerID)]
    else if e.kind == TerritoryControlChanged then
      [Notice(e.playerID, TerritoryLost, e.counterpart), Notice(e.counterpart, TerritoryTaken, e.playerID)]
    else if e.kind == CityPillaged then [Notice(e.counterpart, PillageDone, e.playerID)]
    else if e.kind == BuildingDestroyed then [Notice(e.counterpart, HouseDestroyed, e.playerID)]
    else if e.kind == TerritoryClaimStarted then [Notice(e.playerID, TerritoryClaimed, e.counterpart)]
    else []
  }

  /** The live notices of an event: what the log of its two players would tell them. */
  method Notices(e: Event) returns (out: seq<Notice>)
    ensures forall to, kind, other :: Notice(to, kind, other) in out <==>
              Classify(to, e) == Some((kind, other)) && kind in NOTICE_KINDS
    ensures out == Noticed(e)
  {
    hide Classify, Noticed;
    out := [];
    var viewers := [e.playerID, e.counterpart];
    for i := 0 to 2
      invariant out == (if i > 0 then Live(e, e.playerID) else []) + (if i > 1 then Live(e, e.counterpart) else [])
    {
      var viewer := viewers[i];
      var c := Classify(viewer, e);
      if c.Some? && c.value.0 in NOTICE_KINDS {
        out := out + [Notice(viewer, c.value.0, c.value.1)];
      }
    }
    LiveTable(e);
    LiveIsClassified(e);
  }

  lemma LiveIsClassified(e: Event)
    ensures forall to, kind, other :: Notice(to, kind, other) in Live(e, e.playerID) + Live(e, e.counterpart) <==>
              Classify(to, e) == Some((kind, other)) && kind in NOTICE_KINDS
  {
    hide Classify;
    WhoIsTold(e);
  }

  lemma LiveTable(e: Event)
    ensures Live(e, e.playerID) + Live(e, e.counterpart) == Noticed(e)
  {
    hide Classify;
    WhoIsTold(e);
    if e.kind in TREATY_EVENTS || e.kind in TRADE_EVENTS || e.kind == OtherEvent {
      ActsNotLive(e);
    }
  }

  /** Diplomacy and trade are told in the log only. */
  lemma ActsNotLive(e: Event)
    requires e.kind in TREATY_EVENTS || e.kind in TRADE_EVENTS || e.kind == OtherEvent
    ensures Live(e, e.playerID) == Live(e, e.counterpart) == []
  {
    hide Classify;
    if Classify(e.playerID, e).Some? {
      KindsOfEvents(e.playerID, e);
    }
    if Classify(e.counterpart, e).Some? {
      KindsOfEvents(e.counterpart, e);
    }
  }

  // ---------------------------------------------------------------------
  // Grouping
  // ---------------------------------------------------------------------

  predicate IsTrade(k: Kind) {
    k in {TradeOffered, TradeAccepted, TradeRejected, TradeWithdrawn, TradeOfferExpired}
  }

  predicate IsTerritory(k: Kind) {
    k in {TerritoryClaimed, TerritoryLost, TerritoryTaken}
  }

  predicate IsTreaty(k: Kind) {
    k !in {UnitLost, EnemyKilled, Pillaged, PillageDone, HouseLost, HouseDestroyed} && !IsTrade(k) && !IsTerritory(k)
  }

  predicate IsPillage(k: Kind) {
    k == Pillaged || k == PillageDone
  }

  datatype GroupKey = GroupKey(
    kind: Kind, other: Uuid, unitType: string, treatyType: string, offerID: int, mine: bool, unseen: bool)

  /** A page: its size, and the two things that decide how rows are grouped. */
  datatype Settings = Settings(viewer: Uuid, cursor: int, gapMs: int, pageSize: int)

  predicate Mine(b: Settings, kind: Kind, e: Event) {
    (kind == TreatyOfferExpired || kind == TradeOfferExpired) && e.playerID == b.viewer
  }

  function KeyOf(b: Settings, e: Event): GroupKey
    requires Classify(b.viewer, e).Some?
  {
    var (kind, other) := Classify(b.viewer, e).value;
    GroupKey(kind, other, e.unitType,
             if IsTreaty(kind) then e.treatyType else "",
             if IsTrade(kind) || IsTerritory(kind) then e.id else 0,
             Mine(b, kind, e), e.id > b.cursor)
  }

  const BLANK := Entry(0, UnitLost, 0, 0, 0, NIL, "", 0, "", false, 0, 0, false, 0, [], [], 0, "")

  /** The entry that a row opens. */
  function Opened(b: Settings, e: Event): Entry
    requires Classify(b.viewer, e).Some?
  {
    var (kind, other) := Classify(b.viewer, e).value;
    var entry := BLANK.(id := e.id, kind := kind, firstAtMs := e.atMs, lastAtMs := e.atMs, count := 1, other := other,
                        proposedByMe := Mine(b, kind, e));
    var placed := entry.(x := e.x, y := e.y, hasTile := e.hasTile);
    if kind == UnitLost || kind == EnemyKilled then placed.(unitType := e.unitType)
    else if IsPillage(kind) then placed.(amount := e.amount)
    else if kind == HouseLost || kind == HouseDestroyed then placed
    else if kind == TreatyBreakAnnounced then entry.(treatyType := e.treatyType, breaksAtMs := e.breaksAtMs)
    else if IsTerritory(kind) then placed.(territoryID := e.territoryID, territoryName := e.territoryName)
    else if IsTrade(kind) then
      if e.playerID == b.viewer then entry.(tradeGive := e.give, tradeGet := e.want)
      else entry.(tradeGive := e.want, tradeGet := e.give)
    else entry.(treatyType := e.treatyType)
  }

  /** The kinds of entry that each kind of event makes. */
  lemma KindsOfEvents(viewer: Uuid, e: Event)
    requires Classify(viewer, e).Some?
    ensures var kind := Classify(viewer, e).value.0;
      && (IsTrade(kind) <==> e.kind in TRADE_EVENTS) && (IsTerritory(kind) <==> e.kind in TERRITORY_EVENTS)
      && (IsTreaty(kind) <==> e.kind in TREATY_EVENTS) && (IsPillage(kind) <==> e.kind == CityPillaged)
      && (kind == UnitLost || kind == EnemyKilled <==> e.kind == UnitKilled)
      && (kind == HouseLost || kind == HouseDestroyed <==> e.kind == BuildingDestroyed)
      && (kind == TreatyBreakAnnounced <==> e.kind == TreatyBreakAnnouncedEvent)
      && (kind == TradeOfferExpired <==> e.kind == TradeExpiredEvent)
      && (kind == TreatyOfferExpired <==> e.kind == TreatyExpiredEvent && e.from == "PROPOSED")
  {
  }

  /** What is copied from a row into the entry it opens, and what stays blank: the
      unit of a death, the amount of a pillage, and the place of what has one. */
  lemma OpenedTells(b: Settings, e: Event)
    requires Classify(b.viewer, e).Some?
    ensures var entry := Opened(b, e);
      && (entry.kind, entry.other) == Classify(b.viewer, e).value
      && entry.id == e.id && entry.count == 1 && entry.firstAtMs == entry.lastAtMs == e.atMs
      && entry.unitType == (if e.kind == UnitKilled then e.unitType else "")
      && entry.amount == (if e.kind == CityPillaged then e.amount else 0)
      && (entry.x, entry.y, entry.hasTile)
         == if e.kind in WAR_EVENTS || e.kind in TERRITORY_EVENTS then (e.x, e.y, e.hasTile) else (0, 0, false)
  {
    hide Classify;
    KindsOfEvents(b.viewer, e);
  }

  /** The treaty and when it breaks, the territory, and of a trade what the viewer
      gives and gets, which the rows put from the side of who proposed it. */
  lemma OpenedDeal(b: Settings, e: Event)
    requires Classify(b.viewer, e).Some?
    ensures var entry, mine := Opened(b, e), b.viewer == e.playerID;
      && entry.treatyType == (if e.kind in TREATY_EVENTS then e.treatyType else "")
      && entry.breaksAtMs == (if e.kind == TreatyBreakAnnouncedEvent then e.breaksAtMs else 0)
      && (entry.territoryID, entry.territoryName)
         == (if e.kind in TERRITORY_EVENTS then (e.territoryID, e.territoryName) else (0, ""))
      && (entry.tradeGive, entry.tradeGet)
         == (if e.kind !in TRADE_EVENTS then ([], []) else if mine then (e.give, e.want) else (e.want, e.give))
  {
    hide Classify;
    KindsOfEvents(b.viewer, e);
  }

  /** The mark of an offer of one's own is for offers that expired. */
  lemma OpenedMine(b: Settings, e: Event)
    requires Classify(b.viewer, e).Some?
    ensures Opened(b, e).proposedByMe
       <==> b.viewer == e.playerID
            && (e.kind == TradeExpiredEvent || (e.kind == TreatyExpiredEvent && e.from == "PROPOSED"))
  {
    hide Classify;
    KindsOfEvents(b.viewer, e);
  }

  const TREATY_KINDS := {TreatyOffered, TreatyWithdrawn, TreatyAccepted, TreatyRejected, TreatyOfferExpired,
                         TreatyBreakAnnounced, TreatyEnded}
  const SINGLE_KINDS := {TradeOffered, TradeAccepted, TradeRejected, TradeWithdrawn, TradeOfferExpired,
                         TerritoryClaimed, TerritoryLost, TerritoryTaken}

  /** When two rows are alike: the same kind of news about the same player and type of
      unit, seen or unseen both; of a treaty, also the same treaty and, of an offer
      that expired, the same side; and no two trades or territories ever are. */
  lemma AlikeIff(b: Settings, e: Event, f: Event)
    requires Classify(b.viewer, e).Some? && Classify(b.viewer, f).Some?
    ensures var kind := Classify(b.viewer, e).value.0;
      KeyOf(b, e) == KeyOf(b, f) <==>
        && Classify(b.viewer, e) == Classify(b.viewer, f) && e.unitType == f.unitType
        && (e.id > b.cursor <==> f.id > b.cursor)
        && (kind in TREATY_KINDS ==> e.treatyType == f.treatyType)
        && (kind in SINGLE_KINDS ==> e.id == f.id)
        && (kind == TreatyOfferExpired || kind == TradeOfferExpired ==>
              (e.playerID == b.viewer <==> f.playerID == b.viewer))
  {
    hide Classify;
    var c, d := Classify(b.viewer, e).value, Classify(b.viewer, f).value;
    assert c == (c.0, c.1) && d == (d.0, d.1);
  }

  function Min(a: int, b: int): int {
    if a < b then a else b
  }

  function Max(a: int, b: int): int {
    if a > b then a else b
  }

  /** The entry once one more row has joined it. */
  function Joined(g: Entry, e: Event): Entry {
    g.(count := g.count + 1, amount := g.amount + e.amount,
       firstAtMs := Min(g.firstAtMs, e.atMs), lastAtMs := Max(g.lastAtMs, e.atMs))
  }

  datatype Page = Page(entries: seq<Entry>, open: map<GroupKey, nat>, minID: int)

  const EMPTY := Page([], map[], 0)

  function Taken(p: Page, id: int): Page {
    if p.minID == 0 || id < p.minID then p.(minID := id) else p
  }

  predicate Joins(b: Settings, p: Page, e: Event) {
    && Classify(b.viewer, e).Some?
    && var k := KeyOf(b, e);
    k in p.open && p.open[k] < |p.entries| && e.atMs >= p.entries[p.open[k]].firstAtMs - b.gapMs
  }

  /** Whether the next row still goes into the page. */
  predicate Admits(b: Settings, p: Page, e: Event) {
    Classify(b.viewer, e).None? || Joins(b, p, e) || |p.entries| != b.pageSize
  }

  function Added(b: Settings, p: Page, e: Event): Page {
    if Classify(b.viewer, e).None? then Taken(p, e.id) else
    var k := KeyOf(b, e);
    if Joins(b, p, e) then
      Taken(p.(entries := p.entries[p.open[k] := Joined(p.entries[p.open[k]], e)]), e.id)
    else if |p.entries| == b.pageSize then p
    else Taken(p.(entries := p.entries + [Opened(b, e)], open := p.open[k := |p.entries|]), e.id)
  }

  class Builder {
    const viewer: Uuid
    const cursor: int
    const gapMs: int
    const pageSize: int
    var entries: seq<Entry>
    var open: map<GroupKey, nat>
    var minID: int

    ghost predicate Valid()
      reads this
    {
      pageSize >= 1 && |entries| <= pageSize && forall k | k in open :: open[k] < |entries|
    }

    ghost function Config(): Settings {
      Settings(viewer, cursor, gapMs, pageSize)
    }

    ghost function View(): Page
      reads this
    {
      Page(entries, open, minID)
    }

    constructor (viewer: Uuid, cursor: int, gapMs: int, pageSize: int)
      ensures Valid() && View() == EMPTY
      ensures Config() == Settings(viewer, cursor, gapMs, if pageSize < 1 then 1 else pageSize)
    {
      this.viewer, this.cursor, this.gapMs := viewer, cursor, gapMs;
      this.pageSize := if pageSize < 1 then 1 else pageSize;
      entries, open, minID := [], map[], 0;
    }

    method Take(id: int)
      modifies `minID
      ensures View() == Taken(old(View()), id)
    {
      if minID == 0 || id < minID {
        minID := id;
      }
    }

    /** Processes the next row; false leaves it for the next page. */
    method Add(e: Event) returns (ok: bool)
      requires Valid()
      modifies this
      ensures Valid()
      ensures ok <==> Admits(Config(), old(View()), e)
      ensures View() == Added(Config(), old(View()), e)
    {
      var c := Classify(viewer, e);
      if c.None? {
        Take(e.id);
        return true;
      }
      var b := Settings(viewer, cursor, gapMs, pageSize);
      var k := KeyOf(b, e);
      if k in open && e.atMs >= entries[open[k]].firstAtMs - gapMs {
        var i := open[k];
        entries := entries[i := Joined(entries[i], e)];
        Take(e.id);
        return true;
      }
      if |entries| == pageSize {
        return false;
      }
      entries := entries + [Opened(b, e)];
      open := open[k := |entries| - 1];
      Take(e.id);
      return true;
    }
  }
}

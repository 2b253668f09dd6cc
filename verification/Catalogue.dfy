/** Games, services and their options, and every administrative write to them as a function from
    the tables to the tables. A rejected write is an error: its transaction is rolled back. */
module Catalogue {
  import opened Wrappers
  import opened Money

  type Id = int

  datatype GameStatus = Active | ComingSoon | Hidden

  datatype Game = Game(slug: string, name: string, status: GameStatus, sortOrder: int, createdAt: int, isDeleted: bool)

  datatype Service = Service(
    gameId: Id, slug: string, title: string, isFeatured: bool, sortOrder: int, isActive: bool, isDeleted: bool)

  datatype OptionRow = OptionRow(serviceId: Id, caption: string, terms: Terms, isDefault: bool, sortOrder: int)

  datatype Db = Db(games: map<Id, Game>, services: map<Id, Service>, options: map<Id, OptionRow>)

  const EMPTY := Db(map[], map[], map[])

  // ---- payloads ----

  datatype OptionDraft = OptionDraft(caption: string, terms: Terms, isDefault: bool, sortOrder: int)

  /** A field of a partial update: left out, or sent with a value that may be null. */
  datatype Field = Absent | Sent(value: Option<int>)

  datatype OptionPatch = OptionPatch(
    caption: Option<string>, priceUsd: Option<int>, priceEur: Option<int>,
    isDefault: Option<bool>, sortOrder: Option<int>,
    percent: Field, amountUsd: Field, amountEur: Field)

  datatype GamePatch = GamePatch(
    slug: Option<string>, name: Option<string>, status: Option<GameStatus>, sortOrder: Option<int>)

  datatype ServicePatch = ServicePatch(
    slug: Option<string>, title: Option<string>, isFeatured: Option<bool>, sortOrder: Option<int>, isActive: Option<bool>)

  datatype Place = Place(id: Id, sortOrder: int)

  datatype Write =
    | CreateGame(id: Id, game: Game)
    | UpdateGame(id: Id, gamePatch: GamePatch)
    | DeleteGame(id: Id)
    | ReorderGames(places: seq<Place>)
    | CreateService(id: Id, service: Service, optionIds: seq<Id>, drafts: seq<OptionDraft>)
    | UpdateService(id: Id, servicePatch: ServicePatch)
    | ToggleActive(id: Id)
    | ToggleFeatured(id: Id)
    | DeleteService(id: Id)
    | ReorderServices(places: seq<Place>)
    | CreateOption(serviceId: Id, id: Id, draft: OptionDraft)
    | UpdateOption(serviceId: Id, id: Id, optionPatch: OptionPatch)
    | DeleteOption(serviceId: Id, id: Id)
    | ReorderOptions(serviceId: Id, places: seq<Place>)
    | ReviewWrite

  datatype Error = Conflict | NotFound | InvalidPayload | InvalidDiscount(reason: DiscountError) | DuplicateKey

  // ---- lookups ----

  predicate LiveGame(games: map<Id, Game>, id: Id) {
    id in games && !games[id].isDeleted
  }

  predicate LiveService(services: map<Id, Service>, id: Id) {
    id in services && !services[id].isDeleted
  }

  predicate GameSlugTaken(games: map<Id, Game>, slug: string, exclude: set<Id>) {
    exists id :: id in games && !games[id].isDeleted && games[id].slug == slug && id !in exclude
  }

  predicate ServiceSlugTaken(services: map<Id, Service>, slug: string, exclude: set<Id>) {
    exists id :: id in services && !services[id].isDeleted && services[id].slug == slug && id !in exclude
  }

  function Or<T>(update: Option<T>, current: T): T {
    if update.Some? then update.value else current
  }

  function Merged(update: Field, current: Option<int>): Option<int> {
    if update.Sent? then update.value else current
  }

  function AsGiven(update: Field): Option<int> {
    Merged(update, None)
  }

  // ---- option writes ----

  predicate PayloadOk(terms: Terms, sortOrder: int) {
    && DigitsFit(terms) && sortOrder >= 0
    && ValidateDiscountCombination(terms.percent, terms.amountUsd, terms.amountEur).Ok?
  }

  /** Discount fields are checked together, but only when at least one of them is sent. */
  predicate PatchOk(p: OptionPatch) {
    && (p.priceUsd.Some? ==> PriceFits(p.priceUsd.value))
    && (p.priceEur.Some? ==> PriceFits(p.priceEur.value))
    && DigitsFit(Terms(0, 0, AsGiven(p.percent), AsGiven(p.amountUsd), AsGiven(p.amountEur)))
    && (p.sortOrder.Some? ==> p.sortOrder.value >= 0)
    && (p.percent.Sent? || p.amountUsd.Sent? || p.amountEur.Sent? ==>
          ValidateDiscountCombination(AsGiven(p.percent), AsGiven(p.amountUsd), AsGiven(p.amountEur)).Ok?)
  }

  function UnsetDefault(options: map<Id, OptionRow>, serviceId: Id, exclude: set<Id>): map<Id, OptionRow> {
    map id | id in options ::
      if options[id].serviceId == serviceId && options[id].isDefault && id !in exclude
      then options[id].(isDefault := false)
      else options[id]
  }

  function Patched(row: OptionRow, p: OptionPatch): OptionRow {
    row.(caption := Or(p.caption, row.caption),
         terms := Terms(Or(p.priceUsd, row.terms.priceUsd), Or(p.priceEur, row.terms.priceEur),
                        Merged(p.percent, row.terms.percent),
                        Merged(p.amountUsd, row.terms.amountUsd), Merged(p.amountEur, row.terms.amountEur)),
         isDefault := Or(p.isDefault, row.isDefault),
         sortOrder := Or(p.sortOrder, row.sortOrder))
  }

  /** The one update that does what `p` and then `q` do: what the later one says counts. */
  function Combined(p: OptionPatch, q: OptionPatch): OptionPatch {
    OptionPatch(
      if q.caption.Some? then q.caption else p.caption,
      if q.priceUsd.Some? then q.priceUsd else p.priceUsd, if q.priceEur.Some? then q.priceEur else p.priceEur,
      if q.isDefault.Some? then q.isDefault else p.isDefault, if q.sortOrder.Some? then q.sortOrder else p.sortOrder,
      if q.percent.Sent? then q.percent else p.percent,
      if q.amountUsd.Sent? then q.amountUsd else p.amountUsd, if q.amountEur.Sent? then q.amountEur else p.amountEur)
  }

  /** Partial updates compose, the last word on each field counting, and repeating one changes nothing. */
  lemma PatchesCompose(row: OptionRow, p: OptionPatch, q: OptionPatch)
    ensures Patched(Patched(row, p), q) == Patched(row, Combined(p, q))
    ensures Patched(Patched(row, p), p) == Patched(row, p)
  {
  }

  function AfterCreateOption(db: Db, serviceId: Id, id: Id, d: OptionDraft): Result<Db, Error> {
    if !PayloadOk(d.terms, d.sortOrder) then Err(InvalidPayload)
    else if !LiveService(db.services, serviceId) then Err(NotFound)
    else if id in db.options then Err(DuplicateKey)
    else
      var others := if d.isDefault then UnsetDefault(db.options, serviceId, {}) else db.options;
      Ok(db.(options := others[id := OptionRow(serviceId, d.caption, d.terms, d.isDefault, d.sortOrder)]))
  }

  function AfterUpdateOption(db: Db, serviceId: Id, id: Id, p: OptionPatch): Result<Db, Error> {
    if !PatchOk(p) then Err(InvalidPayload)
    else if id !in db.options || db.options[id].serviceId != serviceId then Err(NotFound)
    else
      var row := db.options[id];
      var others := if p.isDefault == Some(true) && !row.isDefault
                    then UnsetDefault(db.options, serviceId, {id}) else db.options;
      var merged := Patched(row, p);
      match ValidateDiscountCombination(merged.terms.percent, merged.terms.amountUsd, merged.terms.amountEur)
      case Ok(_) => Ok(db.(options := others[id := merged]))
      case Err(reason) => Err(InvalidDiscount(reason))
  }

  function AfterDeleteOption(db: Db, serviceId: Id, id: Id): Result<Db, Error> {
    if id !in db.options || db.options[id].serviceId != serviceId then Err(NotFound)
    else Ok(db.(options := db.options - {id}))
  }

  // ---- what a reorder does, whatever is reordered ----

  /** The last of the places that name this row. */
  predicate IsLastFor(places: seq<Place>, id: Id, k: nat) {
    k < |places| && places[k].id == id && forall j :: k < j < |places| ==> places[j].id != id
  }

  predicate Names(places: seq<Place>, id: Id) {
    exists k :: 0 <= k < |places| && places[k].id == id
  }

  /** A row that may be moved gets the sort order of the last place that names it and otherwise keeps its
      own; a row that may not be moved keeps its own. */
  ghost predicate MovedBy(places: seq<Place>, id: Id, movable: bool, before: int, after: int) {
    if movable && Names(places, id)
    then forall k: nat :: IsLastFor(places, id, k) ==> after == places[k].sortOrder
    else after == before
  }

  /** How many of the places name one of the rows. */
  ghost function Naming(places: seq<Place>, rows: set<Id>): nat {
    |set k | 0 <= k < |places| && places[k].id in rows|
  }

  lemma NamingOneMore(places: seq<Place>, rows: set<Id>)
    requires places != []
    ensures var n := |places| - 1;
            Naming(places, rows) == Naming(places[..n], rows) + if places[n].id in rows then 1 else 0
  {
    var n := |places| - 1;
    var before := set k | 0 <= k < n && places[..n][k].id in rows;
    var all := set k | 0 <= k < |places| && places[k].id in rows;
    assert all == before + if places[n].id in rows then {n} else {};
  }

  lemma MovedOneMore(places: seq<Place>, id: Id, movable: bool, before: int, between: int, after: int)
    requires places != [] && MovedBy(places[..|places| - 1], id, movable, before, between)
    requires after == if movable && places[|places| - 1].id == id then places[|places| - 1].sortOrder else between
    ensures MovedBy(places, id, movable, before, after)
  {
    var n := |places| - 1;
    if movable && places[n].id != id {
      forall k: nat | IsLastFor(places, id, k)
        ensures IsLastFor(places[..n], id, k)
      {
      }
      if Names(places[..n], id) {
        var k :| 0 <= k < n && places[..n][k].id == id;
        assert places[k].id == id;
      }
      if Names(places, id) {
        var k :| 0 <= k < |places| && places[k].id == id;
        assert places[..n][k].id == id;
      }
    }
  }

  ghost function OptionsOf(options: map<Id, OptionRow>, serviceId: Id): set<Id> {
    set id | id in options && options[id].serviceId == serviceId
  }

  ghost function LiveServices(services: map<Id, Service>): set<Id> {
    set id | id in services && LiveService(services, id)
  }

  ghost function LiveGames(games: map<Id, Game>): set<Id> {
    set id | id in games && LiveGame(games, id)
  }

  /** Rows that may be moved are, as the places say; others stay; and the count is of the places that name
      a row that may be moved. */
  ghost predicate OptionsMoved(before: map<Id, OptionRow>, serviceId: Id, places: seq<Place>, after: map<Id, OptionRow>, updated: nat) {
    && updated == Naming(places, OptionsOf(before, serviceId))
    && after.Keys == before.Keys
    && forall id :: id in before ==>
         MovedBy(places, id, before[id].serviceId == serviceId, before[id].sortOrder, after[id].sortOrder)
  }

  lemma {:induction false} ReorderedOptionsMoved(options: map<Id, OptionRow>, serviceId: Id, places: seq<Place>)
    ensures var r := ReorderedOptions(options, serviceId, places); OptionsMoved(options, serviceId, places, r.0, r.1)
  {
    if places != [] {
      var n := |places| - 1;
      ReorderedOptionsMoved(options, serviceId, places[..n]);
      NamingOneMore(places, OptionsOf(options, serviceId));
      hide Naming, MovedBy;
      var before, after := ReorderedOptions(options, serviceId, places[..n]).0, ReorderedOptions(options, serviceId, places).0;
      forall id | id in options
        ensures MovedBy(places, id, options[id].serviceId == serviceId, options[id].sortOrder, after[id].sortOrder)
      {
        MovedOneMore(places, id, options[id].serviceId == serviceId, options[id].sortOrder,
                     before[id].sortOrder, after[id].sortOrder);
      }
    }
  }

  ghost predicate ServicesMoved(before: map<Id, Service>, places: seq<Place>, after: map<Id, Service>, updated: nat) {
    && updated == Naming(places, LiveServices(before))
    && after.Keys == before.Keys
    && forall id :: id in before ==>
         MovedBy(places, id, !before[id].isDeleted, before[id].sortOrder, after[id].sortOrder)
  }

  lemma {:induction false} ReorderedServicesMoved(services: map<Id, Service>, places: seq<Place>)
    ensures var r := ReorderedServices(services, places); ServicesMoved(services, places, r.0, r.1)
  {
    if places != [] {
      var n := |places| - 1;
      ReorderedServicesMoved(services, places[..n]);
      NamingOneMore(places, LiveServices(services));
      hide Naming, MovedBy;
      var before, after := ReorderedServices(services, places[..n]).0, ReorderedServices(services, places).0;
      forall id | id in services
        ensures MovedBy(places, id, !services[id].isDeleted, services[id].sortOrder, after[id].sortOrder)
      {
        MovedOneMore(places, id, !services[id].isDeleted, services[id].sortOrder, before[id].sortOrder, after[id].sortOrder);
      }
    }
  }

  ghost predicate GamesMoved(before: map<Id, Game>, places: seq<Place>, after: map<Id, Game>, updated: nat) {
    && updated == Naming(places, LiveGames(before))
    && after.Keys == before.Keys
    && forall id :: id in before ==>
         MovedBy(places, id, !before[id].isDeleted, before[id].sortOrder, after[id].sortOrder)
  }

  lemma {:induction false} ReorderedGamesMoved(games: map<Id, Game>, places: seq<Place>)
    ensures var r := ReorderedGames(games, places); GamesMoved(games, places, r.0, r.1)
  {
    if places != [] {
      var n := |places| - 1;
      ReorderedGamesMoved(games, places[..n]);
      NamingOneMore(places, LiveGames(games));
      hide Naming, MovedBy;
      var before, after := ReorderedGames(games, places[..n]).0, ReorderedGames(games, places).0;
      forall id | id in games
        ensures MovedBy(places, id, !games[id].isDeleted, games[id].sortOrder, after[id].sortOrder)
      {
        MovedOneMore(places, id, !games[id].isDeleted, games[id].sortOrder, before[id].sortOrder, after[id].sortOrder);
      }
    }
  }

  /** One UPDATE per pair; a row changes in its sort order at most. The count is of rows touched,
      a row named twice being touched twice. */
  function ReorderedOptions(options: map<Id, OptionRow>, serviceId: Id, places: seq<Place>):
    (r: (map<Id, OptionRow>, nat))
    ensures r.0.Keys == options.Keys
    ensures forall id :: id in options ==> r.0[id] == options[id].(sortOrder := r.0[id].sortOrder)
    ensures r.1 == 0 ==> r.0 == options
  {
    if places == [] then (options, 0) else
      var p := places[|places| - 1];
      var (before, n) := ReorderedOptions(options, serviceId, places[..|places| - 1]);
      if p.id in before && before[p.id].serviceId == serviceId
      then (before[p.id := before[p.id].(sortOrder := p.sortOrder)], n + 1)
      else (before, n)
  }

  lemma ReorderedOptionsOneMore(options: map<Id, OptionRow>, serviceId: Id, places: seq<Place>, i: nat)
    requires i < |places|
    ensures
      var (before, n) := ReorderedOptions(options, serviceId, places[..i]);
      var p := places[i];
      ReorderedOptions(options, serviceId, places[..i + 1]) ==
      if p.id in before && before[p.id].serviceId == serviceId
      then (before[p.id := before[p.id].(sortOrder := p.sortOrder)], n + 1)
      else (before, n)
  {
    assert places[..i + 1][..i] == places[..i];
  }

  function AfterReorderOptions(db: Db, serviceId: Id, places: seq<Place>): Result<Db, Error> {
    if places == [] || exists k :: 0 <= k < |places| && places[k].sortOrder < 0 then Err(InvalidPayload)
    else if !LiveService(db.services, serviceId) then Err(NotFound)
    else
      var (options, updated) := ReorderedOptions(db.options, serviceId, places);
      if updated == 0 then Err(NotFound) else Ok(db.(options := options))
  }

  // ---- service writes ----

  function Defaults(drafts: seq<OptionDraft>): nat {
    if drafts == [] then 0 else
      Defaults(drafts[..|drafts| - 1]) + if drafts[|drafts| - 1].isDefault then 1 else 0
  }

  /** Nested options keep their prices but not their discounts. */
  function NestedRow(serviceId: Id, d: OptionDraft): OptionRow {
    OptionRow(serviceId, d.caption, Terms(d.terms.priceUsd, d.terms.priceEur, None, None, None), d.isDefault, d.sortOrder)
  }

  function WithNested(options: map<Id, OptionRow>, serviceId: Id, ids: seq<Id>, drafts: seq<OptionDraft>): map<Id, OptionRow>
    requires |ids| == |drafts|
  {
    if ids == [] then options else
      var n := |ids| - 1;
      WithNested(options, serviceId, ids[..n], drafts[..n])[ids[n] := NestedRow(serviceId, drafts[n])]
  }

  predicate FreshIds(options: map<Id, OptionRow>, ids: seq<Id>) {
    && (forall k :: 0 <= k < |ids| ==> ids[k] !in options)
    && (forall j, k :: 0 <= j < k < |ids| ==> ids[j] != ids[k])
  }

  predicate DraftsOk(drafts: seq<OptionDraft>) {
    Defaults(drafts) <= 1 && forall k :: 0 <= k < |drafts| ==> PayloadOk(drafts[k].terms, drafts[k].sortOrder)
  }

  function AfterCreateService(db: Db, id: Id, s: Service, optionIds: seq<Id>, drafts: seq<OptionDraft>): Result<Db, Error> {
    if s.sortOrder < 0 || !DraftsOk(drafts) then Err(InvalidPayload)
    else if ServiceSlugTaken(db.services, s.slug, {}) then Err(Conflict)
    else if !LiveGame(db.games, s.gameId) then Err(NotFound)
    else if id in db.services || |optionIds| != |drafts| || !FreshIds(db.options, optionIds) then Err(DuplicateKey)
    else Ok(db.(services := db.services[id := s.(isDeleted := false)],
                options := WithNested(db.options, id, optionIds, drafts)))
  }

  function PatchedService(s: Service, p: ServicePatch): Service {
    s.(slug := Or(p.slug, s.slug), title := Or(p.title, s.title),
       isFeatured := Or(p.isFeatured, s.isFeatured), sortOrder := Or(p.sortOrder, s.sortOrder),
       isActive := Or(p.isActive, s.isActive))
  }

  function AfterUpdateService(db: Db, id: Id, p: ServicePatch): Result<Db, Error> {
    if p.sortOrder.Some? && p.sortOrder.value < 0 then Err(InvalidPayload)
    else if !LiveService(db.services, id) then Err(NotFound)
    else
      var s := db.services[id];
      if p.slug.Some? && p.slug.value != s.slug && ServiceSlugTaken(db.services, p.slug.value, {id}) then Err(Conflict)
      else Ok(db.(services := db.services[id := PatchedService(s, p)]))
  }

  function AfterServiceChange(db: Db, id: Id, change: Service -> Service): Result<Db, Error> {
    if !LiveService(db.services, id) then Err(NotFound)
    else Ok(db.(services := db.services[id := change(db.services[id])]))
  }

  function ReorderedServices(services: map<Id, Service>, places: seq<Place>): (r: (map<Id, Service>, nat))
    ensures r.0.Keys == services.Keys
    ensures forall id :: id in services ==> r.0[id] == services[id].(sortOrder := r.0[id].sortOrder)
    ensures r.1 == 0 ==> r.0 == services
  {
    if places == [] then (services, 0) else
      var p := places[|places| - 1];
      var (before, n) := ReorderedServices(services, places[..|places| - 1]);
      if LiveService(before, p.id)
      then (before[p.id := before[p.id].(sortOrder := p.sortOrder)], n + 1)
      else (before, n)
  }

  function AfterReorderServices(db: Db, places: seq<Place>): Result<Db, Error> {
    if places == [] || exists k :: 0 <= k < |places| && places[k].sortOrder < 0 then Err(InvalidPayload)
    else
      var (services, updated) := ReorderedServices(db.services, places);
      if updated == 0 then Err(NotFound) else Ok(db.(services := services))
  }

  // ---- game writes ----

  function AfterCreateGame(db: Db, id: Id, g: Game): Result<Db, Error> {
    if g.sortOrder < 0 then Err(InvalidPayload)
    else if GameSlugTaken(db.games, g.slug, {}) then Err(Conflict)
    else if id in db.games then Err(DuplicateKey)
    else Ok(db.(games := db.games[id := g.(isDeleted := false)]))
  }

  function PatchedGame(g: Game, p: GamePatch): Game {
    g.(slug := Or(p.slug, g.slug), name := Or(p.name, g.name),
       sortOrder := Or(p.sortOrder, g.sortOrder), status := Or(p.status, g.status))
  }

  function AfterUpdateGame(db: Db, id: Id, p: GamePatch): Result<Db, Error> {
    if p.sortOrder.Some? && p.sortOrder.value < 0 then Err(InvalidPayload)
    else if !LiveGame(db.games, id) then Err(NotFound)
    else
      var g := db.games[id];
      if p.slug.Some? && p.slug.value != g.slug && GameSlugTaken(db.games, p.slug.value, {id}) then Err(Conflict)
      else Ok(db.(games := db.games[id := PatchedGame(g, p)]))
  }

  function AfterDeleteGame(db: Db, id: Id): Result<Db, Error> {
    if !LiveGame(db.games, id) then Err(NotFound)
    else Ok(db.(games := db.games[id := db.games[id].(isDeleted := true, status := Hidden)]))
  }

  function ReorderedGames(games: map<Id, Game>, places: seq<Place>): (r: (map<Id, Game>, nat))
    ensures r.0.Keys == games.Keys
    ensures forall id :: id in games ==> r.0[id] == games[id].(sortOrder := r.0[id].sortOrder)
    ensures r.1 == 0 ==> r.0 == games
  {
    if places == [] then (games, 0) else
      var p := places[|places| - 1];
      var (before, n) := ReorderedGames(games, places[..|places| - 1]);
      if LiveGame(before, p.id)
      then (before[p.id := before[p.id].(sortOrder := p.sortOrder)], n + 1)
      else (before, n)
  }

  function AfterReorderGames(db: Db, places: seq<Place>): Result<Db, Error> {
    if places == [] || exists k :: 0 <= k < |places| && places[k].sortOrder < 0 then Err(InvalidPayload)
    else
      var (games, updated) := ReorderedGames(db.games, places);
      if updated == 0 then Err(NotFound) else Ok(db.(games := games))
  }

  // ---- all writes ----

  function Apply(db: Db, w: Write): Result<Db, Error> {
    match w
    case CreateGame(id, game) => AfterCreateGame(db, id, game)
    case UpdateGame(id, p) => AfterUpdateGame(db, id, p)
    case DeleteGame(id) => AfterDeleteGame(db, id)
    case ReorderGames(places) => AfterReorderGames(db, places)
    case CreateService(id, service, optionIds, drafts) => AfterCreateService(db, id, service, optionIds, drafts)
    case UpdateService(id, p) => AfterUpdateService(db, id, p)
    case ToggleActive(id) => AfterServiceChange(db, id, (s: Service) => s.(isActive := !s.isActive))
    case ToggleFeatured(id) => AfterServiceChange(db, id, (s: Service) => s.(isFeatured := !s.isFeatured))
    case DeleteService(id) => AfterServiceChange(db, id, (s: Service) => s.(isDeleted := true, isActive := false))
    case ReorderServices(places) => AfterReorderServices(db, places)
    case CreateOption(serviceId, id, d) => AfterCreateOption(db, serviceId, id, d)
    case UpdateOption(serviceId, id, p) => AfterUpdateOption(db, serviceId, id, p)
    case DeleteOption(serviceId, id) => AfterDeleteOption(db, serviceId, id)
    case ReorderOptions(serviceId, places) => AfterReorderOptions(db, serviceId, places)
    case ReviewWrite => Ok(db)
  }

  /** The tables after a write: a rejected one changes nothing. */
  function After(db: Db, w: Write): Db {
    match Apply(db, w)
    case Ok(db') => db'
    case Err(_) => db
  }

  function AfterAll(db: Db, ws: seq<Write>): Db {
    if ws == [] then db else After(AfterAll(db, ws[..|ws| - 1]), ws[|ws| - 1])
  }

  // ---- what an accepted write stores ----

  function SentOr(field: Field, current: Option<int>): Option<int> {
    match field
    case Absent => current
    case Sent(value) => value
  }

  /** The row's price columns are these. */
  predicate Prices(row: OptionRow, usd: int, eur: int, percent: Option<int>, amountUsd: Option<int>, amountEur: Option<int>) {
    && row.terms.priceUsd == usd && row.terms.priceEur == eur
    && row.terms.percent == percent && row.terms.amountUsd == amountUsd && row.terms.amountEur == amountEur
  }

  predicate Describes(row: OptionRow, serviceId: Id, caption: string, isDefault: bool, sortOrder: int) {
    row.serviceId == serviceId && row.caption == caption && row.isDefault == isDefault && row.sortOrder == sortOrder
  }

  /** The row is as it was but for its default flag, which may have been taken. */
  predicate KeptBut(before: OptionRow, after: OptionRow, taken: bool) {
    && Prices(after, before.terms.priceUsd, before.terms.priceEur, before.terms.percent, before.terms.amountUsd, before.terms.amountEur)
    && Describes(after, before.serviceId, before.caption, before.isDefault && !taken, before.sortOrder)
  }

  /** Every row but `id` is kept; of the service's rows the default flag goes if `taken`. */
  ghost predicate OthersKept(before: map<Id, OptionRow>, after: map<Id, OptionRow>, id: Id, serviceId: Id, taken: bool) {
    && after.Keys - {id} == before.Keys - {id}
    && forall k :: k in before && k != id ==> k in after && KeptBut(before[k], after[k], taken && before[k].serviceId == serviceId)
  }

  /** A new option has what was sent, discounts included; if it is the default, the service's others are not. */
  ghost predicate OptionCreated(before: Db, after: Db, serviceId: Id, id: Id, d: OptionDraft) {
    && after.games == before.games && after.services == before.services && id in after.options
    && Describes(after.options[id], serviceId, d.caption, d.isDefault, d.sortOrder)
    && Prices(after.options[id], d.terms.priceUsd, d.terms.priceEur, d.terms.percent, d.terms.amountUsd, d.terms.amountEur)
    && OthersKept(before.options, after.options, id, serviceId, d.isDefault)
  }

  /** An updated option has each field that was sent, and its own otherwise; made the default, it takes the
      flag from the service's others. */
  ghost predicate OptionUpdated(before: Db, after: Db, serviceId: Id, id: Id, p: OptionPatch) {
    && after.games == before.games && after.services == before.services
    && id in before.options && id in after.options
    && var row := before.options[id];
       && Describes(after.options[id], serviceId,
                    if p.caption.Some? then p.caption.value else row.caption,
                    if p.isDefault.Some? then p.isDefault.value else row.isDefault,
                    if p.sortOrder.Some? then p.sortOrder.value else row.sortOrder)
       && Prices(after.options[id],
                 if p.priceUsd.Some? then p.priceUsd.value else row.terms.priceUsd,
                 if p.priceEur.Some? then p.priceEur.value else row.terms.priceEur,
                 SentOr(p.percent, row.terms.percent),
                 SentOr(p.amountUsd, row.terms.amountUsd), SentOr(p.amountEur, row.terms.amountEur))
       && OthersKept(before.options, after.options, id, serviceId, p.isDefault == Some(true) && !row.isDefault)
  }

  /** A new service has what was sent, and of its options all but the discounts; nothing else changes. */
  ghost predicate ServiceCreated(before: Db, after: Db, id: Id, sent: Service, ids: seq<Id>, drafts: seq<OptionDraft>) {
    && after.games == before.games && |ids| == |drafts|
    && after.services == before.services[id := sent.(isDeleted := false)]
    && (forall k :: k in before.options ==> k in after.options && after.options[k] == before.options[k])
    && (forall k :: k in after.options ==> k in before.options || k in ids)
    && (forall k :: 0 <= k < |ids| ==>
          && ids[k] in after.options
          && Describes(after.options[ids[k]], id, drafts[k].caption, drafts[k].isDefault, drafts[k].sortOrder)
          && Prices(after.options[ids[k]], drafts[k].terms.priceUsd, drafts[k].terms.priceEur, None, None, None))
  }

  predicate IsService(s: Service, gameId: Id, slug: string, title: string, isFeatured: bool, sortOrder: int,
                      isActive: bool, isDeleted: bool) {
    && s.gameId == gameId && s.slug == slug && s.title == title && s.isFeatured == isFeatured
    && s.sortOrder == sortOrder && s.isActive == isActive && s.isDeleted == isDeleted
  }

  predicate IsGame(g: Game, slug: string, name: string, status: GameStatus, sortOrder: int, createdAt: int, isDeleted: bool) {
    && g.slug == slug && g.name == name && g.status == status && g.sortOrder == sortOrder && g.createdAt == createdAt
    && g.isDeleted == isDeleted
  }

  ghost predicate OneServiceChanged(before: Db, after: Db, id: Id) {
    && after.games == before.games && after.options == before.options
    && id in before.services && after.services.Keys == before.services.Keys
    && forall k :: k in before.services && k != id ==> after.services[k] == before.services[k]
  }

  ghost predicate OneGameChanged(before: Db, after: Db, id: Id) {
    && after.services == before.services && after.options == before.options
    && after.games.Keys == before.games.Keys + {id}
    && forall k :: k in before.games && k != id ==> after.games[k] == before.games[k]
  }

  /** What each accepted write leaves in the tables, column by column. */
  ghost predicate Stores(before: Db, w: Write, after: Db) {
    match w
    case CreateGame(id, g) =>
      OneGameChanged(before, after, id) && IsGame(after.games[id], g.slug, g.name, g.status, g.sortOrder, g.createdAt, false)
    case UpdateGame(id, p) =>
      && id in before.games && OneGameChanged(before, after, id)
      && var g := before.games[id];
         IsGame(after.games[id],
                if p.slug.Some? then p.slug.value else g.slug, if p.name.Some? then p.name.value else g.name,
                if p.status.Some? then p.status.value else g.status,
                if p.sortOrder.Some? then p.sortOrder.value else g.sortOrder, g.createdAt, false)
    case DeleteGame(id) =>
      && id in before.games && OneGameChanged(before, after, id)
      && var g := before.games[id]; IsGame(after.games[id], g.slug, g.name, Hidden, g.sortOrder, g.createdAt, true)
    case CreateService(id, sent, ids, drafts) => ServiceCreated(before, after, id, sent, ids, drafts)
    case UpdateService(id, p) =>
      && OneServiceChanged(before, after, id)
      && var r := before.services[id];
         IsService(after.services[id], r.gameId,
                   if p.slug.Some? then p.slug.value else r.slug, if p.title.Some? then p.title.value else r.title,
                   if p.isFeatured.Some? then p.isFeatured.value else r.isFeatured,
                   if p.sortOrder.Some? then p.sortOrder.value else r.sortOrder,
                   if p.isActive.Some? then p.isActive.value else r.isActive, false)
    case ToggleActive(id) =>
      && OneServiceChanged(before, after, id)
      && var r := before.services[id];
         IsService(after.services[id], r.gameId, r.slug, r.title, r.isFeatured, r.sortOrder, !r.isActive, false)
    case ToggleFeatured(id) =>
      && OneServiceChanged(before, after, id)
      && var r := before.services[id];
         IsService(after.services[id], r.gameId, r.slug, r.title, !r.isFeatured, r.sortOrder, r.isActive, false)
    case DeleteService(id) =>
      && OneServiceChanged(before, after, id)
      && var r := before.services[id];
         IsService(after.services[id], r.gameId, r.slug, r.title, r.isFeatured, r.sortOrder, false, true)
    case CreateOption(sid, id, d) => OptionCreated(before, after, sid, id, d)
    case UpdateOption(sid, id, p) => OptionUpdated(before, after, sid, id, p)
    case DeleteOption(_, id) =>
      && after.games == before.games && after.services == before.services
      && id !in after.options && OthersKept(before.options, after.options, id, 0, false)
    case ReorderGames(_) => after.services == before.services && after.options == before.options
    case ReorderServices(_) => after.games == before.games && after.options == before.options
    case ReorderOptions(_, _) => after.games == before.games && after.services == before.services
    case ReviewWrite => after == before
  }

  /** The discount fields of an update are checked together as they were sent, but only if one of them was;
      prices and sort orders are checked when given. */
  ghost predicate PatchValid(p: OptionPatch) {
    && (p.priceUsd.Some? ==> 0 <= p.priceUsd.value <= 9_999_999_999)
    && (p.priceEur.Some? ==> 0 <= p.priceEur.value <= 9_999_999_999)
    && (p.sortOrder.Some? ==> p.sortOrder.value >= 0)
    && var percent, usd, eur := SentOr(p.percent, None), SentOr(p.amountUsd, None), SentOr(p.amountEur, None);
       && (p.percent.Sent? || p.amountUsd.Sent? || p.amountEur.Sent? ==> DiscountOk(percent, usd, eur))
       && (usd.Some? ==> usd.value <= 9_999_999_999) && (eur.Some? ==> eur.value <= 9_999_999_999)
  }

  ghost predicate DraftValid(d: OptionDraft) {
    TermsOk(d.terms) && d.sortOrder >= 0
  }

  /** What was sent is valid in itself. */
  ghost predicate ValidSent(w: Write) {
    match w
    case CreateGame(_, g) => g.sortOrder >= 0
    case UpdateGame(_, p) => p.sortOrder.Some? ==> p.sortOrder.value >= 0
    case CreateService(_, sent, _, drafts) =>
      && sent.sortOrder >= 0 && (forall k :: 0 <= k < |drafts| ==> DraftValid(drafts[k]))
      && forall j, k :: 0 <= j < k < |drafts| ==> !(drafts[j].isDefault && drafts[k].isDefault)
    case UpdateService(_, p) => p.sortOrder.Some? ==> p.sortOrder.value >= 0
    case CreateOption(_, _, d) => DraftValid(d)
    case UpdateOption(_, _, p) => PatchValid(p)
    case ReorderGames(places) => places != [] && PlacesOk(places)
    case ReorderServices(places) => places != [] && PlacesOk(places)
    case ReorderOptions(_, places) => places != [] && PlacesOk(places)
    case _ => true
  }

  /** What the write names is there, and where rows can be deleted softly it is not. */
  ghost predicate NamesRows(db: Db, w: Write) {
    match w
    case UpdateGame(id, _) => LiveGame(db.games, id)
    case DeleteGame(id) => LiveGame(db.games, id)
    case ReorderGames(places) => exists id :: LiveGame(db.games, id) && Names(places, id)
    case CreateService(_, sent, _, _) => LiveGame(db.games, sent.gameId)
    case UpdateService(id, _) => LiveService(db.services, id)
    case ToggleActive(id) => LiveService(db.services, id)
    case ToggleFeatured(id) => LiveService(db.services, id)
    case DeleteService(id) => LiveService(db.services, id)
    case ReorderServices(places) => exists id :: LiveService(db.services, id) && Names(places, id)
    case CreateOption(sid, _, _) => LiveService(db.services, sid)
    case UpdateOption(sid, id, _) => id in db.options && db.options[id].serviceId == sid
    case DeleteOption(sid, id) => id in db.options && db.options[id].serviceId == sid
    case ReorderOptions(sid, places) =>
      LiveService(db.services, sid) && exists id :: id in OptionsOf(db.options, sid) && Names(places, id)
    case _ => true
  }

  /** No other live row of its kind has the slug. */
  ghost predicate SlugIsFree(db: Db, w: Write) {
    match w
    case CreateGame(_, g) => forall k :: LiveGame(db.games, k) ==> db.games[k].slug != g.slug
    case UpdateGame(id, p) =>
      p.slug.Some? ==> forall k :: LiveGame(db.games, k) && k != id ==> db.games[k].slug != p.slug.value
    case CreateService(_, sent, _, _) => forall k :: LiveService(db.services, k) ==> db.services[k].slug != sent.slug
    case UpdateService(id, p) =>
      p.slug.Some? ==> forall k :: LiveService(db.services, k) && k != id ==> db.services[k].slug != p.slug.value
    case _ => true
  }

  /** The keys of new rows are new. */
  predicate KeysAreFree(db: Db, w: Write) {
    match w
    case CreateGame(id, _) => id !in db.games
    case CreateService(id, _, ids, drafts) => id !in db.services && |ids| == |drafts| && FreshIds(db.options, ids)
    case CreateOption(_, id, _) => id !in db.options
    case _ => true
  }

  /** After an update of an option its discounts together are permitted. */
  ghost predicate DiscountsFit(db: Db, w: Write) {
    w.UpdateOption? && w.id in db.options ==>
      var t, p := db.options[w.id].terms, w.optionPatch;
      DiscountOk(SentOr(p.percent, t.percent), SentOr(p.amountUsd, t.amountUsd), SentOr(p.amountEur, t.amountEur))
  }

  ghost predicate Accepted(db: Db, w: Write) {
    ValidSent(w) && NamesRows(db, w) && SlugIsFree(db, w) && KeysAreFree(db, w) && DiscountsFit(db, w)
  }

  /** A refusal names its reason truly: what was sent is invalid exactly if it says so. */
  ghost predicate RefusedFor(db: Db, w: Write, e: Error) {
    && (e == InvalidPayload <==> !ValidSent(w))
    && match e
       case InvalidPayload => true
       case NotFound => !NamesRows(db, w)
       case Conflict => !SlugIsFree(db, w)
       case DuplicateKey => !KeysAreFree(db, w)
       case InvalidDiscount(_) => !DiscountsFit(db, w)
  }

  predicate PlacesOk(places: seq<Place>) {
    forall k :: 0 <= k < |places| ==> places[k].sortOrder >= 0
  }

  lemma {:induction false} NestedKeeps(options: map<Id, OptionRow>, sid: Id, ids: seq<Id>, drafts: seq<OptionDraft>, key: Id)
    requires |ids| == |drafts|
    ensures var after := WithNested(options, sid, ids, drafts);
            && (key in after ==> key in options || key in ids)
            && (key !in ids && key in options ==> key in after && after[key] == options[key])
  {
    if ids != [] {
      var n := |ids| - 1;
      NestedKeeps(options, sid, ids[..n], drafts[..n], key);
      assert ids == ids[..n] + [ids[n]];
    }
  }

  lemma {:induction false} NestedStored(options: map<Id, OptionRow>, sid: Id, ids: seq<Id>, drafts: seq<OptionDraft>, k: nat)
    requires |ids| == |drafts| && k < |ids| && FreshIds(options, ids)
    ensures var after := WithNested(options, sid, ids, drafts);
            ids[k] in after && after[ids[k]] == NestedRow(sid, drafts[k])
  {
    var n := |ids| - 1;
    if k < n {
      NestedStored(options, sid, ids[..n], drafts[..n], k);
      assert ids[k] != ids[n];
    }
  }

  lemma CreateServiceStores(db: Db, id: Id, sent: Service, ids: seq<Id>, drafts: seq<OptionDraft>)
    requires AfterCreateService(db, id, sent, ids, drafts).Ok?
    ensures ServiceCreated(db, AfterCreateService(db, id, sent, ids, drafts).value, id, sent, ids, drafts)
  {
    var after := WithNested(db.options, id, ids, drafts);
    forall k
      ensures (k in after ==> k in db.options || k in ids)
      ensures (k in db.options ==> k in after && after[k] == db.options[k])
    {
      NestedKeeps(db.options, id, ids, drafts, k);
    }
    forall k | 0 <= k < |ids|
      ensures ids[k] in after && after[ids[k]] == NestedRow(id, drafts[k])
    {
      NestedStored(db.options, id, ids, drafts, k);
    }
    hide WithNested, FreshIds, DraftsOk;
  }

  lemma CreateOptionStores(db: Db, sid: Id, id: Id, d: OptionDraft)
    requires AfterCreateOption(db, sid, id, d).Ok?
    ensures OptionCreated(db, AfterCreateOption(db, sid, id, d).value, sid, id, d)
  {
    hide PayloadOk;
  }

  lemma UpdateOptionStores(db: Db, sid: Id, id: Id, p: OptionPatch)
    requires AfterUpdateOption(db, sid, id, p).Ok?
    ensures OptionUpdated(db, AfterUpdateOption(db, sid, id, p).value, sid, id, p)
  {
    hide PatchOk, DiscountOk;
  }

  lemma OptionWriteStores(db: Db, w: Write)
    requires Apply(db, w).Ok? && OptionWrite(w)
    ensures Stores(db, w, After(db, w))
  {
    hide AfterCreateService, AfterCreateOption, AfterUpdateOption, OptionCreated, OptionUpdated, ServiceCreated;
    match w
    case CreateService(id, sent, ids, drafts) => CreateServiceStores(db, id, sent, ids, drafts);
    case CreateOption(sid, id, d) => CreateOptionStores(db, sid, id, d);
    case UpdateOption(sid, id, p) => UpdateOptionStores(db, sid, id, p);
    case _ =>
  }

  lemma OtherWriteStores(db: Db, w: Write)
    requires Apply(db, w).Ok? && !OptionWrite(w)
    ensures Stores(db, w, After(db, w))
  {
    hide AfterCreateService, AfterCreateOption, AfterUpdateOption, OptionCreated, OptionUpdated, ServiceCreated;
  }

  lemma WriteStores(db: Db, w: Write)
    requires Apply(db, w).Ok?
    ensures Stores(db, w, After(db, w))
  {
    hide Apply, Stores, OptionWrite;
    if OptionWrite(w) { OptionWriteStores(db, w); } else { OtherWriteStores(db, w); }
  }

  lemma NamingIsPositive(places: seq<Place>, rows: set<Id>)
    ensures Naming(places, rows) > 0 <==> exists id :: id in rows && Names(places, id)
  {
    var named := set k | 0 <= k < |places| && places[k].id in rows;
    if exists id :: id in rows && Names(places, id) {
      var id :| id in rows && Names(places, id);
      var k :| 0 <= k < |places| && places[k].id == id;
      assert k in named;
    }
    if named != {} {
      var k :| k in named;
      assert Names(places, places[k].id);
    }
  }

  lemma {:induction false} DefaultsCounted(drafts: seq<OptionDraft>)
    ensures Defaults(drafts) == 0 <==> forall k :: 0 <= k < |drafts| ==> !drafts[k].isDefault
    ensures Defaults(drafts) <= 1 <==>
              forall j, k :: 0 <= j < k < |drafts| ==> !(drafts[j].isDefault && drafts[k].isDefault)
  {
    if drafts != [] {
      var n := |drafts| - 1;
      DefaultsCounted(drafts[..n]);
      assert forall k :: 0 <= k < n ==> drafts[..n][k] == drafts[k];
    }
  }

  lemma PayloadValid(d: OptionDraft)
    ensures PayloadOk(d.terms, d.sortOrder) <==> DraftValid(d)
  {
  }

  lemma PatchIsValid(p: OptionPatch)
    ensures PatchOk(p) <==> PatchValid(p)
  {
  }

  /** The answer to a write: accepted, with the refusal's reason if not. */
  ghost predicate Answered(db: Db, w: Write) {
    match Apply(db, w)
    case Ok(_) => Accepted(db, w)
    case Err(e) => !Accepted(db, w) && RefusedFor(db, w, e)
  }

  lemma GamesReorderAnswered(db: Db, places: seq<Place>)
    ensures Answered(db, ReorderGames(places))
  {
    ReorderedGamesMoved(db.games, places);
    NamingIsPositive(places, LiveGames(db.games));
    assert forall id :: id in LiveGames(db.games) <==> LiveGame(db.games, id);
    assert ReorderedGames(db.games, places).1 == Naming(places, LiveGames(db.games));
    hide GamesMoved, Naming, Names, LiveGames;
  }

  lemma ServicesReorderAnswered(db: Db, places: seq<Place>)
    ensures Answered(db, ReorderServices(places))
  {
    ReorderedServicesMoved(db.services, places);
    NamingIsPositive(places, LiveServices(db.services));
    assert forall id :: id in LiveServices(db.services) <==> LiveService(db.services, id);
    assert ReorderedServices(db.services, places).1 == Naming(places, LiveServices(db.services));
    hide ServicesMoved, Naming, Names, LiveServices;
  }

  lemma OptionsReorderAnswered(db: Db, sid: Id, places: seq<Place>)
    ensures Answered(db, ReorderOptions(sid, places))
  {
    ReorderedOptionsMoved(db.options, sid, places);
    NamingIsPositive(places, OptionsOf(db.options, sid));
    assert ReorderedOptions(db.options, sid, places).1 == Naming(places, OptionsOf(db.options, sid));
    hide OptionsMoved, Naming, Names, OptionsOf;
  }

  lemma OptionWriteAnswered(db: Db, w: Write)
    requires w.CreateOption? || w.UpdateOption? || w.DeleteOption?
    ensures Answered(db, w)
  {
    if w.CreateOption? { PayloadValid(w.draft); }
    if w.UpdateOption? { PatchIsValid(w.optionPatch); }
    hide PayloadOk, PatchOk, DraftValid, PatchValid, DiscountOk, UnsetDefault;
  }

  lemma CreateServiceAnswered(db: Db, w: Write)
    requires w.CreateService?
    ensures Answered(db, w)
  {
    DefaultsCounted(w.drafts);
    forall k | 0 <= k < |w.drafts|
      ensures PayloadOk(w.drafts[k].terms, w.drafts[k].sortOrder) <==> DraftValid(w.drafts[k])
    {
      PayloadValid(w.drafts[k]);
    }
    hide PayloadOk, DraftValid, WithNested, FreshIds, Defaults;
  }

  lemma RowWriteAnswered(db: Db, w: Write)
    requires SlugsUnique(db)
    requires w.CreateGame? || w.UpdateGame? || w.DeleteGame? || w.UpdateService? || w.ToggleActive? || w.ToggleFeatured?
             || w.DeleteService? || w.ReviewWrite?
    ensures Answered(db, w)
  {
  }

  /** Every write is answered rightly: it is accepted exactly if nothing stands against it, and a refusal
      says what does. */
  lemma AnsweredRightly(db: Db, w: Write)
    requires SlugsUnique(db)
    ensures Answered(db, w)
  {
    hide Answered, SlugsUnique;
    match w
    case ReorderGames(places) => GamesReorderAnswered(db, places);
    case ReorderServices(places) => ServicesReorderAnswered(db, places);
    case ReorderOptions(sid, places) => OptionsReorderAnswered(db, sid, places);
    case CreateService(_, _, _, _) => CreateServiceAnswered(db, w);
    case CreateOption(_, _, _) => OptionWriteAnswered(db, w);
    case UpdateOption(_, _, _) => OptionWriteAnswered(db, w);
    case DeleteOption(_, _) => OptionWriteAnswered(db, w);
    case _ => RowWriteAnswered(db, w);
  }

  // ---- what every reachable catalogue satisfies ----

  ghost predicate RowsOk(options: map<Id, OptionRow>) {
    forall id :: id in options ==> TermsOk(options[id].terms)
  }

  ghost predicate IsDefaultOf(options: map<Id, OptionRow>, serviceId: Id, id: Id) {
    id in options && options[id].serviceId == serviceId && options[id].isDefault
  }

  ghost predicate NoDefault(options: map<Id, OptionRow>, serviceId: Id) {
    forall id :: id in options && options[id].serviceId == serviceId ==> !options[id].isDefault
  }

  ghost predicate OneDefault(options: map<Id, OptionRow>) {
    forall sid, a, b :: IsDefaultOf(options, sid, a) && IsDefaultOf(options, sid, b) ==> a == b
  }

  ghost predicate Linked(db: Db) {
    && (forall id :: id in db.options ==> db.options[id].serviceId in db.services)
    && (forall id :: id in db.services ==> db.services[id].gameId in db.games)
  }

  ghost predicate SlugsUnique(db: Db) {
    && (forall a, b :: LiveGame(db.games, a) && LiveGame(db.games, b) && db.games[a].slug == db.games[b].slug ==> a == b)
    && (forall a, b ::
          LiveService(db.services, a) && LiveService(db.services, b) && db.services[a].slug == db.services[b].slug ==> a == b)
  }

  ghost predicate Sound(db: Db) {
    RowsOk(db.options) && OneDefault(db.options) && Linked(db) && SlugsUnique(db)
  }

  lemma UnsetDefaultClears(options: map<Id, OptionRow>, serviceId: Id, exclude: set<Id>)
    requires RowsOk(options) && OneDefault(options)
    ensures var options' := UnsetDefault(options, serviceId, exclude);
            && RowsOk(options') && OneDefault(options')
            && forall id :: IsDefaultOf(options', serviceId, id) ==> id in exclude
  {
    var options' := UnsetDefault(options, serviceId, exclude);
    forall sid, a, b | IsDefaultOf(options', sid, a) && IsDefaultOf(options', sid, b)
      ensures a == b
    {
      assert IsDefaultOf(options, sid, a) && IsDefaultOf(options, sid, b);
    }
  }

  /** Replacing or adding a row keeps at most one default per service if the row's service has no
      other default, or the row is not one. */
  lemma PutKeepsDefaults(options: map<Id, OptionRow>, id: Id, row: OptionRow)
    requires OneDefault(options)
    requires row.isDefault ==> forall k :: IsDefaultOf(options, row.serviceId, k) ==> k == id
    ensures OneDefault(options[id := row])
  {
    var options' := options[id := row];
    forall sid, a, b | IsDefaultOf(options', sid, a) && IsDefaultOf(options', sid, b)
      ensures a == b
    {
      assert a != id ==> IsDefaultOf(options, sid, a);
      assert b != id ==> IsDefaultOf(options, sid, b);
    }
  }

  lemma CreateOptionSound(db: Db, serviceId: Id, id: Id, d: OptionDraft)
    requires Sound(db) && AfterCreateOption(db, serviceId, id, d).Ok?
    ensures Sound(AfterCreateOption(db, serviceId, id, d).value)
  {
    var others := if d.isDefault then UnsetDefault(db.options, serviceId, {}) else db.options;
    UnsetDefaultClears(db.options, serviceId, {});
    PutKeepsDefaults(others, id, OptionRow(serviceId, d.caption, d.terms, d.isDefault, d.sortOrder));
  }

  lemma UpdateOptionSound(db: Db, serviceId: Id, id: Id, p: OptionPatch)
    requires Sound(db) && AfterUpdateOption(db, serviceId, id, p).Ok?
    ensures Sound(AfterUpdateOption(db, serviceId, id, p).value)
  {
    var row := db.options[id];
    var unset := p.isDefault == Some(true) && !row.isDefault;
    var others := if unset then UnsetDefault(db.options, serviceId, {id}) else db.options;
    UnsetDefaultClears(db.options, serviceId, {id});
    assert row.isDefault ==> IsDefaultOf(db.options, serviceId, id);
    PutKeepsDefaults(others, id, Patched(row, p));
  }

  lemma OptionSubsetSound(options: map<Id, OptionRow>, fewer: map<Id, OptionRow>)
    requires OneDefault(options)
    requires forall id :: id in fewer ==>
               id in options && options[id].serviceId == fewer[id].serviceId && options[id].isDefault == fewer[id].isDefault
    ensures OneDefault(fewer)
  {
    forall sid, a, b | IsDefaultOf(fewer, sid, a) && IsDefaultOf(fewer, sid, b)
      ensures a == b
    {
      assert IsDefaultOf(options, sid, a) && IsDefaultOf(options, sid, b);
    }
  }

  lemma {:induction false} NestedSound(options: map<Id, OptionRow>, sid: Id, ids: seq<Id>, drafts: seq<OptionDraft>)
    requires |ids| == |drafts| && FreshIds(options, ids)
    requires RowsOk(options) && OneDefault(options)
    requires forall id :: id in options ==> options[id].serviceId != sid
    requires forall k :: 0 <= k < |drafts| ==> PayloadOk(drafts[k].terms, drafts[k].sortOrder)
    requires Defaults(drafts) <= 1
    ensures var options' := WithNested(options, sid, ids, drafts);
            && RowsOk(options') && OneDefault(options')
            && (forall id :: id in options' ==> id in options || (id in ids && options'[id].serviceId == sid))
            && (forall id :: id in options ==> id in options' && options'[id] == options[id])
            && (Defaults(drafts) == 0 ==> NoDefault(options', sid))
  {
    if ids != [] {
      var n := |ids| - 1;
      NestedSound(options, sid, ids[..n], drafts[..n]);
      var before, row := WithNested(options, sid, ids[..n], drafts[..n]), NestedRow(sid, drafts[n]);
      PutKeepsDefaults(before, ids[n], row);
      assert Defaults(drafts) == 0 ==> NoDefault(before, sid) && !row.isDefault;
    }
  }

  lemma CreateServiceSound(db: Db, id: Id, s: Service, optionIds: seq<Id>, drafts: seq<OptionDraft>)
    requires Sound(db) && AfterCreateService(db, id, s, optionIds, drafts).Ok?
    ensures Sound(AfterCreateService(db, id, s, optionIds, drafts).value)
  {
    NestedSound(db.options, id, optionIds, drafts);
  }

  predicate OptionWrite(w: Write) {
    w.CreateService? || w.CreateOption? || w.UpdateOption? || w.DeleteOption? || w.ReorderOptions?
  }

  lemma OptionWriteSound(db: Db, w: Write)
    requires Sound(db) && OptionWrite(w) && Apply(db, w).Ok?
    ensures Sound(Apply(db, w).value)
  {
    match w
    case CreateService(id, s, ids, drafts) => CreateServiceSound(db, id, s, ids, drafts);
    case CreateOption(sid, id, d) => CreateOptionSound(db, sid, id, d);
    case UpdateOption(sid, id, p) => UpdateOptionSound(db, sid, id, p);
    case DeleteOption(sid, id) => OptionSubsetSound(db.options, db.options - {id});
    case ReorderOptions(sid, places) => OptionSubsetSound(db.options, ReorderedOptions(db.options, sid, places).0);
  }

  predicate GameWrite(w: Write) {
    w.CreateGame? || w.UpdateGame? || w.DeleteGame? || w.ReorderGames?
  }

  lemma GameWriteSound(db: Db, w: Write)
    requires Sound(db) && GameWrite(w) && Apply(db, w).Ok?
    ensures Sound(Apply(db, w).value)
  {
    hide RowsOk, OneDefault, OptionWrite;
    match w
    case CreateGame(_, _) =>
    case UpdateGame(_, _) =>
    case DeleteGame(_) =>
    case ReorderGames(places) => GamesReordered(db, ReorderedGames(db.games, places).0);
  }

  lemma GamesReordered(db: Db, games: map<Id, Game>)
    requires Sound(db) && games.Keys == db.games.Keys
    requires forall id :: id in games ==>
               games[id].slug == db.games[id].slug && games[id].isDeleted == db.games[id].isDeleted
    ensures Sound(db.(games := games))
  {
    hide RowsOk, OneDefault;
  }

  lemma ServiceWriteSound(db: Db, w: Write)
    requires Sound(db) && !GameWrite(w) && !OptionWrite(w) && Apply(db, w).Ok?
    ensures Sound(Apply(db, w).value)
  {
    hide RowsOk, OneDefault;
    match w
    case UpdateService(_, _) =>
    case ToggleActive(_) =>
    case ToggleFeatured(_) =>
    case DeleteService(_) =>
    case ReorderServices(places) => ServicesReordered(db, ReorderedServices(db.services, places).0);
    case ReviewWrite =>
  }

  lemma ServicesReordered(db: Db, services: map<Id, Service>)
    requires Sound(db) && services.Keys == db.services.Keys
    requires forall id :: id in services ==>
               && services[id].slug == db.services[id].slug && services[id].isDeleted == db.services[id].isDeleted
               && services[id].gameId == db.services[id].gameId
    ensures Sound(db.(services := services))
  {
    hide RowsOk, OneDefault;
  }

  /** Every accepted write keeps the catalogue sound: discounts permitted, at most one default per
      service, no dangling references, live slugs unique. */
  lemma WriteKeepsSound(db: Db, w: Write)
    requires Sound(db)
    ensures Sound(After(db, w))
  {
    hide Sound, Apply, OptionWrite, GameWrite;
    if Apply(db, w).Ok? {
      if OptionWrite(w) { OptionWriteSound(db, w); }
      else if GameWrite(w) { GameWriteSound(db, w); }
      else { ServiceWriteSound(db, w); }
    }
  }

  lemma {:induction false} ReachableIsSound(ws: seq<Write>)
    ensures Sound(AfterAll(EMPTY, ws))
  {
    if ws != [] {
      ReachableIsSound(ws[..|ws| - 1]);
      WriteKeepsSound(AfterAll(EMPTY, ws[..|ws| - 1]), ws[|ws| - 1]);
    }
  }

  /** Hence every price shown or charged from a reachable row lies between zero and the list price,
      within half a cent of the exact discounted price. */
  lemma ReachablePricesAreSafe(ws: seq<Write>, id: Id, code: string)
    requires id in AfterAll(EMPTY, ws).options
    ensures SafelyPriced(AfterAll(EMPTY, ws).options[id].terms, code)
  {
    ReachableIsSound(ws);
    PriceIsSafe(AfterAll(EMPTY, ws).options[id].terms, code);
  }

  // ---- the default price, in the list and in the detail view ----

  /** A service's rows in some order, each once. */
  ghost predicate Enumerates(options: map<Id, OptionRow>, serviceId: Id, ids: seq<Id>) {
    && (forall k :: 0 <= k < |ids| ==> ids[k] in options && options[ids[k]].serviceId == serviceId)
    && (forall id :: id in options && options[id].serviceId == serviceId ==> id in ids)
    && (forall j, k :: 0 <= j < k < |ids| ==> ids[j] != ids[k])
  }

  /** The list view's subquery: the price of any one default row, null if there is none. */
  ghost predicate ListDefaultPrice(options: map<Id, OptionRow>, serviceId: Id, c: Currency, price: Option<int>) {
    match price
    case None => NoDefault(options, serviceId)
    case Some(p) => exists id :: IsDefaultOf(options, serviceId, id) && options[id].terms.Base(c) == p
  }

  function FirstDefault(rows: seq<OptionRow>): Option<OptionRow> {
    if rows == [] then None
    else if rows[0].isDefault then Some(rows[0])
    else FirstDefault(rows[1..])
  }

  /** The detail view: the prices of the first default row, null if there is none. */
  method DetailDefaultPrices(rows: seq<OptionRow>) returns (usd: Option<int>, eur: Option<int>)
    ensures match FirstDefault(rows)
            case None => usd == None && eur == None
            case Some(row) => usd == Some(row.terms.priceUsd) && eur == Some(row.terms.priceEur)
  {
    for i := 0 to |rows|
      invariant FirstDefault(rows) == FirstDefault(rows[i..])
    {
      if rows[i].isDefault {
        return Some(rows[i].terms.priceUsd), Some(rows[i].terms.priceEur);
      }
    }
    return None, None;
  }

  lemma {:induction false} FirstDefaultIsOne(rows: seq<OptionRow>)
    ensures FirstDefault(rows).Some? ==> FirstDefault(rows).value in rows && FirstDefault(rows).value.isDefault
    ensures FirstDefault(rows).None? ==> forall k :: 0 <= k < |rows| ==> !rows[k].isDefault
  {
    if rows != [] {
      FirstDefaultIsOne(rows[1..]);
      assert rows == [rows[0]] + rows[1..];
    }
  }

  /** In a sound catalogue the two views agree, whichever row the subquery picks and in whatever
      order the detail view lists the rows. */
  lemma DefaultPricesAgree(db: Db, serviceId: Id, ids: seq<Id>, rows: seq<OptionRow>, c: Currency, listed: Option<int>)
    requires Sound(db) && Enumerates(db.options, serviceId, ids)
    requires |rows| == |ids| && forall k :: 0 <= k < |ids| ==> rows[k] == db.options[ids[k]]
    requires ListDefaultPrice(db.options, serviceId, c, listed)
    ensures match FirstDefault(rows)
            case None => listed == None
            case Some(row) => listed == Some(row.terms.Base(c))
  {
    FirstDefaultIsOne(rows);
    match FirstDefault(rows) {
      case Some(row) =>
        var k :| 0 <= k < |rows| && rows[k] == row;
        assert IsDefaultOf(db.options, serviceId, ids[k]);
      case None =>
        forall id | id in db.options && db.options[id].serviceId == serviceId
          ensures !db.options[id].isDefault
        {
          var k :| 0 <= k < |ids| && ids[k] == id;
          assert !rows[k].isDefault;
        }
    }
  }
}

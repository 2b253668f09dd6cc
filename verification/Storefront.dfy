/** The public games list, its cache entry, and the catalogue services: each write commits and then
    invalidates. Requests are atomic here and Redis does not fail; the lock protocol is elsewhere. */
module Storefront {
  import opened Wrappers
  import opened Catalogue
  import opened Invalidation

  const GAMES_KEY := "public:games:v1"

  datatype GameCard = GameCard(id: Id, slug: string, name: string, status: GameStatus, serviceCount: nat)

  // ---- the list as the query computes it ----

  ghost predicate Joins(db: Db, gameId: Id, serviceId: Id) {
    && serviceId in db.services && db.services[serviceId].gameId == gameId
    && db.services[serviceId].isActive && !db.services[serviceId].isDeleted
  }

  ghost function Joined(db: Db, gameId: Id): set<Option<Id>> {
    var matching := set s | s in db.services && Joins(db, gameId, s) :: Some(s);
    if matching == {} then {None} else matching
  }

  /** The rows of games left-joined with their countable services: a game without any has one row
      whose service is null. */
  ghost function JoinedRows(db: Db): set<(Id, Option<Id>)> {
    set g, s | g in db.games && s in Joined(db, g) :: (g, s)
  }

  ghost function RowsWhere(db: Db): set<(Id, Option<Id>)> {
    set row | row in JoinedRows(db) && !db.games[row.0].isDeleted && db.games[row.0].status != Hidden
  }

  /** COUNT over the service's key counts the rows of the group where it is not null; keys are distinct. */
  ghost function CountInGroup(rows: set<(Id, Option<Id>)>, gameId: Id): nat {
    |set row | row in rows && row.0 == gameId && row.1.Some? :: row.1.value|
  }

  ghost predicate HasGroup(rows: set<(Id, Option<Id>)>, gameId: Id) {
    exists row :: row in rows && row.0 == gameId
  }

  ghost predicate BeforeInOrder(a: Game, b: Game) {
    a.sortOrder < b.sortOrder || (a.sortOrder == b.sortOrder && a.createdAt <= b.createdAt)
  }

  ghost function CardFor(g: Game, id: Id, count: nat): GameCard {
    GameCard(id, g.slug, g.name, g.status, count)
  }

  ghost predicate Sorted(db: Db, cards: seq<GameCard>)
    requires forall k :: 0 <= k < |cards| ==> cards[k].id in db.games
  {
    forall j, k :: 0 <= j < k < |cards| ==> BeforeInOrder(db.games[cards[j].id], db.games[cards[k].id])
  }

  /** One card for each group of the joined and filtered rows, in sort order; games that tie may come
      in any order. */
  ghost predicate QueryResult(db: Db, cards: seq<GameCard>) {
    var rows := RowsWhere(db);
    && (forall k :: 0 <= k < |cards| ==> cards[k].id in db.games)
    && (forall j, k :: 0 <= j < k < |cards| ==> cards[j].id != cards[k].id)
    && (forall row :: row in rows ==> exists k :: 0 <= k < |cards| && cards[k].id == row.0)
    && (forall k :: 0 <= k < |cards| ==>
          && HasGroup(rows, cards[k].id)
          && cards[k] == CardFor(db.games[cards[k].id], cards[k].id, CountInGroup(rows, cards[k].id)))
    && Sorted(db, cards)
  }

  // ---- the list as it is meant ----

  ghost predicate Visible(db: Db, id: Id) {
    LiveGame(db.games, id) && db.games[id].status != Hidden
  }

  /** The active, not deleted services of a game. */
  ghost function ServicesOf(db: Db, gameId: Id): set<Id> {
    set service | service in db.services && Joins(db, gameId, service)
  }

  ghost function ServiceCount(db: Db, gameId: Id): nat {
    |ServicesOf(db, gameId)|
  }

  /** Every game that is neither deleted nor hidden, once, with its service count, zero included. */
  ghost predicate IsLiveView(db: Db, cards: seq<GameCard>) {
    && (forall k :: 0 <= k < |cards| ==>
          && Visible(db, cards[k].id)
          && cards[k] == CardFor(db.games[cards[k].id], cards[k].id, ServiceCount(db, cards[k].id)))
    && (forall j, k :: 0 <= j < k < |cards| ==> cards[j].id != cards[k].id)
    && (forall id :: Visible(db, id) ==> exists k :: 0 <= k < |cards| && cards[k].id == id)
    && Sorted(db, cards)
  }

  lemma GroupsAreVisibleGames(db: Db, id: Id)
    ensures Visible(db, id) <==> HasGroup(RowsWhere(db), id)
    ensures Visible(db, id) ==> CountInGroup(RowsWhere(db), id) == ServiceCount(db, id)
  {
    if Visible(db, id) {
      var s :| s in Joined(db, id);
      assert (id, s) in JoinedRows(db);
      assert (id, s) in RowsWhere(db);
      var counted := set row | row in RowsWhere(db) && row.0 == id && row.1.Some? :: row.1.value;
      forall service
        ensures service in counted <==> service in db.services && Joins(db, id, service)
      {
        if service in db.services && Joins(db, id, service) {
          assert Some(service) in Joined(db, id);
          assert (id, Some(service)) in JoinedRows(db);
          assert (id, Some(service)) in RowsWhere(db);
        }
      }
      assert counted == set service | service in db.services && Joins(db, id, service);
    }
  }

  lemma LiveViewIsResult(db: Db, cards: seq<GameCard>)
    requires IsLiveView(db, cards)
    ensures QueryResult(db, cards)
  {
    var rows := RowsWhere(db);
    forall k | 0 <= k < |cards|
      ensures HasGroup(rows, cards[k].id)
      ensures cards[k] == CardFor(db.games[cards[k].id], cards[k].id, CountInGroup(rows, cards[k].id))
    {
      GroupsAreVisibleGames(db, cards[k].id);
    }
    forall row | row in rows
      ensures exists k :: 0 <= k < |cards| && cards[k].id == row.0
    {
      assert Visible(db, row.0);
    }
  }

  lemma ResultIsLiveView(db: Db, cards: seq<GameCard>)
    requires QueryResult(db, cards)
    ensures IsLiveView(db, cards)
  {
    forall k | 0 <= k < |cards|
      ensures Visible(db, cards[k].id)
      ensures cards[k] == CardFor(db.games[cards[k].id], cards[k].id, ServiceCount(db, cards[k].id))
    {
      GroupsAreVisibleGames(db, cards[k].id);
    }
    forall id | Visible(db, id)
      ensures exists k :: 0 <= k < |cards| && cards[k].id == id
    {
      GroupsAreVisibleGames(db, id);
      var row :| row in RowsWhere(db) && row.0 == id;
    }
  }

  /** Counting in the join condition keeps games without services: the query returns the live view
      and nothing else. */
  lemma QueryIsLiveView(db: Db, cards: seq<GameCard>)
    ensures QueryResult(db, cards) <==> IsLiveView(db, cards)
  {
    if IsLiveView(db, cards) { LiveViewIsResult(db, cards); }
    if QueryResult(db, cards) { ResultIsLiveView(db, cards); }
  }

  /** The list comes by rising sort order, and of equal ones the older game first. */
  lemma ListIsOrdered(db: Db, cards: seq<GameCard>, j: nat, k: nat)
    requires IsLiveView(db, cards) && j < |cards| && k < |cards|
    requires var a, b := db.games[cards[j].id], db.games[cards[k].id];
             a.sortOrder < b.sortOrder || (a.sortOrder == b.sortOrder && a.createdAt < b.createdAt)
    ensures j < k
  {
  }

  /** So an accepted reorder is what the list then shows: of two games, the one whose last place has the
      smaller sort order comes first. */
  lemma ReorderIsShown(db: Db, places: seq<Place>, cards: seq<GameCard>, j: nat, k: nat, p: nat, q: nat)
    requires Apply(db, ReorderGames(places)).Ok? && IsLiveView(After(db, ReorderGames(places)), cards)
    requires j < |cards| && k < |cards|
    requires IsLastFor(places, cards[j].id, p) && IsLastFor(places, cards[k].id, q)
    requires places[p].sortOrder < places[q].sortOrder
    ensures j < k
  {
    ReorderedGamesMoved(db.games, places);
    var after := After(db, ReorderGames(places));
    var a, b := cards[j].id, cards[k].id;
    assert Visible(after, a) && Visible(after, b);
    assert Names(places, a) && Names(places, b);
    assert after.games[a].sortOrder == places[p].sortOrder && after.games[b].sortOrder == places[q].sortOrder;
    ListIsOrdered(after, cards, j, k);
  }

  /** The query always has a result. */
  lemma SomeQueryResult(db: Db) returns (cards: seq<GameCard>)
    ensures QueryResult(db, cards)
  {
    var visible := set id | id in db.games && Visible(db, id);
    var ids := InOrder(db, visible);
    assert forall k :: 0 <= k < |ids| ==> ids[k] in ids && ids[k] in visible;
    cards := seq(|ids|, k requires 0 <= k < |ids| => CardFor(db.games[ids[k]], ids[k], ServiceCount(db, ids[k])));
    assert IsLiveView(db, cards) by {
      forall id | Visible(db, id)
        ensures exists k :: 0 <= k < |cards| && cards[k].id == id
      {
        assert id in visible;
        var k :| 0 <= k < |ids| && ids[k] == id;
        assert cards[k].id == id;
      }
    }
    QueryIsLiveView(db, cards);
  }

  lemma {:induction false} FirstInOrder(db: Db, ids: set<Id>) returns (first: Id)
    requires ids != {} && ids <= db.games.Keys
    ensures first in ids && forall id :: id in ids ==> BeforeInOrder(db.games[first], db.games[id])
  {
    assert (forall id :: id !in ids) ==> ids == {};
    var pick :| pick in ids;
    var rest := ids - {pick};
    first := pick;
    if rest != {} {
      var other := FirstInOrder(db, rest);
      if !BeforeInOrder(db.games[pick], db.games[other]) {
        first := other;
      }
    }
    forall id | id in ids
      ensures BeforeInOrder(db.games[first], db.games[id])
    {
      if id != pick { assert id in rest; }
    }
  }

  lemma {:induction false} InOrder(db: Db, ids: set<Id>) returns (sorted: seq<Id>)
    requires ids <= db.games.Keys
    ensures forall id :: id in ids <==> id in sorted
    ensures forall j, k :: 0 <= j < k < |sorted| ==>
              sorted[j] != sorted[k] && BeforeInOrder(db.games[sorted[j]], db.games[sorted[k]])
    decreases ids
  {
    if ids == {} {
      sorted := [];
    } else {
      var first := FirstInOrder(db, ids);
      var rest := InOrder(db, ids - {first});
      sorted := [first] + rest;
      forall j, k | 0 <= j < k < |sorted|
        ensures sorted[j] != sorted[k] && BeforeInOrder(db.games[sorted[j]], db.games[sorted[k]])
      {
        assert sorted[k] == rest[k - 1] && rest[k - 1] in rest;
      }
    }
  }

  // ---- the cached list over all runs ----

  datatype Cached = GamesBody(cards: seq<GameCard>) | OtherBody(text: string)

  datatype Site = Site(db: Db, cache: map<string, Cached>)

  /** Requests of any kind: an administrative write, a read of the public list answered with `cards`
      by the query if the cache has no entry, anything stored under another key, an entry expiring. */
  datatype Request =
    | Admin(write: Write)
    | ReadGames(cards: seq<GameCard>)
    | StoreOther(key: string, text: string)
    | Expire(key: string)

  function EntityOf(w: Write): string {
    match w
    case CreateGame(_, _) => "games"
    case UpdateGame(_, _) => "games"
    case DeleteGame(_) => "games"
    case ReorderGames(_) => "games"
    case ReviewWrite => "reviews"
    case _ => "services"
  }

  function AfterWrite(site: Site, w: Write): Site {
    match Apply(site.db, w)
    case Ok(db) => Site(db, Cleared(site.cache, Patterns(EntityOf(w))))
    case Err(_) => site
  }

  ghost function AfterRequest(site: Site, r: Request): Site {
    match r
    case Admin(w) => AfterWrite(site, w)
    case ReadGames(cards) =>
      if GAMES_KEY !in site.cache && QueryResult(site.db, cards)
      then site.(cache := site.cache[GAMES_KEY := GamesBody(cards)]) else site
    case StoreOther(key, text) =>
      if key != GAMES_KEY then site.(cache := site.cache[key := OtherBody(text)]) else site
    case Expire(key) => site.(cache := site.cache - {key})
  }

  ghost function AfterRequests(rs: seq<Request>): Site {
    if rs == [] then Site(EMPTY, map[]) else AfterRequest(AfterRequests(rs[..|rs| - 1]), rs[|rs| - 1])
  }

  /** A cached games list is the live view of the tables as they are now. */
  ghost predicate Coherent(site: Site) {
    GAMES_KEY in site.cache ==>
      site.cache[GAMES_KEY].GamesBody? && IsLiveView(site.db, site.cache[GAMES_KEY].cards)
  }

  lemma GamesKeyIsCleared(cache: map<string, Cached>, w: Write)
    requires w != ReviewWrite
    ensures GAMES_KEY !in Cleared(cache, Patterns(EntityOf(w)))
  {
    var patterns := Patterns(EntityOf(w));
    assert GAMES_PATTERN <= GAMES_KEY;
    assert StartsWith(GAMES_KEY, patterns[|patterns| - 1]);
  }

  lemma RequestKeepsCoherent(site: Site, r: Request)
    requires Coherent(site)
    ensures Coherent(AfterRequest(site, r))
  {
    match r {
      case Admin(w) => if w != ReviewWrite { GamesKeyIsCleared(site.cache, w); }
      case ReadGames(cards) => QueryIsLiveView(site.db, cards);
      case _ =>
    }
  }

  /** In every run of writes to games, services, options and reviews, reads and expiries, the cached
      list equals the live view, and the catalogue below it is sound. */
  lemma {:induction false} CachedGamesAreLive(rs: seq<Request>)
    ensures Coherent(AfterRequests(rs)) && Sound(AfterRequests(rs).db)
  {
    if rs != [] {
      var before := AfterRequests(rs[..|rs| - 1]);
      CachedGamesAreLive(rs[..|rs| - 1]);
      RequestKeepsCoherent(before, rs[|rs| - 1]);
      if rs[|rs| - 1].Admin? {
        WriteKeepsSound(before.db, rs[|rs| - 1].write);
      }
    }
  }
}

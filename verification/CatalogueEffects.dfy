/** What the catalogue's writes mean for whoever reads the tables and the public games list afterwards,
    in terms of the list's own definition. */
module CatalogueEffects {
  import opened Wrappers
  import opened Catalogue
  import opened Invalidation
  import opened Storefront
  import PublicServices

  /** A rejected write changes nothing; an accepted one keeps the catalogue sound and the cache coherent,
      and a write to games, services or options leaves no cached list behind. */
  lemma WriteKeepsSite(site: Site, w: Write)
    requires Sound(site.db) && Coherent(site)
    ensures var after := AfterWrite(site, w);
            && Sound(after.db) && Coherent(after)
            && (Apply(site.db, w).Err? ==> after == site)
            && (Apply(site.db, w).Ok? && w != ReviewWrite ==> GAMES_KEY !in after.cache)
  {
    hide Sound, Coherent, Cleared, Apply;
    WriteKeepsSound(site.db, w);
    RequestKeepsCoherent(site, Admin(w));
    if w != ReviewWrite { GamesKeyIsCleared(site.cache, w); }
  }

  /** The card the list has for a game, if it shows it. */
  ghost function Shown(db: Db, id: Id): Option<GameCard> {
    if Visible(db, id) then Some(CardFor(db.games[id], id, ServiceCount(db, id))) else None
  }

  ghost predicate SameList(before: Db, after: Db) {
    forall id :: Shown(after, id) == Shown(before, id)
  }

  /** The service count of one game moves, every other count and every game stays. */
  ghost predicate CountMoves(before: Db, after: Db, gameId: Id, delta: int) {
    && after.games == before.games
    && forall id :: ServiceCount(after, id) == ServiceCount(before, id) + if id == gameId then delta else 0
  }

  function Countable(s: Service): int {
    if s.isActive && !s.isDeleted then 1 else 0
  }

  /** Of the list only this game's card changes, and becomes the given one. */
  ghost predicate ListedAs(before: Db, after: Db, id: Id, card: Option<GameCard>) {
    Shown(after, id) == card && forall other :: other != id ==> Shown(after, other) == Shown(before, other)
  }

  /** What an accepted write means for whoever reads the tables and the list afterwards. */
  ghost predicate Effect(db: Db, w: Write, after: Db) {
    match w
    case CreateGame(id, g) =>
      ListedAs(db, after, id, if g.status == Hidden then None else Some(GameCard(id, g.slug, g.name, g.status, 0)))
    case UpdateGame(id, _) =>
      && id in after.games
      && ListedAs(db, after, id, if after.games[id].status == Hidden then None
                                 else Some(CardFor(after.games[id], id, ServiceCount(db, id))))
    case DeleteGame(id) => ListedAs(db, after, id, None)
    case CreateService(_, s, _, _) => CountMoves(db, after, s.gameId, if s.isActive then 1 else 0)
    case ToggleActive(id) =>
      id in db.services && CountMoves(db, after, db.services[id].gameId, if db.services[id].isActive then -1 else 1)
    case DeleteService(id) =>
      id in db.services && CountMoves(db, after, db.services[id].gameId, if db.services[id].isActive then -1 else 0)
    case UpdateService(id, _) =>
      id in db.services && id in after.services &&
      CountMoves(db, after, db.services[id].gameId, Countable(after.services[id]) - Countable(db.services[id]))
    case CreateOption(sid, id, d) =>
      SameList(db, after) && (d.isDefault ==> forall k :: IsDefaultOf(after.options, sid, k) <==> k == id)
    case UpdateOption(sid, id, p) =>
      SameList(db, after) && (p.isDefault == Some(true) ==> forall k :: IsDefaultOf(after.options, sid, k) <==> k == id)
    case DeleteOption(_, id) => SameList(db, after) && id !in after.options
    case _ => SameList(db, after)
  }

  lemma PutMovesOneCount(before: Db, after: Db, id: Id, row: Service, g: Id)
    requires after.services == before.services[id := row]
    ensures ServiceCount(after, g) == ServiceCount(before, g)
              + (if row.gameId == g then Countable(row) else 0)
              - (if id in before.services && before.services[id].gameId == g then Countable(before.services[id]) else 0)
  {
    var old', new' := ServicesOf(before, g), ServicesOf(after, g);
    assert old' - {id} == new' - {id};
    assert id in new' <==> row.gameId == g && Countable(row) == 1;
    assert id in old' <==> id in before.services && before.services[id].gameId == g && Countable(before.services[id]) == 1;
    hide ServicesOf;
    Dropped(old', id);
    Dropped(new', id);
  }

  lemma PutMovesCount(before: Db, after: Db, id: Id, row: Service)
    requires after.games == before.games && after.services == before.services[id := row]
    requires id in before.services ==> before.services[id].gameId == row.gameId
    ensures CountMoves(before, after, row.gameId,
                       Countable(row) - if id in before.services then Countable(before.services[id]) else 0)
  {
    hide ServiceCount, Countable;
    forall g
      ensures ServiceCount(after, g) == ServiceCount(before, g) +
              if g == row.gameId then Countable(row) - (if id in before.services then Countable(before.services[id]) else 0) else 0
    {
      PutMovesOneCount(before, after, id, row, g);
    }
  }

  lemma Dropped(s: set<Id>, x: Id)
    ensures |s| == |s - {x}| + if x in s then 1 else 0
  {
    if x in s {
      assert s == (s - {x}) + {x};
    } else {
      assert s == s - {x};
    }
  }

  /** The games list after a service write: the service's own game gains or loses one by whether the
      service counted before and counts now. */
  lemma ServiceWriteMeans(db: Db, w: Write)
    requires Apply(db, w).Ok? && (w.CreateService? || w.ToggleActive? || w.DeleteService? || w.UpdateService?)
    ensures Effect(db, w, After(db, w))
  {
    hide CountMoves, WithNested, Countable;
    var after := After(db, w);
    match w {
      case CreateService(id, s, _, _) => PutMovesCount(db, after, id, s.(isDeleted := false));
      case ToggleActive(id) => PutMovesCount(db, after, id, after.services[id]);
      case DeleteService(id) => PutMovesCount(db, after, id, after.services[id]);
      case UpdateService(id, _) => PutMovesCount(db, after, id, after.services[id]);
      case _ =>
    }
    CountablesOfWrite(db, w);
  }

  lemma CountablesOfWrite(db: Db, w: Write)
    requires Apply(db, w).Ok?
    ensures var after := After(db, w);
            && (w.CreateService? ==> Countable(w.service.(isDeleted := false)) == if w.service.isActive then 1 else 0)
            && (w.ToggleActive? ==> Countable(after.services[w.id]) - Countable(db.services[w.id])
                                    == if db.services[w.id].isActive then -1 else 1)
            && (w.DeleteService? ==> Countable(after.services[w.id]) - Countable(db.services[w.id])
                                     == if db.services[w.id].isActive then -1 else 0)
  {
  }

  lemma SameCounts(before: Db, after: Db)
    requires after.games.Keys == before.games.Keys && after.services.Keys == before.services.Keys
    requires forall g :: g in before.games ==> after.games[g] == before.games[g].(sortOrder := after.games[g].sortOrder)
    requires forall s :: s in before.services ==>
               && after.services[s].gameId == before.services[s].gameId
               && after.services[s].isActive == before.services[s].isActive
               && after.services[s].isDeleted == before.services[s].isDeleted
    ensures SameList(before, after)
  {
    forall id
      ensures Shown(after, id) == Shown(before, id)
    {
      assert ServicesOf(after, id) == ServicesOf(before, id);
    }
  }

  /** Writes the list does not show: options, the featured flag, the sort orders of services and of games
      (a games reorder moves cards and changes none). */
  lemma UnseenWrites(db: Db, w: Write)
    requires Apply(db, w).Ok?
    requires w.ToggleFeatured? || w.ReorderServices? || w.ReorderGames? || w.CreateOption? || w.UpdateOption?
             || w.DeleteOption? || w.ReorderOptions? || w.ReviewWrite?
    ensures SameList(db, After(db, w))
  {
    hide SameList, AfterCreateGame, AfterUpdateGame, AfterDeleteGame, AfterCreateService, AfterUpdateService;
    SameCounts(db, After(db, w));
  }

  lemma {:induction false} NoServicesOf(db: Db, gameId: Id)
    requires Linked(db) && gameId !in db.games
    ensures ServiceCount(db, gameId) == 0
  {
    assert ServicesOf(db, gameId) == {};
  }

  lemma SameServices(before: Db, after: Db)
    requires after.services == before.services
    ensures forall id :: ServiceCount(after, id) == ServiceCount(before, id)
  {
    forall id
      ensures ServiceCount(after, id) == ServiceCount(before, id)
    {
      assert ServicesOf(after, id) == ServicesOf(before, id);
    }
  }

  /** The list after a game write: a new game appears with no services unless it is hidden, a deleted one
      disappears, an updated one keeps its count and appears unless hidden; no other card changes. */
  lemma GameWriteShows(db: Db, w: Write, other: Id)
    requires Sound(db) && Apply(db, w).Ok? && (w.CreateGame? || w.UpdateGame? || w.DeleteGame?)
    ensures var after := After(db, w);
            && (other != w.id ==> Shown(after, other) == Shown(db, other))
            && match w
               case CreateGame(id, g) =>
                 Shown(after, id) == if g.status == Hidden then None else Some(GameCard(id, g.slug, g.name, g.status, 0))
               case UpdateGame(id, p) =>
                 && ServiceCount(after, id) == ServiceCount(db, id)
                 && (Shown(after, id).None? <==> Or(p.status, db.games[id].status) == Hidden)
               case DeleteGame(id) => Shown(after, id) == None
               case _ => true
  {
    hide Sound, RowsOk, OneDefault, SlugsUnique, ServiceCount;
    SameServices(db, After(db, w));
    if w.CreateGame? {
      SoundLinks(db);
      NoServicesOf(db, w.id);
    }
  }

  lemma SoundLinks(db: Db)
    requires Sound(db)
    ensures Linked(db)
  {
  }

  lemma DefaultIsTheOne(db: Db, serviceId: Id, id: Id)
    requires Sound(db) && IsDefaultOf(db.options, serviceId, id)
    ensures forall k :: IsDefaultOf(db.options, serviceId, k) <==> k == id
  {
  }

  lemma OptionWriteMeans(db: Db, w: Write)
    requires Sound(db) && Apply(db, w).Ok? && (w.CreateOption? || w.UpdateOption? || w.DeleteOption? || w.ReorderOptions?)
    ensures Effect(db, w, After(db, w))
  {
    hide Sound, SameList, CountMoves, ListedAs;
    WriteKeepsSound(db, w);
    UnseenWrites(db, w);
    var after := After(db, w);
    match w {
      case CreateOption(sid, id, d) => if d.isDefault { DefaultIsTheOne(after, sid, id); }
      case UpdateOption(sid, id, p) => if p.isDefault == Some(true) { DefaultIsTheOne(after, sid, id); }
      case _ =>
    }
  }

  lemma GameWriteMeans(db: Db, w: Write)
    requires Sound(db) && Apply(db, w).Ok? && (w.CreateGame? || w.UpdateGame? || w.DeleteGame?)
    ensures Effect(db, w, After(db, w))
  {
    hide Sound;
    forall other
      ensures other != w.id ==> Shown(After(db, w), other) == Shown(db, other)
    {
      GameWriteShows(db, w, other);
    }
    GameWriteShows(db, w, w.id);
  }

  lemma SoundSlugs(db: Db)
    requires Sound(db)
    ensures SlugsUnique(db)
  {
  }

  /** What a write leaves cached: a game write clears the games keys, a service or option write the services
      and the games keys, a review write the reviews keys, and no other key. */
  function KeysLeft(cache: map<string, Cached>, w: Write): map<string, Cached> {
    var games := w.CreateGame? || w.UpdateGame? || w.DeleteGame? || w.ReorderGames?;
    map key | key in cache &&
              !(if w.ReviewWrite? then "public:reviews:" <= key
                else "public:games:" <= key || (!games && "public:services:" <= key)) :: cache[key]
  }

  lemma CacheIsCleared(site: Site, w: Write)
    requires Apply(site.db, w).Ok?
    ensures AfterWrite(site, w).cache == KeysLeft(site.cache, w)
  {
    hide Apply;
    ClearedMeans(site.cache, EntityOf(w));
  }

  /** No answer of the services endpoints survives an accepted service or option write, for whatever query
      or slug it was stored. */
  lemma ServicesKeysGo(site: Site, w: Write, token: PublicServices.Token, q: PublicServices.Query, slug: string)
    requires Apply(site.db, w).Ok? && !GameWrite(w) && !w.ReviewWrite?
    ensures PublicServices.ListKey(token, q) !in AfterWrite(site, w).cache
    ensures PublicServices.SlugKey(slug) !in AfterWrite(site, w).cache
  {
    CacheIsCleared(site, w);
    hide Apply, PublicServices.FilterFields;
    var list, one := PublicServices.ListKey(token, q), PublicServices.SlugKey(slug);
    assert "public:services:v1:" <= list && "public:services:v1:" <= one;
    assert "public:services:" <= "public:services:v1:";
    assert "public:services:" <= list && "public:services:" <= one;
  }

  lemma WriteMeans(site: Site, w: Write)
    requires Sound(site.db) && Coherent(site)
    ensures var after := AfterWrite(site, w);
            && Sound(after.db) && Coherent(after)
            && (Apply(site.db, w).Err? ==> after == site)
            && (Apply(site.db, w).Ok? && w != ReviewWrite ==> GAMES_KEY !in after.cache)
            && Answered(site.db, w)
            && (Apply(site.db, w).Ok? ==>
                  && Effect(site.db, w, after.db) && Stores(site.db, w, after.db)
                  && after.cache == KeysLeft(site.cache, w))
  {
    hide Coherent, Apply, CountMoves, SameList, ListedAs, Stores, IsClearedBy, KeysLeft;
    SoundSlugs(site.db);
    AnsweredRightly(site.db, w);
    hide Sound, Answered;
    WriteKeepsSite(site, w);
    if Apply(site.db, w).Ok? {
      CacheIsCleared(site, w);
      WriteStores(site.db, w);
    }
    if Apply(site.db, w).Ok? {
      match w
      case CreateGame(_, _) => GameWriteMeans(site.db, w);
      case UpdateGame(_, _) => GameWriteMeans(site.db, w);
      case DeleteGame(_) => GameWriteMeans(site.db, w);
      case CreateService(_, _, _, _) => ServiceWriteMeans(site.db, w);
      case UpdateService(_, _) => ServiceWriteMeans(site.db, w);
      case ToggleActive(_) => ServiceWriteMeans(site.db, w);
      case DeleteService(_) => ServiceWriteMeans(site.db, w);
      case CreateOption(_, _, _) => OptionWriteMeans(site.db, w);
      case UpdateOption(_, _, _) => OptionWriteMeans(site.db, w);
      case DeleteOption(_, _) => OptionWriteMeans(site.db, w);
      case ReorderOptions(_, _) => OptionWriteMeans(site.db, w);
      case _ => UnseenWrites(site.db, w);
    }
  }
}

/** The game, service and option services as objects over the tables: rows change step by step, a
    rejected request is rolled back, an accepted one is committed and then invalidates the cache.
    Each method is proved to do to tables and cache what `Storefront.AfterWrite` says, to keep the
    catalogue sound and the cached games list live, and to change the list as its request should. */
module CatalogueServices {
  import opened Wrappers
  import opened Money
  import opened Catalogue
  import opened Invalidation
  import opened Storefront
  import opened CatalogueEffects

  function Rejection(db: Db, w: Write): Option<Error> {
    match Apply(db, w)
    case Ok(_) => None
    case Err(e) => Some(e)
  }

  class Tables {
    var games: map<Id, Game>
    var services: map<Id, Service>
    var options: map<Id, OptionRow>
    var cache: map<string, Cached>

    function Rows(): Db
      reads this
    {
      Db(games, services, options)
    }

    function State(): Site
      reads this
    {
      Site(Rows(), cache)
    }

    /** The catalogue is sound, and a cached games list is the live one. */
    ghost predicate Valid()
      reads this
    {
      Sound(Rows()) && Coherent(State())
    }

    constructor ()
      ensures Valid() && State() == Site(EMPTY, map[])
    {
      games, services, options, cache := map[], map[], map[], map[];
      new;
      ReachableIsSound([]);
    }

    method Invalidate(entity: string)
      modifies this`cache
      ensures cache == Cleared(old(cache), Patterns(entity))
    {
      cache := Cleared(cache, Patterns(entity));
    }

    // ---- options ----

    method UnsetDefaultRows(serviceId: Id, exclude: set<Id>)
      modifies this`options
      ensures options == UnsetDefault(old(options), serviceId, exclude)
      ensures forall k :: IsDefaultOf(options, serviceId, k) <==> IsDefaultOf(old(options), serviceId, k) && k in exclude
      ensures forall sid, k :: sid != serviceId ==> (IsDefaultOf(options, sid, k) <==> IsDefaultOf(old(options), sid, k))
    {
      options := map id | id in options ::
        var row := options[id];
        if row.serviceId == serviceId && row.isDefault && id !in exclude then row.(isDefault := false) else row;
    }

    method CreateOptionRow(serviceId: Id, id: Id, draft: OptionDraft) returns (error: Option<Error>)
      requires Valid()
      modifies this
      ensures Valid()
      ensures State() == AfterWrite(old(State()), CreateOption(serviceId, id, draft))
      ensures error == Rejection(old(Rows()), CreateOption(serviceId, id, draft))
      ensures if error.None? then Accepted(old(Rows()), CreateOption(serviceId, id, draft)) else RefusedFor(old(Rows()), CreateOption(serviceId, id, draft), error.value)
      ensures error.None? ==> Stores(old(Rows()), CreateOption(serviceId, id, draft), Rows()) && cache == KeysLeft(old(cache), CreateOption(serviceId, id, draft))
      ensures error.Some? ==> State() == old(State())
      ensures error.None? ==> GAMES_KEY !in cache
      ensures error.None? && draft.isDefault ==> forall k :: IsDefaultOf(options, serviceId, k) <==> k == id
    {
      hide Sound, Coherent, CountMoves, SameList, Stores, Accepted, RefusedFor, KeysLeft;
      WriteMeans(State(), CreateOption(serviceId, id, draft));
      if !PayloadOk(draft.terms, draft.sortOrder) { return Some(InvalidPayload); }
      if !LiveService(services, serviceId) { return Some(NotFound); }
      var committed := options;
      if draft.isDefault {
        UnsetDefaultRows(serviceId, {});
      }
      if id in options {
        options := committed;
        return Some(DuplicateKey);
      }
      options := options[id := OptionRow(serviceId, draft.caption, draft.terms, draft.isDefault, draft.sortOrder)];
      Invalidate("services");
      return None;
    }

    method UpdateOptionRow(serviceId: Id, id: Id, patch: OptionPatch) returns (error: Option<Error>)
      requires Valid()
      modifies this
      ensures Valid()
      ensures State() == AfterWrite(old(State()), UpdateOption(serviceId, id, patch))
      ensures error == Rejection(old(Rows()), UpdateOption(serviceId, id, patch))
      ensures if error.None? then Accepted(old(Rows()), UpdateOption(serviceId, id, patch)) else RefusedFor(old(Rows()), UpdateOption(serviceId, id, patch), error.value)
      ensures error.None? ==> Stores(old(Rows()), UpdateOption(serviceId, id, patch), Rows()) && cache == KeysLeft(old(cache), UpdateOption(serviceId, id, patch))
      ensures error.Some? ==> State() == old(State())
      ensures error.None? ==> GAMES_KEY !in cache
      ensures error.None? && patch.isDefault == Some(true) ==> forall k :: IsDefaultOf(options, serviceId, k) <==> k == id
    {
      hide Sound, Coherent, CountMoves, SameList, Stores, Accepted, RefusedFor, KeysLeft;
      WriteMeans(State(), UpdateOption(serviceId, id, patch));
      if !PatchOk(patch) { return Some(InvalidPayload); }
      if id !in options || options[id].serviceId != serviceId { return Some(NotFound); }
      var committed := options;
      var row := options[id];
      if patch.isDefault == Some(true) && !row.isDefault {
        UnsetDefaultRows(serviceId, {id});
      }
      row := AssignOptionFields(row, patch);
      options := options[id := row];
      var merged := ValidateDiscountCombination(row.terms.percent, row.terms.amountUsd, row.terms.amountEur);
      if merged.Err? {
        options := committed;
        return Some(InvalidDiscount(merged.error));
      }
      Invalidate("services");
      return None;
    }

    /** Plain fields are assigned when not null, discount fields when they were sent. */
    static method AssignOptionFields(current: OptionRow, patch: OptionPatch) returns (row: OptionRow)
      ensures row == Patched(current, patch)
    {
      row := current;
      if patch.caption.Some? { row := row.(caption := patch.caption.value); }
      if patch.isDefault.Some? { row := row.(isDefault := patch.isDefault.value); }
      if patch.sortOrder.Some? { row := row.(sortOrder := patch.sortOrder.value); }
      var terms := row.terms;
      if patch.priceUsd.Some? { terms := terms.(priceUsd := patch.priceUsd.value); }
      if patch.priceEur.Some? { terms := terms.(priceEur := patch.priceEur.value); }
      if patch.percent.Sent? { terms := terms.(percent := patch.percent.value); }
      if patch.amountUsd.Sent? { terms := terms.(amountUsd := patch.amountUsd.value); }
      if patch.amountEur.Sent? { terms := terms.(amountEur := patch.amountEur.value); }
      row := row.(terms := terms);
    }

    method DeleteOptionRow(serviceId: Id, id: Id) returns (error: Option<Error>)
      requires Valid()
      modifies this
      ensures Valid()
      ensures State() == AfterWrite(old(State()), DeleteOption(serviceId, id))
      ensures error == Rejection(old(Rows()), DeleteOption(serviceId, id))
      ensures if error.None? then Accepted(old(Rows()), DeleteOption(serviceId, id)) else RefusedFor(old(Rows()), DeleteOption(serviceId, id), error.value)
      ensures error.None? ==> Stores(old(Rows()), DeleteOption(serviceId, id), Rows()) && cache == KeysLeft(old(cache), DeleteOption(serviceId, id))
      ensures error.Some? ==> State() == old(State())
      ensures error.None? ==> GAMES_KEY !in cache
      ensures error.None? ==> id !in options && SameList(old(Rows()), Rows())
    {
      hide Sound, Coherent, CountMoves, SameList, Stores, Accepted, RefusedFor, KeysLeft;
      WriteMeans(State(), DeleteOption(serviceId, id));
      if id !in options || options[id].serviceId != serviceId { return Some(NotFound); }
      options := options - {id};
      Invalidate("services");
      return None;
    }

    method UpdateOptionSortOrders(serviceId: Id, places: seq<Place>) returns (updated: nat)
      modifies this`options
      ensures (options, updated) == ReorderedOptions(old(options), serviceId, places)
      ensures OptionsMoved(old(options), serviceId, places, options, updated)
    {
      ReorderedOptionsMoved(options, serviceId, places);
      assert ReorderedOptions(options, serviceId, []) == (options, 0);
      assert places[..0] == [] && places[..|places|] == places;
      hide OptionsMoved, ReorderedOptions;
      updated := 0;
      for i := 0 to |places|
        invariant (options, updated) == ReorderedOptions(old(options), serviceId, places[..i])
      {
        var p := places[i];
        ReorderedOptionsOneMore(old(options), serviceId, places, i);
        if p.id in options && options[p.id].serviceId == serviceId {
          options := options[p.id := options[p.id].(sortOrder := p.sortOrder)];
          updated := updated + 1;
        }
      }
    }

    method ReorderOptionRows(serviceId: Id, places: seq<Place>) returns (updated: nat, error: Option<Error>)
      requires Valid()
      modifies this
      ensures Valid()
      ensures State() == AfterWrite(old(State()), ReorderOptions(serviceId, places))
      ensures error == Rejection(old(Rows()), ReorderOptions(serviceId, places))
      ensures if error.None? then Accepted(old(Rows()), ReorderOptions(serviceId, places)) else RefusedFor(old(Rows()), ReorderOptions(serviceId, places), error.value)
      ensures error.None? ==> Stores(old(Rows()), ReorderOptions(serviceId, places), Rows()) && cache == KeysLeft(old(cache), ReorderOptions(serviceId, places))
      ensures error == None ==> OptionsMoved(old(options), serviceId, places, options, updated)
      ensures error.Some? ==> State() == old(State())
      ensures error.None? ==> GAMES_KEY !in cache
      ensures error.None? ==> SameList(old(Rows()), Rows())
    {
      hide Sound, Coherent, CountMoves, SameList, Stores, Accepted, RefusedFor, KeysLeft;
      WriteMeans(State(), ReorderOptions(serviceId, places));
      hide OptionsMoved, Cleared;
      updated := 0;
      if places == [] || exists k :: 0 <= k < |places| && places[k].sortOrder < 0 { return 0, Some(InvalidPayload); }
      if !LiveService(services, serviceId) { return 0, Some(NotFound); }
      updated := UpdateOptionSortOrders(serviceId, places);
      if updated == 0 { return 0, Some(NotFound); }
      Invalidate("services");
      return updated, None;
    }

    // ---- services ----

    method InsertNestedRows(id: Id, optionIds: seq<Id>, drafts: seq<OptionDraft>)
      requires |optionIds| == |drafts|
      modifies this`options
      ensures options == WithNested(old(options), id, optionIds, drafts)
    {
      for i := 0 to |drafts|
        invariant options == WithNested(old(options), id, optionIds[..i], drafts[..i])
      {
        assert optionIds[..i + 1][..i] == optionIds[..i] && drafts[..i + 1][..i] == drafts[..i];
        var d := drafts[i];
        options := options[optionIds[i] :=
          OptionRow(id, d.caption, Terms(d.terms.priceUsd, d.terms.priceEur, None, None, None), d.isDefault, d.sortOrder)];
      }
      assert optionIds[..|drafts|] == optionIds && drafts[..|drafts|] == drafts;
    }

    method CreateServiceRow(id: Id, service: Service, optionIds: seq<Id>, drafts: seq<OptionDraft>) returns (error: Option<Error>)
      requires Valid()
      modifies this
      ensures Valid()
      ensures State() == AfterWrite(old(State()), CreateService(id, service, optionIds, drafts))
      ensures error == Rejection(old(Rows()), CreateService(id, service, optionIds, drafts))
      ensures if error.None? then Accepted(old(Rows()), CreateService(id, service, optionIds, drafts)) else RefusedFor(old(Rows()), CreateService(id, service, optionIds, drafts), error.value)
      ensures error.None? ==> Stores(old(Rows()), CreateService(id, service, optionIds, drafts), Rows()) && cache == KeysLeft(old(cache), CreateService(id, service, optionIds, drafts))
      ensures error.Some? ==> State() == old(State())
      ensures error.None? ==> GAMES_KEY !in cache
      ensures error.None? ==> CountMoves(old(Rows()), Rows(), service.gameId, if service.isActive then 1 else 0)
    {
      hide Sound, Coherent, CountMoves, SameList, Stores, Accepted, RefusedFor, KeysLeft;
      WriteMeans(State(), CreateService(id, service, optionIds, drafts));
      if service.sortOrder < 0 || !DraftsOk(drafts) { return Some(InvalidPayload); }
      if ServiceSlugTaken(services, service.slug, {}) { return Some(Conflict); }
      if !LiveGame(games, service.gameId) { return Some(NotFound); }
      if id in services || |optionIds| != |drafts| || !FreshIds(options, optionIds) { return Some(DuplicateKey); }
      services := services[id := service.(isDeleted := false)];
      InsertNestedRows(id, optionIds, drafts);
      Invalidate("services");
      return None;
    }

    method UpdateServiceRow(id: Id, patch: ServicePatch) returns (error: Option<Error>)
      requires Valid()
      modifies this
      ensures Valid()
      ensures State() == AfterWrite(old(State()), UpdateService(id, patch))
      ensures error == Rejection(old(Rows()), UpdateService(id, patch))
      ensures if error.None? then Accepted(old(Rows()), UpdateService(id, patch)) else RefusedFor(old(Rows()), UpdateService(id, patch), error.value)
      ensures error.None? ==> Stores(old(Rows()), UpdateService(id, patch), Rows()) && cache == KeysLeft(old(cache), UpdateService(id, patch))
      ensures error.Some? ==> State() == old(State())
      ensures error.None? ==> GAMES_KEY !in cache
      ensures error.None? ==>
                CountMoves(old(Rows()), Rows(), old(services)[id].gameId,
                           Countable(services[id]) - Countable(old(services)[id]))
    {
      hide Sound, Coherent, CountMoves, SameList, Stores, Accepted, RefusedFor, KeysLeft;
      WriteMeans(State(), UpdateService(id, patch));
      if patch.sortOrder.Some? && patch.sortOrder.value < 0 { return Some(InvalidPayload); }
      if !LiveService(services, id) { return Some(NotFound); }
      var row := services[id];
      if patch.slug.Some? && patch.slug.value != row.slug {
        if ServiceSlugTaken(services, patch.slug.value, {id}) { return Some(Conflict); }
      }
      row := AssignServiceFields(row, patch);
      services := services[id := row];
      Invalidate("services");
      return None;
    }

    static method AssignServiceFields(current: Service, patch: ServicePatch) returns (row: Service)
      ensures row == PatchedService(current, patch)
    {
      row := current;
      if patch.slug.Some? && patch.slug.value != row.slug { row := row.(slug := patch.slug.value); }
      if patch.title.Some? { row := row.(title := patch.title.value); }
      if patch.isFeatured.Some? { row := row.(isFeatured := patch.isFeatured.value); }
      if patch.sortOrder.Some? { row := row.(sortOrder := patch.sortOrder.value); }
      if patch.isActive.Some? { row := row.(isActive := patch.isActive.value); }
    }

    method ToggleServiceActive(id: Id) returns (error: Option<Error>)
      requires Valid()
      modifies this
      ensures Valid()
      ensures State() == AfterWrite(old(State()), ToggleActive(id))
      ensures error == Rejection(old(Rows()), ToggleActive(id))
      ensures if error.None? then Accepted(old(Rows()), ToggleActive(id)) else RefusedFor(old(Rows()), ToggleActive(id), error.value)
      ensures error.None? ==> Stores(old(Rows()), ToggleActive(id), Rows()) && cache == KeysLeft(old(cache), ToggleActive(id))
      ensures error.Some? ==> State() == old(State())
      ensures error.None? ==> GAMES_KEY !in cache
      ensures error.None? ==>
                var row := old(services)[id]; CountMoves(old(Rows()), Rows(), row.gameId, if row.isActive then -1 else 1)
    {
      hide Sound, Coherent, CountMoves, SameList, Stores, Accepted, RefusedFor, KeysLeft;
      WriteMeans(State(), ToggleActive(id));
      if !LiveService(services, id) { return Some(NotFound); }
      services := services[id := services[id].(isActive := !services[id].isActive)];
      Invalidate("services");
      return None;
    }

    method ToggleServiceFeatured(id: Id) returns (error: Option<Error>)
      requires Valid()
      modifies this
      ensures Valid()
      ensures State() == AfterWrite(old(State()), ToggleFeatured(id))
      ensures error == Rejection(old(Rows()), ToggleFeatured(id))
      ensures if error.None? then Accepted(old(Rows()), ToggleFeatured(id)) else RefusedFor(old(Rows()), ToggleFeatured(id), error.value)
      ensures error.None? ==> Stores(old(Rows()), ToggleFeatured(id), Rows()) && cache == KeysLeft(old(cache), ToggleFeatured(id))
      ensures error.Some? ==> State() == old(State())
      ensures error.None? ==> GAMES_KEY !in cache
      ensures error.None? ==> SameList(old(Rows()), Rows())
    {
      hide Sound, Coherent, CountMoves, SameList, Stores, Accepted, RefusedFor, KeysLeft;
      WriteMeans(State(), ToggleFeatured(id));
      if !LiveService(services, id) { return Some(NotFound); }
      services := services[id := services[id].(isFeatured := !services[id].isFeatured)];
      Invalidate("services");
      return None;
    }

    method SoftDeleteService(id: Id) returns (error: Option<Error>)
      requires Valid()
      modifies this
      ensures Valid()
      ensures State() == AfterWrite(old(State()), DeleteService(id))
      ensures error == Rejection(old(Rows()), DeleteService(id))
      ensures if error.None? then Accepted(old(Rows()), DeleteService(id)) else RefusedFor(old(Rows()), DeleteService(id), error.value)
      ensures error.None? ==> Stores(old(Rows()), DeleteService(id), Rows()) && cache == KeysLeft(old(cache), DeleteService(id))
      ensures error.Some? ==> State() == old(State())
      ensures error.None? ==> GAMES_KEY !in cache
      ensures error.None? ==>
                var row := old(services)[id]; CountMoves(old(Rows()), Rows(), row.gameId, if row.isActive then -1 else 0)
    {
      hide Sound, Coherent, CountMoves, SameList, Stores, Accepted, RefusedFor, KeysLeft;
      WriteMeans(State(), DeleteService(id));
      if !LiveService(services, id) { return Some(NotFound); }
      var row := services[id];
      row := row.(isDeleted := true);
      row := row.(isActive := false);
      services := services[id := row];
      Invalidate("services");
      return None;
    }

    method UpdateServiceSortOrders(places: seq<Place>) returns (updated: nat)
      modifies this`services
      ensures (services, updated) == ReorderedServices(old(services), places)
      ensures ServicesMoved(old(services), places, services, updated)
    {
      ReorderedServicesMoved(services, places);
      hide ServicesMoved;
      updated := 0;
      for i := 0 to |places|
        invariant (services, updated) == ReorderedServices(old(services), places[..i])
      {
        var p := places[i];
        assert places[..i + 1][..i] == places[..i];
        if LiveService(services, p.id) {
          services := services[p.id := services[p.id].(sortOrder := p.sortOrder)];
          updated := updated + 1;
        }
      }
      assert places[..|places|] == places;
    }

    method ReorderServiceRows(places: seq<Place>) returns (updated: nat, error: Option<Error>)
      requires Valid()
      modifies this
      ensures Valid()
      ensures State() == AfterWrite(old(State()), ReorderServices(places))
      ensures error == Rejection(old(Rows()), ReorderServices(places))
      ensures if error.None? then Accepted(old(Rows()), ReorderServices(places)) else RefusedFor(old(Rows()), ReorderServices(places), error.value)
      ensures error.None? ==> Stores(old(Rows()), ReorderServices(places), Rows()) && cache == KeysLeft(old(cache), ReorderServices(places))
      ensures error == None ==> ServicesMoved(old(services), places, services, updated)
      ensures error.Some? ==> State() == old(State())
      ensures error.None? ==> GAMES_KEY !in cache
      ensures error.None? ==> SameList(old(Rows()), Rows())
    {
      hide Sound, Coherent, CountMoves, SameList, Stores, Accepted, RefusedFor, KeysLeft;
      WriteMeans(State(), ReorderServices(places));
      hide ServicesMoved, Cleared;
      updated := 0;
      if places == [] || exists k :: 0 <= k < |places| && places[k].sortOrder < 0 { return 0, Some(InvalidPayload); }
      updated := UpdateServiceSortOrders(places);
      if updated == 0 { return 0, Some(NotFound); }
      Invalidate("services");
      return updated, None;
    }

    // ---- games ----

    method CreateGameRow(id: Id, game: Game) returns (error: Option<Error>)
      requires Valid()
      modifies this
      ensures Valid()
      ensures State() == AfterWrite(old(State()), CreateGame(id, game))
      ensures error == Rejection(old(Rows()), CreateGame(id, game))
      ensures if error.None? then Accepted(old(Rows()), CreateGame(id, game)) else RefusedFor(old(Rows()), CreateGame(id, game), error.value)
      ensures error.None? ==> Stores(old(Rows()), CreateGame(id, game), Rows()) && cache == KeysLeft(old(cache), CreateGame(id, game))
      ensures error.Some? ==> State() == old(State())
      ensures error.None? ==> GAMES_KEY !in cache
      ensures error.None? ==> ListedAs(old(Rows()), Rows(), id,
                if game.status == Hidden then None else Some(GameCard(id, game.slug, game.name, game.status, 0)))
    {
      hide Sound, Coherent, CountMoves, SameList, Stores, Accepted, RefusedFor, KeysLeft;
      WriteMeans(State(), CreateGame(id, game));
      if game.sortOrder < 0 { return Some(InvalidPayload); }
      if GameSlugTaken(games, game.slug, {}) { return Some(Conflict); }
      if id in games { return Some(DuplicateKey); }
      games := games[id := game.(isDeleted := false)];
      Invalidate("games");
      return None;
    }

    method UpdateGameRow(id: Id, patch: GamePatch) returns (error: Option<Error>)
      requires Valid()
      modifies this
      ensures Valid()
      ensures State() == AfterWrite(old(State()), UpdateGame(id, patch))
      ensures error == Rejection(old(Rows()), UpdateGame(id, patch))
      ensures if error.None? then Accepted(old(Rows()), UpdateGame(id, patch)) else RefusedFor(old(Rows()), UpdateGame(id, patch), error.value)
      ensures error.None? ==> Stores(old(Rows()), UpdateGame(id, patch), Rows()) && cache == KeysLeft(old(cache), UpdateGame(id, patch))
      ensures error.Some? ==> State() == old(State())
      ensures error.None? ==> GAMES_KEY !in cache
      ensures error.None? ==> ListedAs(old(Rows()), Rows(), id,
                if games[id].status == Hidden then None
                else Some(CardFor(games[id], id, ServiceCount(old(Rows()), id))))
    {
      hide Sound, Coherent, CountMoves, SameList, Stores, Accepted, RefusedFor, KeysLeft;
      WriteMeans(State(), UpdateGame(id, patch));
      if patch.sortOrder.Some? && patch.sortOrder.value < 0 { return Some(InvalidPayload); }
      if !LiveGame(games, id) { return Some(NotFound); }
      var row := games[id];
      if patch.slug.Some? && patch.slug.value != row.slug {
        if GameSlugTaken(games, patch.slug.value, {id}) { return Some(Conflict); }
      }
      row := AssignGameFields(row, patch);
      games := games[id := row];
      Invalidate("games");
      return None;
    }

    static method AssignGameFields(current: Game, patch: GamePatch) returns (row: Game)
      ensures row == PatchedGame(current, patch)
    {
      row := current;
      if patch.slug.Some? && patch.slug.value != row.slug { row := row.(slug := patch.slug.value); }
      if patch.name.Some? { row := row.(name := patch.name.value); }
      if patch.sortOrder.Some? { row := row.(sortOrder := patch.sortOrder.value); }
      if patch.status.Some? { row := row.(status := patch.status.value); }
    }

    method SoftDeleteGame(id: Id) returns (error: Option<Error>)
      requires Valid()
      modifies this
      ensures Valid()
      ensures State() == AfterWrite(old(State()), DeleteGame(id))
      ensures error == Rejection(old(Rows()), DeleteGame(id))
      ensures if error.None? then Accepted(old(Rows()), DeleteGame(id)) else RefusedFor(old(Rows()), DeleteGame(id), error.value)
      ensures error.None? ==> Stores(old(Rows()), DeleteGame(id), Rows()) && cache == KeysLeft(old(cache), DeleteGame(id))
      ensures error.Some? ==> State() == old(State())
      ensures error.None? ==> GAMES_KEY !in cache
      ensures error.None? ==> ListedAs(old(Rows()), Rows(), id, None)
    {
      hide Sound, Coherent, CountMoves, SameList, Stores, Accepted, RefusedFor, KeysLeft;
      WriteMeans(State(), DeleteGame(id));
      if !LiveGame(games, id) { return Some(NotFound); }
      var row := games[id];
      row := row.(isDeleted := true);
      row := row.(status := Hidden);
      games := games[id := row];
      Invalidate("games");
      return None;
    }

    method UpdateGameSortOrders(places: seq<Place>) returns (updated: nat)
      modifies this`games
      ensures (games, updated) == ReorderedGames(old(games), places)
      ensures GamesMoved(old(games), places, games, updated)
    {
      ReorderedGamesMoved(games, places);
      hide GamesMoved;
      updated := 0;
      for i := 0 to |places|
        invariant (games, updated) == ReorderedGames(old(games), places[..i])
      {
        var p := places[i];
        assert places[..i + 1][..i] == places[..i];
        if LiveGame(games, p.id) {
          games := games[p.id := games[p.id].(sortOrder := p.sortOrder)];
          updated := updated + 1;
        }
      }
      assert places[..|places|] == places;
    }

    method ReorderGameRows(places: seq<Place>) returns (updated: nat, error: Option<Error>)
      requires Valid()
      modifies this
      ensures Valid()
      ensures State() == AfterWrite(old(State()), ReorderGames(places))
      ensures error == Rejection(old(Rows()), ReorderGames(places))
      ensures if error.None? then Accepted(old(Rows()), ReorderGames(places)) else RefusedFor(old(Rows()), ReorderGames(places), error.value)
      ensures error.None? ==> Stores(old(Rows()), ReorderGames(places), Rows()) && cache == KeysLeft(old(cache), ReorderGames(places))
      ensures error == None ==> GamesMoved(old(games), places, games, updated)
      ensures error.Some? ==> State() == old(State())
      ensures error.None? ==> GAMES_KEY !in cache
      ensures error.None? ==> SameList(old(Rows()), Rows())
    {
      hide Sound, Coherent, CountMoves, SameList, Stores, Accepted, RefusedFor, KeysLeft;
      WriteMeans(State(), ReorderGames(places));
      hide GamesMoved, Cleared;
      updated := 0;
      if places == [] || exists k :: 0 <= k < |places| && places[k].sortOrder < 0 { return 0, Some(InvalidPayload); }
      updated := UpdateGameSortOrders(places);
      if updated == 0 { return 0, Some(NotFound); }
      Invalidate("games");
      return updated, None;
    }
  }
}

# The nanoboost backend, modelled and proved in Dafny

This project models the stateful core of the backend and proves what it keeps over every run:

- the **stampede-protected cache**: any number of callers interleaved command by command with lock
  expiry, lost replies, crashes, source writes and invalidations (`CacheProtocol`, `CacheLock`,
  `CacheAnswers`, `CacheRuns`), the helpers themselves with their poll loop and release
  (`CacheHelpers`), invalidation by pattern (`Invalidation`), the public games list and its cache
  entry (`Storefront`), and the keys and pages of the services endpoints (`PublicServices`);
- the **rate limiter** over all timed interleavings of INCR and EXPIRE (`RateLimit`, `Redis`);
- the **order lifecycle** under its four writers (`Orders`, `OrderServices`), webhook deliveries both
  serial and split into read and commit (`Webhooks`, `Payments`);
- the **order-number allocator** under concurrent transactions (`OrderNumbers`, `Text`);
- **money**: rounding and discounts (`Money`), totals (`Totals`), order creation with its frozen
  snapshots (`Checkout`, `OrderCreation`), and the catalogue whose rows prices are read from
  (`Catalogue`, `CatalogueEffects`, `CatalogueServices`);
- the **dashboard's** aggregates and gap-filling revenue chart (`Dashboard`).

Code that changes state is a class whose methods assign fields step by step; each method is proved
equal to a function on values, and the properties over runs are lemmas about those functions.
`dafny verify dfyconfig.toml` checks everything.

## Conventions and assumptions

- Amounts are integer cents, percentages thousandths of a percent. `quantize` is roundTiesToEven of
  section 4.3.1 of IEEE 754-2008; the schemas' digit limits keep everything before it exact.
- Redis time is in milliseconds on one clock; each Redis command is atomic, and a command that fails
  in its caller's eyes may or may not have taken effect. Owner tokens of lock holders are distinct.
- Days are UTC days; strings compare by bytes.
- The read inside a `build` is one step: it sees one state of the source.
- Orders, catalogue writes and the games list are modelled with requests served one at a time, except
  where a lemma says otherwise (`OrderNumbers`, the second half of `Webhooks`, all of the cache
  protocol). There is no row lock on orders, so without that assumption transitions are not safe:
  `Webhooks.PaymentFollowsTable` and `Webhooks.TwoEventsPayOneOrder`.
- Platform and slug patterns hold, as the endpoint's parameter patterns demand. Of a search token only
  its alphabet is assumed.
- Columns hold what their types say: ten digits for money, 32 bits for quantities.

## What the proofs found

- A sliding window admits at most `2 * limit - 1` calls, and that bound is reached; `2 * limit` never
  is, because the call that creates the older counter lies before the window.
- "Only one of them runs compute" (`app/shared/cache.py:294`) holds, once the text is stored, for every
  caller that is still to look the key up and for every one that is polling
  (`CacheAnswers.LateCallersDoNotBuild`). Nothing is looked up after the lock is taken, so it fails for a
  caller that missed and sends its SET NX while no lock is live (`CacheAnswers.LockDecides`,
  `CacheRuns.SecondBuildHappens`). Locked builds do not overlap while each stays within its lock's
  lifetime.
- An invalidation ends the old text exactly if no build that read it is still to store it
  (`CacheAnswers.InvalidationWorks`). Otherwise the old text may come back and live for a whole ttl; the
  staleness bound covers this and is tight (`CacheRuns.StalenessBoundIsReached`).
- The GET-then-DEL fallback can delete another caller's lock. The docstring's account (own lock
  expired in between) covers the first such deletion of a run only: the caller robbed by it may go on
  to rob a third although its own lock has not expired (`CacheRuns.MisfiresChain`).
- 9000 orders fit in a day. From the 9001st on, the greatest number by string comparison stays 9999,
  10000 is proposed again, and every creation of that day fails on the unique key.
- Two events of one session (`paid` and `success`) have different ids; delivered together they can
  both pay one order (`Webhooks.TwoEventsPayOneOrder`).
- A session or status text with a colon can give two sessions one event id; the exact condition is
  `Payments.EventIdIdentifies`, and `Payments.ColonsCollide` has a payment share its key with a no-op.
- The search token of a cache key has eight hexadecimal digits, so for every digest some two searches
  share a key, and while the entry lives the later one is answered with the earlier one's rows.
- Prices and quantities are admitted whose product the order's columns cannot hold; such an order fails
  when it is inserted (`Checkout.AcceptedIffAvailable`). Slugs of more than 128 characters can be created
  but not ordered.
- The diagram in the repository's `README.md:500-506` is older than the table in
  `app/core/constants.py`; the table is modelled.
- Options created together with their service lose their discounts; modelled as written.

## Model

| member | source | states |
|---|---|---|
| CacheLock.LockInvariant | app/shared/cache.py:183-276 | In every interleaving of callers, expiry, faults and crashes: whoever builds, stores or releases under the lock still has its own entry in place, or its lifetime is over and any present lock was taken after that, or a misfire robbed it |
| CacheLock.LockedBuildsNeverOverlap | app/shared/cache.py:211-276 | If holders stay within `lock_ttl`, of two callers building at once at most one holds the lock, and each other one has polled for all of `max_wait_ms` or met a failure |
| CacheLock.OverlapHasACause | app/shared/cache.py:233-251 | In every run, two simultaneous locked builds mean that one is past its lock's lifetime or was robbed |
| CacheLock.LockLastsItsLifetime | app/shared/cache.py:233-251 | A builder within its lifetime that was not robbed is the live owner, so nobody else can acquire |
| CacheLock.AtomicReleaseIsSafe | app/shared/cache.py:42-52 | In every state of every run, with or without fallback deletes, a live lock goes only by expiry, by its own owner's release, or by a misfiring fallback DEL: the script never deletes another's lock, also after expiry and re-acquisition |
| CacheLock.RobbedByFallbackOnly | app/shared/cache.py:183-208 | In every run a caller is robbed if and only if some step was another caller's fallback DEL of its live lock; where the script does all releases nobody is |
| CacheLock.MisfireHasACause | app/shared/cache.py:203-208 | In every run, a fallback DEL removes another's live lock if and only if some lock is live and the caller's lifetime is over or the caller was robbed; in the first case the removed lock was taken after the lifetime, and so after the caller's GET |
| CacheLock.TimelyRunsRobNobody | app/shared/cache.py:183-208 | If holders stay within their lifetimes the fallback robs nobody either |
| CacheLock.WaysAreEarned | app/shared/cache.py:253-276 | A build without the lock follows a full wait of polls or a failure met by that very caller |
| CacheLock.LockIsGivenBack | app/shared/cache.py:241-251 | In every run, a caller whose commands do not fail no longer owns a live lock once its call is over, also if its build raised |
| CacheRuns.MisfiresChain | app/shared/cache.py:203-208 | For any lock lifetime, a run in which a caller with an unexpired lifetime deletes another's live lock |
| CacheRuns.LateBuildOverlaps | app/shared/cache.py:233-251 | Without the lifetime condition two locked builds do overlap, with no command failing |
| CacheRuns.SecondBuildHappens | app/shared/cache.py:359-377 | Two locked builds one after the other of a text that is cached and live, without failures and with a fixed source |
| CacheAnswers.CacheIsTransparent | app/shared/cache.py:211-382 | Over a fixed source, under any faults and interleaving, every answer of the endpoint entry equals the uncached one on HIT, MISS and BYPASS, for any payload; the value entry's does for values that survive JSON, through the cache for no others, and is the text itself where that does not decode; at most one build, none exactly on HIT, and at most ceil(max_wait/50) polls |
| CacheAnswers.CaptionsTell | app/shared/cache.py:211-276 | In every run an answered call says MISS exactly if it built and sent its text to be stored, also after a timed-out wait, HIT exactly if it built nothing, and BYPASS exactly if it built and stored nothing |
| CacheAnswers.StalenessIsBounded | app/shared/cache.py:240-276 | With arbitrary writes and lost invalidations, a HIT at time t answers with a source the database held after t - ttl - D, where D bounds read to SET |
| CacheAnswers.BuildersHaveMissed | app/shared/cache.py:299-322 | In every run, whoever builds or comes to the lock found no client before, or its own GET failed or found nothing |
| CacheAnswers.LateCallersDoNotBuild | app/shared/cache.py:255-264 | Once the key holds an entry, until it expires and unless it is invalidated, a caller that is still to look the key up or is polling for it, and meets no failure, never builds and can only end with a HIT, or die |
| CacheAnswers.LockDecides | app/shared/cache.py:233-255 | A caller about to send SET NX builds under the lock if and only if no lock is live; otherwise it joins the pollers, unless it may not wait at all |
| CacheAnswers.InvalidationWorks | app/shared/cache.py:240-251 | In every state, an invalidation rids the key of every other text until the source is written again if and only if no caller is about to store another text |
| CacheAnswers.WriteIsSeen | app/shared/cache.py:397-410 | So a write with its invalidation straight after works from exactly the states where no caller holds an older read's text to store |
| CacheRuns.StalenessBoundIsReached | app/shared/cache.py:240-251 | For every ttl and D a run in which an old text is still served D + ttl - 1 after its source was replaced, although the key was invalidated |
| CacheProtocol.EveryCallEnds | app/shared/cache.py:211-382 | Whatever happens, a call is over after eight commands plus its polls |
| CacheProtocol.EndpointCallsEnd | app/shared/cache.py:54-59 | With the default lock and wait an endpoint's call polls ten times at most and is over after eighteen commands |
| CacheProtocol.CallerRunsItsProgram | app/shared/cache.py:211-382 | In every run a caller stands where its own program takes it on the replies it got |
| CacheHelpers.ReleaseLock | app/shared/cache.py:183-208 | The release sends just the commands of the protocol's program, on any replies |
| CacheHelpers.CachedStringWithLock | app/shared/cache.py:211-276 | The locked path with its poll loop sends just the program's commands with their arguments, and returns or raises as the program ends |
| CacheHelpers.CacheGetOrCompute | app/shared/cache.py:279-326 | The same for the value-returning entry |
| CacheHelpers.CachedResponse | app/shared/cache.py:332-382 | The same for the endpoint entry, with the default lock of five seconds and wait of half a second, from the first command to the caption |
| Invalidation.ClearedMeans | app/shared/cache.py:390-394 | What is left after an entity's clearing is each key that it does not clear, as it was: games keys go for games, services and games keys for services, reviews keys for reviews |
| Invalidation.LocksSurvive | app/shared/cache.py:390-410 | No entity's invalidation removes or changes a `lock:` key |
| Invalidation.KeySpace.CacheDeletePattern | app/shared/cache.py:143-155 | The scan loop deletes exactly the matching keys, or up to a Redis failure the keys scanned so far, and reports how many |
| Invalidation.KeySpace.InvalidatePublicCache | app/shared/cache.py:397-410 | Exactly the keys scanned before each pattern's Redis failure go, a failure in one pattern not stopping the next, and the total counts those deletions; without failures exactly the keys under `public:games:`, `public:services:` and `public:reviews:` that the entity stands for go |
| Storefront.QueryIsLiveView | app/features/games/repository.py:66-87 | The left join with its condition in ON, grouped and counted, returns exactly the visible games once each with their count of active, undeleted services, zero included |
| Storefront.SomeQueryResult | app/features/games/repository.py:66-87 | The query has a result on every database |
| Storefront.ListIsOrdered | app/features/games/repository.py:85 | The list comes by rising sort order, and of equal ones the older game first |
| Storefront.ReorderIsShown | app/features/games/service.py:99-106 | After an accepted games reorder the list shows two named games in the order of their last places |
| Storefront.CachedGamesAreLive | app/shared/cache.py:390-410 | After every run of game, service, option and review writes, reads and expiries, a cached games list equals the live view |
| PublicServices.ListKeysAgree | app/features/services/router.py:259-274 | Whatever the digest, two normalised queries have one key if and only if they agree in all but the search text, and the search texts are both blank or share a token |
| PublicServices.ListKeyIsNoSlugKey | app/features/services/router.py:268-301 | A list key is never a slug key |
| PublicServices.KeyLooksLike | app/features/services/router.py:268-301 | The keys field by field as they are stored |
| PublicServices.HitAnswersAnEarlierAsker | app/features/services/router.py:276-301 | After any requests, expiries and invalidations and whatever the digest, a request gets the answer of the first asker under its key since that last went: itself, or an earlier one whose different search text has the same token |
| PublicServices.HitAnswersItsRequest | app/features/services/router.py:276-301 | So it gets its own answer as long as its search text collides with none of the run's |
| PublicServices.CollisionAnswersWrongly | app/features/services/router.py:264-274 | Where two search texts share a token, the second asker is given the first one's answer while that entry lives |
| PublicServices.SomeRequestsCollide | app/features/services/router.py:264-267 | Eight hexadecimal digits are too few: for every digest two normalised queries, whose search texts are 33 letters each of a and b, collide |
| PublicServices.PagesTile | app/features/services/router.py:283-287 | The pages one after another are the rows, nothing skipped or repeated |
| RateLimit.SlidingWindowBound | app/shared/rate_limit.py:19-37 | However late each EXPIRE is and whether or not it is sent, any half-open interval one window long holds at most 2 * limit - 1 allowed calls, none if limit < 1 |
| RateLimit.SlidingWindowBoundReached | app/shared/rate_limit.py:19-37 | For every limit and window a run reaches that bound |
| RateLimit.LifetimeHolds | app/shared/rate_limit.py:31-33 | A counter cannot restart before a whole window after its birth, and only its creator owes it an expiry |
| RateLimit.WithoutExpire | app/shared/rate_limit.py:31-34 | A counter whose EXPIRE is never sent admits `limit` calls in its whole life |
| RateLimit.CounterKey.CheckRateLimit | app/shared/rate_limit.py:19-37 | The helper allows without a client and on any error, and otherwise leaves the key as the two steps do and answers by the count |
| Orders.EveryOrderIsOk | app/core/constants.py:52-70 | In every serialised run every order has exactly the timestamps earned on its way, in pipeline order and within the clock, and a claim time only with a manual payment method |
| Orders.ReachableStamps | app/features/orders/service.py:45-57 | Completed has all stage timestamps; cancelled has no delivered, completed or refunded one; refunded has the paid and not the cancelled one |
| Orders.TransitionFits | app/core/constants.py:52-70 | Along every transition of the table the new timestamp comes after all that are set and the place in the pipeline rises |
| Orders.TableIsExact | app/core/constants.py:52-70 | The table is exactly: a stage to the next one, to cancelled until the booster has completed, to refunded from paid to completed, nothing else |
| Orders.HistoryOnlyGrows | app/features/orders/service.py:111-137 | A set timestamp or claim time is never rewritten and the status only moves forward |
| Orders.NoStatusTwice | app/features/orders/service.py:37-42 | An order seen in one status at two moments was in it throughout |
| Orders.AtMostSevenChanges | app/features/orders/service.py:37-42 | An order changes status at most seven times |
| Orders.ChangesFollowTable | app/features/orders/service.py:37-42 | Every change by any of the four writers is one of the table |
| Orders.SweepIsExact | app/features/orders/service.py:139-169 | A sweep cancels now, with a line added to its notes, each pending order placed before now minus 3600 seconds an hour, touches no other, reports the drop in pending orders, and does nothing when repeated at once |
| Orders.PendingOrdersAreYoung | app/features/orders/service.py:139-169 | In a run whose consecutive sweeps are at most I apart, a pending order at any instant after the first sweep is no older than H + I |
| Orders.AtMostOneAutoCancel | app/features/orders/service.py:139-169 | An order is auto-cancelled, and so noted, by one sweep at most |
| OrderServices.OrderDesk.ChangeOrderStatus | app/features/orders/service.py:111-137 | Refused as absent, as already there, or exactly if the move is not one of the pipeline's; otherwise that row alone gets status and timestamp and the move is notified |
| OrderServices.OrderDesk.UpdateNotes | app/features/orders/service.py:100-109 | Comment and notes are each replaced when given, nothing else changes |
| OrderServices.OrderDesk.CancelStalePending | app/features/orders/service.py:139-169 | The bulk update changes exactly the overdue orders, as the sweep should, and returns their number |
| OrderServices.OrderDesk.Claim | app/features/orders/public_router.py:107-170 | Accepted exactly for a pending, unclaimed PayPal or USDT order; a second claim answers with the first time, changes nothing and notifies nobody; other payment methods are refused |
| OrderServices.OrderDesk.StoreSession | app/features/orders/public_router.py:83-87 | Storing a checkout session sets provider, session, page and gateway time of a hosted-checkout order and touches nothing else |
| OrderServices.OrderDesk.EcomTrade24Webhook | app/features/payments/router.py:65-113 | From the payload: a new delivery pays the pending order it names exactly if its lower-cased status is paid, succeeded, success or completed, and is recorded with it; no other order, and no delivery seen before, changes anything |
| OrderServices.DeliveryPays | app/shared/payments/ecomtrade24.py:164-202 | The same of the lifecycle's own webhook request |
| Webhooks.RepeatsDoNotMatter | app/features/payments/router.py:73-111 | A serial run and the run without its repeated deliveries end with the same orders, events and notifications |
| Webhooks.AtMostOnce | app/features/payments/router.py:73-111 | With reads and commits interleaved in any way, each event takes effect at most once |
| Webhooks.ExactlyOnce | app/features/payments/router.py:73-111 | In every interleaving exactly the stored events took effect, each at exactly one commit |
| Webhooks.SplitRunIsSerial | app/features/payments/router.py:73-111 | A run whose reads are each followed at once by their commit ends as the serial run |
| Webhooks.PaymentFollowsTable | app/features/payments/router.py:89-94 | An interleaved payment follows the transition table if and only if the order is still pending at the commit |
| Webhooks.TwoEventsPayOneOrder | app/features/payments/router.py:73-100 | Two events of one session that are read together both pay the order |
| Payments.EventIdIdentifies | app/shared/payments/ecomtrade24.py:173-202 | The key of a parsable payload tells its session and status from every other payload's if and only if its status text has no colon and its session text has none after which no upper-case letter comes |
| Payments.AmbiguousHasTwin | app/shared/payments/ecomtrade24.py:173-180 | For every other payload there is one of another session and another status under the same key |
| Payments.ColonsCollide | app/shared/payments/ecomtrade24.py:179-193 | With a colon in the status text an unrecognised status and a payment can share an id |
| OrderNumbers.NumbersAreUnique | app/features/orders/repository.py:40-70 | In every interleaving of transactions over any days, a day's committed numbers run from 1001 without a gap, and two transactions hold one number only when that day's 9000 are used up |
| OrderNumbers.CapacityIsExact | app/features/orders/repository.py:40-70 | A commit succeeds, with the next number, exactly while fewer than 9000 orders of the day are committed |
| OrderNumbers.ReservedNumber | app/features/orders/repository.py:53-70 | Over k committed numbers the string maximum, parse, increment and print give 1001 + k, and 10000 for ever once k is 9000 |
| OrderNumbers.NumbersLookLike | app/features/orders/repository.py:42-70 | The numbers as printed, `NB-` and the day, from `-1001` to `-10000` |
| OrderNumbers.ReservationIsPossible | app/features/orders/repository.py:44-70 | When the lock is free a reservation is always possible |
| OrderNumbers.LexIsNumeric | app/features/orders/repository.py:57 | Among numerals of one length string order is numeric order |
| Money.HalfEvenUnique | app/features/services/schemas.py:43-54 | At most one integer is the half-even rounding of a quotient |
| Money.ValidateDiscountCombination | app/features/services/schemas.py:57-71 | The checks accept exactly: no discount, one percentage strictly between 0 and 100, or positive amounts in both currencies |
| Money.PriceInRange | app/features/services/schemas.py:43-54 | A permitted discount leaves the price between zero and the list price |
| Money.PriceNearExact | app/features/services/schemas.py:43-54 | The price is within half a cent of the unrounded one |
| Money.PriceMonotone | app/features/services/schemas.py:43-54 | A higher list price is never charged less |
| Money.PriceAntitone | app/features/services/schemas.py:43-46 | A larger percentage is never charged more |
| Totals.PlainTotalError | app/features/orders/public_service.py:106-150 | Without the order discount a total is within 0.5 cents per unit of the ideal one, in each currency |
| Totals.DiscountedTotalError | app/features/orders/public_service.py:106-150 | With the USDT discount, within 0.475 cents per unit plus 0.5 |
| Totals.DiscountedTotalErrorIsReached | app/features/orders/public_service.py:106-150 | That bound is reached for every number of units |
| Totals.PlainTotalErrorIsReached | app/features/orders/public_service.py:106-150 | The half cent per unit is reached for every quantity |
| Totals.PermutationKeepsTotals | app/features/orders/public_service.py:109-150 | Permuting the items changes no total |
| Totals.SplitLineKeepsTotals | app/features/orders/public_service.py:109-150 | A line of quantity m + n costs what lines of m and n cost |
| Totals.SplitOrderDiscount | app/features/orders/public_service.py:139-148 | Splitting an order in two changes the rounded discount by at most one cent |
| Checkout.SnapshotRoundTrip | app/features/orders/public_service.py:56-87 | Reading a snapshot's text back gives the terms it was made from |
| Checkout.PublicSaleIsFaithful | app/features/orders/public_service.py:90-165 | A public order's lines, subtotal, discount and final totals add up exactly and lie in range, each line prices again from its own snapshot as charged, and the charge in both currencies is near the exact total |
| Checkout.PublicSaleIsByMethod | app/features/orders/public_service.py:139-150 | USDT orders get five percent off, rounded once in each currency; every other order is charged the sum of its lines in both |
| Checkout.PublicSaleSells | app/features/orders/public_service.py:40-134 | Item by item the order has the quantity, option and live service asked for, their descriptions and columns as text, and unit prices from the columns of each currency |
| Checkout.InternalSaleRecords | app/features/orders/service.py:185-276 | An internal order records each item's own prices, quantity, references and snapshot, and takes the given percentage off, rounded once |
| Checkout.InternalAcceptedIff | app/features/orders/service.py:185-276 | It is accepted if and only if it has items, a percentage from 0 to 100, only items that can be recorded, and a subtotal that fits |
| Checkout.AcceptedIffAvailable | app/features/orders/public_service.py:40-171 | On a sound catalogue an order is accepted if and only if it is not empty, its slugs and quantities are in range, every item names an active service and one of its own options, and its amounts fit the ten digits of the columns |
| Checkout.DearestTwiceIsRefused | app/features/orders/models.py:72-81 | An order with two of an option at the dearest admitted price is refused |
| Checkout.EverySaleIsFaithful | app/features/orders/public_service.py:90-165 | In every state of every run of catalogue writes, purchases through both flows and lifecycle requests, every order's money adds up, and every public order prices again from its snapshots and is charged within the proved distance of their exact total |
| Checkout.MoneyIsFrozen | app/features/orders/public_service.py:119-165 | The money columns of an order and its items never change once it is placed, whatever is written to the catalogue and whatever the four writers do to the order row |
| Checkout.ChargeIsNearExact | app/features/orders/public_service.py:106-150 | What a public order charges, in each currency, is within the proved distance of the exact total of its frozen terms |
| Checkout.InternalSaleIsConserved | app/features/orders/service.py:212-276 | An internal order's money adds up too |
| Checkout.DiscountsAreOne | app/features/orders/public_service.py:143-148 | Multiplying by the hundredth of the percentage, and dividing the product by a hundred, both round to the one half-even discount, in decimal arithmetic as written |
| Checkout.FlowsAgree | app/features/orders/service.py:252-255 | So equal subtotals and percentages give equal discounts and final totals in both flows |
| OrderCreation.OrderTable.ResolveItem | app/features/orders/public_service.py:40-88 | The lookup by slug and option ends in the priced, frozen line or the right refusal |
| OrderCreation.OrderTable.CreatePublic | app/features/orders/public_service.py:90-179 | The accumulating loop is the purchase step of the runs, with the discount of the payment method: it stores order and items together and announces the order, or does nothing: the first refusal, amounts that do not fit, a taken number |
| OrderCreation.OrderTable.CreateInternal | app/features/orders/service.py:212-276 | The same for the internal flow, which records the items as given and tells nobody |
| Catalogue.WriteKeepsSound | app/features/services/service.py:31-307 | Every accepted write keeps: permitted discounts on every option, at most one default per service, no dangling references, unique live slugs |
| Catalogue.WriteStores | app/features/services/service.py:38-307 | What each accepted write leaves in the tables, column by column: each field is the sent one if sent and its own otherwise, and every other row is kept |
| Catalogue.AnsweredRightly | app/features/services/service.py:38-307 | A write is accepted if and only if what was sent is valid, what it names is there, slugs and keys are free and merged discounts are permitted; a refusal names the reason that holds |
| Catalogue.ReachableIsSound | app/features/services/service.py:31-307 | So every reachable catalogue is sound |
| Catalogue.ReachablePricesAreSafe | app/features/services/schemas.py:22-71 | For every reachable option and every currency code, in any letter case, the price comes from that currency's columns: the list price, less the amount but not below zero, or within half a cent of less the percentage; other codes are refused |
| Catalogue.UpdateOptionSound | app/features/services/service.py:245-289 | A partial update, checked once on its own and once merged, keeps the catalogue sound |
| Catalogue.PatchesCompose | app/features/services/service.py:255-274 | Two partial updates are one in which the last word on each field counts, and repeating one changes nothing |
| Catalogue.CreateServiceSound | app/features/services/service.py:38-76 | Creating a service with nested options, whose discounts are dropped, keeps the catalogue sound |
| Catalogue.UnsetDefaultClears | app/features/services/repository.py:240-252 | Unsetting leaves no default of the service outside the exclusion, and keeps discounts permitted and defaults unique |
| Catalogue.ReorderedOptionsMoved | app/features/services/repository.py:254-267 | A row of the service gets the sort order of the last pair that names it, every other row keeps its own, and the count is of the pairs that name a row of the service |
| Catalogue.ReorderedServicesMoved | app/features/services/repository.py:198-208 | The same for the services that are not deleted |
| Catalogue.ReorderedGamesMoved | app/features/games/repository.py:105-115 | The same for the games that are not deleted |
| Catalogue.DetailDefaultPrices | app/features/services/router.py:55-59 | The loop returns the first default's prices |
| Catalogue.DefaultPricesAgree | app/features/services/repository.py:57-79 | List and detail views report the same default price, whichever row the subquery picks and however the detail lists the rows |
| CatalogueEffects.WriteKeepsSite | app/features/services/service.py:31-307 | A rejected write changes neither tables nor cache; an accepted one keeps the catalogue sound and the cached list live, and leaves no cached games list after a game, service or option write |
| CatalogueEffects.CacheIsCleared | app/features/services/service.py:75-306 | An accepted game write clears the games keys, a service or option write the services and games keys, and no other key changes |
| CatalogueEffects.ServicesKeysGo | app/features/services/router.py:259-301 | No list or slug answer of the services endpoints survives an accepted service or option write |
| CatalogueEffects.ServiceWriteMeans | app/features/services/service.py:38-189 | Creating, updating, toggling or deleting a service moves the public count of its own game by whether it counted before and counts now, and no other game's |
| CatalogueEffects.GameWriteMeans | app/features/games/service.py:24-97 | A new game appears with no services unless hidden, a deleted one disappears, an updated one keeps its count; no other game's card changes |
| CatalogueEffects.OptionWriteMeans | app/features/services/service.py:222-307 | Option writes leave the games list as it was, and a row made the default is its service's only one |
| CatalogueEffects.UnseenWrites | app/features/services/service.py:175-198 | Featuring and reordering services, and reordering games, leave every card of the games list as it was |
| CatalogueServices.Tables.UnsetDefaultRows | app/features/services/repository.py:240-252 | Of the service's defaults exactly the excluded one remains, other services keep theirs |
| CatalogueServices.Tables.CreateOptionRow | app/features/services/service.py:222-243 | The row has what was sent, discounts included, the new default is the only one, the catalogue stays sound, services and games answers are gone; on a refusal, also a late one, nothing has changed |
| CatalogueServices.Tables.UpdateOptionRow | app/features/services/service.py:245-289 | Each column is the sent value if sent and its own otherwise, other rows keep theirs, with the rollback of unset defaults when the merged discount is not permitted |
| CatalogueServices.Tables.UpdateOptionSortOrders | app/features/services/repository.py:254-267 | The loop gives the rows of the service the sort order of the last pair that names each, keeps all else, and counts the pairs that name one |
| CatalogueServices.Tables.ReorderOptionRows | app/features/services/service.py:299-307 | The rows move as the pairs say, with that count; no card of the games list changes and the cached list is gone; a request that names no row changes nothing |
| CatalogueServices.Tables.CreateServiceRow | app/features/services/service.py:38-76 | The service and its nested rows are stored together or not at all, and its game's count grows by one if it is active |
| CatalogueServices.Tables.UpdateServiceSortOrders | app/features/services/repository.py:198-208 | The loop gives the services that are not deleted the sort order of the last pair that names each, keeps all else, and counts the pairs that name one |
| CatalogueServices.Tables.ReorderServiceRows | app/features/services/service.py:191-198 | The rows move as the pairs say, with that count; no card of the games list changes and the cached list is gone; a request that names no row changes nothing |
| CatalogueServices.Tables.UpdateGameSortOrders | app/features/games/repository.py:105-115 | The loop gives the games that are not deleted the sort order of the last pair that names each, keeps all else, and counts the pairs that name one |
| CatalogueServices.Tables.ReorderGameRows | app/features/games/service.py:99-106 | The rows move as the pairs say, with that count; no card of the games list changes and the cached list is gone; a request that names no row changes nothing |
| Dashboard.GroupsSumToTotal | app/features/dashboard/repository.py:44-92 | Group totals over keys that cover the records, each once, sum to the grand total |
| Dashboard.BreakdownsSumToTotal | app/features/dashboard/repository.py:44-64 | Counts by status and by payment method each sum to the overview's count |
| Dashboard.WindowIsExact | app/features/dashboard/repository.py:22-30 | The window has exactly the orders created from its start on and before its end |
| Dashboard.RangeMeans | app/features/dashboard/repository.py:134-147 | It ends now and starts 7, 30 or 365 days ago at the same time of day, or today at midnight |
| Dashboard.RevenuePerDay | app/features/dashboard/repository.py:81-92 | The loop maps exactly the days with orders to their revenue and count |
| Dashboard.RevenueChart | app/features/dashboard/service.py:48-67 | 1, 8, 31 or 366 days by period, each once in order up to today with its own figures or zeros, and the figures sum to the overview's totals |
| Dashboard.FilledChartIsComplete | app/features/dashboard/service.py:53-67 | A filled chart over the window's days has the window's totals |

## Left out

- HTTP routing, parameter and body validation beyond the rules cited, authentication, logging, CORS.
- Redis, Postgres and SQLAlchemy internals: only atomic commands, expiry, transactions, unique keys and the advisory lock are kept.
- Signature verification, `create_session` and the payment network: payloads are taken as verified, and a stored session is a request of its own.
- Notification backends and message texts: notifications are a recorded list; a claim, a placed order and a status change are its entries.
- `clients.get_or_create`, images, descriptions, platforms and SEO texts of rows: plain field copies.
- Average order value, new clients, top services, recent orders, admin lists and their sort parsing: single queries without state.
- Random owner tokens, UUID freshness and digests: parameters or assumptions.
- JSON encoding itself: `dumps` and `loads` are parameters, and the round trip is assumed where a lemma says so.
- A build that reads the source in several statements: it is one read, at the end of the building phase.
- The sticky `_disabled` flag of `get_client`: each call may find a client or not.
- JSON objects and arrays in the webhook's scalar fields, and the numeral forms Python's `int` accepts beyond plain digits.
- Coherence of the services and reviews keys after writes to other entities: the invalidation map does not cover those dependencies, and it does not hold.
- Races between administrators, webhooks and sweeps on one order row, beyond the webhook read and commit.
- Import, seed and migration scripts: their rows are not part of reachable states.
- The 32-bit range of sort orders, and letter case and blanks beyond ASCII in statuses, currency codes and search texts.
- A client row that cannot be stored, a database that is down: only refusals that follow from the request and the modelled tables occur.

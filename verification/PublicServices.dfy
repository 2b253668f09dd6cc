/** Cache keys and pages of the public services endpoints. */
module PublicServices {
  import opened Arithmetic
  import opened Wrappers
  import opened Text

  datatype Platform = Ps | Xbox | Pc

  /** A list request after normalisation: the search text is stripped and lower-cased, and blank
      search text is the same as none. */
  datatype Query = Query(
    game: Option<string>, platform: Option<Platform>, featured: Option<bool>, search: string, page: nat, pageSize: nat)

  predicate IsSlugChar(c: char) {
    'a' <= c <= 'z' || '0' <= c <= '9' || c == '-'
  }

  /** What the path and query patterns guarantee of a slug, as far as keys are concerned. */
  predicate IsSlug(s: string) {
    s != "" && forall k :: 0 <= k < |s| ==> IsSlugChar(s[k])
  }

  /** A short token for search text: the first hexadecimal digits of a digest. */
  type Token = string -> string

  /** What any digest in hexadecimal meets. Nothing is said of collisions. */
  ghost predicate TokensOk(token: Token) {
    forall a :: token(a) != "" && ColonFree(token(a))
  }

  predicate QueryOk(q: Query) {
    q.game.Some? ==> IsSlug(q.game.value)
  }

  // ---- printing ----

  function PlatformText(p: Option<Platform>): string {
    match p
    case None => ""
    case Some(Ps) => "ps"
    case Some(Xbox) => "xbox"
    case Some(Pc) => "pc"
  }

  function FeaturedText(f: Option<bool>): string {
    match f
    case None => ""
    case Some(b) => if b then "1" else "0"
  }

  function SearchText(token: Token, search: string): string {
    if search == "" then "" else token(search)
  }

  function GameText(game: Option<string>): string {
    if game.Some? then game.value else ""
  }

  const PREFIX := "public:services:v1:"

  /** `name=value:` and the rest of the key. */
  function Field(name: string, value: string, rest: string): string {
    name + (value + (":" + rest))
  }

  function PageFields(q: Query): string {
    Field("page=", Digits(q.page), "size=" + Digits(q.pageSize))
  }

  function FilterFields(token: Token, q: Query): string {
    Field("platform=", PlatformText(q.platform),
      Field("featured=", FeaturedText(q.featured),
        Field("search=", SearchText(token, q.search), PageFields(q))))
  }

  function ListKey(token: Token, q: Query): string {
    PREFIX + Field("game=", GameText(q.game), FilterFields(token, q))
  }

  function SlugKey(slug: string): string {
    PREFIX + ("slug=" + slug)
  }

  /** Keys as they are stored, field by field: what is absent is empty, a flag is 0 or 1. */
  lemma KeyLooksLike(token: Token, q: Query)
    ensures SlugKey("raid") == "public:services:v1:" + "slug=raid"
    ensures ListKey(token, q) ==
            "public:services:v1:" + ("game=" + ((if q.game.Some? then q.game.value else "") + (":" +
            ("platform=" + ((if q.platform.None? then "" else if q.platform.value.Ps? then "ps"
                             else if q.platform.value.Xbox? then "xbox" else "pc") + (":" +
            ("featured=" + ((if q.featured.None? then "" else if q.featured.value then "1" else "0") + (":" +
            ("search=" + ((if q.search == "" then "" else token(q.search)) + (":" +
            ("page=" + (Digits(q.page) + (":" +
            ("size=" + Digits(q.pageSize)))))))))))))))))
  {
  }

  // ---- no two requests share a key ----

  lemma SameTail(a: string, x: string, y: string)
    requires a + x == a + y
    ensures x == y
  {
    assert x == (a + x)[|a|..] && y == (a + y)[|a|..];
  }

  /** Colon-free text is separated from the rest at the first colon. */
  lemma {:induction false} SplitAtColon(a: string, x: string, b: string, y: string)
    requires ColonFree(a) && ColonFree(b) && a + (":" + x) == b + (":" + y)
    ensures a == b && x == y
  {
    var s := a + (":" + x);
    assert s[|a|] == ':' && s[|b|] == ':';
    assert forall k :: 0 <= k < |a| ==> s[k] == a[k];
    assert forall k :: 0 <= k < |b| ==> s[k] == b[k];
    assert |a| == |b|;
    assert a == s[..|a|] && b == s[..|b|];
    assert x == s[|a| + 1..] && y == s[|b| + 1..];
  }

  lemma DigitsColonFree(n: nat)
    ensures ColonFree(Digits(n))
  {
    assert AllDigits(Digits(n));
  }

  lemma FieldsColonFree(token: Token, q: Query)
    requires TokensOk(token) && QueryOk(q)
    ensures ColonFree(GameText(q.game)) && ColonFree(PlatformText(q.platform)) && ColonFree(FeaturedText(q.featured))
    ensures ColonFree(SearchText(token, q.search)) && ColonFree(Digits(q.page))
  {
    DigitsColonFree(q.page);
    if q.search != "" { assert ColonFree(token(q.search)); }
  }

  /** A colon-free field can be read back. */
  lemma FieldAgrees(name: string, a: string, x: string, b: string, y: string)
    requires ColonFree(a) && ColonFree(b) && Field(name, a, x) == Field(name, b, y)
    ensures a == b && x == y
  {
    SameTail(name, a + (":" + x), b + (":" + y));
    SplitAtColon(a, x, b, y);
  }

  lemma FieldTextsAgree(token: Token, p: Query, q: Query)
    requires TokensOk(token) && QueryOk(p) && QueryOk(q) && ListKey(token, p) == ListKey(token, q)
    ensures GameText(p.game) == GameText(q.game) && PlatformText(p.platform) == PlatformText(q.platform)
    ensures FeaturedText(p.featured) == FeaturedText(q.featured)
    ensures SearchText(token, p.search) == SearchText(token, q.search)
    ensures Digits(p.page) == Digits(q.page) && Digits(p.pageSize) == Digits(q.pageSize)
  {
    hide TokensOk, ColonFree, Digits, GameText, PlatformText, FeaturedText, SearchText, QueryOk, Field;
    FieldsColonFree(token, p);
    FieldsColonFree(token, q);
    SameTail(PREFIX, Field("game=", GameText(p.game), FilterFields(token, p)), Field("game=", GameText(q.game), FilterFields(token, q)));
    FieldAgrees("game=", GameText(p.game), FilterFields(token, p), GameText(q.game), FilterFields(token, q));
    var p', q' := Field("search=", SearchText(token, p.search), PageFields(p)), Field("search=", SearchText(token, q.search), PageFields(q));
    FieldAgrees("platform=", PlatformText(p.platform), Field("featured=", FeaturedText(p.featured), p'),
                PlatformText(q.platform), Field("featured=", FeaturedText(q.featured), q'));
    FieldAgrees("featured=", FeaturedText(p.featured), p', FeaturedText(q.featured), q');
    FieldAgrees("search=", SearchText(token, p.search), PageFields(p), SearchText(token, q.search), PageFields(q));
    FieldAgrees("page=", Digits(p.page), "size=" + Digits(p.pageSize), Digits(q.page), "size=" + Digits(q.pageSize));
    SameTail("size=", Digits(p.pageSize), Digits(q.pageSize));
  }

  lemma PartTextsInjective(p: Query, q: Query)
    requires QueryOk(p) && QueryOk(q)
    requires GameText(p.game) == GameText(q.game) && PlatformText(p.platform) == PlatformText(q.platform)
    requires FeaturedText(p.featured) == FeaturedText(q.featured)
    requires Digits(p.page) == Digits(q.page) && Digits(p.pageSize) == Digits(q.pageSize)
    ensures p.(search := "") == q.(search := "")
  {
    DigitsInjective(p.page, q.page);
    DigitsInjective(p.pageSize, q.pageSize);
  }

  /** Two requests have the same search as far as keys can tell. */
  predicate SameSearch(token: Token, p: Query, q: Query) {
    SearchText(token, p.search) == SearchText(token, q.search)
  }

  /** Whatever the digest: two normalised requests have the same key if and only if they agree in
      everything but the search text, and the search texts are both blank or share a token. */
  lemma ListKeysAgree(token: Token, p: Query, q: Query)
    requires TokensOk(token) && QueryOk(p) && QueryOk(q)
    ensures ListKey(token, p) == ListKey(token, q) <==> p.(search := "") == q.(search := "") && SameSearch(token, p, q)
  {
    if ListKey(token, p) == ListKey(token, q) {
      FieldTextsAgree(token, p, q);
      PartTextsInjective(p, q);
    }
  }

  /** A list key is never the key of a single service. */
  lemma ListKeyIsNoSlugKey(token: Token, q: Query, slug: string)
    ensures ListKey(token, q) != SlugKey(slug)
  {
    var rest := GameText(q.game) + (":" + FilterFields(token, q));
    assert ListKey(token, q) == PREFIX + ("game=" + rest);
    assert ListKey(token, q)[|PREFIX|] == 'g' && SlugKey(slug)[|PREFIX|] == 's';
  }

  // ---- a hit answers the request it is given to ----

  datatype Lookup = List(query: Query) | Single(slug: string)

  predicate LookupOk(l: Lookup) {
    match l
    case List(q) => QueryOk(q)
    case Single(slug) => IsSlug(slug)
  }

  function KeyOf(token: Token, l: Lookup): string {
    match l
    case List(q) => ListKey(token, q)
    case Single(slug) => SlugKey(slug)
  }

  /** Two requests whose search texts differ but have one token. */
  predicate Collide(token: Token, l: Lookup, m: Lookup) {
    l.List? && m.List? && l.query.search != m.query.search && SameSearch(token, l.query, m.query)
  }

  lemma KeysIdentify(token: Token, l: Lookup, m: Lookup)
    requires TokensOk(token) && LookupOk(l) && LookupOk(m) && KeyOf(token, l) == KeyOf(token, m)
    ensures l == m || Collide(token, l, m)
  {
    match (l, m) {
      case (List(p), List(q)) => ListKeysAgree(token, p, q);
      case (List(p), Single(slug)) => ListKeyIsNoSlugKey(token, p, slug);
      case (Single(slug), List(q)) => ListKeyIsNoSlugKey(token, q, slug);
      case (Single(a), Single(b)) =>
        SameTail(PREFIX, "slug=" + a, "slug=" + b);
        SameTail("slug=", a, b);
    }
  }

  /** A request, or keys going: by expiry, by invalidation, one or many at a time. */
  datatype Event = Ask(lookup: Lookup) | Drop(keys: set<string>)

  /** One request against the cache: a hit returns what is stored under the request's key, a miss
      stores and returns the direct answer. */
  function Served<A>(store: map<string, A>, token: Token, answer: Lookup -> A, l: Lookup): (map<string, A>, A) {
    var key := KeyOf(token, l);
    if key in store then (store, store[key]) else (store[key := answer(l)], answer(l))
  }

  function StoreAfter<A>(token: Token, answer: Lookup -> A, es: seq<Event>): map<string, A> {
    if es == [] then map[] else
      var before := StoreAfter(token, answer, es[..|es| - 1]);
      match es[|es| - 1]
      case Ask(l) => Served(before, token, answer, l).0
      case Drop(keys) => before - keys
  }

  /** Whose answer a key holds: the first request under it since it last went, if there was one. */
  function Holder(token: Token, es: seq<Event>, key: string): Option<Lookup> {
    if es == [] then None else
      var before := Holder(token, es[..|es| - 1], key);
      match es[|es| - 1]
      case Ask(l) => if before.None? && KeyOf(token, l) == key then Some(l) else before
      case Drop(keys) => if key in keys then None else before
  }

  /** Whose answer a request gets: the holder's, or its own if the key is free. */
  function Answerer(token: Token, es: seq<Event>, l: Lookup): Lookup {
    match Holder(token, es, KeyOf(token, l))
    case Some(holder) => holder
    case None => l
  }

  lemma {:induction false} StoreHoldsAnswers<A>(token: Token, answer: Lookup -> A, es: seq<Event>, key: string)
    ensures var store, holder := StoreAfter(token, answer, es), Holder(token, es, key);
            && (key in store <==> holder.Some?)
            && (holder.Some? ==>
                  store[key] == answer(holder.value) && Ask(holder.value) in es && KeyOf(token, holder.value) == key)
  {
    hide KeyOf;
    if es != [] {
      StoreHoldsAnswers(token, answer, es[..|es| - 1], key);
    }
  }

  predicate AsksOk(es: seq<Event>) {
    forall k :: 0 <= k < |es| ==> es[k].Ask? ==> LookupOk(es[k].lookup)
  }

  /** After any requests, expiries and invalidations, and whatever the digest, a request gets the answer to
      an asker under its key since that last went: itself, or an earlier one whose different search text
      has the same token. */
  lemma HitAnswersAnEarlierAsker<A>(token: Token, answer: Lookup -> A, es: seq<Event>, l: Lookup)
    requires TokensOk(token) && LookupOk(l) && AsksOk(es)
    ensures var asker := Answerer(token, es, l);
            && Served(StoreAfter(token, answer, es), token, answer, l).1 == answer(asker)
            && (asker == l || (Ask(asker) in es && Collide(token, asker, l)))
  {
    hide KeyOf, TokensOk, Collide, LookupOk;
    StoreHoldsAnswers(token, answer, es, KeyOf(token, l));
    KeysIdentify(token, Answerer(token, es, l), l);
  }

  /** So a hit answers its own request as long as its search text collides with none of the run. */
  lemma HitAnswersItsRequest<A>(token: Token, answer: Lookup -> A, es: seq<Event>, l: Lookup)
    requires TokensOk(token) && LookupOk(l) && AsksOk(es)
    requires forall k :: 0 <= k < |es| && es[k].Ask? ==> !Collide(token, es[k].lookup, l)
    ensures Served(StoreAfter(token, answer, es), token, answer, l).1 == answer(l)
  {
    HitAnswersAnEarlierAsker(token, answer, es, l);
  }

  /** And when two do, in requests alike otherwise, the second asker gets the first one's answer as long as
      the entry lives. */
  lemma CollisionAnswersWrongly<A>(token: Token, answer: Lookup -> A, es: seq<Event>, p: Query, text: string)
    requires TokensOk(token) && QueryOk(p)
    requires Collide(token, List(p), List(p.(search := text)))
    requires Holder(token, es, KeyOf(token, List(p))) == Some(List(p))
    ensures var l := List(p.(search := text));
            Served(StoreAfter(token, answer, es), token, answer, l).1 == answer(List(p))
  {
    var l := List(p.(search := text));
    ListKeysAgree(token, p, l.query);
    StoreHoldsAnswers(token, answer, es, KeyOf(token, l));
  }

  // ---- collisions exist ----

  /** All strings of one length over an alphabet. */
  ghost function Strings(alphabet: set<char>, n: nat): set<string> {
    if n == 0 then {""} else Prefixed(alphabet, Strings(alphabet, n - 1))
  }

  function Pow(b: nat, n: nat): nat {
    if n == 0 then 1 else b * Pow(b, n - 1)
  }

  lemma {:induction false} StringsCounted(alphabet: set<char>, n: nat)
    ensures |Strings(alphabet, n)| == Pow(|alphabet|, n)
  {
    if n > 0 {
      StringsCounted(alphabet, n - 1);
      PrefixedCounted(alphabet, Strings(alphabet, n - 1));
      CopiesMultiply(|alphabet|, |Strings(alphabet, n - 1)|);
    }
  }

  ghost function Prefixed(alphabet: set<char>, tails: set<string>): set<string> {
    set c, s | c in alphabet && s in tails :: [c] + s
  }

  ghost function Prepended(c: char, tails: set<string>): set<string> {
    set s | s in tails :: [c] + s
  }

  /** `m` times `n`, as a sum. */
  ghost function Copies(m: nat, n: nat): nat {
    if m == 0 then 0 else Copies(m - 1, n) + n
  }

  lemma {:induction false} CopiesMultiply(m: nat, n: nat)
    ensures Copies(m, n) == m * n
  {
    if m > 0 {
      CopiesMultiply(m - 1, n);
      assert m * n == (m - 1) * n + n;
    }
  }

  lemma {:induction false} PrefixedCounted(alphabet: set<char>, tails: set<string>)
    ensures |Prefixed(alphabet, tails)| == Copies(|alphabet|, |tails|)
  {
    if alphabet == {} {
      assert Prefixed(alphabet, tails) == {};
    } else {
      hide Prefixed, Prepended;
      var c :| c in alphabet;
      var rest := alphabet - {c};
      PrefixedCounted(rest, tails);
      PrependCounted(c, tails);
      PrefixedSplits(alphabet, c, tails);
      assert |alphabet| == |rest| + 1;
    }
  }

  lemma PrefixedSplits(alphabet: set<char>, c: char, tails: set<string>)
    requires c in alphabet
    ensures Prefixed(alphabet, tails) == Prefixed(alphabet - {c}, tails) + Prepended(c, tails)
    ensures Prefixed(alphabet - {c}, tails) !! Prepended(c, tails)
  {
    forall t | t in Prefixed(alphabet, tails)
      ensures t in Prefixed(alphabet - {c}, tails) + Prepended(c, tails)
    {
      var d, s :| d in alphabet && s in tails && t == [d] + s;
      assert d == c || d in alphabet - {c};
    }
    forall t | t in Prepended(c, tails)
      ensures t !in Prefixed(alphabet - {c}, tails)
    {
      assert t[0] == c;
    }
  }

  lemma {:induction false} PrependCounted(c: char, tails: set<string>)
    ensures |Prepended(c, tails)| == |tails|
  {
    if tails == {} {
      assert Prepended(c, tails) == {};
    } else {
      var t :| t in tails;
      var fewer := Prepended(c, tails - {t});
      PrependCounted(c, tails - {t});
      assert Prepended(c, tails) == fewer + {[c] + t};
      assert [c] + t !in fewer by {
        forall s | s in tails - {t}
          ensures [c] + s != [c] + t
        {
          assert ([c] + s)[1..] == s && ([c] + t)[1..] == t;
        }
      }
    }
  }

  /** Pigeonhole: more texts than tokens make two texts share one. */
  lemma {:induction false} SomeCollide(token: Token, texts: set<string>, tokens: set<string>) returns (a: string, b: string)
    requires |texts| > |tokens| && forall s :: s in texts ==> token(s) in tokens
    ensures a in texts && b in texts && a != b && token(a) == token(b)
    decreases |texts|
  {
    a :| a in texts;
    if exists other :: other in texts && other != a && token(other) == token(a) {
      b :| b in texts && b != a && token(b) == token(a);
    } else {
      a, b := SomeCollide(token, texts - {a}, tokens - {token(a)});
    }
  }

  lemma {:induction false} PowOfPow(b: nat, m: nat, n: nat)
    ensures Pow(b, m + n) == Pow(b, m) * Pow(b, n)
  {
    if m > 0 {
      PowOfPow(b, m - 1, n);
      assert b * (Pow(b, m - 1) * Pow(b, n)) == (b * Pow(b, m - 1)) * Pow(b, n);
    }
  }

  lemma {:induction false} HexPow(n: nat)
    ensures Pow(16, n) == Pow(2, 4 * n) > 0
  {
    if n > 0 {
      HexPow(n - 1);
      PowOfPow(2, 4, 4 * (n - 1));
      assert Pow(2, 4) == 16;
    }
  }

  lemma TooFewTokens()
    ensures Pow(16, 8) < Pow(2, 33)
  {
    HexPow(8);
    PowOfPow(2, 1, 32);
    assert Pow(2, 1) == 2;
  }

  /** Eight hexadecimal digits are too few: whatever the digest, two search texts of 33 letters, well
      within the accepted length, share a token. Two letters suffice. */
  lemma EightDigitsCollide(token: Token, hexDigits: set<char>, letters: set<char>) returns (a: string, b: string)
    requires |hexDigits| == 16 && |letters| == 2
    requires forall s :: token(s) in Strings(hexDigits, 8)
    ensures a in Strings(letters, 33) && b in Strings(letters, 33)
    ensures a != b && token(a) == token(b)
  {
    hide Strings, Pow;
    StringsCounted(letters, 33);
    StringsCounted(hexDigits, 8);
    TooFewTokens();
    a, b := SomeCollide(token, Strings(letters, 33), Strings(hexDigits, 8));
  }

  lemma {:induction false} StringsHaveLength(alphabet: set<char>, n: nat, s: string)
    requires s in Strings(alphabet, n)
    ensures |s| == n
  {
    if n > 0 {
      var c, tail :| c in alphabet && tail in Strings(alphabet, n - 1) && s == [c] + tail;
      StringsHaveLength(alphabet, n - 1, tail);
    }
  }

  const LETTERS: set<char> := {'a', 'b'}

  /** So no digest of that size keeps all requests apart: some two searches for 33 small letters, which
      stripping and lower-casing leave as they are, answer for each other. */
  lemma SomeRequestsCollide(token: Token, hexDigits: set<char>) returns (p: Query, text: string)
    requires |hexDigits| == 16
    requires forall s :: token(s) in Strings(hexDigits, 8)
    ensures QueryOk(p) && Collide(token, List(p), List(p.(search := text)))
    ensures p.search in Strings(LETTERS, 33) && text in Strings(LETTERS, 33)
  {
    hide Strings;
    assert |LETTERS| == 2;
    var a, b := EightDigitsCollide(token, hexDigits, LETTERS);
    StringsHaveLength(LETTERS, 33, a);
    StringsHaveLength(LETTERS, 33, b);
    p, text := Query(None, None, None, a, 1, 100), b;
  }

  // ---- pages ----

  /** The slice `rows[start : start + size]`, which stops at the end of the rows. */
  function Page<T>(rows: seq<T>, page: nat, size: nat): seq<T>
    requires page >= 1
  {
    var start := Min((page - 1) * size, |rows|);
    var end := Min((page - 1) * size + size, |rows|);
    rows[start..end]
  }

  function PagesUpTo<T>(rows: seq<T>, pages: nat, size: nat): seq<T> {
    if pages == 0 then [] else PagesUpTo(rows, pages - 1, size) + Page(rows, pages, size)
  }

  /** The pages one after another are the rows from the start, nothing skipped or repeated. */
  lemma {:induction false} PagesTile<T>(rows: seq<T>, pages: nat, size: nat)
    ensures PagesUpTo(rows, pages, size) == rows[..Min(pages * size, |rows|)]
  {
    if pages > 0 {
      PagesTile(rows, pages - 1, size);
      assert pages * size == (pages - 1) * size + size;
    }
  }
}

/**
 * The post-fetch part of `searchIcons` and `getPopularIcons`
 * (src/lib/icons/iconService.ts): the six providers' answers are flattened in
 * provider order, filtered, de-duplicated and capped, and the result is kept
 * in a module-level cache keyed by a string built from the query.
 *
 * The network is replaced by its answers: a search receives, for each provider
 * in `iconProviders` order, the raw `prefix:name` list that provider's request
 * returned (a failed request contributes the empty list).
 */
module Search {
  import opened Text
  import opened Icons
  import opened Normalizer
  import opened Dedupe

  // ---------------------------------------------------------------------------
  // Providers

  /** A provider: its id (also the `apiSource` tag it stamps on its icons) and its page size. */
  datatype Provider = Provider(id: string, limit: nat)

  /** `iconProviders`, in order. */
  const IconProviders: seq<Provider> := [
    Provider("iconify", 200),
    Provider("fontawesome", 100),
    Provider("material", 100),
    Provider("bootstrap", 100),
    Provider("heroicons", 100),
    Provider("remix", 100)
  ]

  /** `(page - 1) * limit`: the offset a provider requests for a page. */
  function Offset(p: Provider, page: int): int
  {
    (page - 1) * p.limit
  }

  /** Page 1 starts at offset 0 and consecutive pages are adjacent windows of `limit` results. */
  lemma OffsetsTile(p: Provider, page: int)
    requires page >= 1
    ensures Offset(p, 1) == 0
    ensures 0 <= Offset(p, page) && Offset(p, page + 1) == Offset(p, page) + p.limit
  {
  }

  /** Iconify fetches windows of 200, every other provider windows of 100. */
  lemma ProviderLimits()
    ensures |IconProviders| == 6
    ensures IconProviders[0].id == "iconify" && IconProviders[0].limit == 200
    ensures forall i :: 1 <= i < |IconProviders| ==> IconProviders[i].limit == 100
  {
  }

  /** `allResults.flat()`. */
  function Flatten(parts: seq<seq<Icon>>): (r: seq<Icon>)
    ensures forall icon :: icon in r <==> exists i :: 0 <= i < |parts| && icon in parts[i]
  {
    if parts == [] then []
    else
      var init := parts[..|parts| - 1];
      var r := Flatten(init) + parts[|parts| - 1];
      assert forall i :: 0 <= i < |init| ==> init[i] == parts[i];
      r
  }

  /** Flattening one more part of a list appends that part. */
  lemma FlattenPrefixStep(parts: seq<seq<Icon>>, i: nat)
    requires i < |parts|
    ensures Flatten(parts[..i + 1]) == Flatten(parts[..i]) + parts[i]
  {
    assert parts[..i + 1][..i] == parts[..i];
  }

  /** Flattening keeps every part whole and in order: it distributes over concatenation. */
  lemma {:induction false} FlattenAppend(a: seq<seq<Icon>>, b: seq<seq<Icon>>)
    ensures Flatten(a + b) == Flatten(a) + Flatten(b)
    ensures forall p :: Flatten([p]) == p
    decreases |b|
  {
    if b != [] {
      var b' := b[..|b| - 1];
      assert (a + b)[..|a + b| - 1] == a + b';
      assert (a + b)[|a + b| - 1] == b[|b| - 1];
      FlattenAppend(a, b');
    } else {
      assert a + b == a;
    }
    forall p ensures Flatten([p]) == p {
      assert [p][..0] == [];
    }
  }

  /** What each provider's `search` returns, given the raw names its request produced. */
  function ProviderIcons(responses: seq<seq<string>>): (r: seq<seq<Icon>>)
    requires |responses| == |IconProviders|
    ensures |r| == |responses|
    ensures forall i :: 0 <= i < |r| ==> r[i] == NormalizeAll(responses[i], IconProviders[i].id)
  {
    seq(|responses|, i requires 0 <= i < |responses| => NormalizeAll(responses[i], IconProviders[i].id))
  }

  /** Every icon a search gathers is a normalised record stamped with the id of one of the providers. */
  lemma ProviderIconsNormalized(responses: seq<seq<string>>)
    requires |responses| == |IconProviders|
    ensures forall icon :: icon in Flatten(ProviderIcons(responses)) ==>
      Normalized(icon) && exists i :: 0 <= i < |IconProviders| && icon.apiSource == IconProviders[i].id
  {
    var parts := ProviderIcons(responses);
    forall icon | icon in Flatten(parts)
      ensures Normalized(icon) && exists i :: 0 <= i < |IconProviders| && icon.apiSource == IconProviders[i].id
    {
      var i :| 0 <= i < |parts| && icon in parts[i];
      NormalizeAllMember(responses[i], IconProviders[i].id, icon);
    }
  }

  // ---------------------------------------------------------------------------
  // Filters

  /** The optional filter lists; an absent list is the empty one. */
  datatype Filters = Filters(libraries: seq<string>, styles: seq<Style>, categories: seq<string>)

  const NoFilters := Filters([], [], [])

  /** `icons.filter(p)`. */
  function Keep(icons: seq<Icon>, p: Icon -> bool): (r: seq<Icon>)
    ensures |r| <= |icons|
    ensures forall icon :: icon in r <==> icon in icons && p(icon)
  {
    if icons == [] then []
    else (if p(icons[0]) then [icons[0]] else []) + Keep(icons[1..], p)
  }

  /** `filter` keeps order and multiplicity: it distributes over concatenation. */
  lemma {:induction false} KeepAppend(a: seq<Icon>, b: seq<Icon>, p: Icon -> bool)
    ensures Keep(a + b, p) == Keep(a, p) + Keep(b, p)
  {
    if a != [] {
      var head := if p(a[0]) then [a[0]] else [];
      assert (a + b)[0] == a[0] && (a + b)[1..] == a[1..] + b;
      KeepAppend(a[1..], b, p);
      ConcatAssoc(head, Keep(a[1..], p), Keep(b, p));
    } else {
      assert a + b == b;
    }
  }

  /** A one-icon list keeps its icon exactly when the test holds. */
  lemma KeepOne(x: Icon, p: Icon -> bool)
    ensures Keep([x], p) == (if p(x) then [x] else [])
  {
    assert [x][1..] == [];
  }

  /** Two tests that agree on every element keep the same elements. */
  lemma {:induction false} KeepAgree(icons: seq<Icon>, p: Icon -> bool, q: Icon -> bool)
    requires forall x :: x in icons ==> p(x) == q(x)
    ensures Keep(icons, p) == Keep(icons, q)
  {
    if icons != [] {
      assert forall x :: x in icons[1..] ==> x in icons;
      KeepAgree(icons[1..], p, q);
    }
  }

  /** Filtering with a test that holds everywhere keeps everything. */
  lemma {:induction false} KeepAll(icons: seq<Icon>, p: Icon -> bool)
    requires forall x :: x in icons ==> p(x)
    ensures Keep(icons, p) == icons
  {
    if icons != [] {
      assert forall x :: x in icons[1..] ==> x in icons;
      KeepAll(icons[1..], p);
    }
  }

  /** Filtering twice is filtering once with both tests. */
  lemma {:induction false} KeepKeep(icons: seq<Icon>, p: Icon -> bool, q: Icon -> bool, pq: Icon -> bool)
    requires forall x :: pq(x) == (p(x) && q(x))
    ensures Keep(Keep(icons, p), q) == Keep(icons, pq)
  {
    if icons != [] {
      KeepKeep(icons[1..], p, q, pq);
      var head := if p(icons[0]) then [icons[0]] else [];
      KeepAppend(head, Keep(icons[1..], p), q);
    }
  }

  /** An icon passes a filter list when the list is empty or names the icon's value. */
  predicate Matches(icon: Icon, f: Filters)
  {
    && (|f.libraries| == 0 || icon.library in f.libraries)
    && (|f.styles| == 0 || icon.style in f.styles)
    && (|f.categories| == 0 || CategoryId(icon.category) in f.categories)
  }

  /** `Matches` as the test one `filter` call would take. */
  function Matcher(f: Filters): Icon -> bool
  {
    (icon: Icon) => Matches(icon, f)
  }

  /** The three filter steps, each applied only when its list is non-empty. */
  function ApplyFilters(icons: seq<Icon>, f: Filters): (r: seq<Icon>)
    ensures |r| <= |icons|
    ensures forall icon :: icon in r <==> icon in icons && Matches(icon, f)
  {
    var a := if |f.libraries| > 0 then Keep(icons, (icon: Icon) => icon.library in f.libraries) else icons;
    var b := if |f.styles| > 0 then Keep(a, (icon: Icon) => icon.style in f.styles) else a;
    if |f.categories| > 0 then Keep(b, (icon: Icon) => CategoryId(icon.category) in f.categories) else b
  }

  /** The three successive filters are one order-preserving filter by `Matches`. */
  lemma ApplyFiltersIsOneFilter(icons: seq<Icon>, f: Filters)
    ensures ApplyFilters(icons, f) == Keep(icons, Matcher(f))
  {
    var libOk := (icon: Icon) => |f.libraries| == 0 || icon.library in f.libraries;
    var styleOk := (icon: Icon) => |f.styles| == 0 || icon.style in f.styles;
    var catOk := (icon: Icon) => |f.categories| == 0 || CategoryId(icon.category) in f.categories;
    var libStyleOk := (icon: Icon) => libOk(icon) && styleOk(icon);
    var a := if |f.libraries| > 0 then Keep(icons, (icon: Icon) => icon.library in f.libraries) else icons;
    var b := if |f.styles| > 0 then Keep(a, (icon: Icon) => icon.style in f.styles) else a;
    StageIsFilter(icons, |f.libraries| > 0, (icon: Icon) => icon.library in f.libraries, libOk);
    StageIsFilter(a, |f.styles| > 0, (icon: Icon) => icon.style in f.styles, styleOk);
    KeepKeep(icons, libOk, styleOk, libStyleOk);
    StageIsFilter(b, |f.categories| > 0, (icon: Icon) => CategoryId(icon.category) in f.categories, catOk);
    KeepKeep(icons, libStyleOk, catOk, Matcher(f));
  }

  /** A filter step that runs only when `on` is one filter by "`on` implies the test". */
  lemma StageIsFilter(icons: seq<Icon>, on: bool, p: Icon -> bool, q: Icon -> bool)
    requires forall x :: q(x) == (!on || p(x))
    ensures (if on then Keep(icons, p) else icons) == Keep(icons, q)
  {
    if on {
      KeepAgree(icons, p, q);
    } else {
      KeepAll(icons, q);
    }
  }

  // ---------------------------------------------------------------------------
  // The search pipeline

  const MaxIcons := 1000

  /** `if (icons.length > maxIcons) icons = icons.slice(0, maxIcons)`. */
  function Cap(icons: seq<Icon>): (r: seq<Icon>)
    ensures |r| <= MaxIcons && r <= icons
    ensures |icons| <= MaxIcons ==> r == icons
    ensures |icons| > MaxIcons ==> |r| == MaxIcons
  {
    if |icons| > MaxIcons then icons[..MaxIcons] else icons
  }

  /**
   * The filtered list the de-duplication runs over: the gathered icons that
   * pass every non-empty filter list, in gathering order, each as often as
   * it was gathered.
   */
  function Filtered(responses: seq<seq<string>>, f: Filters): (r: seq<Icon>)
    requires |responses| == |IconProviders|
    ensures r == Keep(Flatten(ProviderIcons(responses)), Matcher(f))
  {
    ApplyFiltersIsOneFilter(Flatten(ProviderIcons(responses)), f);
    ApplyFilters(Flatten(ProviderIcons(responses)), f)
  }

  /** The list a cache miss computes and stores: at most a thousand icons, no id twice. */
  function SearchPipeline(responses: seq<seq<string>>, f: Filters): (r: seq<Icon>)
    requires |responses| == |IconProviders|
    ensures |r| <= MaxIcons
    ensures Distinct(Keys(r, ById))
  {
    var d := Dedup(Filtered(responses, f), ById);
    DedupDistinct(Filtered(responses, f), ById);
    KeysOfPrefix(Cap(d), d, ById);
    Cap(d)
  }

  lemma KeysOfPrefix(a: seq<Icon>, b: seq<Icon>, field: DedupKey)
    requires a <= b
    ensures Keys(a, field) <= Keys(b, field)
  {
  }

  /** Every returned icon was gathered from a provider and passes every non-empty filter list. */
  lemma SearchResultsMatch(responses: seq<seq<string>>, f: Filters)
    requires |responses| == |IconProviders|
    ensures forall icon :: icon in SearchPipeline(responses, f) ==>
      icon in Flatten(ProviderIcons(responses)) && Matches(icon, f)
  {
    var d := Dedup(Filtered(responses, f), ById);
    DedupSubset(Filtered(responses, f), ById);
    assert forall icon :: icon in Cap(d) ==> icon in d;
  }

  /** Returned ids follow the order in which they first occur among the filtered results. */
  lemma SearchResultsOrder(responses: seq<seq<string>>, f: Filters)
    requires |responses| == |IconProviders|
    ensures FirstOccurrenceOrder(Keys(SearchPipeline(responses, f), ById), Keys(Filtered(responses, f), ById))
  {
    var gathered := Filtered(responses, f);
    var d := Dedup(gathered, ById);
    DedupFirstOccurrenceOrder(gathered, ById);
    KeysOfPrefix(Cap(d), d, ById);
    FirstOccurrenceOrderPrefix(Keys(Cap(d), ById), Keys(d, ById), Keys(gathered, ById));
  }

  /**
   * Nothing is lost below the cap: when the de-duplicated list fits, every
   * gathered icon that passes the filters has its id in the result; when it
   * does not, the result is its first thousand entries.
   */
  lemma SearchResultsComplete(responses: seq<seq<string>>, f: Filters)
    requires |responses| == |IconProviders|
    ensures var d := Dedup(Filtered(responses, f), ById);
      && (|d| <= MaxIcons ==> forall icon :: icon in Flatten(ProviderIcons(responses)) && Matches(icon, f) ==>
            icon.id in Keys(SearchPipeline(responses, f), ById))
      && (|d| > MaxIcons ==> SearchPipeline(responses, f) == d[..MaxIcons])
  {
    var filtered := Filtered(responses, f);
    DedupSameKeys(filtered, ById);
    forall icon | icon in Flatten(ProviderIcons(responses)) && Matches(icon, f)
      ensures icon.id in Keys(filtered, ById)
    {
      var j :| 0 <= j < |filtered| && filtered[j] == icon;
    }
  }

  // ---------------------------------------------------------------------------
  // Cache key

  function JoinStyles(styles: seq<Style>): string
  {
    JoinWith(seq(|styles|, i requires 0 <= i < |styles| => StyleId(styles[i])), ",")
  }

  /**
   * `${query}|${libraries}|${styles}|${categories}-page${page}`, each list
   * joined with commas: the key starts with the query and a `|` and ends
   * with `-page` and the page's digits.
   */
  function CacheKey(query: string, f: Filters, page: nat): (key: string)
    ensures |key| > |query| && key[..|query|] == query && key[|query|] == '|'
    ensures var tail := "-page" + NatToString(page); |key| >= |tail| && key[|key| - |tail|..] == tail
  {
    query + "|" + JoinWith(f.libraries, ",") + "|" + JoinStyles(f.styles) + "|" + JoinWith(f.categories, ",")
      + "-page" + NatToString(page)
  }

  /**
   * The key is not injective. A `|` in the query is indistinguishable from the
   * separator: the query `q|l` without filters and the query `q` filtered to
   * the library `l|` share a key.
   */
  lemma CacheKeySeparatorCollision(query: string, library: string, page: nat)
    ensures CacheKey(query + "|" + library, NoFilters, page) == CacheKey(query, Filters([library + "|"], [], []), page)
  {
    var f := Filters([library + "|"], [], []);
    assert JoinStyles(f.styles) == "";
    assert JoinWith(f.libraries, ",") == library + "|";
    assert JoinWith(f.categories, ",") == "";
    assert JoinStyles(NoFilters.styles) == "";
    assert JoinWith(NoFilters.libraries, ",") == "";
    assert JoinWith(NoFilters.categories, ",") == "";
  }

  /** A comma inside a filter value is indistinguishable from the list separator. */
  lemma CacheKeyCommaCollision(query: string, page: nat)
    ensures CacheKey(query, Filters(["a,b"], [], []), page) == CacheKey(query, Filters(["a", "b"], [], []), page)
  {
    assert JoinWith(["a", "b"], ",") == "a,b";
    assert JoinWith(["a,b"], ",") == "a,b";
  }

  /** The separator collision on concrete values: both searches use the key "a|b|||-page1". */
  lemma CacheKeyCollisionExample()
    ensures CacheKey("a|b", NoFilters, 1) == "a|b|||-page1"
    ensures CacheKey("a", Filters(["b|"], [], []), 1) == "a|b|||-page1"
  {
    var f := Filters(["b|"], [], []);
    assert JoinStyles(f.styles) == "";
    assert JoinWith(f.libraries, ",") == "b|";
    assert JoinWith(f.categories, ",") == "";
    assert JoinStyles(NoFilters.styles) == "";
    assert JoinWith(NoFilters.libraries, ",") == "";
    assert JoinWith(NoFilters.categories, ",") == "";
    assert NatToString(1) == "1";
  }

  /** The key depends on the order of the filter lists. */
  lemma CacheKeyOrderSensitive(query: string, page: nat)
    ensures CacheKey(query, Filters(["a", "b"], [], []), page) != CacheKey(query, Filters(["b", "a"], [], []), page)
  {
    var k1 := CacheKey(query, Filters(["a", "b"], [], []), page);
    var k2 := CacheKey(query, Filters(["b", "a"], [], []), page);
    assert JoinWith(["a", "b"], ",") == "a,b";
    assert JoinWith(["b", "a"], ",") == "b,a";
    assert k1[|query| + 1] == 'a';
    assert k2[|query| + 1] == 'b';
  }

  /** A query without `|` can be read back from its key as the text before the first `|`. */
  lemma CacheKeyQueryPrefix(query: string, f: Filters, page: nat)
    requires '|' !in query
    ensures BeforeFirst(CacheKey(query, f, page), '|') == query
  {
    var key := CacheKey(query, f, page);
    assert key[..|query|] == query;
    assert key[|query|] == '|';
    BeforeFirstIs(key, '|', |query|);
  }

  // ---------------------------------------------------------------------------
  // Popular icons

  /** The ten fixed queries of iconify's `getPopular`, in order; answer `i` is the raw name list for query `i`. */
  const PopularQueries: seq<string> :=
    ["home", "user", "search", "settings", "arrow", "cart", "check", "star", "menu", "notification"]

  /** Iconify's own `getPopular`: its ten query answers, flattened and de-duplicated by `iconifyName`. */
  function IconifyPopular(queries: seq<seq<string>>): seq<Icon>
    requires |queries| == |PopularQueries|
  {
    Dedup(Flatten(IconifyLists(queries)), ByIconifyName)
  }

  /** One list per popular query: its answer normalised and stamped `iconify`. */
  function IconifyLists(queries: seq<seq<string>>): (r: seq<seq<Icon>>)
    requires |queries| == |PopularQueries|
    ensures |r| == |PopularQueries|
    ensures forall i :: 0 <= i < |r| ==> r[i] == NormalizeAll(queries[i], "iconify")
  {
    seq(|queries|, i requires 0 <= i < |queries| => NormalizeAll(queries[i], "iconify"))
  }

  /** The other five providers' `getPopular` answers, in provider order, each stamped with its provider's id. */
  function OtherPopularLists(others: seq<seq<string>>): (r: seq<seq<Icon>>)
    requires |others| == |IconProviders| - 1
    ensures |r| == |others|
    ensures forall i :: 0 <= i < |r| ==> r[i] == NormalizeAll(others[i], IconProviders[i + 1].id)
  {
    seq(|others|, i requires 0 <= i < |others| => NormalizeAll(others[i], IconProviders[i + 1].id))
  }

  /** What a popular-icons cache miss computes: a list that names no icon twice. */
  function PopularPipeline(queries: seq<seq<string>>, others: seq<seq<string>>): (r: seq<Icon>)
    requires |queries| == |PopularQueries| && |others| == |IconProviders| - 1
    ensures Distinct(Keys(r, ByIconifyName))
  {
    DedupDistinct(IconifyPopular(queries) + Flatten(OtherPopularLists(others)), ByIconifyName);
    Dedup(IconifyPopular(queries) + Flatten(OtherPopularLists(others)), ByIconifyName)
  }

  /**
   * Iconify's inner de-duplication is subsumed by the outer one: the popular
   * list is one de-duplication of everything gathered, in provider order.
   */
  lemma PopularIsOneDedup(queries: seq<seq<string>>, others: seq<seq<string>>)
    requires |queries| == |PopularQueries| && |others| == |IconProviders| - 1
    ensures PopularPipeline(queries, others)
      == Dedup(Flatten(IconifyLists(queries)) + Flatten(OtherPopularLists(others)), ByIconifyName)
  {
    DedupAbsorbs(Flatten(IconifyLists(queries)), Flatten(OtherPopularLists(others)), ByIconifyName);
  }

  // ---------------------------------------------------------------------------
  // Cache eviction

  const MaxCacheEntries := 200
  const EvictCount := 50

  /** The key order `manageCache` leaves: when over the limit, the fifty oldest keys are gone. */
  function Evicted(keys: seq<string>): (r: seq<string>)
    ensures |keys| <= MaxCacheEntries ==> r == keys
    ensures |keys| > MaxCacheEntries ==>
      |r| == |keys| - EvictCount && forall j :: 0 <= j < |r| ==> r[j] == keys[j + EvictCount]
  {
    if |keys| > MaxCacheEntries then keys[EvictCount..] else keys
  }

  /**
   * One store followed by eviction keeps the cache within its limit, drops only
   * the oldest keys, and never drops the key just stored.
   */
  lemma EvictionBound(keys: seq<string>, key: string)
    requires |keys| <= MaxCacheEntries
    ensures |Evicted(keys + [key])| <= MaxCacheEntries
    ensures key in Evicted(keys + [key])
    ensures forall k :: k in Evicted(keys + [key]) ==> k in keys + [key]
    ensures |keys| < MaxCacheEntries ==> Evicted(keys + [key]) == keys + [key]
  {
    var all := keys + [key];
    if |all| > MaxCacheEntries {
      assert Evicted(all)[|all| - 1 - EvictCount] == key;
    }
  }

  /** `keys` with `k` deleted, the rest in their order. */
  function Without(keys: seq<string>, k: string): (r: seq<string>)
    ensures forall k' :: k' in r <==> k' in keys && k' != k
  {
    if keys == [] then []
    else (if keys[0] == k then [] else [keys[0]]) + Without(keys[1..], k)
  }

  lemma {:induction false} WithoutDistinct(keys: seq<string>, k: string)
    requires Distinct(keys)
    ensures Distinct(Without(keys, k))
  {
    if keys != [] {
      WithoutDistinct(keys[1..], k);
      var rest := Without(keys[1..], k);
      assert keys[0] !in keys[1..];
      assert keys[0] !in rest;
    }
  }

  lemma WithoutFirst(keys: seq<string>)
    requires keys != [] && Distinct(keys)
    ensures Without(keys, keys[0]) == keys[1..]
  {
    assert keys[0] !in keys[1..];
    WithoutAbsent(keys[1..], keys[0]);
  }

  lemma {:induction false} WithoutAbsent(keys: seq<string>, k: string)
    requires k !in keys
    ensures Without(keys, k) == keys
  {
    if keys != [] {
      WithoutAbsent(keys[1..], k);
    }
  }

  // ---------------------------------------------------------------------------
  // The service state

  /**
   * The module-level state of the icon service: `searchCache`, whose key
   * order is that of a JavaScript object (insertion order; every key holds a
   * `|`, so none is an array index), and `iconCache['popular']`.
   */
  class IconService {
    var cacheKeys: seq<string>
    var searchCache: map<string, seq<Icon>>
    var popularCache: Option<seq<Icon>>

    /** The key order and the map agree, the limit holds, and every stored list has distinct ids within the cap. */
    ghost predicate Valid()
      reads this
    {
      && KeysMatch()
      && |cacheKeys| <= MaxCacheEntries
      && (forall k :: k in searchCache ==> |searchCache[k]| <= MaxIcons && Distinct(Keys(searchCache[k], ById)))
      && (popularCache.Some? ==> Distinct(Keys(popularCache.value, ByIconifyName)))
    }

    /** The key list is the map's key set, each key once. */
    ghost predicate KeysMatch()
      reads this`cacheKeys, this`searchCache
    {
      && Distinct(cacheKeys)
      && (forall k :: k in searchCache ==> k in cacheKeys)
      && (forall j :: 0 <= j < |cacheKeys| ==> cacheKeys[j] in searchCache)
    }

    constructor()
      ensures Valid()
      ensures cacheKeys == [] && searchCache == map[] && popularCache == None
    {
      cacheKeys := [];
      searchCache := map[];
      popularCache := None;
    }

    /** `delete searchCache[k]`. */
    method Delete(k: string)
      requires KeysMatch()
      modifies this
      ensures KeysMatch()
      ensures searchCache == old(searchCache) - {k}
      ensures cacheKeys == Without(old(cacheKeys), k)
      ensures popularCache == old(popularCache)
    {
      WithoutDistinct(cacheKeys, k);
      searchCache := searchCache - {k};
      cacheKeys := Without(cacheKeys, k);
      forall j | 0 <= j < |cacheKeys|
        ensures cacheKeys[j] in searchCache
      {
        assert cacheKeys[j] in cacheKeys;
      }
    }

    /** `manageCache`: over the limit, delete the first fifty keys of a snapshot of the key list. */
    method ManageCache()
      requires KeysMatch()
      modifies this
      ensures KeysMatch()
      ensures cacheKeys == Evicted(old(cacheKeys))
      ensures forall k :: k in searchCache ==> k in old(searchCache) && searchCache[k] == old(searchCache)[k]
      ensures popularCache == old(popularCache)
    {
      if |cacheKeys| > MaxCacheEntries {
        var entries := cacheKeys;
        for i := 0 to EvictCount
          invariant cacheKeys == entries[i..]
          invariant KeysMatch()
          invariant forall k :: k in searchCache ==> k in old(searchCache) && searchCache[k] == old(searchCache)[k]
          invariant popularCache == old(popularCache)
        {
          WithoutFirst(entries[i..]);
          assert entries[i..][1..] == entries[i + 1..];
          Delete(entries[i]);
        }
      }
    }

    /** `getPopularIcons`: the cached list when there is one (an empty list counts), else a fresh one that is then cached. */
    method GetPopularIcons(queries: seq<seq<string>>, others: seq<seq<string>>) returns (icons: seq<Icon>)
      requires Valid()
      requires |queries| == |PopularQueries| && |others| == |IconProviders| - 1
      modifies this
      ensures Valid()
      ensures old(popularCache).Some? ==> icons == old(popularCache).value
      ensures old(popularCache).None? ==> icons == PopularPipeline(queries, others)
      ensures popularCache == Some(icons)
      ensures cacheKeys == old(cacheKeys) && searchCache == old(searchCache)
    {
      if popularCache.Some? {
        return popularCache.value;
      }
      icons := FetchPopular(queries, others);
      assert Distinct(Keys(icons, ByIconifyName));
      popularCache := Some(icons);
    }

    /** Stores a freshly computed list under its key and trims the cache. */
    method Store(key: string, icons: seq<Icon>)
      requires Valid() && key !in searchCache
      requires |icons| <= MaxIcons && Distinct(Keys(icons, ById))
      modifies this
      ensures Valid()
      ensures cacheKeys == Evicted(old(cacheKeys) + [key])
      ensures key in searchCache && searchCache[key] == icons
      ensures forall k :: k in searchCache && k != key ==> k in old(searchCache) && searchCache[k] == old(searchCache)[k]
      ensures popularCache == old(popularCache)
    {
      searchCache := searchCache[key := icons];
      cacheKeys := cacheKeys + [key];
      EvictionBound(old(cacheKeys), key);
      ManageCache();
      assert key in cacheKeys;
    }

    /**
     * `searchIcons`: a blank query is answered by the popular icons; a cached
     * key by the stored list; anything else by the pipeline over the
     * providers' answers, which is then stored and the cache trimmed.
     */
    method SearchIcons(query: string, filters: Filters, page: nat, responses: seq<seq<string>>,
                       queries: seq<seq<string>>, others: seq<seq<string>>) returns (icons: seq<Icon>)
      requires Valid()
      requires |responses| == |IconProviders|
      requires |queries| == |PopularQueries| && |others| == |IconProviders| - 1
      modifies this
      ensures Valid()
      ensures IsBlank(query) ==>
        && icons == (if old(popularCache).Some? then old(popularCache).value else PopularPipeline(queries, others))
        && popularCache == Some(icons)
        && cacheKeys == old(cacheKeys) && searchCache == old(searchCache)
      ensures var key := CacheKey(query, filters, page);
        !IsBlank(query) && key in old(searchCache) ==>
        && icons == old(searchCache)[key]
        && cacheKeys == old(cacheKeys) && searchCache == old(searchCache) && popularCache == old(popularCache)
      ensures var key := CacheKey(query, filters, page);
        !IsBlank(query) && key !in old(searchCache) ==>
        && icons == SearchPipeline(responses, filters)
        && cacheKeys == Evicted(old(cacheKeys) + [key])
        && key in searchCache && searchCache[key] == icons
        && (forall k :: k in searchCache && k != key ==> k in old(searchCache) && searchCache[k] == old(searchCache)[k])
        && popularCache == old(popularCache)
    {
      if IsBlank(query) {
        icons := GetPopularIcons(queries, others);
        return;
      }
      var key := CacheKey(query, filters, page);
      if key in searchCache {
        return searchCache[key];
      }
      icons := FetchSearch(responses, filters);
      Store(key, icons);
    }
  }

  /** The part of `searchIcons` after the providers answered: flatten, filter, de-duplicate by id, cap. */
  method FetchSearch(responses: seq<seq<string>>, filters: Filters) returns (icons: seq<Icon>)
    requires |responses| == |IconProviders|
    ensures icons == SearchPipeline(responses, filters)
  {
    icons := SearchProviders(responses);
    if |filters.libraries| > 0 {
      icons := Keep(icons, (icon: Icon) => icon.library in filters.libraries);
    }
    if |filters.styles| > 0 {
      icons := Keep(icons, (icon: Icon) => icon.style in filters.styles);
    }
    if |filters.categories| > 0 {
      icons := Keep(icons, (icon: Icon) => CategoryId(icon.category) in filters.categories);
    }
    icons := DedupeIcons(icons, ById);
    if |icons| > MaxIcons {
      icons := icons[..MaxIcons];
    }
  }

  /** The part of `getPopularIcons` after the providers answered: flatten and de-duplicate by `iconifyName`. */
  method FetchPopular(queries: seq<seq<string>>, others: seq<seq<string>>) returns (icons: seq<Icon>)
    requires |queries| == |PopularQueries| && |others| == |IconProviders| - 1
    ensures icons == PopularPipeline(queries, others)
  {
    var all := IconifyGetPopular(queries);
    var rest: seq<Icon> := [];
    for i := 0 to |others|
      invariant rest == Flatten(OtherPopularLists(others)[..i])
    {
      var part := ConvertIconifyResultsToIcons(others[i], IconProviders[i + 1].id);
      FlattenPrefixStep(OtherPopularLists(others), i);
      rest := rest + part;
    }
    assert OtherPopularLists(others)[..|others|] == OtherPopularLists(others);
    icons := DedupeIcons(all + rest, ByIconifyName);
  }

  /** Every provider's `search`, in provider order, flattened. */
  method SearchProviders(responses: seq<seq<string>>) returns (icons: seq<Icon>)
    requires |responses| == |IconProviders|
    ensures icons == Flatten(ProviderIcons(responses))
  {
    icons := [];
    for i := 0 to |IconProviders|
      invariant icons == Flatten(ProviderIcons(responses)[..i])
    {
      var part := ConvertIconifyResultsToIcons(responses[i], IconProviders[i].id);
      FlattenPrefixStep(ProviderIcons(responses), i);
      icons := icons + part;
    }
    assert ProviderIcons(responses)[..|IconProviders|] == ProviderIcons(responses);
  }

  /** Iconify's `getPopular`: its query answers, flattened and de-duplicated by `iconifyName`. */
  method IconifyGetPopular(queries: seq<seq<string>>) returns (icons: seq<Icon>)
    requires |queries| == |PopularQueries|
    ensures icons == IconifyPopular(queries)
  {
    var all: seq<Icon> := [];
    for i := 0 to |queries|
      invariant all == Flatten(IconifyLists(queries)[..i])
    {
      var part := ConvertIconifyResultsToIcons(queries[i], "iconify");
      FlattenPrefixStep(IconifyLists(queries), i);
      all := all + part;
    }
    assert IconifyLists(queries)[..|queries|] == IconifyLists(queries);
    icons := DedupeIcons(all, ByIconifyName);
  }
}

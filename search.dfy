/**
 * The room search pipeline of the app (`performSearch` and the filter panel):
 * candidate ids, the id filter, the price and amenity filter, and the
 * relevance sort, as functions of the catalog, the query, the filters and
 * the matcher.
 */
module Search {
  import opened Types
  import opened Text
  import opened Seqs
  import opened GeminiService
  import opened Sorting
  import Constants

  /** The filter panel's state: a price range (only its upper end is used) and the required amenities. */
  datatype SearchFilters = SearchFilters(priceRange: (int, int), features: seq<string>)

  /** The filters at start-up and after "Reset": prices 0 to 100000, no amenity required. */
  const DefaultFilters: SearchFilters := SearchFilters((0, 100000), [])

  /**
   * Toggling an amenity in a list: a present one is removed (every
   * occurrence), an absent one is appended.
   */
  function ToggleFeature(fs: seq<string>, f: string): seq<string> {
    if f in fs then Filter(fs, (x: string) => x != f) else fs + [f]
  }

  /** Toggling an absent amenity appends it at the end. */
  lemma ToggleAbsentAppends(fs: seq<string>, f: string)
    requires f !in fs
    ensures ToggleFeature(fs, f) == fs + [f]
  {
  }

  /**
   * Toggling a present amenity removes every occurrence of it and keeps
   * every other entry, in order.
   */
  lemma TogglePresentRemoves(fs: seq<string>, f: string)
    requires f in fs
    ensures f !in ToggleFeature(fs, f)
    ensures forall g :: g != f ==> (g in ToggleFeature(fs, f) <==> g in fs)
    ensures IsSubsequence(ToggleFeature(fs, f), fs)
    ensures forall g :: g != f ==> multiset(ToggleFeature(fs, f))[g] == multiset(fs)[g]
  {
    FilterIsSubsequence(fs, (x: string) => x != f);
    forall g | g != f
      ensures multiset(ToggleFeature(fs, f))[g] == multiset(fs)[g]
    {
      FilterCount(fs, (x: string) => x != f, g);
    }
  }

  /** After a toggle the amenity is present exactly when it was absent before. */
  lemma ToggleFlips(fs: seq<string>, f: string)
    ensures f in ToggleFeature(fs, f) <==> f !in fs
  {
  }

  /** Toggling an absent amenity twice gives back the original list. */
  lemma ToggleTwiceRestores(fs: seq<string>, f: string)
    requires f !in fs
    ensures ToggleFeature(ToggleFeature(fs, f), f) == fs
  {
    var p := (x: string) => x != f;
    FilterAppend(fs, [f], p);
    FilterAll(fs, p);
    assert Filter([f], p) == [];
  }

  /** The filters with `f` toggled among the required amenities (the search panel). */
  function ToggleFilterFeature(filters: SearchFilters, f: string): (r: SearchFilters)
    ensures r.priceRange == filters.priceRange
    ensures r.features == ToggleFeature(filters.features, f)
    ensures f in r.features <==> f !in filters.features
  {
    filters.(features := ToggleFeature(filters.features, f))
  }

  /** The filters after the price slider moves to `max`: the range becomes [0, max]. */
  function WithMaxPrice(filters: SearchFilters, max: int): (r: SearchFilters)
    ensures r.priceRange == (0, max) && r.features == filters.features
  {
    filters.(priceRange := (0, max))
  }

  /** The price and amenity test of one room. */
  predicate MatchesFilters(r: Room, filters: SearchFilters) {
    r.price <= filters.priceRange.1
    && (|filters.features| == 0 || forall i :: 0 <= i < |filters.features| ==> filters.features[i] in r.features)
  }

  /**
   * A room passes exactly when its price is at most the ceiling and it has
   * every required amenity; the lower end of the range plays no part.
   */
  lemma MatchesFiltersMeaning(r: Room, filters: SearchFilters, low: int)
    ensures MatchesFilters(r, filters) <==>
              r.price <= filters.priceRange.1 && forall f :: f in filters.features ==> f in r.features
    ensures MatchesFilters(r, filters.(priceRange := (low, filters.priceRange.1))) == MatchesFilters(r, filters)
  {
    if MatchesFilters(r, filters) {
      forall f | f in filters.features
        ensures f in r.features
      {
        var i :| 0 <= i < |filters.features| && filters.features[i] == f;
      }
    }
  }

  /** The ceiling is inclusive: a room priced at it passes the price test, one priced a unit above does not. */
  lemma CeilingIsInclusive(r: Room, filters: SearchFilters)
    requires forall f :: f in filters.features ==> f in r.features
    ensures r.price == filters.priceRange.1 ==> MatchesFilters(r, filters)
    ensures r.price == filters.priceRange.1 + 1 ==> !MatchesFilters(r, filters)
  {
  }

  /** With no amenity required, the price test alone decides. */
  lemma NoFeaturesNoRestriction(r: Room, filters: SearchFilters)
    requires filters.features == []
    ensures MatchesFilters(r, filters) <==> r.price <= filters.priceRange.1
  {
  }

  /** The catalog rooms whose id is among `ids`, in catalog order. */
  function WithIds(rooms: seq<Room>, ids: seq<string>): seq<Room> {
    Filter(rooms, (r: Room) => r.id in ids)
  }

  /** The rooms that pass the filters, in their order. */
  function Passing(rooms: seq<Room>, filters: SearchFilters): seq<Room> {
    Filter(rooms, (r: Room) => MatchesFilters(r, filters))
  }

  /** The first position of `id` in `ids`, or -1 (`ids.indexOf(id)`). */
  function IndexOf(ids: seq<string>, id: string): (k: int)
    ensures -1 <= k < |ids|
    ensures k == -1 <==> id !in ids
    ensures k >= 0 ==> ids[k] == id && forall i :: 0 <= i < k ==> ids[i] != id
  {
    FirstIndex(ids, (x: string) => x == id)
  }

  /** A room's relevance rank: the first position of its id among the matched ids. */
  function Rank(ids: seq<string>): Room -> int {
    (r: Room) => IndexOf(ids, r.id)
  }

  /**
   * The relevance sort (`results.sort((a, b) => ids.indexOf(a.id) -
   * ids.indexOf(b.id))`): the stable sort by rank.
   */
  function RankByRelevance(s: seq<Room>, ids: seq<string>): seq<Room> {
    SortByKey(s, Rank(ids))
  }

  /** The candidate ids: every catalog id for a blank query, otherwise the matcher's answer. */
  function MatchedIds(query: string, catalog: seq<Room>, matcher: Matcher): seq<string> {
    if Trim(query) == "" then Ids(catalog) else SearchRoomsWithAI(query, catalog, matcher)
  }

  /** The result `performSearch` computes from a catalog snapshot and the current query and filters. */
  function SearchResults(query: string, filters: SearchFilters, catalog: seq<Room>, matcher: Matcher): seq<Room> {
    var ids := MatchedIds(query, catalog, matcher);
    var results := Passing(WithIds(catalog, ids), filters);
    if Trim(query) != "" then RankByRelevance(results, ids) else results
  }

  /** A room survives the id filter exactly when it is in the catalog and its id is among `ids`. */
  lemma WithIdsMembers(rooms: seq<Room>, ids: seq<string>, r: Room)
    ensures r in WithIds(rooms, ids) <==> r in rooms && r.id in ids
  {
    if r in rooms && r.id in ids {
      var i :| 0 <= i < |rooms| && rooms[i] == r;
    }
  }

  /** A room survives the filter panel exactly when it is in the list and passes the filters. */
  lemma PassingMembers(rooms: seq<Room>, filters: SearchFilters, r: Room)
    ensures r in Passing(rooms, filters) <==> r in rooms && MatchesFilters(r, filters)
  {
    if r in rooms && MatchesFilters(r, filters) {
      var i :| 0 <= i < |rooms| && rooms[i] == r;
    }
  }

  /**
   * A room is a result exactly when it is in the catalog, its id is among the
   * candidate ids and it passes the filters; candidate ids that name no
   * catalog room add nothing.
   */
  lemma ResultsExactly(query: string, filters: SearchFilters, catalog: seq<Room>, matcher: Matcher, r: Room)
    ensures r in SearchResults(query, filters, catalog, matcher) <==>
              r in catalog && r.id in MatchedIds(query, catalog, matcher) && MatchesFilters(r, filters)
  {
    var ids := MatchedIds(query, catalog, matcher);
    var byId := WithIds(catalog, ids);
    var results := Passing(byId, filters);
    if Trim(query) != "" {
      SortByKeyMembers(results, Rank(ids), r);
    }
    WithIdsMembers(catalog, ids, r);
    PassingMembers(byId, filters, r);
  }

  /** Results draw on the catalog, never more often than the catalog lists a room. */
  lemma ResultsFromCatalog(query: string, filters: SearchFilters, catalog: seq<Room>, matcher: Matcher)
    ensures multiset(SearchResults(query, filters, catalog, matcher)) <= multiset(catalog)
  {
    var ids := MatchedIds(query, catalog, matcher);
    var byId := WithIds(catalog, ids);
    var results := Passing(byId, filters);
    FilterSubMultiset(catalog, (r: Room) => r.id in ids);
    FilterSubMultiset(byId, (r: Room) => MatchesFilters(r, filters));
    if Trim(query) != "" {
      SortByKeyPermutes(results, Rank(ids));
    }
  }

  /** Every result respects the price ceiling and has every required amenity. */
  lemma ResultsRespectFilters(query: string, filters: SearchFilters, catalog: seq<Room>, matcher: Matcher)
    ensures forall r :: r in SearchResults(query, filters, catalog, matcher) ==>
              r.price <= filters.priceRange.1 && forall f :: f in filters.features ==> f in r.features
  {
    forall r | r in SearchResults(query, filters, catalog, matcher)
      ensures r.price <= filters.priceRange.1 && forall f :: f in filters.features ==> f in r.features
    {
      ResultsExactly(query, filters, catalog, matcher, r);
      MatchesFiltersMeaning(r, filters, 0);
    }
  }

  /** For a query that is not blank the results are ordered by relevance rank. */
  lemma ResultsRankedForQuery(query: string, filters: SearchFilters, catalog: seq<Room>, matcher: Matcher)
    requires !IsBlank(query)
    ensures SortedByKey(SearchResults(query, filters, catalog, matcher), Rank(MatchedIds(query, catalog, matcher)))
  {
    TrimEmptyIffBlank(query);
  }

  /** For a blank query the results are the catalog rooms that pass the filters, in catalog order. */
  lemma BlankQueryKeepsCatalogOrder(query: string, filters: SearchFilters, catalog: seq<Room>, matcher: Matcher)
    requires IsBlank(query)
    ensures SearchResults(query, filters, catalog, matcher) == Passing(catalog, filters)
    ensures IsSubsequence(SearchResults(query, filters, catalog, matcher), catalog)
  {
    TrimEmptyIffBlank(query);
    var ids := Ids(catalog);
    forall r | r in catalog
      ensures r.id in ids
    {
      var i :| 0 <= i < |catalog| && catalog[i] == r;
      assert ids[i] == r.id;
    }
    FilterAll(catalog, (r: Room) => r.id in ids);
    FilterIsSubsequence(catalog, (r: Room) => MatchesFilters(r, filters));
  }

  /** Filtering a catalog whose ids are unique keeps them unique. */
  lemma {:induction false} FilterKeepsUniqueIds(s: seq<Room>, p: Room -> bool)
    requires UniqueIds(s)
    ensures UniqueIds(Filter(s, p))
  {
    if s != [] {
      var t := s[1..];
      UniqueIdsTail(s);
      FilterKeepsUniqueIds(t, p);
      var ft := Filter(t, p);
      forall k | 0 <= k < |ft|
        ensures ft[k].id != s[0].id
      {
        var m :| 0 <= m < |t| && t[m] == ft[k];
      }
      assert s == [s[0]] + t;
      FilterCons(s[0], t, p);
      if p(s[0]) {
        UniqueIdsCons(s[0], ft);
      }
    }
  }

  /** Filtering a sequence whose keys never decrease keeps them non-decreasing. */
  lemma {:induction false} FilterKeepsSorted<T>(s: seq<T>, p: T -> bool, key: T -> int)
    requires SortedByKey(s, key)
    ensures SortedByKey(Filter(s, p), key)
  {
    if s != [] {
      var t := s[1..];
      SortedTail(s, key);
      FilterKeepsSorted(t, p, key);
      var ft := Filter(t, p);
      forall k | 0 <= k < |ft|
        ensures key(s[0]) <= key(ft[k])
      {
        var m :| 0 <= m < |t| && t[m] == ft[k];
      }
      assert s == [s[0]] + t;
      FilterCons(s[0], t, p);
      if p(s[0]) {
        SortedCons(s[0], ft, key);
      }
    }
  }

  /** With unique ids, a room's rank among the ids of `s` is its position in `s`. */
  lemma RankIsPosition(s: seq<Room>, i: int)
    requires UniqueIds(s) && 0 <= i < |s|
    ensures Rank(Ids(s))(s[i]) == i
  {
    var ids := Ids(s);
    assert ids[i] == s[i].id;
    var k := IndexOf(ids, s[i].id);
    assert s[k].id == s[i].id;
  }

  /** When the candidates are exactly the fallback's ids and catalog ids are unique, the id filter returns the fallback's rooms. */
  lemma FallbackIdsSelectFallbackRooms(query: string, catalog: seq<Room>)
    requires UniqueIds(catalog)
    ensures WithIds(catalog, FallbackIds(query, catalog)) == FallbackRooms(query, catalog)
  {
    var f := FallbackRooms(query, catalog);
    var ids := Ids(f);
    forall r | r in catalog
      ensures (r.id in ids) == FallbackMatches(query, r)
    {
      if FallbackMatches(query, r) {
        var k :| 0 <= k < |f| && f[k] == r;
        assert ids[k] == r.id;
      }
      if r.id in ids {
        var k :| 0 <= k < |ids| && ids[k] == r.id;
        var i :| 0 <= i < |catalog| && catalog[i] == f[k];
        var j :| 0 <= j < |catalog| && catalog[j] == r;
        assert catalog[i].id == catalog[j].id;
      }
    }
    FilterCongruent(catalog, (r: Room) => r.id in ids, r => FallbackMatches(query, r));
  }

  /**
   * When the matcher fails and catalog ids are unique, a query that is not
   * blank shows the fallback's rooms that pass the filters, in catalog
   * order: the relevance sort has nothing to reorder.
   */
  lemma FallbackResultsInCatalogOrder(query: string, filters: SearchFilters, catalog: seq<Room>, matcher: Matcher)
    requires !IsBlank(query)
    requires matcher(query, RoomsContext(catalog)) == Failed
    requires UniqueIds(catalog)
    ensures SearchResults(query, filters, catalog, matcher) == Passing(FallbackRooms(query, catalog), filters)
  {
    TrimEmptyIffBlank(query);
    var f := FallbackRooms(query, catalog);
    var ids := Ids(f);
    assert MatchedIds(query, catalog, matcher) == ids;
    FallbackIdsSelectFallbackRooms(query, catalog);
    FilterKeepsUniqueIds(catalog, r => FallbackMatches(query, r));
    assert SortedByKey(f, Rank(ids)) by {
      forall i, j | 0 <= i < j < |f|
        ensures Rank(ids)(f[i]) <= Rank(ids)(f[j])
      {
        RankIsPosition(f, i);
        RankIsPosition(f, j);
      }
    }
    FilterKeepsSorted(f, (r: Room) => MatchesFilters(r, filters), Rank(ids));
    SortByKeySortedIsIdentity(Passing(f, filters), Rank(ids));
  }

  /**
   * Unique ids are needed for that: when a later catalog room repeats an
   * earlier room's id, it takes that room's rank and is sorted up next to
   * it, so a failed matcher no longer gives catalog order.
   */
  lemma RepeatedIdReordersFallback(query: string, filters: SearchFilters, catalog: seq<Room>, matcher: Matcher)
    requires |catalog| == 3 && catalog[2].id == catalog[0].id && catalog[1].id != catalog[0].id
    requires !IsBlank(query)
    requires matcher(query, RoomsContext(catalog)) == Failed
    requires forall r :: r in catalog ==> FallbackMatches(query, r) && MatchesFilters(r, filters)
    ensures SearchResults(query, filters, catalog, matcher) == [catalog[0], catalog[2], catalog[1]]
  {
    var ids := Ids(catalog);
    FailedMatcherKeepsAll(query, catalog, matcher);
    AllCandidatesRanked(query, filters, catalog, matcher);
    RepeatedIdSortExample(catalog, ids);
  }

  /** When the matcher fails and the fallback keeps every room, the candidates are all catalog ids in order. */
  lemma FailedMatcherKeepsAll(query: string, catalog: seq<Room>, matcher: Matcher)
    requires !IsBlank(query)
    requires matcher(query, RoomsContext(catalog)) == Failed
    requires forall r :: r in catalog ==> FallbackMatches(query, r)
    ensures MatchedIds(query, catalog, matcher) == Ids(catalog)
  {
    TrimEmptyIffBlank(query);
    FilterAll(catalog, r => FallbackMatches(query, r));
  }

  /** The rank sort of three rooms whose first and third share an id, by their own ids: keys 0, 1, 0 give first, third, second. */
  lemma RepeatedIdSortExample(s: seq<Room>, ids: seq<string>)
    requires |s| == 3 && s[2].id == s[0].id && s[1].id != s[0].id
    requires |ids| == 3 && ids[0] == s[0].id && ids[1] == s[1].id && ids[2] == s[0].id
    ensures RankByRelevance(s, ids) == [s[0], s[2], s[1]]
  {
    var a, b, c := s[0], s[1], s[2];
    var key := Rank(ids);
    assert key(a) == 0 && key(b) == 1 && key(c) == 0;
    var s2, s1 := [b, c], [c];
    assert s[1..] == s2 && s2[1..] == s1 && s1[1..] == [];
    SortByKeyCons(s1, key);
    InsertInFront(c, [], key);
    SortByKeyCons(s2, key);
    InsertBehind(b, s1, key);
    InsertInFront(b, [], key);
    assert SortByKey(s2, key) == [c, b];
    SortByKeyCons(s, key);
    InsertInFront(a, [c, b], key);
  }

  /**
   * A blank query with no amenity required and a ceiling at or above every
   * price returns the whole catalog, in catalog order.
   */
  lemma BlankQueryWholeCatalog(query: string, filters: SearchFilters, catalog: seq<Room>, matcher: Matcher)
    requires IsBlank(query)
    requires filters.features == []
    requires forall r :: r in catalog ==> r.price <= filters.priceRange.1
    ensures SearchResults(query, filters, catalog, matcher) == catalog
  {
    BlankQueryKeepsCatalogOrder(query, filters, catalog, matcher);
    FilterAll(catalog, (r: Room) => MatchesFilters(r, filters));
  }

  /** The relevance sort puts the rooms with ids "1", "2" and "3" in the order "3", "1", "2" of the matched ids. */
  lemma RelevanceSortExample(a: Room, b: Room, c: Room)
    requires a.id == "1" && b.id == "2" && c.id == "3"
    ensures RankByRelevance([a, b, c], ["3", "1", "2"]) == [c, a, b]
  {
    var key := Rank(["3", "1", "2"]);
    assert key(a) == 1 && key(b) == 2 && key(c) == 0;
    SortThree(a, b, c, key);
  }

  /**
   * For a query that is not blank, when every catalog room is a candidate and
   * passes the filters, the result is the whole catalog sorted by relevance.
   */
  lemma AllCandidatesRanked(query: string, filters: SearchFilters, catalog: seq<Room>, matcher: Matcher)
    requires !IsBlank(query)
    requires forall r :: r in catalog ==> r.id in MatchedIds(query, catalog, matcher) && MatchesFilters(r, filters)
    ensures SearchResults(query, filters, catalog, matcher) == RankByRelevance(catalog, MatchedIds(query, catalog, matcher))
  {
    TrimEmptyIffBlank(query);
    var ids := MatchedIds(query, catalog, matcher);
    FilterAll(catalog, (r: Room) => r.id in ids);
    FilterAll(catalog, (r: Room) => MatchesFilters(r, filters));
  }

  /**
   * When the matcher ranks the rooms with ids "1", "2" and "3" as
   * "3", "1", "2" and all three pass the filters, they come out in that order.
   */
  lemma RelevanceOrderExample(query: string, filters: SearchFilters, a: Room, b: Room, c: Room, matcher: Matcher)
    requires a.id == "1" && b.id == "2" && c.id == "3"
    requires !IsBlank(query)
    requires matcher(query, RoomsContext([a, b, c])) == Parsed(["3", "1", "2"])
    requires MatchesFilters(a, filters) && MatchesFilters(b, filters) && MatchesFilters(c, filters)
    ensures SearchResults(query, filters, [a, b, c], matcher) == [c, a, b]
  {
    TrimEmptyIffBlank(query);
    var catalog, ids := [a, b, c], ["3", "1", "2"];
    assert query != "";
    assert SearchRoomsWithAI(query, catalog, matcher) == ids;
    assert MatchedIds(query, catalog, matcher) == ids;
    forall r | r in catalog
      ensures r.id in ids && MatchesFilters(r, filters)
    {
    }
    AllCandidatesRanked(query, filters, catalog, matcher);
    RelevanceSortExample(a, b, c);
  }

  /** Under a ceiling of 20000 with no amenity required, the seed rooms that pass are "1" and "4". */
  lemma SeedPassingUnder20000()
    ensures Passing(Constants.MockRooms, WithMaxPrice(DefaultFilters, 20000)) == [Constants.Lazimpat, Constants.Kirtipur]
  {
    var p := (r: Room) => MatchesFilters(r, WithMaxPrice(DefaultFilters, 20000));
    var l, k, j, t := Constants.Lazimpat, Constants.Koteshwor, Constants.Jhamsikhel, Constants.Kirtipur;
    assert p(l) && !p(k) && !p(j) && p(t);
    assert Constants.MockRooms == [l] + ([k] + ([j] + ([t] + [])));
    FilterCons(t, [], p);
    FilterCons(j, [t] + [], p);
    FilterCons(k, [j] + ([t] + []), p);
    FilterCons(l, [k] + ([j] + ([t] + [])), p);
  }

  /** The ids of the seed rooms under a ceiling of 20000: "1" then "4". */
  lemma SeedIdsUnder20000()
    ensures Ids(Passing(Constants.MockRooms, WithMaxPrice(DefaultFilters, 20000))) == ["1", "4"]
  {
    SeedPassingUnder20000();
    var ids := Ids([Constants.Lazimpat, Constants.Kirtipur]);
    assert ids[0] == Constants.Lazimpat.id && ids[1] == Constants.Kirtipur.id;
  }

  /**
   * On the seed catalog, a blank query under a ceiling of 20000 with no
   * amenity required finds the rooms "1" (15000) and "4" (8000), in that order.
   */
  lemma SeedCatalogUnder20000(query: string, matcher: Matcher)
    requires IsBlank(query)
    ensures Ids(SearchResults(query, WithMaxPrice(DefaultFilters, 20000), Constants.MockRooms, matcher)) == ["1", "4"]
  {
    BlankQueryKeepsCatalogOrder(query, WithMaxPrice(DefaultFilters, 20000), Constants.MockRooms, matcher);
    SeedIdsUnder20000();
  }
}

/**
 * The room matcher behind the search box (`searchRoomsWithAI`). The
 * generative-AI call is an oracle: a function from the query and the catalog
 * context to a reply. Everything around it (the empty-query shortcut, the
 * catalog context, the empty-reply rule and the local fallback) is modelled.
 */
module GeminiService {
  import opened Types
  import opened Text
  import opened Seqs

  /** One catalog entry as the matcher sees it: an id and a descriptive sentence. */
  datatype ContextEntry = ContextEntry(id: string, description: string)

  /**
   * What the awaited AI call yields: a failure (network error, error status,
   * or a body that `JSON.parse` rejects), an empty or missing body, or the
   * parsed array of ids.
   */
  datatype OracleReply = Failed | EmptyText | Parsed(ids: seq<string>)

  /** The AI matcher: given the query and the catalog context, some reply. */
  type Matcher = (string, seq<ContextEntry>) -> OracleReply

  /** The sentence describing one room to the matcher. */
  function Describe(r: Room): string {
    r.title + " in " + r.location + ". Features: " + Join(r.features, ", ")
    + ". Price: " + IntToString(r.price) + ". Description: " + r.description
  }

  /** The catalog as sent to the matcher: one entry per room, in catalog order. */
  function RoomsContext(rooms: seq<Room>): (ctx: seq<ContextEntry>)
    ensures |ctx| == |rooms|
    ensures forall i :: 0 <= i < |rooms| ==> ctx[i].id == rooms[i].id && ctx[i].description == Describe(rooms[i])
  {
    seq(|rooms|, i requires 0 <= i < |rooms| => ContextEntry(rooms[i].id, Describe(rooms[i])))
  }

  /** The fallback test: the lower-cased query occurs in the lower-cased title or location. */
  predicate FallbackMatches(query: string, r: Room) {
    Includes(ToLower(r.title), ToLower(query)) || Includes(ToLower(r.location), ToLower(query))
  }

  /** The rooms the fallback keeps, in catalog order. */
  function FallbackRooms(query: string, rooms: seq<Room>): seq<Room> {
    Filter(rooms, r => FallbackMatches(query, r))
  }

  /** The ids the fallback returns: those of the matching rooms, in catalog order. */
  function FallbackIds(query: string, rooms: seq<Room>): seq<string> {
    Ids(FallbackRooms(query, rooms))
  }

  /** `searchRoomsWithAI(query, availableRooms)`, with the AI call answered by `matcher`. */
  function SearchRoomsWithAI(query: string, rooms: seq<Room>, matcher: Matcher): seq<string> {
    if query == "" then Ids(rooms)
    else
      match matcher(query, RoomsContext(rooms))
      case Failed => FallbackIds(query, rooms)
      case EmptyText => []
      case Parsed(ids) => ids
  }

  /** An empty query returns every catalog id in catalog order, whatever the matcher would say. */
  lemma EmptyQueryShortcut(rooms: seq<Room>, m1: Matcher, m2: Matcher)
    ensures SearchRoomsWithAI("", rooms, m1) == Ids(rooms)
    ensures SearchRoomsWithAI("", rooms, m1) == SearchRoomsWithAI("", rooms, m2)
  {
  }

  /**
   * The reply decides the result for a non-empty query: a failure gives the
   * fallback, an empty body gives no ids (not the fallback), and a parsed
   * array is returned as it is.
   */
  lemma ReplyDecidesResult(query: string, rooms: seq<Room>, matcher: Matcher)
    requires query != ""
    ensures matcher(query, RoomsContext(rooms)) == Failed ==>
              SearchRoomsWithAI(query, rooms, matcher) == FallbackIds(query, rooms)
    ensures matcher(query, RoomsContext(rooms)) == EmptyText ==>
              SearchRoomsWithAI(query, rooms, matcher) == []
    ensures matcher(query, RoomsContext(rooms)).Parsed? ==>
              SearchRoomsWithAI(query, rooms, matcher) == matcher(query, RoomsContext(rooms)).ids
  {
  }

  /**
   * A room is kept by the fallback exactly when it is in the catalog and the
   * lower-cased query occurs at some position of its lower-cased title or
   * of its lower-cased location.
   */
  lemma FallbackKeepsExactlyMatches(query: string, rooms: seq<Room>, r: Room)
    ensures r in FallbackRooms(query, rooms) <==>
              r in rooms
              && ((exists i :: OccursAt(ToLower(r.title), ToLower(query), i))
                  || (exists i :: OccursAt(ToLower(r.location), ToLower(query), i)))
  {
    IncludesIffOccurs(ToLower(r.title), ToLower(query));
    IncludesIffOccurs(ToLower(r.location), ToLower(query));
    if r in rooms && FallbackMatches(query, r) {
      var k :| 0 <= k < |rooms| && rooms[k] == r;
    }
  }

  /** The fallback's rooms are a subsequence of the catalog, and its ids are theirs, position by position. */
  lemma FallbackInCatalogOrder(query: string, rooms: seq<Room>)
    ensures IsSubsequence(FallbackRooms(query, rooms), rooms)
    ensures |FallbackIds(query, rooms)| == |FallbackRooms(query, rooms)|
    ensures forall i :: 0 <= i < |FallbackIds(query, rooms)| ==>
              FallbackIds(query, rooms)[i] == FallbackRooms(query, rooms)[i].id
  {
    FilterIsSubsequence(rooms, r => FallbackMatches(query, r));
  }

  /**
   * Only titles and locations are searched: two catalogs that agree, room by
   * room, on id, title and location get the same fallback ids, whatever their
   * descriptions, features or prices.
   */
  lemma {:induction false} FallbackSearchesTitleAndLocationOnly(query: string, a: seq<Room>, b: seq<Room>)
    requires |a| == |b|
    requires forall i :: 0 <= i < |a| ==>
               a[i].id == b[i].id && a[i].title == b[i].title && a[i].location == b[i].location
    ensures FallbackIds(query, a) == FallbackIds(query, b)
  {
    if a != [] {
      FallbackSearchesTitleAndLocationOnly(query, a[1..], b[1..]);
      var ta := if FallbackMatches(query, a[0]) then [a[0]] else [];
      var tb := if FallbackMatches(query, b[0]) then [b[0]] else [];
      assert FallbackRooms(query, a) == ta + FallbackRooms(query, a[1..]);
      assert FallbackRooms(query, b) == tb + FallbackRooms(query, b[1..]);
      IdsAppend(ta, FallbackRooms(query, a[1..]));
      IdsAppend(tb, FallbackRooms(query, b[1..]));
      assert Ids(ta) == Ids(tb);
    }
  }

  /** The catalog context lists the catalog ids in catalog order. */
  lemma ContextIdsInCatalogOrder(rooms: seq<Room>)
    ensures seq(|RoomsContext(rooms)|, i requires 0 <= i < |RoomsContext(rooms)| => RoomsContext(rooms)[i].id) == Ids(rooms)
  {
  }
}

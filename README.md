# eKotha room search, listing and account core in Dafny

eKotha is a room-rental web app for Nepal. Seekers search a catalog of
listed rooms. Users who have passed a KYC (identity) check list rooms of
their own. All data lives in the browser's local storage. This project models
the core of the app and proves properties of the model:

- **the search pipeline** (`performSearch`): the candidate ids (the whole
  catalog for a blank query, the AI matcher's answer otherwise), the id
  filter, the price-ceiling and amenity filter, and the stable relevance
  sort by the matcher's ranking;
- **the AI matcher wrapper** (`searchRoomsWithAI`): its own empty-query
  shortcut, the catalog context sent to the model, the empty-reply rule and
  the local title/location fallback. The model call itself is an oracle,
  a function parameter of type `Matcher`;
- **the filter panel**: amenity toggling (both toggles), the price slider
  and the reset value;
- **the rules around listing and renting**: the KYC gate in front of the
  add-room form, the payment-provider hand-off, and the records the
  add-room and sign-up forms build;
- **the storage layer `db`**: a class `Db.LocalStore` whose fields are the
  storage keys, and whose methods are the layer's operations;
- **the app's shared state**: a class `App.AppState` whose methods are the
  handlers that change it.

Modules follow the source's structure:

| module | file | source |
|---|---|---|
| `Types` | types.dfy | the records of `types.ts` |
| `Constants` | constants.dfy | the seed catalog |
| `Seqs` | seqs.dfy | `filter`, `findIndex` |
| `Text` | text.dfy | `trim`, `toLowerCase`, `includes`, `join`, number to text |
| `Sorting` | sorting.dfy | `Array.prototype.sort`, stable |
| `GeminiService` | gemini_service.dfy | `searchRoomsWithAI` |
| `Db` | db.dfy | `services/db.ts` |
| `Search` | search.dfy | the search pipeline and the filter panel |
| `App` | app.dfy | the handlers of `App.tsx` |
| `SeedSharing` | seed_sharing.dfy | the finding below |

Three behaviours of the code worth knowing:

- **Empty AI reply.** An empty or missing AI reply gives no ids. It does not
  fall back to the local text match (`services/geminiService.ts:41`).
- **Two blank-query tests.** `searchRoomsWithAI` short-cuts only the empty
  string (`!query`). `performSearch` short-cuts any query that trims to
  nothing. Both tests are modelled.
- **Ids missing from the ranking.** The relevance sort gives those rooms the
  rank -1, so they would sort first. This cannot happen, because the id
  filter runs before the sort.

Inputs rather than behaviour:

- the clock (`Date.now()`): ids, picture stamps, upload times;
- `parseInt` of the price field;
- `btoa`, as the store's `encrypt` function;
- the AI model's reply, as the `Matcher` oracle.

## Model

| member | source | states |
|---|---|---|
| Types.Ids | App.tsx:726 | the ids of a room list, position by position |
| Constants.MockRoomsShape | constants.ts:4-71 | the seed catalog has four example rooms with the distinct ids "1" to "4" |
| Seqs.Filter | App.tsx:732-739 | a filter keeps exactly the elements satisfying the test, each from the input |
| Seqs.FilterIsSubsequence | App.tsx:732-739 | a filter keeps the input's order |
| Seqs.FilterSubMultiset | App.tsx:732-739 | a filter never repeats an element more often than the input |
| Seqs.FilterCount | services/db.ts:103 | a filter keeps every copy of an element that passes and none of one that fails |
| Seqs.FilterCongruent | services/geminiService.ts:46-47 | two tests that agree on every element filter alike |
| Seqs.FirstIndex | services/db.ts:28 | -1 exactly when no element matches, otherwise the first matching position |
| Text.TrimStart | App.tsx:725 | the suffix left after the leading whitespace, which starts with a non-whitespace character |
| Text.TrimEnd | App.tsx:725 | the prefix left before the trailing whitespace, which ends with a non-whitespace character |
| Text.Trim | App.tsx:725 | `String.prototype.trim`: both ends stripped of whitespace, as TrimStart and TrimEnd state |
| Text.TrimEmptyIffBlank | App.tsx:725 | a query trims to the empty string exactly when every character is whitespace |
| Text.ToLower | services/geminiService.ts:47 | lower-casing keeps the length and maps A-Z to a-z, leaving every other character |
| Text.Includes | services/geminiService.ts:47 | `String.prototype.includes`, characterised by IncludesIffOccurs |
| Text.IncludesIffOccurs | services/geminiService.ts:47 | `includes` holds exactly when the needle occurs at some position |
| Text.Join | services/geminiService.ts:14 | `Array.prototype.join`: the parts with the separator between consecutive ones, measured by JoinLength |
| Text.JoinLength | services/geminiService.ts:14 | a join is as long as its parts plus one separator fewer than there are parts |
| Text.NatToString | App.tsx:166 | a picture stamp prints as decimal digits with no leading zero; IntToString uses it for the magnitude |
| Text.NatToStringRoundTrip | App.tsx:166 | reading the printed digits back gives the number |
| Text.IntToString | services/geminiService.ts:14 | a price prints as a decimal integer literal, with a minus sign exactly when it is negative |
| Text.IntToStringRoundTrip | services/geminiService.ts:14 | reading the printed price back, sign included, gives the price |
| Text.IntToStringOfNat | services/geminiService.ts:14 | a price that is not negative prints as its unsigned digits |
| GeminiService.SearchRoomsWithAI | services/geminiService.ts:8-50 | `searchRoomsWithAI` with the AI call answered by the matcher; EmptyQueryShortcut and ReplyDecidesResult state its cases |
| GeminiService.Describe | services/geminiService.ts:14 | the sentence describing a room to the matcher: title, location, features, price, description |
| GeminiService.RoomsContext | services/geminiService.ts:12-15 | one context entry per catalog room, in catalog order, with the room's id and description sentence |
| GeminiService.ContextIdsInCatalogOrder | services/geminiService.ts:12-15 | the context lists the catalog ids in catalog order |
| GeminiService.EmptyQueryShortcut | services/geminiService.ts:9 | an empty query returns every catalog id whatever the matcher would answer |
| GeminiService.ReplyDecidesResult | services/geminiService.ts:40-48 | a failed call gives the fallback ids, an empty reply gives no ids, a parsed reply is returned unchanged |
| GeminiService.FallbackMatches | services/geminiService.ts:47 | the fallback test on one room, characterised by FallbackKeepsExactlyMatches |
| GeminiService.FallbackRooms | services/geminiService.ts:46-47 | the rooms the fallback keeps, in catalog order |
| GeminiService.FallbackIds | services/geminiService.ts:46-48 | the ids the fallback returns, as FallbackInCatalogOrder states |
| GeminiService.FallbackKeepsExactlyMatches | services/geminiService.ts:46-48 | the fallback keeps a room exactly when the lower-cased query occurs in its lower-cased title or location |
| GeminiService.FallbackInCatalogOrder | services/geminiService.ts:46-48 | the fallback's rooms keep catalog order and its ids are theirs |
| GeminiService.FallbackSearchesTitleAndLocationOnly | services/geminiService.ts:47 | descriptions, features and prices play no part in the fallback |
| Db.UserIndex | services/db.ts:28 | -1 exactly when no account has the id, otherwise the first position with it |
| Db.FindByCredentials | services/db.ts:68-71 | no result exactly when no account has the email and hash, otherwise the first account that does |
| Db.Replaced | services/db.ts:26-31 | the first account with the id is replaced, every other position and every id is unchanged, nothing changes without a match |
| Db.ReplacedIdempotent | services/db.ts:26-31 | updating twice with the same record is updating once |
| Db.KycVerified | services/db.ts:47-55 | the account becomes verified with the documents attached, every other field its own |
| Db.AsUserListing | services/db.ts:95 | a stored listing is never an example and differs from the submitted one only in that flag |
| Db.NotificationsFor | services/db.ts:100-104 | exactly the notifications addressed to the user, every copy of each, in stored order |
| Db.LocalStore.constructor | services/db.ts:5-8 | fresh storage: no accounts, no session, the seed catalog, no notifications |
| Db.LocalStore.GetUsers | services/db.ts:15-18 | returns the stored accounts |
| Db.LocalStore.SaveUser | services/db.ts:20-24 | appends the account, changes nothing else, keeps the store valid |
| Db.LocalStore.UpdateUser | services/db.ts:26-38 | accounts become `Replaced`; the session becomes the record when its id matches a stored account; the store stays valid |
| Db.LocalStore.SubmitKyc | services/db.ts:40-66 | no result and no change exactly when no account has the id; otherwise the verified account, stored in place and in a matching session |
| Db.LocalStore.Login | services/db.ts:68-77 | returns `FindByCredentials` on the scrambled password; the session becomes the match, and is kept on no match |
| Db.LocalStore.Logout | services/db.ts:79-81 | ends the session, changes nothing else |
| Db.LocalStore.GetCurrentUser | services/db.ts:83-86 | the session user, one of the stored accounts when the store is valid |
| Db.LocalStore.GetRooms | services/db.ts:88-91 | the stored catalog, or the seed catalog while none is stored; example rooms come only from the seed |
| Db.LocalStore.AddRoom | services/db.ts:93-98 | the catalog becomes the listing, unflagged, followed by the catalog read before |
| Db.LocalStore.GetNotifications | services/db.ts:100-104 | the user's notifications |
| Db.LoginAfterSave | services/db.ts:20-24 | after saving an account, logging in with its credentials finds the first account with them, the new one when no earlier one has them |
| Sorting.SortByKey | App.tsx:742-744 | the sort keeps the length and yields non-decreasing keys |
| Sorting.SortByKeyPermutes | App.tsx:742-744 | the sort is a permutation |
| Sorting.SortByKeyMembers | App.tsx:742-744 | the sort keeps exactly the elements it is given |
| Sorting.SortByKeyStable | App.tsx:742-744 | elements with equal keys keep their relative order |
| Sorting.SortByKeySortedIsIdentity | App.tsx:742-744 | an already sorted list is left as it is |
| Sorting.SortByKeyIdempotent | App.tsx:742-744 | sorting twice is sorting once |
| Sorting.InsertByKeySorted | App.tsx:742-744 | inserting into a sorted list keeps it sorted |
| Sorting.InsertByKeyPermutes | App.tsx:742-744 | an insertion adds exactly the inserted element |
| Sorting.WithKeyInsert | App.tsx:742-744 | an insertion puts the element in front of the elements with its key and keeps their order |
| Sorting.SortThree | App.tsx:742-744 | keys 1, 2, 0 sort three elements as third, first, second |
| Search.ToggleFeature | App.tsx:179-181 | the amenity toggle shared by the add-room form and the search panel (App.tsx:347-352); the four lemmas below state it |
| Search.ToggleAbsentAppends | App.tsx:179-181 | toggling an absent amenity appends it |
| Search.TogglePresentRemoves | App.tsx:179-181 | toggling a present amenity removes every occurrence and keeps every other entry, every copy of it, in order |
| Search.ToggleFlips | App.tsx:347-352 | after a toggle the amenity is present exactly when it was absent |
| Search.ToggleTwiceRestores | App.tsx:347-352 | toggling an absent amenity twice restores the list |
| Search.ToggleFilterFeature | App.tsx:347-352 | the search panel's amenities become the toggled list, so the toggle lemmas apply; the price range is kept |
| Search.WithMaxPrice | App.tsx:400 | the slider sets the range to 0 up to the chosen price, amenities kept |
| Search.MatchesFilters | App.tsx:735-739 | the price and amenity test of one room, characterised by MatchesFiltersMeaning |
| Search.MatchesFiltersMeaning | App.tsx:735-739 | a room passes exactly when its price is at most the ceiling and it has every required amenity; the lower bound plays no part |
| Search.CeilingIsInclusive | App.tsx:736 | a price equal to the ceiling passes, one unit above fails |
| Search.NoFeaturesNoRestriction | App.tsx:737 | with no amenity required only the price decides |
| Search.WithIds | App.tsx:732 | the catalog rooms whose id is a candidate, in catalog order |
| Search.Passing | App.tsx:735-739 | the rooms that pass the filter panel, in their order |
| Search.Rank | App.tsx:743 | a room's rank: the first position of its id among the candidates |
| Search.RankByRelevance | App.tsx:741-744 | the stable sort by rank, whose properties the Sorting lemmas state |
| Search.MatchedIds | App.tsx:724-729 | the candidate ids: every catalog id for a blank query, the matcher's answer otherwise |
| Search.SearchResults | App.tsx:719-748 | the search result on a catalog snapshot; the Results lemmas below state its properties |
| Search.IndexOf | App.tsx:743 | -1 exactly when the id is absent, otherwise its first position |
| Search.WithIdsMembers | App.tsx:732 | a room survives the id filter exactly when its id is a candidate |
| Search.PassingMembers | App.tsx:735-739 | a room survives the filter panel exactly when it passes the filters |
| Search.ResultsExactly | App.tsx:719-748 | a room is a result exactly when it is in the catalog, its id is a candidate and it passes the filters |
| Search.ResultsFromCatalog | App.tsx:719-748 | results never list a catalog room more often than the catalog does |
| Search.ResultsRespectFilters | App.tsx:735-739 | every result is under the ceiling and has every required amenity |
| Search.ResultsRankedForQuery | App.tsx:742-744 | for a query that is not blank, the results are ordered by the matcher's ranking |
| Search.BlankQueryKeepsCatalogOrder | App.tsx:725-726 | a blank query gives the passing catalog rooms in catalog order |
| Types.UniqueIdsTail | App.tsx:732 | the tail of a catalog with unique ids has unique ids, none equal to the head's |
| Types.UniqueIdsCons | App.tsx:732 | a room whose id is new can go in front of a unique-id catalog |
| Sorting.SortedTail | App.tsx:743 | the tail of a sorted list is sorted and no key in it is below the head's |
| Sorting.SortedCons | App.tsx:743 | an element with a key no greater than the rest can go in front of a sorted list |
| Search.FilterKeepsUniqueIds | App.tsx:732-739 | filtering a catalog with unique ids keeps them unique |
| Search.FilterKeepsSorted | App.tsx:732-743 | filtering a list already sorted by rank leaves it sorted |
| Search.RankIsPosition | App.tsx:743 | with unique ids, a room's rank among a list's ids is its position in the list |
| Search.FallbackIdsSelectFallbackRooms | App.tsx:732 | with unique catalog ids, the id filter on the fallback's ids returns exactly the fallback's rooms |
| Search.FallbackResultsInCatalogOrder | App.tsx:727-745 | when the matcher fails and catalog ids are unique, a query that is not blank shows the fallback's passing rooms in catalog order |
| Search.FailedMatcherKeepsAll | App.tsx:727-728 | when the matcher fails and the fallback keeps every room, the candidates are all catalog ids in order |
| Search.RepeatedIdReordersFallback | App.tsx:727-745 | with a failed matcher, a third room repeating the first room's id is sorted up beside it: the results are first, third, second |
| Search.RepeatedIdSortExample | App.tsx:743 | the rank sort of three rooms whose first and third share an id gives first, third, second |
| Search.BlankQueryWholeCatalog | App.tsx:725-739 | a blank query with no amenity and a high enough ceiling shows the whole catalog |
| Search.AllCandidatesRanked | App.tsx:728-744 | when every room is a candidate and passes, the results are the catalog in ranking order |
| Search.RelevanceSortExample | App.tsx:743 | rooms "1", "2", "3" ranked "3", "1", "2" come out in that order |
| Search.RelevanceOrderExample | App.tsx:719-748 | a matcher answering "3", "1", "2" makes the search show the rooms in that order |
| Search.SeedPassingUnder20000 | App.tsx:735-739 | on the seed catalog a ceiling of 20000 passes rooms "1" and "4" |
| Search.SeedIdsUnder20000 | App.tsx:735-739 | the seed rooms passing a ceiling of 20000 have the ids "1" then "4" |
| Search.SeedCatalogUnder20000 | App.tsx:719-748 | a blank search of the seed catalog under 20000 shows "1" then "4" |
| App.ListRoomAction | App.tsx:707-713 | the add-room form opens exactly for a verified user; anyone else gets the KYC form |
| App.ListingOpensAfterKyc | App.tsx:707-713 | after a KYC submission listing opens the add-room form; before, the KYC form |
| App.PaymentEffects | App.tsx:560-581 | an unverified user is only sent to KYC; a verified one sees the owner's wallet id or the manual-transfer message, then the provider site opens and the rental goes ahead |
| App.PaymentNeedsOnlyVerification | App.tsx:560-581 | renting and redirecting happen exactly for a verified user, and the listing changes only the message |
| App.ProviderName | App.tsx:572 | how the provider is named in the messages |
| App.ProviderUrl | App.tsx:568 | the provider's site |
| App.OwnerWalletId | App.tsx:567 | the owner's wallet id for the provider, absent without payment details |
| App.IsSet | App.tsx:570 | the truth test on a wallet id: present and not empty |
| App.OrAbsent | App.tsx:170-171 | an empty field means no value |
| App.NewRoom | App.tsx:156-173 | the submitted listing carries the form's values and owner, is available, not an example, with one picture and the wallet ids given |
| App.NewRoomStoredAndPayable | App.tsx:156-175 | the store keeps a new listing unchanged, and a payment names the owner's wallet id exactly when one was typed |
| App.NewUser | App.tsx:92-99 | the new account is a seeker with KYC not started and the scrambled password |
| App.SignUpThenSignInSucceeds | App.tsx:92-102 | signing in right after signing up finds an account, the new one unless an earlier one has the same credentials |
| App.AppState.constructor | App.tsx:666-684 | no user, empty query, the seed catalog shown, default filters, nothing open |
| App.AppState.Mount | App.tsx:688-696 | the stored session user, if any, and the stored catalog are loaded |
| App.AppState.SetSearchQuery | App.tsx:365 | only the query changes |
| App.AppState.PerformSearch | App.tsx:719-748 | the shown rooms become `SearchResults` of the query, filters and stored catalog; the busy flag ends lowered |
| App.AppState.ToggleFilter | App.tsx:347-352 | only the filters change, by `ToggleFilterFeature` |
| App.AppState.SetMaxPrice | App.tsx:400 | only the filters change, by `WithMaxPrice` |
| App.AppState.ResetFilters | App.tsx:389 | the filters return to prices 0 to 100000 and no amenity |
| App.AppState.ListRoom | App.tsx:707-713 | opens the form `ListRoomAction` chooses, nothing else |
| App.AppState.AddRoom | App.tsx:715-717 | the new listing is shown in front of the rooms already shown |
| App.AppState.SubmitNewRoom | App.tsx:154-177 | the listing is built, stored in front of the catalog, shown first, and the form closes |
| App.AppState.SelectRoom | App.tsx:703-705 | opens the room's page |
| App.AppState.RequestPayment | App.tsx:560-581 | the effects are `PaymentEffects`; an unverified user gets the KYC form, a rental closes the page |
| App.AppState.SignUp | App.tsx:92-102 | the account is appended, the store's session is the first account with those credentials, the app's user is the new account |
| App.AppState.SignIn | App.tsx:85-90 | a match becomes the user of both store and app; no match reports "Invalid credentials" and changes nothing |
| App.AppState.SubmitKyc | components/KYCModal.tsx:34-47 | nothing happens without both pictures; otherwise a found account becomes the verified user and the form closes, and the store's session takes the verified account exactly when it is that user's (services/db.ts:59-62) |
| SeedSharing.SharedCatalogStore.GetRooms | services/db.ts:88-91 | while nothing is stored, returns the seed array object itself |
| SeedSharing.SharedCatalogStore.AddRoom | services/db.ts:93-98 | while nothing is stored, grows the seed array in place |
| SeedSharing.NewListingShownTwice | App.tsx:677-717 | on fresh storage, listing a room before any search shows it twice |
| SeedSharing.NewListingShownOnce | App.tsx:677-717 | with catalogs as values, the new listing is shown once, and the shown list is the stored catalog |

## Left out

- Map coordinates (`lat`, `lng`): they are floating point, and their
  random jitter plays no part in search, listing or payment.
- JSON encoding and decoding: stored values are modelled as values. Only
  the shared seed array, in `SeedSharing`, is modelled as an object.
- `btoa`: modelled as an arbitrary string function `encrypt`.
- `Date.now`, `Math.random` and `parseInt`: their results are parameters.
- The AI call `generateContent`: modelled as the `Matcher` oracle. The prompt
  text is not modelled, because only the oracle reads it.
- `verifyKYCWithAI` and the rest of `services/geminiService.ts` after line
  50: it is not part of this model.
- The rendering, translations, onboarding, dark mode and the file reader of
  the KYC form.
- Text.ToLower: only A-Z are lower-cased, not the full Unicode case mapping
  of `toLowerCase`.
- Text.IntToString: number-to-text is modelled for integers only. Prices and
  stamps are integers here.
- App.AppState.PerformSearch: the function is asynchronous, and a second
  search or another handler can run while it awaits the AI reply. The model
  runs each search to its end as one step.
- App.AppState.SignUp: `btoa` throws on a password holding a character outside
  Latin-1. Sign-up then stops before the account is saved (App.tsx:96-100).
  The model's `encrypt` is total, so SignUp always saves and signs in.
- App.AppState.SignIn: for the same passwords `login` throws
  (services/db.ts:70) instead of reporting "Invalid credentials". The model
  always reaches one of its two outcomes.
- GeminiService.OracleReply: a parsed reply is modelled as a list of strings
  only. `JSON.parse` can also yield other values (services/geminiService.ts:42).
  Null, a number or a plain object makes the search throw at App.tsx:732, and
  the busy flag stays raised. A string reply does not throw: `includes` and
  `indexOf` then match substrings of it, and the flag is lowered as usual.
  App.AppState.PerformSearch models neither case.
- App.AppState.SubmitKyc: the 1.5-second delay before the store is called is
  not modelled.
- Search.BlankQueryKeepsCatalogOrder: catalog order is promised for a blank
  query, and by `Search.FallbackResultsInCatalogOrder` for a failed matcher
  when catalog ids are unique. With a repeated id the fallback path can
  reorder: a later room with the id ranks with the first one, as
  `Search.RepeatedIdReordersFallback` shows. Otherwise the
  results are in rank order, as `Search.ResultsRankedForQuery` states.
- Db.LocalStore: storage failures such as a full quota or disabled storage
  are not modelled.

## Findings

| source | as written | input that shows it | evidently intended | confidence | as-written member | corrected member |
|---|---|---|---|---|---|---|
| services/db.ts:88-98 | `getRooms` returns the seed array itself while no catalog is stored, and `addRoom` calls `unshift` on it. The app's shown rooms were set from `getRooms` at mount, so they are that same array. `handleAddRoom` then prepends the new listing to an array that already holds it. | Fresh storage; a verified user lists room R before any search. The shown list becomes R, R, then the four seed rooms. | R shown once, in front of the seed rooms, so `getRooms` should return a copy of the seed array | medium, not executed | SeedSharing.NewListingShownTwice | SeedSharing.NewListingShownOnce |

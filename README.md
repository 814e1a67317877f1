# Coffee Connoisseur: a Dafny model of its data and state core

This project models the part of the Coffee Connoisseur web app that keeps and changes data. The app shows coffee shops near the user and lets visitors upvote them. The model covers:

- **The hosted `coffee-stores` table and its helpers** (`lib/airtable.ts`). The table is a class `Airtable.Table` over a sequence of rows; `create` and `update` change it in place. A record is flattened into one object (`getMinifiedRecord`). The lookup `findRecordByFilter` reads the minified first page of the records whose `id` cell equals a key.
- **Three API routes**:
  - `POST /api/createCoffeeStore` finds a store or creates it, and `PUT /api/favouriteCoffeeStoreById` upvotes a store. Each is a pure function that gives the response and the table it leaves, plus a `Handler` method that runs against a `Table` and is proved to match that function.
  - `GET /api/getCoffeeStoreById` is read-only. It is a pure function of the table's rows that gives only a response.
- **The nearby-store fetcher** (`lib/coffee-stores.ts`): the request URL, the photo list, and the mapping of places to stores. The photo search and the places request are network calls, so they are passed in as functions.
- **The client store reducer** (`store/store-context.tsx`) and what a sequence of dispatches leaves behind.
- **The location-tracking hook** (`hooks/use-track-location.ts`): a class whose two state variables are set by `handleTrackLocation`, `success` and `error`, with the store dispatches it makes.

JavaScript values reaching the handlers are `Js.JsValue` (`undefined`, `null`, booleans, integers, strings). Truthiness, `${v}`, `v + 1` and `join` are written out explicitly.

Each handler turns the failures of the hosted table into a parameter: `lookupError`, `createError` or `updateError`. Each holds the message of the error the service raises, when it raises one.

The model follows the code as written, including five behaviours a reader might not expect:

- `createCoffeeStore` stores the `voting` value sent in the body (`undefined` when none is sent); it does not reset it to 0.
- The upvote and get routes never set a status on success or on not-found. The framework's default then applies.
- An absent (`undefined`) id passes the `id !== null && id !== ''` check:
  - `createCoffeeStore` then looks up the text `"undefined"` and creates a row without an id, once per request.
  - `getCoffeeStoreById` fails at `id.toString()` and answers 500.
- `favouriteCoffeeStoreById` sends no response at all for a method other than PUT.
- A string `voting` cell is upvoted by string concatenation (`"3" + 1` is `"31"`).

## Model

| member | source | states |
|---|---|---|
| `Airtable.GetMinifiedRecord` | lib/airtable.ts:21-26 | the minified record's keys are the row's fields plus `recordId`; every field is copied; `recordId` is the row's record id unless a field of that name overrides it |
| `Airtable.MinifiedRecordIdOfSchemaRow` | lib/airtable.ts:21-26 | for a row holding only the table's columns, `recordId` reads back the record id and every other property reads back its field |
| `Airtable.GetMinifiedRecords` | lib/airtable.ts:28-30 | one minified record per row, same order |
| `Airtable.FilterFormulaRoundTrip` | lib/airtable.ts:35 | the formula `id="<key>"` denotes exactly the key if and only if the key holds no quote and no backslash (the key is not escaped) |
| `Airtable.MatchingMembers` | lib/airtable.ts:33-36 | the filter keeps exactly the rows whose `id` cell equals the key, and none when no row has it |
| `Airtable.MatchingAppend` | lib/airtable.ts:33-36 | filtering distributes over concatenation: table order is kept |
| `Airtable.FirstMatchHeadsMatching` | lib/airtable.ts:33-37 | the first row with the key heads the filtered rows |
| `Airtable.FirstMatchIndex` | lib/airtable.ts:33-37 | when some row has the key, there is a first row with it |
| `Airtable.FindRecordByFilter` | lib/airtable.ts:32-40 | the result is the minified first page (at most 100) of the matching rows in order; every record's `id` is the key; it is empty if and only if no row has the key |
| `Airtable.RecordIdInjective` | pages/api/createCoffeeStore.ts:31-42 | distinct records get distinct record ids |
| `Airtable.RecordIndex` | pages/api/favouriteCoffeeStoreById.ts:27-34 | finds a row carrying the record id, or reports that none does |
| `Airtable.RecordIndexOfSerial` | pages/api/favouriteCoffeeStoreById.ts:27-34 | in a well-formed table a record id names exactly one row |
| `Airtable.Table.constructor` | lib/airtable.ts:19 | a new table is empty and well formed |
| `Airtable.Table.Create` | pages/api/createCoffeeStore.ts:31-42 | `create` appends exactly one record with a fresh record id and the given fields, returns it, and keeps the table well formed |
| `Airtable.Table.Update` | pages/api/favouriteCoffeeStoreById.ts:27-34 | `update` merges the patch into the record with that id and returns it; for an unknown id it fails and leaves the table unchanged |
| `CreateCoffeeStore.NewStoreFields` | pages/api/createCoffeeStore.ts:31-42 | the created record holds exactly the table's six columns |
| `CreateCoffeeStore.CreateOutcome` | pages/api/createCoffeeStore.ts:14-75 | the table is left unchanged or gets exactly one new row; it changes if and only if the request is a POST with an id, no error occurs, no row has the id, and the name is truthy |
| `CreateCoffeeStore.Handler` | pages/api/createCoffeeStore.ts:14-75 | running the route on the table gives `CreateOutcome`'s response and rows, and the table stays well formed |
| `CreateCoffeeStore.WrongMethodIsRefused` | pages/api/createCoffeeStore.ts:69-74 | a request that is not a POST is answered 500 with a message naming the method; the table is untouched |
| `CreateCoffeeStore.MissingIdIsRefused` | pages/api/createCoffeeStore.ts:23-54 | a POST is answered 400 "id missing" if and only if the id is `null` or `''` |
| `CreateCoffeeStore.FoundStoreIsReturned` | pages/api/createCoffeeStore.ts:24-28 | a stored id is answered 200 with all its matching records, and nothing is created |
| `CreateCoffeeStore.UnknownStoreIsCreated` | pages/api/createCoffeeStore.ts:29-45 | an unknown id with a truthy name appends one row holding the six body values (voting as sent), and answers that record minified with its new record id |
| `CreateCoffeeStore.NamelessStoreIsRefused` | pages/api/createCoffeeStore.ts:30-49 | an unknown id with a falsy name is answered 400 "name missing"; the table is untouched |
| `CreateCoffeeStore.TableErrorIsReported` | pages/api/createCoffeeStore.ts:55-67 | a lookup error is always answered 500 with the issue prefix and its message; a create error is too whenever the create call is reached (no row has the id and the name is truthy); the table is never changed by an error |
| `CreateCoffeeStore.CreateKeepsTableWellFormed` | pages/api/createCoffeeStore.ts:31-42 | the route keeps the record ids in sequence and writes only the table's columns |
| `CreateCoffeeStore.EnsureIsIdempotent` | pages/api/createCoffeeStore.ts:22-45 | after a successful request for a string id, repeating it answers 200 with the stored records and adds no row |
| `CreateCoffeeStore.AbsentIdCreatesEveryTime` | pages/api/createCoffeeStore.ts:23-45 | with an absent id and a truthy name, every request appends another row |
| `FavouriteCoffeeStore.CalculateVoting` | pages/api/favouriteCoffeeStoreById.ts:25 | a falsy count becomes 1; a number n becomes n + 1 (0 becomes 1); a non-empty string gets "1" appended |
| `FavouriteCoffeeStore.VoteOutcome` | pages/api/favouriteCoffeeStoreById.ts:11-55 | the table keeps its size, and changes only for a PUT with an id, no error, and a row with that id |
| `FavouriteCoffeeStore.Handler` | pages/api/favouriteCoffeeStoreById.ts:11-55 | running the route on the table gives `VoteOutcome`'s response and rows, and the table stays well formed |
| `FavouriteCoffeeStore.OnlyPutIsHandled` | pages/api/favouriteCoffeeStoreById.ts:15-54 | a request that is not a PUT gets no response and leaves the table unchanged |
| `FavouriteCoffeeStore.MissingIdIsRefused` | pages/api/favouriteCoffeeStoreById.ts:19-48 | a `null` or `''` id is answered 400; nothing is written |
| `FavouriteCoffeeStore.UnknownIdIsNotWritten` | pages/api/favouriteCoffeeStoreById.ts:40-42 | an unknown id gets the not-found message with no status set; nothing is written |
| `FavouriteCoffeeStore.UpvoteRewritesFirstMatch` | pages/api/favouriteCoffeeStoreById.ts:20-39 | the upvote rewrites only the first row with the id, and in it only `voting`; the updated record is answered minified |
| `FavouriteCoffeeStore.FirstRecordOfLookup` | pages/api/favouriteCoffeeStoreById.ts:20-23 | the record read first is the first matching row, with its record id and its voting |
| `FavouriteCoffeeStore.UpdateBySerial` | pages/api/favouriteCoffeeStoreById.ts:27-34 | updating by the record id read back rewrites that row's `voting` cell and no other cell or row |
| `FavouriteCoffeeStore.UpvoteCountsOne` | pages/api/favouriteCoffeeStoreById.ts:25-34 | a stored count v (not 0) becomes v + 1; an absent or 0 count becomes 1 |
| `FavouriteCoffeeStore.TableErrorIsReported` | pages/api/favouriteCoffeeStoreById.ts:49-53 | a lookup error is always answered 500 with the upvote prefix and its message; an update error is too whenever the update is reached (some row has the id); nothing is written on an error |
| `FavouriteCoffeeStore.UpvoteNeverMissesRecord` | pages/api/favouriteCoffeeStoreById.ts:27-39 | in a well-formed table, the record id read back always names a record, so the update never fails for that reason |
| `GetCoffeeStore.GetCoffeeStoreById` | pages/api/getCoffeeStoreById.ts:11-37 | 400 if and only if the id is `''`; 500 if and only if the id is absent or the lookup fails; otherwise either the non-empty matching records, or the not-found message when no row has the id; the table is never written |
| `GetCoffeeStore.StoredStoreIsFound` | pages/api/getCoffeeStoreById.ts:18-22 | a stored id is answered with its matching records, capped at the first page |
| `CoffeeStores.UrlSplitsAtQuestionMark` | lib/coffee-stores.ts:9-11 | the request URL is the places endpoint, then `?`, then the query string |
| `CoffeeStores.QueryStringParts` | lib/coffee-stores.ts:9-11 | without `&` in the arguments, the query string splits into exactly `ll=…`, `query=…` and `limit=…` |
| `CoffeeStores.QueryStringAmpersands` | lib/coffee-stores.ts:9-11 | an `&` in the coordinates or the query adds separators to the query string |
| `CoffeeStores.UrlCarriesArguments` | lib/coffee-stores.ts:9-11 | the URL's query reads back as exactly `ll`, `query` and `limit` with the given values if and only if neither the coordinates nor the query holds an `&` (nothing is encoded); the reading splits at `?`, `&` and `=` only, and decodes neither `%xx` nor `+` |
| `CoffeeStores.ListOfCoffeeStorePhotos` | lib/coffee-stores.ts:18-26 | the `small` URL of every search result, in order; none when the search gave no response |
| `CoffeeStores.SmallUrls` | lib/coffee-stores.ts:25 | one `small` URL per result, in order |
| `CoffeeStores.FetchCoffeeStores` | lib/coffee-stores.ts:33-73 | the defaults apply to absent arguments and the places request goes to the URL built from them; any throw gives no stores; otherwise there is one store per place, built from the place and the idx-th photo by `ToCoffeeStore`, with its id and name, an empty website, and the idx-th photo (or none when photos run out) |
| `CoffeeStores.StoreAddressDefaults` | lib/coffee-stores.ts:56-61 | the store built from a place has the formatted address, else an empty address; the neighbourhood list joined with ", ", else an empty neighbourhood; and the idx-th photo, else none |
| `StoreContext.InitialState` | store/store-context.tsx:36-39 | the store starts with no coordinates and no stores |
| `StoreContext.StoreReducer` | store/store-context.tsx:17-32 | `SET_LAT_LONG` replaces only `latLong`; `SET_COFFEE_STORES` replaces only `coffeeStores`; any other action keeps the state |
| `StoreContext.ReducerIsIdempotent` | store/store-context.tsx:17-32 | dispatching an action twice is dispatching it once |
| `StoreContext.ReducerCommutes` | store/store-context.tsx:19-28 | a `SET_LAT_LONG` and a `SET_COFFEE_STORES` give the same state in either order |
| `StoreContext.LastLatLong` | store/store-context.tsx:19-23 | there is a last coordinates payload if and only if some action sets the coordinates |
| `StoreContext.LastStores` | store/store-context.tsx:24-28 | there is a last stores payload if and only if some action sets the stores |
| `StoreContext.ReplayAppend` | store/store-context.tsx:41 | dispatching two batches in a row is dispatching their concatenation |
| `StoreContext.LastActionWins` | store/store-context.tsx:17-32 | after any dispatches, each field holds the payload of the last action that sets it, or its earlier value when none does |
| `StoreContext.LocationThenStores` | store/store-context.tsx:17-39 | from the initial state, coordinates and then stores leave both in place |
| `TrackLocation.Coordinates` | hooks/use-track-location.ts:17 | the payload is the latitude, a comma, then the longitude |
| `TrackLocation.CoordinatesRoundTrip` | hooks/use-track-location.ts:17 | splitting the payload at `,` gives back both coordinates when neither holds a comma |
| `TrackLocation.CoordinatesWithCommaAreAmbiguous` | hooks/use-track-location.ts:17 | a coordinate holding a comma makes the payload split into more than two parts |
| `TrackLocation.LocationTracker.constructor` | hooks/use-track-location.ts:6-7 | the hook starts with an empty message, not finding, nothing dispatched and no request made |
| `TrackLocation.LocationTracker.Success` | hooks/use-track-location.ts:11-21 | `success` dispatches `SET_LAT_LONG` with `"<lat>,<long>"`, clears the message and stops finding |
| `TrackLocation.LocationTracker.Error` | hooks/use-track-location.ts:23-26 | `error` stops finding and sets "Unable to retrieve your location", with no dispatch |
| `TrackLocation.LocationTracker.HandleTrackLocation` | hooks/use-track-location.ts:28-37 | without geolocation the hook ends not finding, with "Geolocation is not supported by your browser", and makes no request; with geolocation it is finding and makes exactly one position request; it never dispatches |
| `TrackLocation.SuccessSetsStoreLocation` | hooks/use-track-location.ts:15-18 | after a success's dispatch, the store holds its coordinates and keeps its stores |

## Left out

- The construction of the service clients and the network calls are not modelled: the table client (`lib/airtable.ts:11-19`), the photo search client, and `fetch`/`json`. The table is an in-memory sequence of rows; the search and the places request are function parameters.
- The hosted table evaluates formulas itself. The lookup is modelled as equality of the `id` cell with the key; the formula text and how the key fails to be escaped are stated separately (`Airtable.FilterFormulaRoundTrip`).
- The table's real record ids are opaque. The model issues `"rec"` followed by the row's position; only their uniqueness is used.
- The table may normalise stored values, for example by dropping empty cells; this is not modelled.
- The look-up-then-write race between two concurrent upvotes is not modelled: every request runs to completion before the next.
- Floating-point numbers, `NaN` and number formatting are not modelled. Counts and limits are integers, and coordinates are the text they format to.
- `getErrorMessage` (`utils/helper-functions.ts`) is not part of this model. The 500 messages carry the table's error message as a given string (`lookupError`, `createError`, `updateError`).
- GetCoffeeStore.UndefinedToStringError: for an absent id, the message of the TypeError that `id.toString()` raises is fixed to the text a V8 runtime gives. Another runtime words it differently, and `getErrorMessage` is assumed to pass it through unchanged.
- FavouriteCoffeeStore.UnknownRecordError: the wording of the error the table raises when an update names no record is the service's own. A placeholder stands in for it; `FavouriteCoffeeStore.UpvoteNeverMissesRecord` shows the case does not occur in a well-formed table.
- FavouriteCoffeeStore.VoteOutcome: its own contract only bounds how the table changes. What an upvote writes and answers is stated by the lemmas about it.
- CoffeeStores.FetchCoffeeStores: its contract states each store's address and neighbourhood only through `stores[i] == ToCoffeeStore(...)`; `CoffeeStores.StoreAddressDefaults` states what `ToCoffeeStore` gives for them.
- Console logging and the hint about missing API keys in `fetchCoffeeStores` are not modelled.
- `pages/api/getCoffeeStoresByLocation.ts` is not part of this model: it only converts query parameters and forwards them to `fetchCoffeeStores`.
- The pages and components (`pages/index.tsx`, `pages/coffee-store/[id].tsx`, `components/Card/Card.tsx`, `pages/_app.tsx`) render only and are not part of this model. The same holds for the React context plumbing around the reducer.
- `hooks/use-track-location.ts`: the browser calls `success` or `error` later, and those callbacks are modelled as separate methods. The geolocation support check is a boolean parameter.

# products-crud: the two in-memory record stores, in Dafny

`testing-data/products-crud/server.js` is a small Express server. It keeps two
module-level arrays, `products` and `albums`. Each has five routes: create
(POST), list (GET), get by id, update (PUT) and delete. This project models the
two arrays and the ten handlers that read and change them, and proves what the
handlers guarantee.

Layout:

- `js_strings.dfy` (module `JsStrings`): the ECMAScript whitespace set and
  `String.prototype.trim`. `trim` scans past leading and then trailing
  whitespace; its result is specified as a slice of the input with no
  whitespace at either end.
- `js_values.dfy` (module `JsValues`): a field of the parsed JSON body
  (`Undefined`, `Null`, string, number, other). It also holds the three
  checks the handlers apply:
  - `typeof v === 'string' && v.trim() !== ''`;
  - `typeof v === 'number' && !isNaN(v)`;
  - `Number.isInteger(v)`.
  A number is `Finite(real)`, `Infinity` or `NaN`.
- `records.dfy` (module `Records`): what both stores share.
  - A record is `Entry(id, fields)`; a response is a status plus one record,
    the array, or `{ error }`.
  - The id rule of create: the last id + 1, or 1 for an empty array.
  - `findIndex`/`find` by id, and `splice`.
  - The `Store` class holds the array as a `seq` field that the handlers
    update in place.
  - The spec functions `ListAll`, `GetById` and `DeleteById`, with their
    lemmas.
- `products.dfy` (module `Products`) and `albums.dfy` (module `Albums`): one
  store each.
  - The seeded array, the field checks in source order, and the error
    messages.
  - The spec functions `Create` and `Update`. `Update` describes the partial
    write declaratively: a field is written when it is present and valid and
    every field checked before it was absent or valid.
  - The route handlers as module-level methods that take the resource's
    `Store` as a parameter (`PostProduct`, `PutProduct`, …).
    They check and write field by field with early returns, exactly as the
    source does. Each handler's `ensures` ties the new array and the response
    to the spec function of the old array.
  - Lemmas about the spec functions.
  - A `Request`/`Run` fold, which states the invariant after any sequence of
    requests.

The store invariant (`Products.Valid`, `Albums.Valid`) has two parts. Ids are
positive and strictly increase along the array, so they are unique and the last
one is the largest. Every stored record is well-formed: its name, artist, title
and format are non-empty and trimmed, and for a product the price is a number
other than NaN and the stock an integer. The seeded arrays satisfy it, and
every handler preserves it.

Two properties one might expect do not hold, and the model follows the code:

- Ids can be reused. Create uses the *last* element's id, so deleting the last
  record and creating another hands out an id no larger than the deleted one.
  On the seeded products it is the same id 2 (`DeleteLastThenCreate`,
  `SeedIdReused`). Emptying a store restarts ids at 1.
- Prices need not be finite. The price check is only `typeof` and `isNaN`, so
  an infinite price (JSON `1e999`) is accepted and stored
  (`InfinitePriceStored`). JSON has no infinity, so `res.json` sends the
  stored price back as `null`. A client that fetches such a product and PUTs
  it back unchanged gets 400 "Price must be a number". Response serialisation
  is not modelled; the model stops at the stored value.

## Model

| member | source | states |
|---|---|---|
| `JsStrings.IsSpace` | testing-data/products-crud/server.js:31 | the characters `trim` strips: on ASCII exactly SPACE and TAB through CR; NEL and ZERO WIDTH SPACE are not among them |
| `JsStrings.SkipStart` | testing-data/products-crud/server.js:43 | from a start position, the first position that is not whitespace: everything skipped is whitespace |
| `JsStrings.SkipEnd` | testing-data/products-crud/server.js:43 | going down from an end position, the end of the last character that is not whitespace: everything skipped is whitespace |
| `JsStrings.Trim` | testing-data/products-crud/server.js:31 | `trim` gives a slice of the input with no whitespace at either end, and only whitespace is cut away; it is empty exactly when the input is all whitespace (the `trim() === ''` test) |
| `JsStrings.TrimTrimmed` | testing-data/products-crud/server.js:43 | trimming a string without whitespace at its ends returns it unchanged |
| `JsValues.IsNonEmptyString` | testing-data/products-crud/server.js:31 | the string check holds exactly for a string that is not all whitespace, and then its trimmed value is non-empty and trimmed |
| `JsValues.IsNumberNotNaN` | testing-data/products-crud/server.js:34 | the price check holds exactly for a finite number or an infinity: NaN and every non-number fail |
| `JsValues.IsInteger` | testing-data/products-crud/server.js:37 | `Number.isInteger` holds only for finite numbers without a fractional part, so every integer also passes the price check and an infinity fails |
| `Records.NextId` | testing-data/products-crud/server.js:42 | the id create assigns is 1 for an empty array; while ids increase it exceeds every stored id, and it is positive when they are |
| `Records.Append` | testing-data/products-crud/server.js:41-49 | create stores a record with the given fields and the next id after every existing record, answers 201 with it, and no stored record already had that id while ids increase |
| `Records.ListAll` | testing-data/products-crud/server.js:53-55 | the list route answers 200 with the whole array and changes nothing |
| `Records.GetById` | testing-data/products-crud/server.js:58-67 | get never changes the array; it answers 404 with the resource message exactly when no record matches, otherwise 200 with the first stored record whose id equals the parsed id |
| `Records.DeleteById` | testing-data/products-crud/server.js:102-112 | delete answers 404 and changes nothing exactly when no record matches; otherwise 200 with a matching record, and the array is one shorter and, as a multiset, the old array minus that record |
| `Records.IndexOf` | testing-data/products-crud/server.js:73 | `findIndex` by id: -1 exactly when no record has the id; otherwise the first position whose id equals it; an unparsable id matches nothing |
| `Records.IndexOfUnique` | testing-data/products-crud/server.js:60 | when ids increase, the search finds exactly the one record with that id |
| `Records.RemoveAt` | testing-data/products-crud/server.js:110 | `splice(i, 1)` leaves one record fewer, keeps the records before `i`, and shifts the later ones down by one, in order |
| `Records.AppendKeepsIncreasing` | testing-data/products-crud/server.js:42 | when ids increase, the id create assigns is larger than every stored id and no stored record has it; appending the new record keeps ids increasing |
| `Records.RemoveAtKeepsIncreasing` | testing-data/products-crud/server.js:110 | removing one record keeps ids increasing |
| `Records.SameIdsKeepIncreasing` | testing-data/products-crud/server.js:83-95 | rewriting fields without touching ids keeps ids increasing |
| `Records.GetFindsTheRecord` | testing-data/products-crud/server.js:58-67 | get never changes the array; it answers 200 with the record whose id equals the parsed id, and 404 with the resource's message when there is none or the id did not parse |
| `Records.DeleteRemovesTheRecord` | testing-data/products-crud/server.js:102-112 | deleting a known id answers 200 with that record and removes exactly it: the length drops by one, the others keep their order, ids still increase, and no record with that id remains |
| `Records.DeleteUnknown` | testing-data/products-crud/server.js:104-108 | deleting an unknown or unparsable id answers 404 and changes nothing |
| `Records.Store.constructor` | testing-data/products-crud/server.js:10-18 | a store starts out holding the seeded array |
| `Records.Store.FindIndex` | testing-data/products-crud/server.js:73 | the loop returns the first matching position, or -1 exactly when nothing matches |
| `Records.Store.Find` | testing-data/products-crud/server.js:60 | `find` returns nothing exactly when no record matches, and otherwise the first matching record |
| `Records.Store.Push` | testing-data/products-crud/server.js:48 | `push` appends one record at the end |
| `Records.Store.SetFields` | testing-data/products-crud/server.js:83 | a field write changes only the record at that position and keeps its id |
| `Records.Store.Splice` | testing-data/products-crud/server.js:110 | `splice(i, 1)[0]` returns the record that was at `i`, and the array becomes the old array without it |
| `Products.CreateError` | testing-data/products-crud/server.js:31-39 | create's checks in order: no error exactly when all pass, and each message exactly when its check is the first to fail |
| `Products.Create` | testing-data/products-crud/server.js:28-50 | 201 exactly when every check passes, with a well-formed product under the next id appended after the old array; otherwise 400 with the first failing check's message and the array unchanged |
| `Products.UpdateError` | testing-data/products-crud/server.js:79-96 | update's checks in order, each applied only to a present key: no error exactly when all pass, and each message exactly when its check is the first to fail |
| `Products.Patch` | testing-data/products-crud/server.js:79-96 | the writes update makes before it stops: none when the name check fails, the name when the price check fails, name and price when the stock check fails, every present field when all pass; a well-formed product stays well-formed |
| `Products.Update` | testing-data/products-crud/server.js:70-99 | only the matching record changes and no id changes; 404 with the array unchanged exactly when nothing matches; otherwise 200 with the updated record exactly when every check passes, else 400 with the first failing check's message |
| `Products.PostProduct` | testing-data/products-crud/server.js:28-50 | the handler leaves the array and sends the response that `Create` specifies for the old array |
| `Products.ListProducts` | testing-data/products-crud/server.js:53-55 | 200 with the whole array in insertion order; nothing changes |
| `Products.GetProduct` | testing-data/products-crud/server.js:58-67 | the handler answers as `GetById` specifies with "Product not found" |
| `Products.PutProduct` | testing-data/products-crud/server.js:70-99 | the handler checks and writes one field at a time with early returns, and ends with the array and response that the declarative `Update` specifies |
| `Products.DeleteProduct` | testing-data/products-crud/server.js:102-112 | the handler leaves the array and response that `DeleteById` specifies |
| `Products.SeedValid` | testing-data/products-crud/server.js:10-13 | the seeded products satisfy the store invariant |
| `Products.CreateAppends` | testing-data/products-crud/server.js:41-49 | a create that passes the checks appends exactly one record at the end. Earlier records stay. Its id is the last id + 1, or 1 for an empty array. The name is trimmed, and price and stock are stored as given. The answer is 201 with that record |
| `Products.CreateRejects` | testing-data/products-crud/server.js:31-39 | checks run name, then price, then stock; the first failure answers 400 with that field's message and leaves the array unchanged |
| `Products.CreateKeepsValid` | testing-data/products-crud/server.js:41-48 | create keeps the store invariant |
| `Products.AppendKeepsValid` | testing-data/products-crud/server.js:42-48 | pushing a well-formed product with the next id keeps the store invariant |
| `Products.UpdateUnknown` | testing-data/products-crud/server.js:73-77 | updating an unknown or unparsable id answers 404 and changes nothing |
| `Products.UpdateKnown` | testing-data/products-crud/server.js:79-96 | updating a known id keeps the length, the order and every other record; the id never changes; a field absent from the body keeps its value |
| `Products.UpdateStopsAtFirstFailure` | testing-data/products-crud/server.js:79-98 | update outcome, check by check. A failure answers 400 with that field's message, and the fields written before it stay written (partial mutation). When all checks pass, it answers 200 with the updated record |
| `Products.UpdateNullFails` | testing-data/products-crud/server.js:79-96 | a key present with value `null` is checked and fails with its field's message |
| `Products.UpdateKeepsValid` | testing-data/products-crud/server.js:79-96 | update keeps the store invariant, also when it stops half-way |
| `Products.CreateThenGet` | testing-data/products-crud/server.js:41-66 | round trip: a GET of the id a create answered with returns the created record |
| `Products.DeleteLastThenCreate` | testing-data/products-crud/server.js:42-110 | deleting the last record and then creating one hands out an id no larger than the deleted one (ids are reused) |
| `Products.SeedIdReused` | testing-data/products-crud/server.js:10-48 | on the seeded products, deleting id 2 and then creating a product gives it id 2 again |
| `Products.InfinitePriceStored` | testing-data/products-crud/server.js:34-35 | an infinite price passes the price check and is stored |
| `Products.KeyboardScenario` | testing-data/products-crud/server.js:28-49 | POST `{"name":"Keyboard","price":45,"stock":5}` on the seeded array answers 201 with id 3 and appends that record |
| `Products.EmptyNameScenario` | testing-data/products-crud/server.js:31-32 | POST with an empty name answers 400 "Name must be a non-empty string" and changes nothing |
| `Products.HandleKeepsValid` | testing-data/products-crud/server.js:28-112 | every product route keeps the store invariant |
| `Products.RunKeepsValid` | testing-data/products-crud/server.js:28-112 | the store invariant holds after any sequence of product requests |
| `Products.StoredNamesTrimmed` | testing-data/products-crud/server.js:43 | starting from the seeded array, after any sequence of requests every stored name is non-empty and trimmed and ids increase |
| `Albums.CreateError` | testing-data/products-crud/server.js:120-128 | create's checks in order: no error exactly when all pass, and each message exactly when its check is the first to fail |
| `Albums.Create` | testing-data/products-crud/server.js:117-139 | 201 exactly when every check passes, with a well-formed album under the next id appended after the old array; otherwise 400 with the first failing check's message and the array unchanged |
| `Albums.UpdateError` | testing-data/products-crud/server.js:168-185 | update's checks in order, each applied only to a present key: no error exactly when all pass, and each message exactly when its check is the first to fail |
| `Albums.Patch` | testing-data/products-crud/server.js:168-185 | the writes update makes before it stops: none when the artist check fails, the artist when the title check fails, artist and title when the format check fails, every present field when all pass; a well-formed album stays well-formed |
| `Albums.Update` | testing-data/products-crud/server.js:159-188 | only the matching record changes and no id changes; 404 with the array unchanged exactly when nothing matches; otherwise 200 with the updated record exactly when every check passes, else 400 with the first failing check's message |
| `Albums.PostAlbum` | testing-data/products-crud/server.js:117-139 | the handler leaves the array and sends the response that `Create` specifies for the old array |
| `Albums.ListAlbums` | testing-data/products-crud/server.js:142-144 | 200 with the whole array in insertion order; nothing changes |
| `Albums.GetAlbum` | testing-data/products-crud/server.js:147-156 | the handler answers as `GetById` specifies with "Album not found" |
| `Albums.PutAlbum` | testing-data/products-crud/server.js:159-188 | the handler checks and writes one field at a time with early returns, and ends with the array and response that the declarative `Update` specifies |
| `Albums.DeleteAlbum` | testing-data/products-crud/server.js:191-201 | the handler leaves the array and response that `DeleteById` specifies |
| `Albums.SeedValid` | testing-data/products-crud/server.js:15-18 | the seeded albums satisfy the store invariant |
| `Albums.CreateAppends` | testing-data/products-crud/server.js:130-138 | a create that passes the checks appends exactly one record at the end. Earlier records stay. Its id is the last id + 1, or 1 for an empty array. Artist, title and format are trimmed. The answer is 201 with that record |
| `Albums.CreateRejects` | testing-data/products-crud/server.js:120-128 | checks run artist, then title, then format; the first failure answers 400 with that field's message and leaves the array unchanged |
| `Albums.CreateKeepsValid` | testing-data/products-crud/server.js:130-137 | create keeps the store invariant |
| `Albums.AppendKeepsValid` | testing-data/products-crud/server.js:131-137 | pushing a well-formed album with the next id keeps the store invariant |
| `Albums.UpdateUnknown` | testing-data/products-crud/server.js:162-166 | updating an unknown or unparsable id answers 404 and changes nothing |
| `Albums.UpdateKnown` | testing-data/products-crud/server.js:168-185 | updating a known id keeps the length, the order and every other record; the id never changes; a field absent from the body keeps its value |
| `Albums.UpdateStopsAtFirstFailure` | testing-data/products-crud/server.js:168-187 | update outcome, check by check. A failure answers 400 with that field's message, and the fields written before it stay written (partial mutation). When all checks pass, it answers 200 with the updated record |
| `Albums.UpdateNullFails` | testing-data/products-crud/server.js:168-185 | a key present with value `null` is checked and fails with its field's message |
| `Albums.UpdateKeepsValid` | testing-data/products-crud/server.js:168-185 | update keeps the store invariant, also when it stops half-way |
| `Albums.CreateThenGet` | testing-data/products-crud/server.js:130-155 | round trip: a GET of the id a create answered with returns the created record |
| `Albums.DeleteLastThenCreate` | testing-data/products-crud/server.js:131-199 | deleting the last record and then creating one hands out an id no larger than the deleted one (ids are reused) |
| `Albums.DeleteThenGetScenario` | testing-data/products-crud/server.js:191-201 | DELETE /albums/1 on the seeded array answers 200 with the Pink Floyd record; a following GET /albums/1 answers 404 "Album not found" |
| `Albums.HandleKeepsValid` | testing-data/products-crud/server.js:117-201 | every album route keeps the store invariant |
| `Albums.RunKeepsValid` | testing-data/products-crud/server.js:117-201 | the store invariant holds after any sequence of album requests |
| `Albums.StoredStringsTrimmed` | testing-data/products-crud/server.js:132-134 | starting from the seeded array, after any sequence of requests every stored artist, title and format is non-empty and trimmed and ids increase |

## Left out

- Express plumbing is not modelled: `express()`, `express.json()`, route
  registration, `res.status(...).json(...)` serialisation, `app.listen` and
  its log line. A handler's output is a `Response` value.
- The root route `GET /` is not modelled. It returns a fixed welcome text and
  touches no state.
- `parseInt` of the path segment is not modelled. The handlers take its
  result as an `Option<int>`, and `None` stands for NaN, which equals no id.
- JSON number parsing and floating-point rounding are not modelled. A body
  number is taken after parsing, as a real, an infinity or NaN. The handlers
  do no arithmetic on it.
- Concurrency is not modelled. Node runs one handler at a time, so each
  handler is one method call on its store.
- Object identity is not modelled. The source's records are objects that
  `find` and `push` share by reference. The model stores records as values.
  Each response is serialised before the next request, so no sharing can be
  observed.
- Requests to unmatched routes are not modelled; they are left to the
  framework.
- Records.NextId: ids are unbounded integers. In JavaScript an id is a double,
  and `id + 1` stops increasing at 2^53, where create would repeat an id. No
  realistic sequence of requests gets there.
- Strings are sequences of Unicode scalar values. A JavaScript string is a
  sequence of UTF-16 code units, so a body holding a lone surrogate (JSON
  `"\ud800"`) has no counterpart here. `trim` treats such a unit like any
  other non-whitespace character, so the checks would behave the same.

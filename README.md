# Product repository of the `atividade08-26` Express service

The service keeps every product in one module-level array, `products`
(index.js:9). Seven route handlers act on it:

- POST appends a record.
- DELETE removes every record with an id.
- GET /products lists the records that pass the query filters.
- GET /products/:id finds the first record with an id.
- PUT rebuilds the first match from the body.
- PATCH .../preco sets the first match's price.
- PATCH .../estoque adds a delta to the first match's stock.

The model is in five modules:

- `Wrappers`: `Option`. `None` stands for the 404 answers and for `findIndex` returning -1.
- `Catalog`: the `Product` record and its seven fields, `id`, `nome`, `marca`, `preco`,
  `quantidade`, `categoria`, `avaliacao`. Also the PUT `Body`; `Parsed<T>`, which is what
  `parseInt`/`parseFloat` produce (a number or `NaN`); the id comparison `HasId`; and
  `FromBody`, the record that PUT writes.
- `Queries`: the read-only expressions. These are `includes` (`Contains`), `filter`
  (`Keep`, with the filter predicates as the datatype `Criterion`), `findIndex`
  (`FirstMatch`), `find` (`Lookup`) and the listing (`Listing`).
- `Updates`: what DELETE, PUT and the two PATCH handlers do to the collection, written as
  functions from the old collection to the new one, with lemmas about them.
- `Repository`: the class `Store`. Its field `products: seq<Product>` is reassigned by one
  method per mutating handler; GET /products and GET /products/:id are functions on the
  field. `MouseScenario` is a verified client walk-through: create, read, adjust stock, delete, read.

How the inputs are read:

- `Body` has the six fields index.js:70 destructures: `nome, marca, preco, quantidade,
  categoria, avaliacao`.
- A query parameter that is empty is falsy in `if (nome)`, `if (precoMax)` and
  `if (mediaAvaliacao)`, so its filter is skipped exactly as if the parameter were
  missing. `Query.nome == ""` and `None` thresholds stand for both cases. A threshold
  that `parseFloat` cannot read is `Some(NaN)`; it excludes every record.
- An id that `parseInt` cannot read is `NaN`. It matches nothing: GET, PUT and PATCH give
  404, and DELETE removes nothing.

## Model

| member | source | states |
|---|---|---|
| Repository.Store.constructor | index.js:9 | the collection starts empty |
| Repository.Store.Insert | index.js:18-22 | the record is appended at the end with no id check; everything before it is unchanged; the stored record is returned |
| Repository.Store.Delete | index.js:25-29 | the new collection keeps exactly the old records whose id differs, as a subsequence in the old order; no match leaves it unchanged |
| Repository.Store.List | index.js:32-53 | the answer holds exactly the records that pass every supplied filter, as a subsequence of the collection in its order, and it equals one filter of the collection by the conjunction of the supplied filters, so each kept record appears as often as in the collection; the collection is only read |
| Repository.Store.GetById | index.js:56-65 | None exactly when no record has the id; otherwise the record at the lowest matching index |
| Repository.Store.Replace | index.js:68-82 | only the first matching index changes, to the old id plus exactly the body's six fields; length and other indices stay; the answer is what a later GET returns; None and no change when nothing matches |
| Repository.Store.PatchPrice | index.js:85-99 | only the first match changes, and only its price, to exactly the given value; the answer is what a later GET returns; None and no change when nothing matches |
| Repository.Store.PatchQuantity | index.js:102-116 | only the first match changes, and only its stock, to old stock plus the delta; the answer is what a later GET returns; None and no change when nothing matches |
| Queries.Contains | index.js:39 | the empty string is contained in every name, and a contained needle is never longer than the name |
| Queries.Holds | index.js:27-49 | a NaN price or rating bound admits no record, and `!==` against a NaN id keeps every record |
| Queries.Wanted | index.js:38-50 | with no parameter every record is wanted; a NaN threshold means no record is wanted |
| Queries.KeepCount | index.js:27 | a filter keeps each passing record as many times as it occurs and drops every other record entirely |
| Queries.ContainsAt | index.js:39 | the substring test succeeds exactly when the needle occurs at some position of the name |
| Queries.Keep | index.js:27-49 | a filter's result is no longer than its input and holds exactly the input records that pass the predicate |
| Queries.KeepIsSubsequence | index.js:27 | a filter keeps the relative order of the records it keeps |
| Queries.KeepAppend | index.js:35-52 | filtering a concatenation is the concatenation of the filtered parts |
| Queries.KeepAll | index.js:27 | a filter that every record passes returns the collection unchanged |
| Queries.KeepNone | index.js:44 | a filter that no record passes returns the empty sequence |
| Queries.KeepKeep | index.js:38-50 | two filters applied in a row equal one filter by their conjunction |
| Queries.Listing | index.js:35-50 | the listing holds exactly the records for which every supplied filter holds: name contains `nome`, `preco <= precoMax`, `avaliacao >= mediaAvaliacao` |
| Queries.AllOf | index.js:38-50 | the combined criterion holds of a record exactly when every supplied filter does |
| Queries.ListingIsOneFilter | index.js:35-50 | the three successive filters equal one filter by the conjunction of the supplied ones |
| Queries.ListingOrder | index.js:35-52 | the listing is a subsequence of the collection, and listing a concatenation concatenates the listings |
| Queries.ListingUnfiltered | index.js:35 | with no parameter the listing is the whole collection in its order |
| Queries.ListingNaN | index.js:44-49 | a price or rating threshold that is not a number empties the listing |
| Queries.FirstMatch | index.js:72 | `findIndex` gives the lowest index whose record has the id, and None exactly when no record has it |
| Queries.Lookup | index.js:58 | `find` gives the record at the lowest matching index, and None exactly when no record has the id |
| Queries.FirstMatchSameIds | index.js:72-113 | two collections whose ids agree index by index have the same first match |
| Queries.LookupAfterAppend | index.js:20 | appending does not change an existing lookup; a new id is found at the end; with duplicate ids the older record wins |
| Updates.Overwrite | index.js:79 | writing the first match keeps the length of the collection |
| Updates.OverwriteAt | index.js:79 | exactly the first matching index receives the new record; every other index keeps its record |
| Updates.LookupAfterOverwrite | index.js:79 | after the first match is overwritten with a record carrying the same id, a lookup returns that record |
| Updates.OverwriteTwice | index.js:79 | a second write at the same id wins outright over the first |
| Updates.Deleted | index.js:27 | after delete the collection holds exactly the old records with a different id, as a subsequence in the old order |
| Updates.LookupAfterDelete | index.js:27 | after deleting an id, looking it up gives not-found |
| Updates.DeletedMissing | index.js:27 | deleting an id that matches nothing, a NaN id included, leaves the collection unchanged |
| Updates.DeletedIdempotent | index.js:27 | deleting the same id twice equals deleting it once |
| Updates.Replaced | index.js:72-79 | the PUT state change keeps the length and every record's id, and changes nothing when no record has the id |
| Updates.ReplacedAt | index.js:72-79 | the length is kept; at the first match the record becomes the old id with exactly the body's fields; every other index is unchanged |
| Updates.ReplacedMissing | index.js:74-76 | replacing a missing id changes nothing |
| Updates.LookupAfterReplace | index.js:79-81 | after a replace, GET by that id returns the rebuilt record, or not-found when no record had the id |
| Updates.ReplacedIdempotent | index.js:79 | repeating a replace with the same body changes nothing more |
| Updates.PricePatched | index.js:89-96 | the price patch keeps the length, may change only `preco` fields, and changes nothing when no record has the id |
| Updates.PricePatchedAt | index.js:89-96 | the length is kept; at the first match only the price changes, to exactly the given value; every other index is unchanged |
| Updates.LookupAfterPricePatch | index.js:96-98 | after a price patch, GET by that id returns the patched record, or not-found |
| Updates.PricePatchedTwice | index.js:96 | the price is set rather than adjusted: the last patch wins, and repeating a patch is idempotent |
| Updates.StockPatched | index.js:106-113 | the stock patch keeps the length, may change only `quantidade` fields, and changes nothing when no record has the id |
| Updates.StockPatchedAt | index.js:106-113 | the length is kept; at the first match only the stock changes, by exactly the delta; every other index is unchanged |
| Updates.LookupAfterStockPatch | index.js:113-115 | after a stock patch, GET by that id returns the adjusted record, or not-found |
| Updates.StockPatchedTwice | index.js:113 | the stock is adjusted rather than set: two patches equal one patch by the sum of the deltas |
| Updates.StockHasNoFloor | index.js:113 | an illustration on one input of what StockPatchedAt proves in general: a stock of 5 patched by -7 becomes -2 |

## Left out

- Express itself is not modelled: routing, `express.json()` body parsing, status codes,
  response messages and `app.listen` (index.js:1-6, 119-121). These are transport. Each
  handler's `Option` answer stands for 200 versus 404.
- The logging middleware is not modelled (index.js:12-15). It only writes to the console.
- The string parsing in `parseInt`/`parseFloat` is not modelled. Its result comes in
  already parsed, as `Parsed<T>`. For example, the way `parseInt("12abc")` gives 12 is not
  modelled.
- `preco` and `avaliacao` are exact reals. JavaScript floating-point rounding, and
  comparisons with values other than NaN that are not numbers, are not modelled.
- `id` and `quantidade` are unbounded integers, so three things are not modelled: a
  fractional stock delta (`{quantidade: 0.5}` makes 5 into 5.5), a stored non-integer id
  such as 1.5 (which `=== parseInt(id)` never matches), and rounding of JavaScript numbers
  above 2^53. Thresholds have no infinity either, so `precoMax=Infinity`, which keeps
  every record, is not modelled.
- Records have a fixed shape. The source stores any JSON body as is, so a record may lack
  fields, have extra ones, or hold a string id that `===` never matches. Those shapes are
  not modelled.
- PUT and PATCH bodies with missing fields are not modelled. In the source they store
  `undefined`, or `NaN` for `quantidade += undefined`. The same goes for a string
  `quantidade`, which would be concatenated instead of added.
- Repeated query parameters, which Express turns into arrays, are not modelled.
- The patches mutate the object that `find` returns in place. The model writes the updated
  value back at the first-match index instead. This has the same effect because every
  stored record is a separate object (each POST stores its own request body).
- Concurrency between requests is not modelled. The source has no locking.

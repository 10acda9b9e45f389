# Product and cart stores of an e-commerce back end

This project models the two file-backed stores of a small Express back end.

- **`ProductManager`** keeps an ordered list of products. A product has an id, a title, a description, a price, a thumbnail, a code and a stock.
  - It assigns ids itself: one more than the largest id present, or 1 for an empty store.
  - It refuses an add request with a falsy field, with a code already in use, or with a code that `Number()` cannot read.
  - It updates a record by shallow merge (`{ ...product, ...patch }`) and deletes by splice.
  - It rewrites its JSON file after every successful change.
- **`CartManager`** keeps an ordered list of carts. A cart is an id and a list of line items (a product id and a quantity).
  - It refuses to create a cart whose request carries a truthy `id`.
  - It finds carts with JavaScript's loose `==`. So the route parameter `"1"` finds cart `1`.
  - Adding a product either raises the quantity of that product's first line or appends a new line.

Each store is a Dafny `class`:
- Its collection is a `seq` field that the methods reassign.
- A ghost field `saved` stands for the file's contents: the collection last written, or `None` while the file is absent or unparseable and nothing has been written.

Every method's `ensures` states the outcome and the new state in terms of the old state and a few specification functions:
- `CheckNewProduct`, `NewRecord`, `Merge` and `RemoveAt` for products;
- `NewCartFor`, `MatchesKey` and `AddLineItem` for carts;
- `Search.FindIndex` for the `find`/`findIndex` calls;
- `Ids.NextId` for `Math.max(...ids) + 1`.

Lemmas over those functions state what the stores promise: lookups after each change, preserved uniqueness, a quantity balance for carts and the merge laws.

The fields of a request body are JavaScript primitive values (`JsValues.JsValue`). Truthiness and `Number()` follow ECMA-262. Loose `==` between a number and a string uses the StringToNumber grammar over exact reals, and the decimal-text round trip is proved (`JsValues.DecimalTextRoundTrip`). An error the JavaScript stores throw is a `Fail`/`Failure` value carrying the error's kind.

Each store keeps a ghost invariant `Synced()`: loading the file again gives back the collection the store holds. The constructor establishes it, and every method that changes the collection preserves it.

Modules:
- `Outcomes`: Option and result types.
- `JsValues`: JavaScript values and coercions.
- `Ids`: id generation.
- `Search`: first-match search.
- `DocumentStore`: what loading the file yields.
- `Products` and `Carts`: the two stores.
- `Scenarios`: short concrete sessions worked through the specification functions.

## Model

| member | source | states |
|---|---|---|
| Ids.IdsOf | predelivery1/src/managers/ProductManager.js:40 | `records.map(r => r.id)`: as many ids as records, the id of each record at its index |
| Ids.MaxOf | predelivery1/src/managers/ProductManager.js:40 | `Math.max` of a non-empty id list is an upper bound of every id and is one of them |
| Ids.NextId | predelivery1/src/managers/ProductManager.js:39-41 | the next id is above every id present, is 1 for an empty list, and is one more than an id present (so a gap left by a delete is never filled, and a deleted largest id is reused) |
| Ids.NextIdPositive | Preentrega1/src/managers/CartManager.js:40-42 | with no negative id present, the generated id is at least 1 |
| Search.FindIndex | predelivery1/src/managers/ProductManager.js:98 | `findIndex`: -1 exactly when no element passes the test; otherwise an index whose element passes and before which none does (`find` is the element at that index) |
| Search.FindIndexAppend | predelivery1/src/managers/ProductManager.js:76 | after elements that all fail the test, an appended element is found at the end exactly when it passes, and -1 is returned otherwise |
| JsValues.DigitValue | predelivery1/src/managers/ProductManager.js:59 | a character is a decimal digit exactly when its digit value is below 10; every value is at most 16 |
| JsValues.DecimalText | Preentrega1/src/managers/CartManager.js:61 | the decimal text of a number is non-empty and made of decimal digits |
| JsValues.DecimalTextValue | Preentrega1/src/managers/CartManager.js:61 | the digits of the decimal text of `n` read back in base 10 give `n` |
| JsValues.DigitStringToNumber | predelivery1/src/managers/ProductManager.js:59 | `Number(s)` of a non-empty all-digit string is the value of its digits |
| JsValues.DecimalTextRoundTrip | Preentrega1/src/managers/CartManager.js:61 | `Number(String(n)) == n`: the text is numeric, and the number `n` loosely equals it |
| JsValues.LooseEqualsDecimalText | Preentrega1/src/managers/CartManager.js:61 | a number `m` loosely equals the decimal text of `n` exactly when `m == n` |
| Products.CheckNewProduct | predelivery1/src/managers/ProductManager.js:46-62 | an add request passes exactly when all six fields are truthy, no stored code is strictly equal to its code, and its code is numeric. A falsy field gives "Missing data" before any code check. Otherwise a code in use gives the duplicate-code error. Otherwise a non-numeric code gives "The code must be a number" |
| Products.RemoveAt | predelivery1/src/managers/ProductManager.js:118 | `splice(i, 1)`: one element shorter, the elements before `i` kept in place, the later ones shifted down by one |
| Products.ProductManager.constructor | predelivery1/src/managers/ProductManager.js:7-29 | the store starts with the loaded collection (`[]` when the file is absent or does not parse); the file is as loaded, and reloading it gives back the collection (`Synced`) |
| Products.ProductManager.GenerateId | predelivery1/src/managers/ProductManager.js:39-41 | the generated id is above every stored id, and is 1 when the store is empty |
| Products.ProductManager.AddProduct | predelivery1/src/managers/ProductManager.js:44-79 | the outcome is the result of the checks, in the source's order. A refused request changes neither the collection nor the file. An accepted one appends the new record, writes the file, and keeps ids and codes unique. The file keeps agreeing with the collection (`Synced`) |
| Products.ProductManager.GetProducts | predelivery1/src/managers/ProductManager.js:82-84 | returns the collection |
| Products.ProductManager.GetProductById | predelivery1/src/managers/ProductManager.js:87-93 | succeeds exactly when some record has the id (strict equality), returning the first such record; otherwise fails with "No product found" for that id |
| Products.ProductManager.UpdateProduct | predelivery1/src/managers/ProductManager.js:96-107 | with no record for the id: fails and changes nothing. Otherwise: replaces the first such record by its shallow merge with the patch, changes no other record, and writes the file. The file keeps agreeing with the collection (`Synced`) |
| Products.ProductManager.DeleteProduct | predelivery1/src/managers/ProductManager.js:110-121 | with no record for the id: fails and changes nothing. Otherwise: removes exactly the first such record and writes the file. The file keeps agreeing with the collection (`Synced`) |
| Products.NewRecordIsFreshCopy | predelivery1/src/managers/ProductManager.js:65-73 | the new record's id differs from every stored id and ignores any id in the request; its six fields are the request's |
| Products.ZeroPriceOrStockRejected | predelivery1/src/managers/ProductManager.js:46 | a price or stock of 0 is falsy, so the request is refused as missing data |
| Products.AddKeepsUnique | predelivery1/src/managers/ProductManager.js:52-76 | appending the record of an accepted request keeps ids unique and keeps codes unique |
| Products.LookupAfterAdd | predelivery1/src/managers/ProductManager.js:65-76 | looking up the new record's id after the append finds the new record, at the end |
| Products.MergeLaws | predelivery1/src/managers/ProductManager.js:104 | shallow merge: each key the patch carries wins, each other key keeps its value; an empty patch changes nothing; merging twice equals merging once |
| Products.PriceOnlyPatch | predelivery1/src/managers/ProductManager.js:104 | a patch carrying only a price changes only the price |
| Products.LookupAfterUpdate | predelivery1/src/managers/ProductManager.js:98-104 | when the patch leaves the id alone, the updated record is still the first found under its id, at the same index |
| Products.UpdateCanReassignId | predelivery1/src/managers/ProductManager.js:104 | a patch with another id moves the record. With unique ids, the old id then finds nothing, and reusing another record's id breaks uniqueness |
| Products.UpdateKeepsUniqueIds | predelivery1/src/managers/ProductManager.js:98-104 | with unique ids, an update keeps ids unique when its patch carries no id, repeats the id, or carries an id no other record holds (the converse of `UpdateCanReassignId`) |
| Products.UpdateCanDuplicateCode | predelivery1/src/managers/ProductManager.js:104 | an update never checks codes: with unique codes, a patch carrying another record's code leaves two records with that code |
| Products.UpdateKeepsUniqueCodes | predelivery1/src/managers/ProductManager.js:98-104 | with unique codes, an update keeps codes unique when its patch carries no code, repeats the record's code, or carries a code no other record holds (the converse of `UpdateCanDuplicateCode`) |
| Products.RemoveAtUndone | predelivery1/src/managers/ProductManager.js:118 | putting the removed record back at its index restores the collection; the removed record plus the rest is the old multiset |
| Products.LookupAfterDelete | predelivery1/src/managers/ProductManager.js:112-118 | with unique ids: after a delete the id is no longer found, ids stay unique, and unique codes stay unique |
| Carts.MatchesKeyCases | Preentrega1/src/managers/CartManager.js:61 | `cart.id == key`, by kind of key: a number matches that id only; the decimal text of `m` matches `m` only; blank text matches 0; `true`/`false` match 1/0; null and undefined match no cart |
| Carts.AddLineItem | Preentrega1/src/managers/CartManager.js:81-89 | a product already present keeps the line count; an absent product is appended as a new line; every line keeps its product id; lines of other products are unchanged |
| Carts.AddLineItemRaisesFirstLine | Preentrega1/src/managers/CartManager.js:81-85 | when the product is present, exactly its first line gains `quantity`, and every other line, including a later line for the same product, stays as it was |
| Carts.CartManager.constructor | Preentrega1/src/managers/CartManager.js:4-28 | the store starts with the loaded collection (`[]` when the file is absent or does not parse); the file is as loaded, and reloading it gives back the collection (`Synced`) |
| Carts.CartManager.GenerateCartId | Preentrega1/src/managers/CartManager.js:40-42 | the generated id is above every stored cart id, and is 1 when the store is empty |
| Carts.CartManager.AddCart | Preentrega1/src/managers/CartManager.js:45-57 | a truthy `id` in the request is refused and nothing changes; otherwise an empty cart with the next id is appended and the file is written. The file keeps agreeing with the collection (`Synced`) |
| Carts.CartManager.GetCartById | Preentrega1/src/managers/CartManager.js:60-66 | succeeds exactly when some cart id loosely equals the key, returning the first such cart; otherwise fails with "No cart found" for that key |
| Carts.CartManager.GetAllCarts | Preentrega1/src/managers/CartManager.js:69-71 | returns the collection |
| Carts.CartManager.AddProductToCart | Preentrega1/src/managers/CartManager.js:74-92 | with no cart for the key: fails and changes nothing. Otherwise: only the first matching cart's line items change, as `AddLineItem` says; the number of carts is kept; each cart's unique line-item ids stay unique; the file is written. The file keeps agreeing with the collection (`Synced`) |
| Carts.QuantityAfterAdd | Preentrega1/src/managers/CartManager.js:81-89 | adding `quantity` of a product raises that product's total in the cart by exactly `quantity` and leaves every other product's total unchanged |
| Carts.AddLineItemKeepsIdsUnique | Preentrega1/src/managers/CartManager.js:81-89 | with unique line-item ids, the ids stay unique after an add, and the product then has a line |
| Carts.AddToCartKeepsIdsUnique | Preentrega1/src/managers/CartManager.js:75-89 | adding a product to one cart of the collection keeps every cart's unique line-item ids unique |
| Carts.AddSameProductTwice | Preentrega1/src/managers/CartManager.js:81-88 | adding a new product twice leaves one line for it, at the end, holding the sum of the quantities |
| Carts.LookupAfterAddCart | Preentrega1/src/managers/CartManager.js:50-61 | a newly added cart is the first found under its id given as a number |
| Carts.LookupAfterAddCartByText | Preentrega1/src/managers/CartManager.js:50-61 | with no negative cart id, a newly added cart has a positive id and is the first found under the decimal text of that id (the form a route parameter has) |
| Scenarios.FirstProductAccepted | predelivery1/src/managers/ProductManager.js:44-76 | on an empty store, a complete request with the numeric code "1" is accepted and becomes product 1 |
| Scenarios.LaterRequestsRefused | predelivery1/src/managers/ProductManager.js:46-56 | then the same code under another title is a duplicate, and a price of 0 is missing data |
| Scenarios.UpdateThenDelete | predelivery1/src/managers/ProductManager.js:96-121 | a price-only patch changes only the price; once product 1 is deleted, its id is not found |
| Scenarios.IdsAfterDeletion | predelivery1/src/managers/ProductManager.js:40 | with ids 1 and 3 the next id is 4; an empty store starts at 1 |
| Scenarios.CartSession | Preentrega1/src/managers/CartManager.js:50-88 | cart 1 is found under "1" and under 1 but not under "2"; product 7 added with 2 and then 3 gives one line holding 5 |

## Left out

- File I/O and JSON: the file is a ghost snapshot (`saved`); `JSON.stringify` formatting and `JSON.parse` of arbitrary text are not modelled.
- Products.ProductManager.constructor: the load is asynchronous in the source, so the store briefly holds `[]` and a request served in that window sees no records. The model starts from the completed load.
- Carts.CartManager.constructor: the same asynchronous load window as for products is not modelled.
- Interleaving of the `async` methods: each method runs to completion before the next begins.
- Products.ProductManager.AddProduct: a failing `writeFile` after the in-memory change (a rejected promise with the collection already changed) is not modelled, and neither is it for the other writing methods.
- Console logging (`console.log`, `console.warn`, `console.error`) has no effect on state and is left out.
- Arrays and objects as field values: a parsed JSON body can carry them, but a field here is a primitive. In JavaScript, `code: [7]` is truthy, `Number([7])` is 7, `code: []` reads as 0 and `code: {}` is not a number. `===` compares arrays and objects by reference, so two requests with `code: [7]` are both accepted. The unique-codes results (`Products.AddKeepsUnique`, `Products.ProductManager.AddProduct`) hold for primitive codes only.
- JavaScript numbers are modelled as integers on input. Fractional prices, NaN and Infinity as field values, and binary64 rounding in `Number()` are not modelled. Non-integer ids are left out too: product and cart ids are `int`.
- JsValues.StringToNumber: follows the StringNumericLiteral grammar of ECMA-262 exactly, but over exact reals. Decimal text beyond binary64 precision, which `Number()` would round, is read exactly here.
- Carts.CartManager.AddProductToCart: `quantity` is an integer. `+=` on a string quantity (string concatenation) is not modelled.
- Carts.QuantityAfterAdd: quantities are unbounded integers here, but `existingProduct.quantity += quantity` adds binary64 numbers. So the balance (a total rises by exactly `quantity`) holds in the JavaScript store only while line quantities and their sums stay within ±2^53. For example, 2^53 + 1 stays 2^53. The same bound applies to `Carts.AddSameProductTwice` (one line holding `q1 + q2`), `Carts.AddLineItemRaisesFirstLine` and `Carts.AddLineItem`.
- Ids.NextId: ids here are unbounded integers. In JavaScript, `Math.max(...ids) + 1` is computed in binary64, so once the largest id is 2^53 or more, `max + 1` rounds back to `max`. An update can set such an id, since a patch may carry any numeric `id`. Id freshness and id uniqueness therefore hold in the JavaScript stores only while ids stay below 2^53. This affects `Products.ProductManager.GenerateId`, `Products.NewRecordIsFreshCopy`, `Products.AddKeepsUnique`, `Products.LookupAfterAdd`, `Carts.CartManager.GenerateCartId` and `Carts.LookupAfterAddCart`. `Math.max(...ids)` also throws a RangeError for arrays too long to spread, which is not modelled.
- Products.ProductManager.GenerateId: the id is fresh only while ids stay below 2^53 (see `Ids.NextId` above).
- Carts.CartManager.GenerateCartId: the id is fresh only while ids stay below 2^53 (see `Ids.NextId` above).
- Products.ProductManager.UpdateProduct: a patch is the seven record keys, each present or absent. Keys outside the record, which the spread would add, are not modelled.
- Carts.CartManager.GetCartById: returns the cart as a value. The JavaScript method returns the stored object itself, so a caller that mutates it changes the store; that aliasing is not modelled.
- Carts.CartManager.GetAllCarts: returns the collection as a value. The JavaScript method returns the live array, so a caller that pushes to it, splices it or mutates a cart in it changes the store without a save; that aliasing is not modelled.
- Products.ProductManager.GetProducts: returns the collection as a value. The JavaScript method returns the live array, with the same unmodelled aliasing as `getAllCarts`.
- Products.ProductManager.GetProductById: returns the record as a value. The JavaScript method returns the stored object, so a caller that mutates it changes the store without a save; that aliasing is not modelled.
- The Express routers and `app.js` (routing, status codes, `parseInt` of route parameters, slicing of the product list by `limit`) are not part of this model.

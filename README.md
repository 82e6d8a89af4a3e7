# Product catalog: client store, list page, product form and route handlers

A model of a small product-catalog web app. Four parts are modelled, with the facts proved about each.

- **Client product store** (`useProductStore`). Holds a `products` list. Create appends the record the server returns. Fetch replaces the list. Delete filters out an id. Update replaces every record with the id. Create first checks the fields. Delete and update check the server's `success` flag once the reply arrives. Fetch replaces the list whenever the reply carries `data`, whatever its `success` flag.
- **List page.**
  - Loads the list from the API and unwraps the response's three accepted shapes.
  - Tracks `loading` and `error`.
  - Deletes a product after the user confirms.
  - Derives the category list, the searched, filtered and sorted view, and the total and average price.
- **Create/edit form.**
  - Validates its three text inputs.
  - Clears a field's error when the field is typed into.
  - Prefills from the product being edited.
  - Submits a POST (create) or a PUT (edit).
  - Resets on success and on cancel.
- **`/api/products` route.** Connects to the database once and remembers it. GET lists every record. POST checks the body's fields and creates a record. Every failure is answered with a uniform `{success, message, data}` envelope and a status code.

Modules:
- `Text`: trim, lower-casing, substring search, string comparison.
- `JsValues`: JavaScript values, truthiness, `Number(x)`, `Number(x) || 0`, `String(x)`.
- `Lists`: `filter` and `[...new Set(xs)]`.
- `Catalog`: the product record and the response envelope.
- `ProductStore`.
- `HomePage`.
- `CreatePage`.
- `ProductsRoute`.
- `Integration`: how the layers' data meet.

What a call returns or throws is a parameter of type `Call<T>`. Network requests, JSON parsing and the database are modelled this way. The answer to the `confirm` dialog is a plain `bool` parameter, and the text an `alert` would show is a returned value. An operation that awaits while its state is visible has three methods. One covers the part before the await, one the part after it settles, and one composes the two. `Home.FetchProducts` shows `loading`; `Form.HandleSubmit` shows `submitting`.

JavaScript numbers are `NaN` or an exact real (`JsValues.Number`).
- `Number(s)` on a string trims whitespace and reads an optionally signed decimal literal. The empty string reads as 0 and anything else as `NaN`.
- `String(n)` writes plain positional notation.
- `localeCompare` is a code-point lexicographic order, reduced to its sign.
- `toLowerCase` folds ASCII letters.

## Model

| member | source | states |
|---|---|---|
| ProductStore.Store.SetProducts | frontend-new/app/store/product.ts:38 | the list becomes exactly the given list |
| ProductStore.Store.CreateProduct | frontend-new/app/store/product.ts:39-55 | a falsy name, image or price (so price 0 or NaN) returns `{false, 'Please fill in all fields.'}`, makes no request and keeps the list; otherwise a thrown request propagates, and a reply appends its record if it carries one and resolves to `{true, 'Product created successfully'}` whatever its `success` flag, as `CreateResultAsWritten` says (see Findings) |
| ProductStore.AfterCreate | frontend-new/app/store/product.ts:51-53 | without data the list is unchanged; with data it is the old list, unchanged and in order, followed by exactly that record |
| ProductStore.CreateResultAsWritten | frontend-new/app/store/product.ts:50-54 | as written, once the guard passes the result is `{true, 'Product created successfully'}` for every reply |
| ProductStore.CreateReportsServerErrorAsSuccess | frontend-new/app/store/product.ts:50-54 | as written, a `{success:false, message:'Server error'}` reply is reported as success |
| ProductStore.CreateResult | frontend-new/app/store/product.ts:50-54 | the result's success is the reply's; a success carries the creation message, a failure the server's message; on successful replies it agrees with the source |
| ProductStore.Store.FetchProducts | frontend-new/app/store/product.ts:56-62 | the list becomes `data.data` when the reply has it and is unchanged otherwise; a thrown request propagates and keeps the list |
| ProductStore.Store.DeleteProduct | frontend-new/app/store/product.ts:63-73 | a `success:false` reply returns the server message and keeps the list; otherwise the list is `WithoutId(old, pid)` and the server message is returned with success |
| Catalog.WithoutIdSpec | frontend-new/app/store/product.ts:71 | removing an id keeps exactly the products with another id, each as often as before, as a subsequence of the old list; the length cannot grow; a list without the id is unchanged |
| ProductStore.Store.UpdateProduct | frontend-new/app/store/product.ts:74-91 | a `success:false` reply returns its message and keeps the list; a success replaces the list by `UpdatedList(old, pid, data)` |
| Catalog.ReplacedById | frontend-new/app/store/product.ts:86-88 | same length; each product with the id becomes the given record and every other product is unchanged at its index |
| ProductStore.UpdatedListAsWritten | frontend-new/app/store/product.ts:86-88 | as written: same length, and each product with the id becomes `data.data`, which is `undefined` (None) when the reply has no data |
| ProductStore.UpdateWithoutDataLeavesUndefined | frontend-new/app/store/product.ts:86-88 | a successful reply without data leaves an `undefined` entry in the list wherever the id occurred |
| ProductStore.UpdatedList | frontend-new/app/store/product.ts:86-88 | same length; products with the id become the returned record when there is one; every other entry is unchanged; it agrees with the source's list wherever that list holds a product |
| ProductStore.Store.constructor | frontend-new/app/store/product.ts:37 | the store starts with an empty list |
| ProductStore.Filled | frontend-new/app/store/product.ts:40 | definition of the create guard; stated by `Integration.StoreGuardMatchesRoute` |
| JsValues.Truthy | frontend-new/app/store/product.ts:40 | definition of JavaScript truthiness (0 and NaN are falsy, as are `''`, `null` and `undefined`); stated by `Integration.StoreGuardMatchesRoute` |
| Catalog.WithoutId | frontend-new/app/store/product.ts:71 | the list cannot grow; the rest is stated by `Catalog.WithoutIdSpec` |
| Lists.Filter | frontend-new/app/store/product.ts:71 | the result is no longer than the input; the rest is stated by `Lists.FilterMembership`, `Lists.FilterCount` and `Lists.FilterSubsequence` |
| HomePage.Unwrap | frontend-new/app/component/Home/Page.tsx:32-41 | the shapes are tried in priority order: a top-level array, then an array under `products`, then an array under `data`, otherwise `[]` |
| HomePage.Home.constructor | frontend-new/app/component/Home/Page.tsx:12-17 | the page starts with no products, loading, no error, an empty query, category `'all'` and sort `'name-asc'` |
| HomePage.Home.BeginFetch | frontend-new/app/component/Home/Page.tsx:27 | `loading` is true while the request is out |
| HomePage.Home.SettleFetch | frontend-new/app/component/Home/Page.tsx:28-50 | an ok response sets the unwrapped list and clears the error; a non-ok response sets 'Failed to fetch products' and `[]`; a thrown error sets its message and `[]`; `loading` ends false in every case |
| HomePage.Home.FetchProducts | frontend-new/app/component/Home/Page.tsx:25-51 | the whole fetch: the same final state as `SettleFetch`, after `loading` was set |
| HomePage.Home.HandleDelete | frontend-new/app/component/Home/Page.tsx:53-64 | a declined confirmation makes no request and changes nothing; an ok response removes exactly the products with the id (`WithoutId`); a non-ok or thrown response keeps the list and yields the alert text |
| HomePage.EffectiveCategories | frontend-new/app/component/Home/Page.tsx:72 | one entry per product; no entry is empty, so `.filter(Boolean)` drops nothing; every entry is 'Uncategorized' or the category of some product |
| Catalog.EffectiveCategory | frontend-new/app/component/Home/Page.tsx:72 | never empty; a non-empty category is kept as it is, and a missing or empty category gives 'Uncategorized' |
| HomePage.Categories | frontend-new/app/component/Home/Page.tsx:72 | definition; stated by `HomePage.CategoriesSpec` |
| Lists.Distinct | frontend-new/app/component/Home/Page.tsx:72 | the result is no longer than the input; the rest is stated by `Lists.DistinctMembership`, `Lists.DistinctNoDuplicates` and `Lists.DistinctFirstOccurrenceOrder` |
| HomePage.Home.CategoryMenu | frontend-new/app/component/Home/Page.tsx:72 | the page's category menu starts with `'all'`, followed by exactly the effective categories of its current products |
| HomePage.CategoriesSpec | frontend-new/app/component/Home/Page.tsx:72 | `'all'` first; then each effective category of the products exactly once and nothing else, in first-occurrence order; `.filter(Boolean)` drops nothing |
| Lists.DistinctMembership | frontend-new/app/component/Home/Page.tsx:72 | `[...new Set(xs)]` has exactly the elements of `xs` |
| Lists.DistinctNoDuplicates | frontend-new/app/component/Home/Page.tsx:72 | `[...new Set(xs)]` holds each element once |
| Lists.DistinctFirstOccurrenceOrder | frontend-new/app/component/Home/Page.tsx:72 | `[...new Set(xs)]` lists elements in the order of their first occurrence in `xs` |
| HomePage.FilteredProducts | frontend-new/app/component/Home/Page.tsx:75-94 | no longer than the list and holding only its products; the rest is stated by `HomePage.FilteredMembership` and `HomePage.FilteredOrder` |
| HomePage.Home.Visible | frontend-new/app/component/Home/Page.tsx:75-94 | the page shows exactly its products that match its query and category, ordered by its sort key |
| HomePage.OrderOf | frontend-new/app/component/Home/Page.tsx:82-93 | each of 'name-asc', 'name-desc', 'price-asc' and 'price-desc' selects its own order, and exactly those keys select one |
| HomePage.Compare | frontend-new/app/component/Home/Page.tsx:82-93 | -1, 0 or 1; 0 exactly when the key is unsorted, or the names (for a name key) or the prices `Number(price) \|\| 0` (for a price key) are equal |
| HomePage.FilteredMembership | frontend-new/app/component/Home/Page.tsx:75-80 | a product is in the view iff it is in the list, its lower-cased name contains the lower-cased query at some position, and the category is `'all'` or its effective category; each such product appears as often as in the list, so the view is no longer than the list |
| HomePage.UnfilteredIsPermutation | frontend-new/app/component/Home/Page.tsx:75-80 | with an empty query and `'all'` the view is a permutation of the list |
| HomePage.FilteredOrder | frontend-new/app/component/Home/Page.tsx:81-94 | the view is ordered by the comparator of the selected key; under any other key it keeps the list's order |
| HomePage.SortKeysOrderView | frontend-new/app/component/Home/Page.tsx:82-90 | `name-asc` orders the view by name, `name-desc` by name reversed, `price-asc` and `price-desc` by `Number(price) \|\| 0` ascending and descending |
| HomePage.SortSorted | frontend-new/app/component/Home/Page.tsx:81-94 | sorting yields a list ordered by the comparator that is a permutation of its input |
| HomePage.SortUnsortedKeepsOrder | frontend-new/app/component/Home/Page.tsx:91-92 | a comparator that always returns 0 leaves the list unchanged |
| HomePage.CompareAntisymmetric | frontend-new/app/component/Home/Page.tsx:82-93 | under every key, swapping the arguments negates the comparator |
| HomePage.CompareTransitive | frontend-new/app/component/Home/Page.tsx:82-93 | under every key, "not after" is transitive |
| HomePage.InsertSorted | frontend-new/app/component/Home/Page.tsx:81-94 | inserting into a sorted list keeps it sorted |
| HomePage.Insert | frontend-new/app/component/Home/Page.tsx:81-94 | inserting adds exactly one occurrence of the element |
| HomePage.Sort | frontend-new/app/component/Home/Page.tsx:81-94 | sorting keeps the multiset of products |
| Text.CompareStringsAntisymmetric | frontend-new/app/component/Home/Page.tsx:84-86 | swapping the arguments of the name comparison negates it |
| Text.CompareStringsZeroIffEqual | frontend-new/app/component/Home/Page.tsx:84-86 | names compare as 0 exactly when they are equal |
| Text.CompareStringsTransitive | frontend-new/app/component/Home/Page.tsx:84-86 | the name order is transitive |
| Text.CompareStrings | frontend-new/app/component/Home/Page.tsx:84-86 | the comparison is -1, 0 or 1 |
| Text.Contains | frontend-new/app/component/Home/Page.tsx:77 | definition of `s.includes(t)`; stated by `Text.ContainsIff` |
| HomePage.Matches | frontend-new/app/component/Home/Page.tsx:76-79 | definition of the filter callback; stated by `HomePage.FilteredMembership` and `HomePage.Home.Visible` |
| Text.ContainsIff | frontend-new/app/component/Home/Page.tsx:77 | `s.includes(t)` iff `t` occurs in `s` at some position |
| Text.LowerChar | frontend-new/app/component/Home/Page.tsx:77 | the result is never an upper-case letter; an upper-case letter becomes the lower-case letter at the same alphabet position; every other character is kept |
| Text.Lower | frontend-new/app/component/Home/Page.tsx:77 | keeps the length, and the result holds no upper-case letter |
| Text.LowerIdempotent | frontend-new/app/component/Home/Page.tsx:77 | lower-casing twice is lower-casing once |
| Text.LowerKeepsLowerCase | frontend-new/app/component/Home/Page.tsx:77 | a string without upper-case letters is unchanged by lower-casing |
| JsValues.ToNumber | frontend-new/app/component/Home/Page.tsx:88 | definition of `Number(v)`; stated by `CreatePage.PrefillKeepsWholePrice` and `Integration.ValidFormIsAccepted` |
| Catalog.PriceValue | frontend-new/app/component/Home/Page.tsx:88 | definition of `Number(p.price) \|\| 0`; stated by `HomePage.SortKeysOrderView`, `HomePage.TotalValueBounds` and `HomePage.AvgPriceBounds` |
| JsValues.OrZero | frontend-new/app/component/Home/Page.tsx:88 | `n \|\| 0` is `n` for a number and 0 for NaN |
| HomePage.TotalValue | frontend-new/app/component/Home/Page.tsx:129 | definition; stated by `HomePage.TotalValueAppend` and `HomePage.TotalValueBounds` |
| HomePage.TotalValueAppend | frontend-new/app/component/Home/Page.tsx:129 | the total of a concatenation is the sum of the totals, so the total is the sum of `Number(price) \|\| 0` over the products, whatever the grouping |
| HomePage.TotalValueBounds | frontend-new/app/component/Home/Page.tsx:129 | when every price is between `lo` and `hi`, the total is between `n*lo` and `n*hi` |
| HomePage.AvgPrice | frontend-new/app/component/Home/Page.tsx:130 | 0 for the empty list; otherwise the average times the length is the total |
| HomePage.AvgPriceBounds | frontend-new/app/component/Home/Page.tsx:129-130 | when every price is between `lo` and `hi`, so is the average |
| CreatePage.PrefillForm | frontend-new/app/component/CreatePage.tsx:33-41 | the prefilled form holds the product's name, `String(price)`, and its image or `''` |
| CreatePage.Form.constructor | frontend-new/app/component/CreatePage.tsx:25-41 | the form mounts empty (or prefilled when editing), without errors and not submitting |
| CreatePage.Form.EditingChanged | frontend-new/app/component/CreatePage.tsx:33-41 | a new product to edit refills the form; `null` keeps the typed values |
| CreatePage.PrefillKeepsWholePrice | frontend-new/app/component/CreatePage.tsx:33-41 | a whole-number price survives prefill and save unchanged; a positive one passes validation and a non-positive one draws 'Price must be a positive number' |
| CreatePage.PrefillMissingPrice | frontend-new/app/component/CreatePage.tsx:37 | a product without a price is prefilled with `'undefined'`, which validation rejects as not positive |
| JsValues.NumberToString | frontend-new/app/component/CreatePage.tsx:37 | definition of `String(n)` in plain positional notation; stated by `JsValues.WholeNumberRoundTrip` |
| JsValues.ToText | frontend-new/app/component/CreatePage.tsx:37 | definition of `String(x)`; stated by `JsValues.WholeNumberRoundTrip` and `CreatePage.PrefillMissingPrice` |
| JsValues.WholeNumberRoundTrip | frontend-new/app/component/CreatePage.tsx:37 | `Number(String(n)) == n` for every whole number |
| CreatePage.WithField | frontend-new/app/component/CreatePage.tsx:45 | the named field takes the value and the other two are unchanged |
| CreatePage.ErrorsAfterChange | frontend-new/app/component/CreatePage.tsx:46-48 | a shown message for the field is cleared to `''`; an unset or empty one is left as it is; other fields keep their messages; no message is shown afterwards that was not shown before |
| CreatePage.Shown | frontend-new/app/component/CreatePage.tsx:46 | definition of a truthy error message for a field; stated by `CreatePage.ErrorsAfterChange` |
| CreatePage.Form.HandleChange | frontend-new/app/component/CreatePage.tsx:43-49 | the form and the errors change as `WithField` and `ErrorsAfterChange` say |
| CreatePage.ErrorsFor | frontend-new/app/component/CreatePage.tsx:51-67 | name and image messages are set exactly when the field is all whitespace; 'Price is required' exactly when the price is empty; 'Price must be a positive number' exactly when it is non-empty and not a positive number; so the two price messages exclude each other and no price message means a positive price |
| Text.Trim | frontend-new/app/component/CreatePage.tsx:54 | definition of `trim()`; stated by `Text.TrimEmptyIffBlank` |
| JsValues.ParseNumber | frontend-new/app/component/CreatePage.tsx:60 | definition of `Number(s)`; stated by `JsValues.WholeNumberRoundTrip` and `Integration.RouteAcceptsWhatFormRejects` |
| CreatePage.PricePositive | frontend-new/app/component/CreatePage.tsx:60 | definition of the price test; stated by `CreatePage.ErrorsFor` and `CreatePage.IsValid` |
| CreatePage.PriceErrorsOfNumber | frontend-new/app/component/CreatePage.tsx:58-62 | a non-empty price text that reads as a number draws no price message when the number is positive and 'Price must be a positive number' otherwise |
| Text.TrimEmptyIffBlank | frontend-new/app/component/CreatePage.tsx:54 | a string trims to `''` exactly when every character is whitespace |
| CreatePage.IsValid | frontend-new/app/component/CreatePage.tsx:69 | the form is valid iff the name and the image hold a non-whitespace character and the price reads as a positive number |
| CreatePage.Form.Validate | frontend-new/app/component/CreatePage.tsx:51-70 | the errors are replaced wholesale by those of the current form; the result is `IsValid` |
| CreatePage.SaveRequestFor | frontend-new/app/component/CreatePage.tsx:78-88 | PUT exactly when editing, to `/api/products/` followed by the product's id, else POST to `/api/products`; the payload carries the name and image verbatim and `Number(price)` |
| CreatePage.Form.BeginSubmit | frontend-new/app/component/CreatePage.tsx:73-88 | an invalid form sends nothing and keeps `submitting`; a valid one sets `submitting` and yields the request for the current form and edit target |
| CreatePage.Form.FinishSubmit | frontend-new/app/component/CreatePage.tsx:98-108 | an ok response clears the form and the edit target and returns to the list view; a non-ok or thrown response keeps all three and yields the alert text; `submitting` ends false |
| CreatePage.Form.HandleSubmit | frontend-new/app/component/CreatePage.tsx:72-109 | no request when validation fails; otherwise the request of `SaveRequestFor` and the outcome of `FinishSubmit` |
| CreatePage.Form.HandleCancel | frontend-new/app/component/CreatePage.tsx:111-115 | the form is empty, nothing is being edited and the view is the list |
| ProductsRoute.Route.constructor | frontend-new/app/api/products/route.ts:7 | the flag starts unset |
| ProductsRoute.ConnectOutcome | frontend-new/app/api/products/route.ts:9-20 | a set flag returns at once; otherwise the attempt's outcome |
| ProductsRoute.Route.ConnectDB | frontend-new/app/api/products/route.ts:9-20 | an attempt is made exactly when the flag is unset; the flag is set afterwards exactly when it was set or the attempt succeeded; a failure is rethrown |
| ProductsRoute.GetResponse | frontend-new/app/api/products/route.ts:33-45 | 200 exactly when connecting and `find` succeed, with `success:true` and every record; otherwise 500 with `{false, 'Server error'}` |
| ProductsRoute.Route.Get | frontend-new/app/api/products/route.ts:33-45 | the response is `GetResponse` of the connection outcome and `find` |
| ProductsRoute.FieldsPresent | frontend-new/app/api/products/route.ts:53 | definition of the field check; stated by `ProductsRoute.PostResponse` and `Integration.StoreGuardMatchesRoute` |
| ProductsRoute.PostResponse | frontend-new/app/api/products/route.ts:48-71 | 400 with 'Please provide all fields' exactly when connected, the body is read and is not `null`, and a field is falsy; 201 with the created record exactly when all fields are truthy and create succeeds; every other case is 500 'Server error'; `success` iff 201 |
| ProductsRoute.Route.Post | frontend-new/app/api/products/route.ts:48-71 | the response is `PostResponse`; `Product.create` is called only for a body with all fields, so a 400 leaves the database untouched |
| Integration.PayloadBody | frontend-new/app/api/products/route.ts:51 | the body the route reads holds the payload's name and image as strings, a number price as that number and a `NaN` price as `null`, and no category |
| Integration.StoreGuardMatchesRoute | frontend-new/app/store/product.ts:40 | the store's field guard accepts a payload exactly when the route's field check accepts its JSON |
| Integration.ValidFormIsAccepted | frontend-new/app/component/CreatePage.tsx:84-88 | a valid form's payload passes the store guard and the route check, so it is created with 201 unless the database fails |
| Integration.RouteAcceptsWhatFormRejects | frontend-new/app/api/products/route.ts:53 | the route accepts a price of -5, which the form rejects |
| Integration.Ok | frontend-new/app/component/Home/Page.tsx:29 | definition of `response.ok` as a 2xx status; stated by `Integration.PageReadsGetResponse` |
| Integration.PageBody | frontend-new/app/component/Home/Page.tsx:30 | the page reads the envelope as an object whose `data` is the envelope's and which has no `products`; stated by `Integration.PageReadsGetResponse` |
| Integration.RecordReply | frontend-new/app/store/product.ts:50 | the store's reply keeps the envelope's `success` and `message` and carries a record exactly when the envelope holds one; stated by `Integration.StoreReadsPostResponse` |
| Integration.ListReply | frontend-new/app/store/product.ts:58 | the store's reply keeps the envelope's `success` and `message` and carries a list exactly when the envelope holds one; stated by `Integration.StoreReadsGetResponse` |
| Integration.PageReadsGetResponse | frontend-new/app/component/Home/Page.tsx:29-37 | the page's response is ok exactly when GET succeeded, and it then unwraps exactly the database's records |
| Integration.StoreReadsPostResponse | frontend-new/app/store/product.ts:50-54 | a 201 appends the created record and is reported as success; a 500 keeps the list, yet the source's result still reports success, while the corrected `CreateResult` reports `{false, 'Server error'}` |
| Integration.StoreReadsGetResponse | frontend-new/app/store/product.ts:58-61 | a successful GET gives the store the database's records; a failed one gives no data, so the list is kept |

## Left out

- Networking, JSON parsing, the database (`mongoose.connect`, `Product.find`, `Product.create`, the schema) and the browser dialogs. Their outcomes are `Call<T>` or `bool` parameters. No database collection is kept as state.
- Malformed JSON, a `null` page response body (reading `.products` of `null` throws) and a failed `res.json()` in the store are covered by the `Threw` outcome. A thrown non-`Error` value (`String(err)`, 'An unknown error occurred') is not modelled.
- `alert` and `console` output. The alert texts of the form and of delete are returned as values; the logging is dropped.
- Number syntax: `Number(s)` does not read exponents, hexadecimal, binary or octal literals (`0x1f`, `0b101`, `0o7`), or `Infinity`: the model reads them as `NaN`, so the form rejects such a price, which the source accepts. `String(n)` never uses exponent form and writes at most 20 fractional digits. Infinities and -0 are not modelled, nor is floating-point rounding: sums and averages are exact reals.
- Array-valued fields: `Compound` stands for a non-array object, so `Number` gives `NaN` and `String` gives `'[object Object]'` for it. A price is typed as a number or a string and the schema stores a number, so no modelled field holds an array.
- `toLowerCase` folds only ASCII letters. `localeCompare` is code-point order, not locale collation.
- Sort stability: the sort is a stable insertion sort, and sortedness and permutation are proved. That equal elements keep their order under a named key is not stated.
- ProductStore.Store.UpdateProduct: the `patch` argument only goes into the request body, so it is not a parameter. A `success:true` reply without `data` keeps the list, where the source writes `undefined` at every index with the id; the list holds products only, so the method follows `UpdatedList`, and the source's list is `UpdatedListAsWritten` (see Findings).
- `handleEdit`, the view switching in `page.tsx`, `Navbar.tsx` and all markup: these only pass state to the parent.
- The `[id]` route (PUT and DELETE by id) is not part of this model. Its replies are inputs of the store's update and delete.
- Timestamps (`createdAt`, `updatedAt`) and other extra record fields.
- Async races between overlapping requests. The `zustand` `set` mechanics and React re-rendering.
- `process.env.MONGO_URI`.

The route checks only that name, price and image are truthy. A negative price therefore passes the route's field check and is created, though the form rejects it; `Integration.RouteAcceptsWhatFormRejects` shows this. A non-numeric price string also passes the field check, but the schema declares the price a number, so `Product.create` rejects it and the route answers 500. The intended design has the server mirror the form's rules; the code does not, and the model follows the code.

## Findings

| source | as written | input that shows it | evidently intended | confidence | as-written member | corrected member |
|---|---|---|---|---|---|---|
| frontend-new/app/store/product.ts:50-54 | once the guard passes, `createProduct` resolves to `{success:true, message:'Product created successfully'}` whatever the server replied | a valid payload while the database is unreachable: the route answers 500 `{success:false, message:'Server error'}` and the caller is told the product was created | report the server's `success` and `message`, as `deleteProduct` and `updateProduct` do | medium, not executed | ProductStore.CreateReportsServerErrorAsSuccess | ProductStore.CreateResult |
| frontend-new/app/store/product.ts:86-88 | after a `success:true` reply, every product with the id becomes `data.data` even when the reply has no `data`, leaving `undefined` in the list | a reply `{success:true}` without `data` for an id in the list | replace only when a record was returned | low (the PUT route always sends `data` on success), not executed | ProductStore.UpdateWithoutDataLeavesUndefined | ProductStore.UpdatedList |

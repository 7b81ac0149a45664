# db44 shop core in Dafny

This project models the domain layer of a small TypeScript/Express shop with a
MongoDB back end. It covers five parts.

- **Validator.** Per-collection `required` and `unique` rules. Messages look
  like "Email is required." and "Email has already been taken."; several
  messages are joined with spaces into one `ValidationError`.
- **Model base class.** `findAll`, `findById`, `create`, `update` and `delete`
  over a collection. Writes are validated first.
- **Cart engine** (`Order`). It finds the user's cart, or creates one. It can
  add a product to the cart, rewrite the cart from the cart form, count the
  items, price the lines (rounded up to the cent) and total them.
- **Product catalog.** Every read joins each product to its supplier. It also
  builds the store page's category and supplier check boxes, and the product
  filter from the query string.
- **Route gates** (`Middleware`). They decide whether a request goes on, is
  redirected with a flash message, or throws.

The model has these modules:

- `Docs`: document values.
- `DocStore`: an ordered collection with the driver operations the code uses.
- `Validation`: the validator.
- `ModelBase`: the model base class.
- `Numbers`: `Math.ceil` to the cent and `Number.parseInt`.
- `Catalog`: `Product`.
- `Orders`: `Order`.
- `Middleware`: the route gates.
- `Scenarios`: the user-validation test cases. The two update cases about a
  taken email assume that the store already holds each truthy email at most
  once. Validated creates and updates keep that property
  (`ModelBase.CreateKeepsUniqueColumn`, `ModelBase.UpdateKeepsUniqueColumn`).
  The other cases hold for every store.

Every operation that writes to the orders collection has a specification
function. Its name ends in `Step` (e.g. `AddToCartStep`). It maps the store
state (rows, next identifier) to the new state and the returned value. Each
method that writes to the orders collection ensures that its effect equals
its step function, and so do `Model.create` and `Model.update`. Lemmas
about the step functions state what the next read of the cart sees.

## Model

| member | source | states |
|---|---|---|
| Docs.Truthy | src/Validator.ts:48 | JavaScript truthiness, by definition: `null`, `false`, `0` and `""` are falsy and every object or array is truthy; it decides `!data[property]` and `if (value)` in the validator |
| Docs.Get | src/Validator.ts:48 | a field missing from the data reads as undefined (Null) |
| Docs.Lookup | src/models/Model.ts:32-34 | the value a query sees, by definition: `_id` is the record's id and any other field its stored value, a missing field reading as null; `IdFilter` and `ValueFilter` state what it makes their filters match |
| Docs.Matches | src/models/Model.ts:19-27 | a record matches a filter iff every field condition holds of its value, by definition; `Select` and `First` return exactly the matching records |
| Docs.Merge | src/models/Model.ts:54-57 | `$set` gives the union of the keys; a supplied field takes the supplied value and every other field keeps its old value |
| Docs.MergeKeepsMatch | src/models/Model.ts:54-57 | a `$set` of fields a filter does not mention leaves whether the record matches that filter unchanged |
| DocStore.Select | src/models/Model.ts:19-27 | `find(query)` returns no more rows than stored, and a row is in the result iff it is stored and matches |
| DocStore.First | src/Validator.ts:60-62 | `findOne` gives null iff no stored row matches, otherwise a stored row that matches |
| DocStore.IdFilter | src/models/Model.ts:32-34 | the `{_id}` filter matches exactly the row with that id |
| DocStore.FindRow | src/models/Model.ts:29-39 | the lookup by id gives null iff no row has the id, otherwise a stored row with it |
| DocStore.SetFields | src/models/Model.ts:54-57 | `findOneAndUpdate` with `$set` keeps the order and the ids; only the row with the id changes, and it gets the merged document; with no such row nothing changes |
| DocStore.Without | src/models/Model.ts:60-64 | `findOneAndDelete` removes exactly one row when the id exists and nothing otherwise; every other row stays |
| DocStore.SelectAppend | src/models/Model.ts:19-27 | `find` keeps natural order: after an insert, the result is the earlier matches in their order, followed by the new record iff it matches |
| DocStore.SetFieldsOfDistinct | src/models/Model.ts:54-57 | with distinct ids, position by position, the record with the id gets the merged document and every other record stays as it was |
| DocStore.SelectEverything | src/models/Model.ts:19-27 | the empty query returns every row, in natural order |
| DocStore.SelectHeadIsFirst | src/models/Order.ts:42-49 | the first element of `find` is the row `findOne` returns, and `find` is empty iff `findOne` finds nothing |
| DocStore.FirstAppend | src/models/Model.ts:44-46 | after an insert, `findOne` still returns the earlier match, or else the inserted row if it matches |
| DocStore.FindAfterInsert | src/models/Model.ts:44-48 | an inserted record with a fresh id is found by that id |
| DocStore.FirstAfterSetFields | src/models/Model.ts:54-57 | after a `$set` on one record, `findOne` with a filter gives the updated record, or the same other record |
| DocStore.WithoutKeepsDistinct | src/models/Model.ts:60-64 | deleting keeps the ids distinct |
| DocStore.DeleteRemovesId | src/models/Model.ts:60-64 | after deleting, no record has that id and `find({_id})` is empty |
| DocStore.Collection.InsertOne | src/models/Model.ts:44-48 | `insertOne` appends the document under a fresh id and returns it; the collection invariant (distinct ids, all below the next id) is kept |
| DocStore.Collection.FindOneAndUpdate | src/models/Model.ts:54-57 | returns the record before the update and sets the rows to `SetFields`; the invariant is kept |
| DocStore.Collection.FindOneAndDelete | src/models/Model.ts:60-64 | returns the removed record and sets the rows to `Without`; the invariant is kept |
| Validation.Upper | src/Validator.ts:78 | `toUpperCase` maps a lower-case ASCII letter to its capital and leaves every other character alone |
| Validation.CapitalizeFirst | src/Validator.ts:78 | `replace(/./, toUpperCase)` upper-cases the first character that is not a line terminator and nothing else; the length is kept |
| Validation.CapitalizeFirstKeepsFrom | src/Validator.ts:78 | from a character that `/./` matches and upper-casing leaves alone (the space in a message), nothing is changed |
| Validation.FormatError | src/Validator.ts:76-79 | the message is the property, a space and the description, with the first character capitalised |
| Validation.JoinSpaces | src/Validator.ts:42 | `errors.join(' ')`; `MessagesJoinInRuleOrder` and `CheckFailsIff` state that the messages appear in rule order, separated by one space, and that a single message is passed on unchanged |
| Validation.Missing | src/Validator.ts:48 | the condition of `validateRequired`, by definition: the value is falsy, and the field is present or this is a create; `CreateRequiresEveryField` and `UpdateChecksPresentFields` state its effect on create and on update |
| Validation.ValueFilter | src/Validator.ts:58-59 | the filter `{[property]: data[property]}` matches the records whose field equals the supplied value |
| Validation.Taken | src/Validator.ts:56-66 | the condition of `validateUnique`, by definition: the value is truthy, `findOne` finds a record with it, and this is a create or that record is not the one being updated; `TakenIff` restates it as a property of the whole store |
| Validation.RequiredErrors | src/Validator.ts:46-52 | the messages `validateRequired` pushes; `MissingIsReported` states that every failing field's message is in it, `RequiredErrorsOnlyMissing` that it holds at most one message per rule and only messages of failing fields, and `NoRequiredErrorsIff` that it is empty iff no field fails; and `ValidateRequired`'s loop is proved equal to it |
| Validation.UniqueErrors | src/Validator.ts:54-74 | the messages `validateUnique` pushes; `TakenIsReported` states that every taken field's message is in it, `UniqueErrorsOnlyTaken` that it holds at most one message per rule and only messages of taken fields, and `NoUniqueErrorsIff` that it is empty iff no value is taken; and `ValidateUnique`'s loop is proved equal to it; `UniqueErrorsStep` states that each rule's message comes after those of the earlier rules |
| Validation.UniqueErrorsStep | src/Validator.ts:55-73 | one more unique rule adds its message, if any, after those of the earlier rules |
| Validation.Errors | src/Validator.ts:34-40 | every message of one `validate` run: the required messages, then the unique ones |
| Validation.Check | src/Validator.ts:34-44 | `validate` on a fresh validator: `CheckFailsIff` states when it fails and with which message, and `Validator.Validate` is proved equal to it |
| Validation.Validator.Validate | src/Validator.ts:34-44 | without a rules entry it throws a TypeError; otherwise it appends the required errors and then the unique errors; it throws a ValidationError with the messages joined by spaces iff there is at least one; on a fresh validator it equals `Check` |
| Validation.Validator.ValidateRequired | src/Validator.ts:46-52 | the loop appends "… is required." for each rule whose value is falsy and is present or being created, in rule order |
| Validation.Validator.ValidateUnique | src/Validator.ts:54-74 | the loop appends "… has already been taken." for each rule whose truthy value `findOne` finds on a record other than the one being updated, in rule order |
| Validation.MissingIsReported | src/Validator.ts:46-52 | every required field that fails its check gets its message |
| Validation.RequiredErrorsOnlyMissing | src/Validator.ts:46-52 | `validateRequired` pushes at most one message per rule, and every message it pushes is "… is required." for a rule whose field fails the check |
| Validation.NoRequiredErrorsIff | src/Validator.ts:46-52 | there is no required-field message iff every required field passes |
| Validation.CreateRequiresEveryField | src/Validator.ts:48 | on create, there is no required-field message iff every required field is present and truthy |
| Validation.Present | src/Validator.ts:48 | the required fields the payload carries, i.e. in the rules and in the data |
| Validation.UpdateChecksPresentFields | src/Validator.ts:48 | on update, required checking is create-style checking of the fields the payload carries; an absent field is never an error |
| Validation.TakenIsReported | src/Validator.ts:54-74 | every unique field whose value is taken gets its message |
| Validation.UniqueErrorsOnlyTaken | src/Validator.ts:54-74 | `validateUnique` pushes at most one message per rule, and every message it pushes is "… has already been taken." for a rule whose value is taken |
| Validation.NoUniqueErrorsIff | src/Validator.ts:54-74 | there is no unique-field message iff no unique value is taken |
| Validation.UniqueColumn | src/Validator.ts:56-66 | the store invariant that unique rules keep, by definition: no truthy value of the field is held by two records, while any number of records may hold a falsy one, because falsy values are never checked |
| Validation.SameValueSameIndex | src/Validator.ts:60-66 | in a column whose truthy values are unique, two records with the same truthy value are the same record |
| Validation.TakenIff | src/Validator.ts:54-74 | where stored truthy values are unique, a value is taken iff it is truthy and a stored record other than the one being updated holds it |
| Validation.OwnValueIsNotTaken | src/Validator.ts:64-66 | updating a unique field to the record's own current value is accepted |
| Validation.PassTakesNothing | src/Validator.ts:54-74 | a write that passes validation takes no value of any unique field |
| Validation.CheckFailsIff | src/Validator.ts:34-44 | validation fails iff some required field is missing or some unique value is taken; with a single message, the error carries exactly that message |
| ModelBase.CreateStep | src/models/Model.ts:41-49 | `create` validates first; on failure the store is unchanged; otherwise the data is appended under a fresh id and returned; the store invariant is kept |
| ModelBase.UpdateStep | src/models/Model.ts:51-58 | `update` validates with the record's id; on failure the store is unchanged; otherwise it returns the record before the update and `$set`s the data; the next id is untouched |
| ModelBase.ColumnAfterSetFields | src/models/Model.ts:54-57 | with distinct ids, after a `$set` by id, the updated record shows the supplied value of a field when one is supplied, `_id` is never overwritten, and every other entry of the column stays |
| ModelBase.CreateKeepsUniqueColumn | src/models/Model.ts:41-49 | a validated `create` keeps every unique field's truthy values unique |
| ModelBase.UpdateKeepsUniqueColumn | src/models/Model.ts:51-58 | a validated `update` keeps every unique field's truthy values unique |
| ModelBase.Model.FindAll | src/models/Model.ts:19-27 | returns the matching records in natural order; the empty query gives every record |
| ModelBase.Model.FindById | src/models/Model.ts:29-39 | returns the record with the id, or null iff there is none |
| ModelBase.Model.Create | src/models/Model.ts:41-49 | fails iff validation fails, with validation's error, and then changes nothing; on success it appends the data under a fresh id; equals `CreateStep` |
| ModelBase.Model.Update | src/models/Model.ts:51-58 | fails iff validation on update fails, and then changes nothing; on success it returns the record before the update and applies `$set`; equals `UpdateStep` |
| ModelBase.Model.Delete | src/models/Model.ts:60-64 | returns the removed record and removes exactly that id |
| ModelBase.CreatedIsFound | src/tests/models/Model.test.ts:27-36 | a created record is found by its id and is listed by `findAll()` |
| ModelBase.UpdateSetsExactlySuppliedFields | src/tests/models/Model.test.ts:37-54 | after an update, supplied fields have the new values, all other fields keep the old ones, and other records are untouched |
| ModelBase.FindOtherAfterSetFields | src/models/Model.ts:54-57 | updating one record does not change what a lookup of any other id finds |
| ModelBase.DeleteRemovesOnlyThatRecord | src/tests/models/Model.test.ts:55-64 | after a delete, the id is gone and every other record is found as before |
| ModelBase.FindOtherAfterWithout | src/models/Model.ts:60-64 | deleting one record does not change what a lookup of any other id finds |
| Numbers.Ceil | src/models/Order.ts:149 | `Math.ceil` gives the least integer not below its argument |
| Numbers.CeilCents | src/models/Order.ts:118 | `Math.ceil(x * 100) / 100` is a whole number of cents, at least `x` and less than a cent above it |
| Numbers.CeilCentsOfCents | src/models/Order.ts:149 | an amount already in whole cents is not changed by rounding |
| Numbers.CeilCentsIdempotent | src/models/Order.ts:149 | rounding twice equals rounding once |
| Numbers.CeilCentsMonotone | src/models/Order.ts:118 | rounding up to the cent keeps the order of amounts |
| Numbers.PriceExample | src/models/Order.ts:118 | 3 at 19.995 costs 59.99 |
| Numbers.ParseInt | src/models/Order.ts:92 | `Number.parseInt(s, 10)`, with None for NaN: it skips the leading white space (`TrimStart`), reads one optional sign and then the longest run of digits (`DigitPrefix`), and gives NaN when there is no digit; `ParseIntOfIntToString` proves that it reads back any rendered integer followed by text that does not start with a digit |
| Numbers.TrimStart | src/models/Order.ts:92 | `parseInt` skips the leading white space: every dropped character is white space, and what remains is a suffix that does not start with white space |
| Numbers.TrimStartOfNonSpace | src/models/Order.ts:92 | text that does not start with white space is not trimmed |
| Numbers.DigitPrefix | src/models/Order.ts:92 | the digits `parseInt` reads are the longest prefix of digits |
| Numbers.NatToString | src/models/Order.ts:92 | a natural number's decimal rendering is a non-empty run of digits |
| Numbers.DigitsValueOfNatToString | src/models/Order.ts:92 | the value of a natural number's rendering is that number |
| Numbers.DigitPrefixOfDigits | src/models/Order.ts:92 | digit reading stops at the first non-digit |
| Numbers.ParseSignedUnsigned | src/models/Order.ts:92 | after the white space, text that starts with a digit is read as the value of its leading run of digits |
| Numbers.ParseSignedNegative | src/models/Order.ts:92 | after the white space, a minus sign followed by a digit is read as the negated value of the run of digits |
| Numbers.ParseIntUnsigned | src/models/Order.ts:92 | `parseInt` of text that starts with a digit is the value of its leading run of digits |
| Numbers.ParseIntNegative | src/models/Order.ts:92 | `parseInt` of a minus sign followed by a digit is the negated value of the run of digits |
| Numbers.ParseIntOfIntToString | src/models/Order.ts:92 | `parseInt(String(n) + rest, 10)` is `n` for any integer `n` and any `rest` that does not start with a digit |
| Catalog.SupplierFilter | src/models/Product.ts:47-52 | the `$lookup` condition matches the suppliers whose `_id` is the product's `supplierId` |
| Catalog.SupplierOf | src/models/Product.ts:47-54 | the joined supplier is absent iff no supplier matches; otherwise it is the first supplier that matches |
| Catalog.FindAll | src/models/Product.ts:42-62 | returns the matching products in natural order, each joined with `SupplierOf`; a joined product is in the result iff it is stored, matches and has its own supplier |
| Catalog.FindById | src/models/Product.ts:65-87 | gives null iff no product has the id; otherwise the stored product with that id, joined with its supplier |
| Catalog.GetNameFromId | src/models/Product.ts:89-92 | with no product of that id, reading `name` on null throws (Fault); otherwise it gives that product's `name` |
| Catalog.CategoryColumn | src/models/Product.ts:100 | `products.map(p => p.category)`, position by position |
| Catalog.Distinct | src/models/Product.ts:99-101 | `[...new Set(xs)]` holds exactly the values of `xs`, each once |
| Catalog.FirstIndex | src/models/Product.ts:99-101 | the position of a value's first occurrence |
| Catalog.FirstIndexInPrefix | src/models/Product.ts:99-101 | a value's first occurrence is the same in any prefix that contains it |
| Catalog.DistinctKeepsFirstOccurrenceOrder | src/models/Product.ts:99-101 | the distinct values are in the order of their first occurrences |
| Catalog.GetCategories | src/models/Product.ts:94-107 | one box per distinct category, in that order; a box is ticked iff its name is among the filters, and a null filter list counts as empty |
| Catalog.CategoryBoxesDistinct | src/models/Product.ts:99-101 | no category gets two boxes |
| Catalog.CategoryBoxesCoverProducts | src/models/Product.ts:94-107 | every product's category has a box, and every box is some product's category |
| Catalog.GetSuppliers | src/models/Product.ts:109-118 | one box per supplier, in natural order, with its name and id; a box is ticked iff the id is among the filters |
| Catalog.Strs | src/models/Product.ts:121 | the category strings as query values, membership for membership |
| Catalog.Refs | src/models/Product.ts:123-127 | `suppliers.map(id => new ObjectId(id))`, membership for membership |
| Catalog.BuildQuery | src/models/Product.ts:120-139 | the query has a category clause iff categories were given and a supplier clause iff suppliers were given, and nothing else; a product matches iff its category and supplier are among the selected ones (where given) |
| Orders.EncodeItem | src/models/Order.ts:66-69 | a stored line item decodes back to the same line item |
| Orders.DecodeItem | src/models/Order.ts:71-74 | a stored line item read back; `EncodeItem` states that it inverts the encoding, and `DecodeItemsElementwise` that a list is read element by element |
| Orders.EncodeItems | src/models/Order.ts:81-83 | the items list stores each line item encoded, position by position |
| Orders.DecodeItems | src/models/Order.ts:71 | `cart.items` read back as line items; `DecodeItemsElementwise` and `DecodeEncodedItems` state what it gives |
| Orders.DecodeAllElementwise | src/models/Order.ts:71 | decoding a list succeeds iff every element is a line item, and then gives one line item per element, in order |
| Orders.DecodeItemsElementwise | src/models/Order.ts:71 | the stored `items` field reads back iff it is a list whose every element is a line item, and then as one line item per element, in order |
| Orders.DecodeAllOfEncoded | src/models/Order.ts:71 | decoding encoded line items gives them back |
| Orders.DecodeEncodedItems | src/models/Order.ts:71 | reading `cart.items` back after storing `{items}` gives the same items |
| Orders.CartFilter | src/models/Order.ts:42-45 | the cart query matches exactly the user's orders with status "cart" |
| Orders.NewCartDoc | src/models/Order.ts:52-62 | a new cart belongs to the user, has status "cart" and has no items |
| Orders.CartOf | src/models/Order.ts:41-50 | the user's cart is absent iff no order of the user has status "cart"; otherwise it is a stored order of the user with status "cart" |
| Orders.CartItems | src/models/Order.ts:70-71 | the line items a read of the user's cart sees: those stored in the cart, or none when there is no cart yet; `GetCartKeepsItems` and `SetItemsIsSeen` state how reads and writes move it |
| Orders.GetCartStep | src/models/Order.ts:41-62 | an existing cart is returned and nothing changes; otherwise an empty cart is created through `create`; the returned cart is what the next read finds; a failure changes nothing |
| Orders.DistinctRowsDistinctIds | src/models/Order.ts:41-50 | in a valid store, two different records have different ids |
| Orders.GetCartKeepsItems | src/models/Order.ts:41-62 | reading the cart keeps its items; a created cart is `NewCartDoc` with no items; other users' carts do not move |
| Orders.SetItemsIsSeen | src/models/Order.ts:81-83 | after the cart gets `{items}` `$set`, the next read of the cart shows exactly those items, and other users' carts are unchanged |
| Orders.FindIndex | src/models/Order.ts:73-75 | `findIndex` is -1 iff no line has the product; otherwise it is the first line with that product |
| Orders.AddItem | src/models/Order.ts:73-80 | the items after the `findIndex` / `push` / `+=` update; `AddExistingIncrements`, `AddNewAppends`, `AddKeepsDistinctProducts` and `AddItemCounts` state what it does |
| Orders.AddExistingIncrements | src/models/Order.ts:78-80 | a product already in the cart has its quantity increased; every other line stays |
| Orders.AddNewAppends | src/models/Order.ts:76-77 | a product not in the cart is appended as a new line |
| Orders.AddKeepsDistinctProducts | src/models/Order.ts:73-80 | adding keeps at most one line per product |
| Orders.NumberOfItems | src/models/Order.ts:133-140 | the `reduce` sum of the quantities; `NumberOfItemsAppend` states that it adds up over concatenation, and `AddItemCounts` and `ReplaceLine` how a cart change moves it |
| Orders.QuantityOf | src/models/Order.ts:133-140 | the total quantity of one product over the lines, a per-product count beside `NumberOfItems`; `QuantityOfAppend`, `ReplaceLine` and `AddItemCounts` state how it moves |
| Orders.NumberOfItemsAppend | src/models/Order.ts:133-140 | the item count of two concatenated lists is the sum of their counts |
| Orders.QuantityOfAppend | src/models/Order.ts:133-140 | a product's quantity over two concatenated lists is the sum of its quantities |
| Orders.ReplaceLine | src/models/Order.ts:79 | replacing one line changes the item count and the product quantities by the difference |
| Orders.AddItemCounts | src/models/Order.ts:73-80 | adding `q` of a product increases the cart's item count by `q`; that product's quantity rises by `q` and no other product's changes |
| Orders.AddToCartStep | src/models/Order.ts:64-84 | `addToCart` on the store state; `AddToCartAddsToTheCart` states its effect |
| Orders.AddToCartAddsToTheCart | src/models/Order.ts:64-84 | the store invariant is kept; on success the next read shows the old items with the product added; on failure the items are as they were (an existing cart is untouched); other users' carts do not move |
| Orders.KeptItems | src/models/Order.ts:87-99 | the `reduce` of `updateCart`; `KeptItemsFailIff`, `KeptItemsAreTheUnmarkedRows` and `KeptErrorPersists` state what it gives |
| Orders.KeptIndices | src/models/Order.ts:87-99 | the positions of the rows not marked for deletion, in increasing order, all of them |
| Orders.KeptItemsFailIff | src/models/Order.ts:89-92 | parsing the form fails iff some unmarked row has a quantity with no leading integer |
| Orders.KeptItemsAreTheUnmarkedRows | src/models/Order.ts:87-99 | the kept items pair up with the unmarked rows in submission order, with each row's product and parsed quantity |
| Orders.UpdateCartStep | src/models/Order.ts:86-106 | `updateCart` on the store state; `UpdateCartReplacesItems` states its effect |
| Orders.UpdateCartReplacesItems | src/models/Order.ts:86-106 | on success, the next read of the cart shows exactly the kept rows, and the result is their item count; on failure the items are unchanged; other carts do not move |
| Orders.NumberOfItemsStep | src/models/Order.ts:128-131 | `getNumberOfItemsInCartFromUserId` on the store state; `NumberOfItemsIsCartCount` states its effect |
| Orders.NumberOfItemsIsCartCount | src/models/Order.ts:128-140 | the count is the item count of what a read of the cart shows; the cart's items do not change; an existing cart means nothing is written |
| Orders.SupplierName | src/models/Order.ts:120-122 | the joined supplier's `name`, or the product's `supplierId` when no supplier is joined, by definition; `ParseLineCopiesTheProduct` states that a parsed line carries it |
| Orders.ParseLine | src/models/Order.ts:110-123 | one iteration of `parseLineItems`; `ParseLineCopiesTheProduct` states what it gives |
| Orders.ParseLineCopiesTheProduct | src/models/Order.ts:112-123 | a parsed line carries the product's id, name, description, category and joined supplier name (or else its `supplierId`) and the item's quantity; its price is the exact line price rounded up to the cent; a missing product throws |
| Orders.MapUntilErrorLineByLine | src/models/Order.ts:111-125 | a loop that stops at the first failing line succeeds iff every line succeeds, and then gives each line's result in order |
| Orders.MapUntilErrorFirstError | src/models/Order.ts:111-125 | a failed loop reports the error of the first failing line |
| Orders.MapUntilErrorPersists | src/models/Order.ts:111-125 | once a prefix fails, the whole sequence fails with the same error |
| Orders.ParsedLines | src/models/Order.ts:108-126 | what the loop of `parseLineItems` computes; `ParsedLinesLineByLine` and `ParsedLinesFirstError` state what it gives, and `Order.ParseLineItems` is proved equal to it |
| Orders.ParsedLinesLineByLine | src/models/Order.ts:108-126 | `parseLineItems` succeeds iff every line's product exists with a numeric price, and then gives one parsed line per item, in order |
| Orders.ParsedLinesFirstError | src/models/Order.ts:108-126 | a failing `parseLineItems` reports the first failing line's error |
| Orders.SumPrices | src/models/Order.ts:145-148 | the `reduce` sum of the line prices; `SumOfWholeCents`, `TotalCost` and `TotalOfParsedCart` state what it gives |
| Orders.TotalCost | src/models/Order.ts:143-150 | the total is a whole number of cents, at least the sum of the line prices and less than a cent above it |
| Orders.WholeCentsSum | src/models/Order.ts:145-148 | the sum of whole-cent amounts is a whole-cent amount |
| Orders.SumOfWholeCents | src/models/Order.ts:145-148 | the sum of whole-cent line prices is a whole-cent amount |
| Orders.TotalOfParsedCart | src/models/Order.ts:143-150 | for a parsed cart the total equals the sum of the line prices exactly, in the model's exact arithmetic |
| Orders.Order.CreateCart | src/models/Order.ts:52-62 | creates the empty cart through `create`; equals `CreateStep` on `NewCartDoc`; the invariant is kept |
| Orders.Order.GetCartFromUserId | src/models/Order.ts:41-50 | equals `GetCartStep`; the invariant is kept |
| Orders.Order.AddToCart | src/models/Order.ts:64-84 | equals `AddToCartStep` (the findIndex / push / `+=` / update sequence); the invariant is kept |
| Orders.Order.UpdateCart | src/models/Order.ts:86-106 | the reduce loop followed by the cart update equals `UpdateCartStep`; the invariant is kept |
| Orders.Order.ParseLineItems | src/models/Order.ts:108-126 | the loop returns `ParsedLines` of the items over the products and suppliers |
| Orders.Order.GetNumberOfItemsInCartFromUserId | src/models/Order.ts:128-131 | equals `NumberOfItemsStep`; the invariant is kept |
| Orders.KeptErrorPersists | src/models/Order.ts:87-99 | once a prefix of the form fails to parse, the whole form fails the same way |
| Middleware.IsAdmin | src/Middleware.ts:13-22 | no user goes to login; the request goes on iff the user is an administrator; otherwise "You do not have permission…" and back to `/` |
| Middleware.IsSupplierOrAdmin | src/Middleware.ts:25-33 | no user goes to login; the request goes on iff the role is supplier or administrator; otherwise denied |
| Middleware.IsCustomerOrAdmin | src/Middleware.ts:36-44 | no user goes to login; the request goes on iff the role is customer or administrator; otherwise denied |
| Middleware.HasItemsInCart | src/Middleware.ts:47-56 | no user goes to login; the request goes on iff the item counter is truthy; otherwise "You do not have any items in your cart." and back to `/store` |
| Middleware.OrderedThatOrAdmin | src/Middleware.ts:58-71 | the request goes on iff the user is an administrator or a customer who owns the order; a customer throws iff the order or its `userId` is missing |
| Middleware.IsSupplierOfProductOrAdmin | src/Middleware.ts:75-92 | the request goes on iff the user is an administrator or a supplier whose supplier is the product's joined supplier; a supplier throws iff its `supplierId`, the product or the joined supplier is missing |
| Middleware.WorksThereOrAdmin | src/Middleware.ts:96-107 | the request goes on iff the user is an administrator or a supplier of the supplier in the URL |
| Middleware.IsThatUserOrAdmin | src/Middleware.ts:111-119 | the request goes on iff the user is the one in the URL or an administrator |
| Middleware.AdministratorPassesEveryOwnershipGate | src/Middleware.ts:13-119 | an administrator passes every role and ownership gate whatever the records hold |
| Middleware.AdministratorWithEmptyCartIsTurnedAway | src/Middleware.ts:47-56 | the cart gate looks only at the counter, even for an administrator |
| Middleware.AdminIsWhereRoleGatesMeet | src/Middleware.ts:13-44 | a user passes both the supplier gate and the customer gate iff the user passes the administrator gate |
| Middleware.OtherSuppliersProductIsRefused | src/Middleware.ts:75-92 | a supplier is denied another supplier's product |
| Middleware.OwnProductIsAllowed | src/Middleware.ts:75-92 | a supplier whose supplier is stored and is the product's `supplierId` passes |
| Middleware.CustomerSeesOnlyOwnOrders | src/Middleware.ts:58-71 | a customer passes iff the order's `userId` is theirs, and is otherwise denied |
| Scenarios.EmailRequiredMessage | src/tests/models/UserValidation.test.ts:5-15 | the required message for `email` is "Email is required." |
| Scenarios.EmailTakenMessage | src/tests/models/UserValidation.test.ts:17-30 | the unique message for `email` is "Email has already been taken." |
| Scenarios.EmailRequiredOnCreate | src/tests/models/UserValidation.test.ts:5-15 | creating a user with a falsy email fails with "Email is required." |
| Scenarios.EmailUniqueOnCreate | src/tests/models/UserValidation.test.ts:17-30 | creating a user with a stored email fails with "Email has already been taken." |
| Scenarios.EmailNotRequiredOnUpdate | src/tests/models/UserValidation.test.ts:32-44 | an update without an email passes and keeps the stored email |
| Scenarios.EmailCantBeEmptyOnUpdate | src/tests/models/UserValidation.test.ts:46-64 | an update to an empty email fails with "Email is required." and leaves the store exactly as it was |
| Scenarios.EmailUniqueOnUpdate | src/tests/models/UserValidation.test.ts:66-80 | updating to another user's email fails with "Email has already been taken." |
| Scenarios.EmailCanUpdateToCurrentValue | src/tests/models/UserValidation.test.ts:82-93 | updating to the user's own current email passes |
| Scenarios.MessagesJoinInRuleOrder | src/Validator.ts:41-43 | two failing required rules give one error holding both messages in rule order, separated by one space |

## Left out

- I/O, the network and concurrency are left out. Every database call is a total function of the collection's state, and `await` is sequential composition. A rejected promise is a `Fault` or `Throws` result.
- Express sessions, flash storage and `res.redirect` are left out. A gate's outcome is a `Decision` value. The application counter `app.locals.numItemsInCart` is a parameter of `HasItemsInCart`.
- Collections are ordered sequences, not key-value maps, because the code depends on natural order: `findOne` picks the first match, `getCartFromUserId` takes `result[0]`, and categories appear in order of first occurrence.
- ObjectIds are natural numbers. `new ObjectId(s)` and `toString()` are the identity. The error that `new ObjectId` throws on a malformed hex string is not modelled. Ids are generated by a counter.
- JavaScript numbers are exact rationals or integers here, not IEEE doubles. So `Math.ceil(price * q * 100) / 100` has no floating-point rounding error in the model.
- Orders.TotalOfParsedCart, Numbers.CeilCents: the line-price and total properties hold only in the model's exact arithmetic. In the source's doubles, a price of 0.07 gives `Math.ceil(7.000000000000001) / 100`, a line price of 0.08, and line prices 0.1 and 0.2 give a total of 0.31, not their sum.
- Validation.Upper, Validation.CapitalizeFirst: only the ASCII letters a–z are upper-cased. `toUpperCase` also maps other letters, some of them to more than one character ('ß' becomes "SS"), so the statement that capitalising keeps the length holds only in the model.
- Orders.KeptItems: when an unmarked row's quantity does not parse, `updateCart` stores NaN and returns a NaN count, but the model stops with `Malformed` and writes nothing.
- Orders.DecodeItems: a stored `items` value that is not a list of `{productId, quantity}` objects stops the model with `Malformed`. The source behaves in several ways. A missing or non-array `items` throws a TypeError at `items.findIndex` (src/models/Order.ts:73) or at `items.reduce` (src/models/Order.ts:135). A null element, or one without `productId`, throws a TypeError at `item.productId.toString()` (src/models/Order.ts:74) when `findIndex` reaches it, and at `lineItems[i].productId.toString()` in `parseLineItems` (src/models/Order.ts:112). A null element also throws at `item.quantity` in `getNumberOfItemsInCart` (src/models/Order.ts:136). An element whose `quantity` is not a number lets the source carry on: `+=` and the count give NaN or a concatenated string. A `quantity` that is a number but not an integer (say 1.5) also stops the model with `Malformed`, while the source adds it and carries on. The program's own writes never store one, because every quantity comes from `parseInt`.
- Orders.ParseLine: a product `price` that is not a number stops the model with `Malformed`. The source multiplies it instead (src/models/Order.ts:118), with JavaScript's number coercion. A numeric string gives the right line price. `null` and `false` count as 0 and `true` as 1. A missing price, a non-numeric string or a plain object gives NaN.
- Orders.Order.AddToCart: the integer quantity is taken as given. The controller's `parseInt` of the form field, and the NaN it can produce, are not part of this model.
- Orders.Order.AddToCart: `items[itemIndex].quantity += quantity` changes the cart object in memory before `update`. The model builds the new list and writes it. The in-memory object is not observable after the call.
- Catalog.FindAll and Catalog.FindById are functions over the products and suppliers rows, not methods of a subclass of `Model`. The class inheritance (`Product extends Model`) is not modelled.
- Catalog.BuildQuery: `req.query.categories` and `req.query.suppliers` are taken to be arrays of strings when present. A single string, or a nested object, from the query-string parser is not modelled.
- Catalog.Distinct: `Set` compares object-valued categories by reference. The model compares values structurally.
- DocStore.Select: Mongo's matching of a scalar condition against an array-valued field, and its other operators, are not modelled. Only `{f: v}` and `{f: {$in: vs}}` are.
- DocStore.Collection.InsertOne: unique-index errors from the database and a caller-supplied `_id` are not modelled. Uniqueness comes only from the validator.
- ModelBase.UpdateStep, DocStore.SetFields, Docs.Merge: an `_id` key in the `$set` payload of `Model.update` is stored as an ordinary document field, and the record keeps its identifier. MongoDB instead refuses the update, because `_id` is immutable. That error is not modelled.
- Middleware.OrderedThatOrAdmin: a `userId` that is not an ObjectId (other than a missing one) counts as a mismatch.
- `validation.json` is an input. Each collection's entry is an `Option<Rules>`, and an absent entry makes `validate` throw a TypeError. A present entry with no `required` or `unique` list behaves like an empty list.
- `Model.getModel` wraps a raw document in a class instance. The model returns the stored document itself.
- `Order.getNumberOfItemsInCart` is the function `NumberOfItems`. `console.log` in `addToCart` is left out.

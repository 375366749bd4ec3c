# Point-of-sale cart and checkout, modelled in Dafny

This project models the cart-and-checkout path of a point-of-sale
application: the client-side cart reducer, the backend product store with
its check-then-decrement stock update, and the backend sale creation that
runs one stock update per request line and then saves the sale.

- `records.dfy` (module `Records`): the shared values. `Product` is the
  stored catalog record, `CartItem` a cart line (the checkout sends the cart
  lines unchanged as the sale's request lines), `Total` the sum of
  price × quantity that both the cart's `calculateTotal` and the sale's
  `totalAmount` compute. Money is integer cents.
- `cart.dfy` (module `Cart`): the reducer over `{items, total}` as a pure
  function `Reduce` over five actions, with `InitialState`. The cart
  invariant `Valid` is: one line per product, every quantity at least 1,
  and the cached total equal to `Total(items)`.
- `products.dfy` (module `Products`): `Reserve` is one stock update as a
  function on the product table. The class `ProductsService` holds the
  table as a `map` from id to product, plus the ids in creation order. A
  full listing returns the products in that order, which is one of the
  orders the source's unsorted query may produce. Its methods `Create`, `Update` and
  `UpdateStock` change that state; `FindAll` and `FindOne` read it.
- `sales.dfy` (module `Sales`): `ApplyLines` is the stock loop of sale
  creation as a function: line i is checked against the stock left by lines
  0..i-1, and the first refusal stops the loop. Nothing is rolled back.
  The class `SalesService` holds the saved sales, oldest first, and a
  reference to the product store. `SalesService.Create` runs the loop by
  calling `UpdateStock`, and its contract ties the new product table to
  `ApplyLines`. After the loop the sale document is saved, and the sale
  schema can refuse it (`SaveAccepts`).

Behaviour of the code as written that a reader might not expect:

- Sale creation has no rollback. When line k is refused, the stock taken by
  lines 0..k-1 stays taken and no sale is saved (`ApplyLinesFailure`,
  `NoRollback`). Repeated lines for one product are each checked against
  the running stock. With positive quantities this is the same as checking
  their sum (`ApplyLinesSucceedsIff`).
- The save at the end of sale creation is returned without being awaited
  inside the `try`, so a save the sale schema refuses (an empty line name,
  a quantity below 1) escapes the error handler unwrapped. By then every
  line's stock update has already been applied (`SaveRejected`).
- A line with quantity 0 passes its stock update unchanged, and a negative
  quantity raises the product's stock; the save then refuses the sale.
- The backend accepts an empty list of lines and saves a sale with no items
  and total 0. Only the frontend refuses to check out an empty cart
  (frontend/src/App.tsx:139).
- Line totals and the sale total use the prices carried on the request
  lines, not the catalog prices.
- `Update` writes the supplied fields without running the schema's `min: 0`
  checks, because an update by id runs no schema validators by default. It
  can therefore store a negative price or stock. Only the unique index on
  `code` can refuse an update. `Create` saves a new document, and saving
  does run the validators.

Ids assigned by the database are parameters of `Create` in both services.
Each must be unused, and a sale id must be a well-formed ObjectId.
`ValidObjectId` models the ObjectId format test on a string as "exactly 24
hexadecimal digits".

## Model

| member | source | states |
|---|---|---|
| `Records.TotalNonNegative` | frontend/src/contexts/CartContext.tsx:118-120 | with prices and quantities ≥ 0 the total is ≥ 0, and the empty list totals 0; the sale's `totalAmount` (backend/src/sales/sales.service.ts:24-27) is the same sum |
| `Records.TotalAppend` | frontend/src/contexts/CartContext.tsx:118-120 | appending a line adds exactly its price × quantity to the total |
| `Records.TotalUpdate` | frontend/src/contexts/CartContext.tsx:118-120 | replacing one line changes the total by the new line total minus the old one |
| `Cart.Reduce` | frontend/src/contexts/CartContext.tsx:38-115 | whatever the input state, the result's cached total equals Σ price × quantity over the result's items |
| `Cart.ReducePreservesValid` | frontend/src/contexts/CartContext.tsx:38-115 | every action keeps the invariant: product ids unique, quantities ≥ 1, total equal to the items' sum |
| `Cart.AddExisting` | frontend/src/contexts/CartContext.tsx:42-56 | adding a product already in the cart adds 1 to that line's quantity; length, order and every other line are unchanged |
| `Cart.AddExistingTotal` | frontend/src/contexts/CartContext.tsx:42-56 | adding a product already in the cart raises the total by that line's unit price |
| `Cart.AddNew` | frontend/src/contexts/CartContext.tsx:57-70 | adding a product not in the cart appends one line at the end with quantity 1 and the product's id, name and price |
| `Cart.AddNewTotal` | frontend/src/contexts/CartContext.tsx:57-70 | adding a new product raises the total by its price |
| `Cart.WithoutMembers` | frontend/src/contexts/CartContext.tsx:74-81 | after a removal a line is present iff it was present before and names another product |
| `Cart.WithoutAbsent` | frontend/src/contexts/CartContext.tsx:74-81 | removing a product that is not in the cart leaves the lines unchanged |
| `Cart.WithoutPresent` | frontend/src/contexts/CartContext.tsx:74-81 | with unique ids, removing the product on line k yields exactly the other lines in their original order |
| `Cart.WithoutKeepsUnique` | frontend/src/contexts/CartContext.tsx:74-81 | removal keeps product ids unique |
| `Cart.WithoutKeepsPositive` | frontend/src/contexts/CartContext.tsx:74-81 | removal keeps every quantity ≥ 1 |
| `Cart.IncreasePresent` | frontend/src/contexts/CartContext.tsx:83-94 | with unique ids, increasing the product on line k adds 1 to line k and changes no other line |
| `Cart.IncreaseTotal` | frontend/src/contexts/CartContext.tsx:83-94 | increasing a product in the cart raises the total by its unit price |
| `Cart.DecreaseFloor` | frontend/src/contexts/CartContext.tsx:96-107 | decreasing never takes a line below 1: a line at 1 is unchanged, a line above 1 loses exactly one unit |
| `Cart.DecreasePresent` | frontend/src/contexts/CartContext.tsx:96-107 | with unique ids, decreasing the product on line k changes line k only, and only when its quantity is above 1, by exactly one unit; length, order and every other line are unchanged |
| `Cart.InitialStateValid` | frontend/src/contexts/CartContext.tsx:32-35 | the initial cart has no lines and total 0, and satisfies the cart invariant |
| `Cart.IncreaseThenDecrease` | frontend/src/contexts/CartContext.tsx:83-107 | with quantities ≥ 1, an increase then a decrease of the same product restores the original lines |
| `Cart.ChangeAbsent` | frontend/src/contexts/CartContext.tsx:83-107 | increasing or decreasing a product not in the cart leaves the lines unchanged |
| `Cart.Clear` | frontend/src/contexts/CartContext.tsx:109-110 | clearing yields no items and total 0 from any state |
| `Products.ApplyPatch` | backend/src/products/products.service.ts:31-41 | the updated record takes every supplied field from the request and keeps the id and every other field |
| `Products.Reserve` | backend/src/products/products.service.ts:52-61 | a stock update succeeds iff the product exists and its stock is at least the quantity; an unknown id is NotFound, a short stock is "not enough stock" for that product's name; on success the new stock is the old minus the quantity, is ≥ 0, and no other field changes |
| `Products.ReserveFrame` | backend/src/products/products.service.ts:55-60 | a refused update leaves the whole table unchanged; an accepted one changes only the target product's stock |
| `Products.ReserveKeepsStockNonNegative` | backend/src/products/schemas/product.schema.ts:17-18 | from a table with all stocks ≥ 0, a stock update of at least 1 unit keeps every stock ≥ 0 and never raises one |
| `Products.AddKeepsUniqueCodes` | backend/src/products/schemas/product.schema.ts:11-12 | adding a product whose code no other product uses keeps codes unique |
| `Products.ProductsService.FindAll` | backend/src/products/products.service.ts:19-21 | the listing holds every stored product, only stored products, and each id once |
| `Products.ProductsService.FindOne` | backend/src/products/products.service.ts:23-29 | returns the stored product iff the id is present, NotFound for that id otherwise |
| `Products.ProductsService.Create` | backend/src/products/products.service.ts:14-17 | a negative price or stock (stock 0 when absent) fails validation, a valid product whose code another product uses is DuplicateCode for that code; otherwise the new product is stored under the new id, appended to the listing order, returned by FindOne and contained in FindAll; a failure changes nothing |
| `Products.ProductsService.Update` | backend/src/products/products.service.ts:31-41 | an unknown id is NotFound; a code used by another product is a duplicate; otherwise exactly the supplied fields are overwritten and the new record is stored and returned; a failure changes nothing |
| `Products.ProductsService.UpdateStock` | backend/src/products/products.service.ts:52-61 | for any quantity, its sign unchecked, the result is `Reserve` of the old table, and the table changes only on success, by storing the returned product; the store invariant is kept |
| `Sales.SaleItems` | backend/src/sales/sales.service.ts:30-33 | one saved line per request line, same order; each copies its request line and adds total = price × quantity |
| `Sales.TotalAmountMatchesItems` | backend/src/sales/sales.service.ts:24-33 | the total amount computed from the request's prices equals the sum of the saved lines' totals |
| `Sales.ApplyLines` | backend/src/sales/sales.service.ts:18-21 | the stock loop keeps the table's set of ids, and a reported failure names a line of the request |
| `Sales.ApplyLinesSuccess` | backend/src/sales/sales.service.ts:18-21 | after a loop that went through, each product's stock is lower by the summed quantity of the lines naming it, and nothing else changed |
| `Sales.ApplyLinesSucceedsIff` | backend/src/sales/sales.service.ts:18-21 | with quantities ≥ 1, the loop goes through iff every line names a stored product whose stock covers the summed quantity of all lines naming it |
| `Sales.ApplyLinesStep` | backend/src/sales/sales.service.ts:18-21 | after lines 0..i-1 went through, line i is checked against the table they left and either takes its quantity or stops the loop at index i with the refusal |
| `Sales.FailureSticks` | backend/src/sales/sales.service.ts:16-21 | once a prefix of the lines has failed, later lines are never processed |
| `Sales.ApplyLinesFailure` | backend/src/sales/sales.service.ts:16-21 | a loop that stops on line k leaves the table exactly as lines 0..k-1 made it, and line k's stock update is the refused one |
| `Sales.DuplicateLinesShortOfStock` | backend/src/sales/sales.service.ts:18-21 | lines of 3 and 4 units against stock 6 fail on the second line, with the first line's 3 units taken |
| `Sales.DuplicateLinesWithinStock` | backend/src/sales/sales.service.ts:18-21 | lines of 3 and 4 units against stock 7 go through and leave stock 0 |
| `Sales.NoRollback` | backend/src/sales/sales.service.ts:16-44 | when the second line fails, the first line's product stays decremented |
| `Sales.NewSaleWellFormed` | backend/src/sales/sales.service.ts:24-39 | a sale built from lines with quantities ≥ 1 has quantities ≥ 1, line totals = price × quantity, and an amount equal to the sum of its line totals |
| `Sales.AppendKeepsValidStore` | backend/src/sales/sales.service.ts:36-41 | appending a well-formed sale under an unused, well-formed id keeps the store's ids distinct and every sale well formed |
| `Sales.Lookup` | backend/src/sales/sales.service.ts:56-59 | finds a sale iff some saved sale has that id, and what it finds is a saved sale with that id |
| `Sales.LookupUnique` | backend/src/sales/sales.service.ts:56-60 | with unique ids, looking up a saved sale's id returns that sale |
| `Sales.SalesService.Create` | backend/src/sales/sales.service.ts:15-45 | the product table ends as `ApplyLines` of the request in every outcome; the call succeeds iff the loop went through and the save accepts the lines, and then the sale (new id, saved lines, total from the request's prices) is appended; a refused stock update is ProcessingFailed wrapping that line's error; a refused save is the unwrapped SaveRejected with all the stock already taken; on any error no sale is appended; the store invariants are kept |
| `Sales.SalesService.FindAll` | backend/src/sales/sales.service.ts:47-49 | holds exactly the saved sales, and FindById of each one's id returns it |
| `Sales.SalesService.FindById` | backend/src/sales/sales.service.ts:51-61 | a malformed id is "invalid format", a well-formed unknown id is NotFound, and otherwise the saved sale with that id is returned |

## Left out

- Concurrency: the read-then-write in `updateStock` can lose an update when two checkouts overlap. The model runs each call as one sequential step.
- Floating point: prices and totals are JavaScript numbers in the source; the model uses integer cents, so totals are exact.
- Timestamps (`createdAt`, `updatedAt`) added by the database are not modelled.
- `ProductsService.search` builds a regular expression from user input; no regex engine is modelled.
- Products.ProductsService.FindOne, Products.ProductsService.Update, Products.ProductsService.UpdateStock: a malformed product id makes the database raise a cast error, not NotFound (in `findById`, `findByIdAndUpdate`, and the lookup inside `updateStock`); the model folds it into NotFound.
- Products.ProductsService.FindAll: the source's query has no sort, so the database promises no order; the model lists in creation order, one order the query may return, and states nothing beyond "each stored product exactly once".
- Sales.ValidObjectId: older ObjectId libraries also accept any 12-character string as an id; the model takes only the 24-hex-digit form.
- Products.ProductsService.Create: the `required` checks on `name` and `code` (an empty string fails them) are not modelled; only the `min: 0` bounds and the unique code are.
- Id generation belongs to the database: the new id is a parameter that must be unused (and, for a sale, well-formed).
- The request DTOs (`CreateProductDto`, `UpdateProductDto`, `CreateSaleDto`) are not part of this model; requests are taken as already parsed.
- Sales.SaveAccepts: of the sale schema's checks only the non-empty name and the quantity of at least 1 are modelled; the product id, price and total are always present in the model, and the rejection's message is not modelled.
- The out-of-stock guard before adding to the cart (frontend/src/App.tsx:127-130) sits outside the reducer and is not modelled; `Reduce` accepts any product.
- React rendering, the context provider and hook, HTTP controllers, sockets, authentication and invoice rendering are outside the modelled core.

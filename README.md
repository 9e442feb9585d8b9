# Boutique storefront — a Dafny model

This project models the logic of a single-page boutique storefront written as one React
component. The storefront has a customer catalog with sale and rent tabs and a search box. It
has a cart drawer with stock-aware quantity controls and a checkout form. It has a
password-gated admin panel with a five-step product wizard, a queue of pending orders with a
confirm button, and an inventory list searchable by id.

Each write goes to a remote server first and falls back to the browser's storage, under the
keys `db_products` and `db_orders`.

With the rendering and the network stripped away, what is left is a set of sequence
transforms. The model states each as a Dafny function and proves what it promises:

| module | file | what it holds |
|---|---|---|
| `Wrappers` | wrappers.dfy | `Option`, the result of `Array.prototype.find` |
| `Seqs` | seqs.dfy | `Filter` (`Array.prototype.filter`), `Subseq` ("same order, some dropped"), and their lemmas |
| `Text` | text.dfy | `Contains` (`String.prototype.includes`) and ASCII `Lower` (`toLowerCase`) |
| `Shop` | shop.dfy | the records: `Product`, `CartItem`, `Order`, the default wizard draft |
| `CartEngine` | cart.dfy | add-to-cart, `+`, `−`, remove and the total, proved against the abstract cart `Quantities` (product id to quantity) |
| `OrderWorkflow` | orders.dfy | building a pending order at checkout, confirming by id, the pending queue |
| `Gateway` | gateway.dfy | `getProducts` and the local-store fallbacks of add, delete and confirm |
| `Catalog` | catalog.dfy | the storefront filter and the inventory filter |
| `Wizard` | wizard.dfy | the step machine, the image list and the commit guard |
| `Slider` | slider.dfy | the image slider's wrap-around arrows |
| `Boutique` | app.dfy | class `App`: the component's state and the two storage entries, one method per handler |

The class `App` keeps the component's state slots: `products`, `orders`, `cart`, `adminStep`
and `draft`. It also keeps the storage entries `dbProducts` and `dbOrders`. Every handler
states its whole new state in terms of the pure functions. Each handler keeps `Valid()`: the
step stays in 0..4, the cart has one line per product with quantity at least 1, and every
order's `totalPrice` equals the total of its items.

The outcome of each `fetch` is a parameter of type `Gateway.Fetch`: `Threw`, `NotOk` or
`Ok(body)`. The answer of the confirmation dialog is a `bool` parameter, and the random order
id is a `string` parameter.

Notes on the code's behaviour:

- **Write fallbacks.** `addProduct`, `deleteProduct` and `confirmOrder` use the local store
  only when `fetch` throws. A non-OK answer is ignored (index.tsx:50-56, 62, 69-71). Only
  `getProducts` also falls back on a non-OK answer (index.tsx:46). See `Gateway.WriteFallsBack`.
- **Step-4 buttons.** The "delete" and "edit" buttons on wizard step 4 only set the step to 0;
  the draft is kept (index.tsx:330-331). See `Wizard.Move` and `Boutique.App.WizardMove`.
- **Checkout's order list.** Checkout appends to the order list read back from storage, not to
  the `orders` state, and then shows that list (index.tsx:141-144).
- **Stock on first add.** A product not yet in the cart is added with quantity 1 whatever its
  stock. So a line can exceed its stock copy (`CartEngine.FirstAddIgnoresStock`). `+` checks
  the stock copied into the line, while add-to-cart checks the product's live stock.
- **Duplicate ids.** Adding a product does not check that its id is new, so the local store can
  hold two products with one id. Delete and confirm keep ids distinct when they already are.

## Model

| member | source | states |
|---|---|---|
| `Text.ContainsIffOccurs` | index.tsx:160 | `includes` holds exactly when the term occurs at some position of the string; the empty term occurs everywhere |
| `Text.Lower` | index.tsx:160 | lower-casing keeps the length, maps each character with `LowerChar`, and leaves no upper-case ASCII letter |
| `Text.LowerIdempotent` | index.tsx:160 | lower-casing twice is lower-casing once |
| `CartEngine.IndexOf` | index.tsx:216 | the position of the first line for an id, or -1 exactly when no line has that id |
| `CartEngine.FindLine` | index.tsx:216 | `find` answers None exactly when no line has the id; otherwise it answers the first line of the cart with that id |
| `CartEngine.QuantitiesSpec` | index.tsx:216-218 | with one line per product, the abstract cart has exactly the cart's ids, each mapped to its line's quantity |
| `CartEngine.AddToCartLines` | index.tsx:215-218 | a refused add leaves the cart unchanged; an existing product's line alone goes up by one in place; an absent product is appended last with quantity 1 |
| `CartEngine.AddToCartSpec` | index.tsx:215-218 | add is refused exactly when the product is in the cart at or above its live stock; otherwise its quantity goes up by one (absent counts as 0); ids stay unique and quantities stay at least 1 |
| `CartEngine.AddToCartTotal` | index.tsx:215-218 | the cart total rises by one unit's price (the line's copied price, or the product's for a new line), or not at all when refused |
| `CartEngine.FirstAddIgnoresStock` | index.tsx:217-218 | a product not in the cart is added even with stock 0, leaving a line above its stock copy |
| `CartEngine.IncrementLines` | index.tsx:432 | `+` changes only its own line, by one, and only when the line's quantity is below its stock copy |
| `CartEngine.IncrementSpec` | index.tsx:432 | `+` adds one to that product in the abstract cart or is refused; ids stay unique; a cart within its stock copies stays within them |
| `CartEngine.IncrementTotal` | index.tsx:432 | `+` raises the total by the line's price, or not at all when refused |
| `CartEngine.IncrementAtStockScenario` | index.tsx:432 | a line at quantity 2 with stock 2 refuses `+` and stays at 2 |
| `CartEngine.DecrementLines` | index.tsx:430 | `−` changes only the product's line, and only when its quantity is above 1 |
| `CartEngine.DecrementSpec` | index.tsx:430 | `−` takes one off a product above 1, leaves a product at 1, and keeps ids unique and quantities at least 1 |
| `CartEngine.DecrementKeepsLines` | index.tsx:430 | `−` keeps the number of lines and every product copy, never raises a quantity, and keeps the cart within stock |
| `CartEngine.RemoveLineSpec` | index.tsx:436 | remove keeps, in order, exactly the lines of other products; the abstract cart loses exactly that id |
| `CartEngine.RemoveLineCuts` | index.tsx:436 | remove cuts out the product's single line: the lines before it followed by the lines after it |
| `CartEngine.RemoveLineTotal` | index.tsx:436 | remove lowers the total by exactly the removed line's price times quantity |
| `CartEngine.TotalConcat` | index.tsx:138 | the left-fold total of two carts joined is the sum of their totals |
| `CartEngine.TotalUpdate` | index.tsx:138 | replacing one line changes the total by the difference of the two line totals |
| `CartEngine.TotalNonNegative` | index.tsx:465 | with non-negative prices and quantities the total is non-negative |
| `OrderWorkflow.NewOrder` | index.tsx:130-140 | the new order is pending, holds the cart as its items and the form fields, and its total agrees with its items |
| `OrderWorkflow.AppendOrderSpec` | index.tsx:141-143 | checkout keeps the stored orders as they were, puts the new order last, and adds it to the pending queue when pending |
| `OrderWorkflow.CheckoutScenario` | index.tsx:130-140 | one line of price 100000 and quantity 2 gives a pending order with total 200000 |
| `OrderWorkflow.ConfirmStatusSpec` | index.tsx:153 | confirming changes only `status`: an order ends confirmed exactly when its id matches or it already was; no other field or order changes |
| `OrderWorkflow.ConfirmIdempotent` | index.tsx:153 | confirming twice gives the same list as confirming once |
| `OrderWorkflow.ConfirmKeepsConsistent` | index.tsx:152-154 | totals fixed at checkout still agree with the items after confirmation |
| `OrderWorkflow.PendingAfterConfirm` | index.tsx:348 | after confirming an id, the pending queue is the old queue without the orders of that id, in the same order |
| `Gateway.GetProducts` | index.tsx:43-48 | the server's list on an OK answer, the local store on a throw or a non-OK answer |
| `Gateway.DeleteLocalSpec` | index.tsx:64-65 | the local delete keeps, in order and each as often as it occurs, exactly the products with another id, and keeps ids distinct |
| `Gateway.DeleteAfterAdd` | index.tsx:57-65 | deleting a product's id right after the local add of that product gives the same store as the delete alone |
| `Gateway.DeductedSpec` | index.tsx:73-76 | a product loses the quantity of the first order line with its id, or nothing when none matches; no other field changes |
| `Gateway.ConfirmLocalSpec` | index.tsx:72-78 | the local confirm keeps, in catalog order and each as often as it occurs, exactly the deducted products with stock left; a product at 0 that was not ordered is dropped too |
| `Gateway.ConfirmLocalDistinct` | index.tsx:72-78 | the local confirm keeps stored ids distinct |
| `Gateway.ConfirmLocalNoItems` | index.tsx:73-77 | with nothing ordered, the local confirm still drops every product whose stock is not positive |
| `Gateway.ConfirmLocalScenario` | index.tsx:72-78 | ordering both units of a product with stock 2 removes it from the local store |
| `Catalog.StorefrontSpec` | index.tsx:160 | the storefront shows, in catalog order and each as often as it occurs, exactly the tab's products whose id contains the term or whose lower-cased title contains the lower-cased term; applying the filter again changes nothing |
| `Catalog.InventorySpec` | index.tsx:387 | the inventory shows, in catalog order and each as often as it occurs, exactly the products whose id contains the term |
| `Catalog.StorefrontEmptyTerm` | index.tsx:160 | with an empty search the storefront is the whole category tab |
| `Catalog.InventoryEmptyTerm` | index.tsx:387 | with an empty search the inventory is the whole catalog, out-of-stock products included |
| `Catalog.StorefrontAfterAppend` | index.tsx:160 | a product appended to the catalog appears last on the storefront exactly when it matches the tab and term |
| `Catalog.InventoryAfterAppend` | index.tsx:387 | a product appended to the catalog appears last in the inventory exactly when its id contains the term |
| `Seqs.FilterCount` | index.tsx:65 | `filter` keeps every occurrence of an element that passes and drops every occurrence of one that fails |
| `Wizard.Move` | index.tsx:259-331 | a button leads from a step in 0..4 to a step in 0..4: the next one, the previous one, or 0 from step 4 |
| `Wizard.RunStaysInRange` | index.tsx:255-331 | whatever buttons are pressed, the wizard stays on one of its five steps |
| `Wizard.RunAdvancesAtMostOne` | index.tsx:255-331 | n presses move the wizard at most n steps forward: no step is skipped |
| `Wizard.BackUndoesForward` | index.tsx:282-308 | "back" returns to the step "next" came from |
| `Wizard.AddImage` | index.tsx:269 | a non-empty URL is appended last; an empty one changes nothing |
| `Wizard.RemoveImageAt` | index.tsx:277 | removing position i drops exactly that image and keeps the others in order |
| `Wizard.RemoveAddedImage` | index.tsx:269-277 | removing the image just added restores the list |
| `Slider.SlidePrev` | index.tsx:93 | the left arrow keeps the index inside the image list |
| `Slider.SlideNext` | index.tsx:94 | the right arrow keeps the index inside the image list |
| `Slider.ArrowsInverse` | index.tsx:93-94 | each arrow undoes the other |
| `Slider.AdvanceWithinLap` | index.tsx:94 | within one lap, n right-arrow presses move n images on, wrapping past the last image at most once |
| `Slider.FullLap` | index.tsx:94 | as many right-arrow presses as there are images come back to the image shown before |
| `Boutique.App.constructor` | index.tsx:105-116 | the page opens with an empty view, empty cart, step 0 and the default draft |
| `Boutique.App.Load` | index.tsx:118-125 | the catalog comes through `getProducts`, the orders from storage |
| `Boutique.App.AddToCart` | index.tsx:215-218 | the cart becomes `AddToCart` of the old cart; the alert is raised exactly when add is refused; nothing else changes |
| `Boutique.App.Increment` | index.tsx:432 | the cart becomes `Increment` of the old cart; the alert is raised exactly at the line's stock; a cart within stock stays within stock |
| `Boutique.App.Decrement` | index.tsx:430 | the cart becomes `Decrement` of the old cart and keeps its number of lines |
| `Boutique.App.Remove` | index.tsx:436 | the line disappears and the cart is one line shorter |
| `Boutique.App.Checkout` | index.tsx:127-148 | when the form can be submitted, the new pending order goes last in the stored orders, the view shows the stored list and the cart is empty; otherwise nothing changes |
| `Boutique.App.ConfirmOrder` | index.tsx:150-158 | the local stock deduction happens only when the request throws; the stored orders with that id become confirmed and are shown; the catalog is reloaded |
| `Boutique.App.WizardMove` | index.tsx:259-331 | the step moves as `Move` says or stays when the button is not on screen; the draft is kept |
| `Boutique.App.SetDraftId` | index.tsx:257 | step 0 edits the draft's id |
| `Boutique.App.SetDraftTitle` | index.tsx:258 | step 0 edits the draft's title |
| `Boutique.App.AddDraftImage` | index.tsx:266-271 | step 1 appends a non-empty URL to the draft's images |
| `Boutique.App.RemoveDraftImage` | index.tsx:277 | step 1 removes one image from the draft |
| `Boutique.App.SetDraftStock` | index.tsx:290 | step 2 edits the draft's stock |
| `Boutique.App.SetDraftDescription` | index.tsx:291 | step 2 edits the draft's description |
| `Boutique.App.SetDraftCategory` | index.tsx:302-303 | step 3 sets the draft's category |
| `Boutique.App.SetDraftSize` | index.tsx:305 | step 3 edits the draft's size |
| `Boutique.App.SetDraftPrice` | index.tsx:315 | step 4 edits the draft's price |
| `Boutique.App.Commit` | index.tsx:332-339 | commit is refused with no change unless id and title are non-empty and the price is non-zero; otherwise the draft is added (to the local store when the request throws, and then it is the last product shown on a local reload), the catalog is reloaded, the step is 0 and the draft is the default |
| `Boutique.App.DeleteProduct` | index.tsx:397-402 | after a confirmed dialog, the local store drops that id when the request throws and the catalog is reloaded; otherwise nothing changes |

## Left out

- Rendering, JSX, styling and animations are presentation only. This includes the no-image
  placeholder of the slider, the step indicator, the "edit" icon of an inventory row (it has no
  handler), the STATS and PROMO buttons, and `createRoot`.
- The remote server is an external collaborator: the outcome of each `fetch` is a parameter,
  and a write that reaches the server changes no modelled state. `async`/`await` is left out:
  each handler runs to completion as one step, so interleavings between awaits are not
  modelled.
- JSON encoding and `localStorage` are left out. Each storage key is a sequence field. A
  missing entry reads as `[]`. Malformed stored JSON is not modelled.
- The `Math.random()` order id is nondeterministic, so it is a parameter of `Checkout`.
- `alert` is a returned flag. The answer to `confirm` is a parameter.
- JavaScript numbers are modelled as unbounded integers: no floating point, no `NaN`, no
  `Number(...)` parsing and no `toLocaleString`. The commit guard's falsy `price` is therefore
  exactly `price == 0`.
- `toLowerCase` is modelled for ASCII letters only. Unicode case mapping is not modelled.
- The admin password gate (index.tsx:233) and the view and drawer toggles (index.tsx:175,
  180, 420, 478-487) are UI flags. This includes the wizard reset to step 0 when the header
  toggle switches views (index.tsx:180).
- The search term and the selected tab are parameters of the view functions in `Catalog`, not
  fields of `App`.
- The slider's `idx` is component state in the source. The model keeps only its two
  transitions and their properties, because the state is local to one card.
- `hourlyPrice` and `PromoCode` are not modelled: no flow reads or writes them.
- Boutique.App.constructor: requires the stored orders' totals to agree with their items. The
  source never checks this; it holds for every order this page writes.

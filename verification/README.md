# Marketplace order and product handlers, modelled in Dafny

This project models the business logic of the order and product routes of a
small e-commerce marketplace backend (`backend/routes/order.js` and
`backend/routes/product.js`). Each HTTP handler is a pure function. It takes
an in-memory `Store` and a request, and returns a `Reply` with three parts:

- the store after the handler ran, either to completion or to the point where it failed;
- the JSON outcome, as an `Ok` value or an `Error(status, cause)`;
- the calls made to the external image store, in order.

The store always comes back, because the handlers commit writes one document
at a time and do not roll them back.

Modules:

- `Model`: the records (orders, cart items, products, shops, reviews), the store, the reply, and the status strings the handlers react to.
- `Inventory`: the per-item loop that moves quantities between a product's `stock` and `sold_out`.
  - `Move` is the loop, stopping at the first missing product.
  - `Net` is a reference definition of the whole cart's effect.
  - `MoveMatchesNet` connects the two, including the partial-failure case.
- `Partition`: grouping a cart by shop in first-seen order, as JavaScript's insertion-ordered `Map` does.
  - `Group` is the fold.
  - `IsShopPartition` is the independent description of the intended result.
- `Sales`: a shop's sales total, which sums the payment amounts of delivered orders that contain the shop.
- `Orders`: the checkout, status-update, refund-request, refund-approval and shop-sales handlers.
- `Catalog`: product creation, and product deletion both as written and corrected.
- `Reviews`: the review upsert, the mean rating, and flagging the reviewed cart line.

Modelling choices:

- Orders are never deleted by these handlers, so an order's id is its position in `Store.orders`.
- Products receive fresh ids from `nextProductId`. `Valid` says every product id is below it.
- Money and ratings are `real`, an exact idealisation of JavaScript numbers.
- Quantities, stock and `sold_out` are unbounded `int`, because the code has no guard on them.
- `NullAccess` stands for a JavaScript `TypeError` from reading a property of `null` or `undefined`. Examples: a missing seller shop, a missing product in the review handler, an absent `images` field, and `images[i]` past the end.
- The clock (`Date.now()`) is the parameter `now`.
- The signed-in seller's id is `sellerId`, and the signed-in user's id is `callerId`.
- The image store's upload is the function parameter `upload`. It maps a source to the asset (public id, secure URL) it creates.

Schema defaults are not visible in these files. The model assumes that a new
order has status "Processing" and no `deliveredAt`. It also assumes that a
new product has `sold_out` 0, no reviews and no rating.

The model follows the code, including where its behaviour is surprising:

- On "Delivered", the balance written is that of the shop of the signed-in seller (`req.seller.id`). It is not necessarily the shop owning the order.
- That balance is assigned `totalPrice × 0.9`, not added to.
- A missing order is reported with status 400, not 404.
- Deleting a product does not reliably destroy its image assets. See Findings.

## Model

| member | source | states |
|---|---|---|
| Partition.GroupIsShopPartition | backend/routes/order.js:19-27 | The grouping gives each distinct shop of the cart exactly one entry. Entries are ordered by each shop's first appearance in the cart. Each entry holds exactly that shop's items in cart order. |
| Partition.Group | backend/routes/order.js:21-27 | The grouping loop, folding one item at a time into an insertion-ordered map. It yields at most one entry per item, and at least one entry for a non-empty cart. Its full meaning is stated by the two lemmas below. |
| Partition.GroupCoversCart | backend/routes/order.js:21-27 | The groups together hold the cart's items as a multiset: no item is dropped or duplicated. |
| Orders.NewOrders | backend/routes/order.js:32-41 | The creation loop makes exactly one order per group, in group order. The order for group i holds exactly that group's items. |
| Orders.CreateOrder | backend/routes/order.js:29-46 | For a well-formed request body, checkout always succeeds and only appends orders. Every new order carries the request's shipping address, user, total price and payment info unchanged. Each new order starts as "Processing" and undelivered. |
| Orders.CreateOrderSplitsCart | backend/routes/order.js:19-41 | Each created order holds one shop's items exactly, in cart order. No shop gets two orders, and every shop in the cart gets one. Orders follow first appearance. Together the orders hold exactly the cart's items. |
| Orders.CreateOrderTwoShops | backend/routes/order.js:19-41 | A cart holding one item from each of two shops becomes two one-item orders, in cart order. Each carries the full checkout total. |
| Orders.CreateOrderKeepsSales | backend/routes/order.js:33-39 | A checkout leaves every shop's sales total unchanged. |
| Inventory.Move | backend/routes/order.js:107-111 | The per-item loop never adds or removes products. A reported failure index points into the cart. |
| Inventory.MoveMatchesNet | backend/routes/order.js:130-151 | The loop succeeds exactly when every cart product exists, and then applies the whole cart's effect. Otherwise it stops at the first missing product, with exactly the earlier items applied. |
| Inventory.MoveConservesUnits | backend/routes/order.js:140-141 | `stock + sold_out` of every product is preserved. A product no cart item refers to is left unchanged. |
| Inventory.RestockUndoesShip | backend/routes/order.js:213-228 | Restocking a cart after shipping it in full restores every product exactly. |
| Inventory.ShipTwiceMovesTwice | backend/routes/order.js:104-111 | Shipping the same cart twice moves each product by twice the cart's quantity of it. |
| Orders.UpdateOrderStatus | backend/routes/order.js:99-164 | A missing order gives 400 "Order not found with this id" with nothing changed. Only the addressed order changes. On success with any status other than "Delivered", the order becomes the old order with only its status replaced. On "Delivered", only its status, delivery stamp and payment status change. Any status string other than the two special ones always succeeds. Products change only on "Transferred to delivery partner". On "Delivered": the handler fails with nothing saved when the seller's shop is missing; otherwise it stamps `now`, marks the payment "Succeeded", and sets that shop's balance to total × (1 − 0.10), leaving other shops unchanged. |
| Orders.TransferShipsCart | backend/routes/order.js:104-111 | The hand-over succeeds exactly when every cart product exists, and then ships the whole cart. Otherwise it fails with 500 "Product not found" and leaves the order unsaved, but keeps the stock already moved for the items before the first missing product. |
| Orders.TransferTwiceShipsTwice | backend/routes/order.js:104-111 | Handing the same order to delivery twice succeeds both times and ships its cart twice. |
| Orders.DeliveryOverwritesBalance | backend/routes/order.js:153-159 | After two deliveries by the same seller, the seller's balance reflects only the second order's total less the charge, whatever it held before. |
| Orders.DeliveryCountsTowardSales | backend/routes/order.js:116-121 | Delivering an order adds its payment amount to the sales of every shop it contains, unless it was already counted. This holds whichever seller made the call. |
| Orders.RequestRefund | backend/routes/order.js:166-190 | The buyer's route stores the given status on the order and changes nothing else. A missing order gives 400. |
| Orders.RefundRequestSalesEffect | backend/routes/order.js:177 | A buyer's status change shifts sales totals only by that order's share. A buyer sending "Delivered" makes the order count as a sale. |
| Orders.ApproveRefund | backend/routes/order.js:193-233 | The seller's route stores the status and replies "Order Refund successfull!". It leaves shops unchanged, and touches products only for "Refund Success". A missing order gives 400. |
| Orders.RefundRestocksCart | backend/routes/order.js:213-228 | An approved refund restocks the whole cart when every product exists. Otherwise it restocks exactly the items before the first missing product. |
| Orders.RefundUndoesTransfer | backend/routes/order.js:204-228 | Approving a refund after a successful hand-over returns every product to its state before the hand-over. |
| Orders.ShopSales | backend/routes/order.js:257-281 | An unknown shop gives 404 "Shop not found". Otherwise the reply is the shop's name and its sales total. |
| Sales.Selected | backend/routes/order.js:285-288 | An order is selected exactly when it is in the store, is "Delivered" and contains an item of the shop. The query never returns more orders than the store holds. |
| Sales.SelectedCopies | backend/routes/order.js:285-288 | Equal orders are still separate documents, so each selected order is returned as many times as it is stored. Nothing else is returned. |
| Sales.SumAmounts | backend/routes/order.js:290-296 | The accumulation loop starts from 0 and adds each amount, so with non-negative amounts the sum is never negative. |
| Sales.TotalSales | backend/routes/order.js:284-297 | The total is 0 when no delivered order contains the shop. With non-negative payment amounts it is never negative. |
| Sales.TotalSalesAppend | backend/routes/order.js:290-296 | The total over two runs of orders is the sum of the two totals. |
| Sales.TotalSalesReplace | backend/routes/order.js:284-297 | Replacing one order changes the total by exactly the difference of the two orders' shares. |
| Catalog.Normalize | backend/routes/product.js:22-28 | A string is wrapped into a one-element list and an array is used as given. A value with no length yields an empty list. The request fails exactly when `images` is absent. |
| Catalog.UploadAll | backend/routes/product.js:31-42 | The stored image links have the same length and order as the sources. Each link is the upload result of the corresponding source. |
| Catalog.UploadCalls | backend/routes/product.js:33-36 | One upload call is made per source, in source order. |
| Catalog.Snapshot | backend/routes/product.js:51-57 | The product's shop snapshot copies the shop's address, phone number, email, name and reviews. |
| Catalog.CreateProduct | backend/routes/product.js:17-64 | An unknown shop gives 400 "Shop Id is invalid!", with no upload and no product. An absent `images` field fails with 400 before any upload. Otherwise the product is stored under a fresh id and copies the request's name, shop id, description, category, price and stock. It starts with `sold_out` 0, no reviews and no rating, and holds one uploaded link per image in order. Store validity (every product id below the next one) is preserved. |
| Catalog.DestroyAll | backend/routes/product.js:145-149 | One destroy call per image, in image order, each naming that image's public id. |
| Catalog.DeleteLoopAsWritten | backend/routes/product.js:145-149 | The loop throws exactly when there are at least two images, after destroying every image from the current index to the end. With fewer images it makes no call. |
| Catalog.DeleteProductAsWritten | backend/routes/product.js:139-160 | A missing product gives 404 "Product is not found with this id". With at most one image the product is removed and nothing is destroyed. With two or more, every asset is destroyed in order, then the handler fails with 400 and the product stays. |
| Catalog.DeleteTwoImagesFails | backend/routes/product.js:145-151 | A product with two images is not deleted: both assets are destroyed and the handler fails. |
| Catalog.DeleteProduct | backend/routes/product.js:139-156 | Corrected deletion: a missing product gives 404. Otherwise every asset is destroyed in order and the product is removed. |
| Catalog.DeleteVersionsAgree | backend/routes/product.js:145-151 | The deletion as written and the corrected one agree exactly when the product is missing or has no image. |
| Catalog.DeleteUndoesCreate | backend/routes/product.js:17-59 | Creating a product and then deleting it (corrected version) restores the product map, and destroys exactly the assets that were uploaded. |
| Reviews.Overwrite | backend/routes/product.js:200-205 | Reviews by the caller get the request's rating, comment and user, and keep their product id. All other reviews are untouched, and the count is unchanged. |
| Reviews.Upsert | backend/routes/product.js:196-208 | If the caller has a review, the result is the list with exactly the caller's reviews rewritten (`Overwrite`), so the count is unchanged. Otherwise exactly one review is appended and the old ones are kept. Either way at least one review exists, so the mean is defined. |
| Reviews.MarkReviewed | backend/routes/product.js:220-224 | Exactly the cart lines whose own id equals the request's product id are flagged as reviewed. Other lines are untouched. |
| Reviews.CreateReview | backend/routes/product.js:185-229 | A missing product fails with 400 and changes nothing. Otherwise the product's reviews are upserted and its rating is set to their sum divided by their count. The order's matching cart lines are flagged when the order exists, and a missing order is ignored. Shops are untouched. |
| Reviews.MeanOfRatingsWithin | backend/routes/product.js:210-216 | The computed rating is a mean: it lies between the lowest and highest bound of the ratings. |
| Reviews.RatingWithinBounds | backend/routes/product.js:210-216 | If the old ratings and the new one lie in [lo, hi], the product's rating after the review is set and lies in [lo, hi]. |
| Reviews.UpsertRatingsWithin | backend/routes/product.js:196-208 | Every rating after the upsert is the request's rating or one of the old ratings, so the upsert introduces no other rating. Consequently, if the old ratings and the request's lie in [lo, hi], so do the new ones. |
| Reviews.ReviewTwiceSameAsOnce | backend/routes/product.js:196-224 | Resubmitting the same review changes nothing when the body's reviewer is the signed-in caller: it replaces rather than appends. |
| Reviews.MismatchedReviewerAppendsAgain | backend/routes/product.js:196-208 | The match compares stored reviewers with the signed-in caller, but the stored reviewer is the body's user. When the two differ, each submission appends another review. |

## Left out

- Listing and search routes (`get-all-orders`, `get-seller-all-orders`, `admin-all-orders`, `get-all-products-shop`, name and category search, `get-all-products`, `admin-all-products`): they depend on database sorting and regular-expression semantics.
- Authentication middleware: `isSeller` and `isAuthenticated` are taken as given. Their outcome is the `sellerId` and `callerId` parameters.
- Database and image-store failures: every load, save, upload and destroy is modelled as succeeding. A thrown upload or save would surface as a 400 or 500 error.
- Concurrency and lost updates between requests: each handler runs to completion on its own.
- `backend/app.js`: server bootstrap, configuration and connections.
- Floating point: money and ratings are exact `real`s, so rounding of `totalPrice * .10` and of the rating mean is not modelled.
- The response bodies beyond their outcome. For example, the refund request's message is not modelled.
- Identity comparison: `rev.user._id === req.user._id` is modelled as equality of ids. Whether the database returns both as comparable strings depends on schemas that are not part of this model.
- Malformed request bodies: apart from the product `images` field (`Catalog.ImagesInput`), every request body is typed as well-formed, so absent or mistyped fields cannot be expressed. Consequences left unmodelled: a checkout without `cart` throws when the loop at `backend/routes/order.js:21` iterates it, giving 500 instead of succeeding; a review without `user` is stored with no reviewer, and every later review of that product then throws at `rev.user._id` (`backend/routes/product.js:197`) and gets 400; a review without `rating` makes the mean (`backend/routes/product.js:213`) NaN.
- Orders.ApproveRefund: the reply is sent before restocking. A missing product then ends the restock silently, and the error that `next` would report after the response is not modelled.
- Orders.UpdateOrderStatus: the order, the products and the seller's shop are saved by separate calls. Only the failures the handler itself raises are modelled, so a failed `order.save` after the balance was written is not.

## Findings

| source | as written | input that shows it | evidently intended | confidence | as-written member | corrected member |
|---|---|---|---|---|---|---|
| backend/routes/product.js:145 | The loop condition is `1 < product.images.length`, which never mentions `i`. With two or more images the loop runs past the end, reading `images[i].public_id` throws, and the product is never removed. With exactly one image the loop does not run, so the asset is never destroyed. | a product whose `images` are `[a, b]`; the delete destroys `a` and `b`, then fails with 400 and the product remains | `i < product.images.length`: destroy every asset, then remove the product | not executed | Catalog.DeleteProductAsWritten | Catalog.DeleteProduct |

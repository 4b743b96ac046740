# Bakery shop server: a Dafny model of its core

This project models the core of an online cake shop. The shop has two parts: a Node/Express
server that keeps products and orders in a document database, and a React front end. The
model covers these parts of the system:

- **Orders.** The Order document has two pre-save hooks. One gives each order a daily
  `YYYYMMDD-NNNN` number; the other stamps `updatedAt`. The document also has a pricing
  method.
- **The order controller.** Checkout takes stock in request order and prices the order:
  8% tax and a flat 10.00 home-delivery fee. It creates the order, asks Stripe for a payment
  intent and broadcasts `newOrder`. The controller also handles status updates, cancellation
  (stock comes back and completed payments are refunded), and the read rules of
  `getOrder`/`getOrders`.
- **The order routes.** These hold the Stripe webhook and the Socket.IO `order_<id>` rooms
  that events are sent to.
- **Products.**
  - Schema rules: the enumerations, the cake-only required fields, the review and ratings
    bounds.
  - `calculateAverageRating`: the mean rounded to one decimal.
  - The product controller: the query-string rewrite of `getProducts`, its field lists and
    pagination links, the image lists built from uploads, and the review handlers.
- **Middleware.**
  - `protect`: where the token comes from and the reasons for refusal.
  - `authorize`, `verifyEmail` and the per-address `rateLimit`.
  - `sanitizeData`: strip tags, then trim.
  - `errorHandler`, and the success filter of `logActivity`.
- **Uploads.** The upload middleware chooses the destination directory and the stored file
  name. It also holds the MIME filter, the error translator, the 400×400 dimension check and
  the clean-up of files after a failed request.
- **The registration form.** This covers the client-side `validateForm`, the password
  indicators and `handleChange`.
- **The admin routes.** These cover the dashboard counts, revenue per period, the sales,
  inventory, top-product, recent-order and low-stock aggregations, and bulk
  update and delete.

Conventions used throughout:
- Money is an exact `real`. `Math.round(x)` is `Floor(x + 0.5)`.
- JavaScript builtins the code relies on are modelled in `JsRuntime`: `trim`, `split`/`join`,
  `parseInt`, number printing, `padStart` and `Math.round`.
- Database lookups are inputs. A found document is an object or a value; a missing one is
  `null` or `None`.
- Outcomes of foreign calls are inputs. These are Stripe's answers, the signature check,
  sharp's metadata and the clock.
- Effects on the outside world are recorded in logs: socket emissions, gateway requests and
  logged activities.
- Documents that handlers change in place (`Order`, `Product`, the product-stock table, the
  socket hub, the rate limiter, the registration page, the upload store) are classes. Each
  method's `ensures` gives the whole new state as a function of the old one.

Modules: `JsRuntime`, `Http`, `OrderModel`, `OrderRoutes`, `OrderController`, `ProductModel`,
`ProductController`, `AuthMiddleware`, `RegisterForm`, `Aggregation` (the `$sort`, `$limit` and
`$match` stages), `AdminRoutes`, `MulterMiddleware`.

Where the code and the design description of the system disagree, the model follows the code:
- `updateOrderStatus` stores any status in the enumeration. The design calls for a transition
  check; the code has none (`OrderController.SetStatus`).
- A failed checkout keeps the stock decrements already made, and a failed payment intent keeps
  the created order. The design calls for both to be rolled back
  (`OrderController.ReserveFailureKeepsPrefix`, `OrderController.PlaceOrder`).
- The payment webhook has no redelivery guard. It confirms an order of any status and appends
  one history entry per delivery (`OrderRoutes.SucceededRedelivery`,
  `OrderRoutes.SucceededOverridesAnyStatus`).
- Tax is `subtotal * 0.08` exactly, not rounded to cents.
- An empty item list is not refused.

## Model

| member | source | states |
|---|---|---|
| OrderModel.ParseStatus | server/models/Order.js:119-123 | a status string is accepted exactly when it names one of the seven statuses, and is mapped to that status |
| OrderModel.Subtotal | server/models/Order.js:263-266 | the `reduce` over the items, folded from the left; SubtotalAppend and SubtotalNonNegative state its properties |
| OrderModel.SubtotalAppend | server/models/Order.js:264-266 | the reduce over the items is additive over concatenation |
| OrderModel.SubtotalNonNegative | server/models/Order.js:264-266 | non-negative prices and quantities of at least 1 give a non-negative subtotal |
| OrderModel.LatestWithPrefix | server/models/Order.js:240-242 | the lookup finds a stored number with today's prefix, none exactly when there is none, and no stored number with the prefix sorts after it |
| OrderModel.LexTotal | server/models/Order.js:242 | the descending sort on `orderNumber` compares any two distinct strings |
| OrderModel.LexTransitive | server/models/Order.js:242 | the string order of the sort is transitive |
| OrderModel.LexIrreflexive | server/models/Order.js:242 | no string sorts before itself |
| OrderModel.LexAsymmetric | server/models/Order.js:242 | two strings never sort before each other |
| OrderModel.FourDigitLexOrder | server/models/Order.js:242-247 | four-digit sequences sort as strings exactly as their values sort as numbers |
| OrderModel.SequenceNumeralShape | server/models/Order.js:247 | `toString().padStart(4, '0')` of a number below 10000 is four decimal digits with that value |
| OrderModel.FormatOrderNumber | server/models/Order.js:250 | the number is the date prefix, a dash and the sequence; FormattedNumberIsDayNumber and FormattedSequenceValue state that it reads back |
| OrderModel.GeneratedNumber | server/models/Order.js:240-250 | the number the hook gives an order without one, from the latest number of the day; GeneratedNumberIsFreshAndGreatest and NumberingRepeatsAfter9999 state what it guarantees and where it breaks |
| OrderModel.NextSequenceFrom | server/models/Order.js:244-248 | the sequence is 0001 when the day has no order yet, otherwise one more than the latest |
| OrderModel.DayNumberOrder | server/models/Order.js:233-250 | two numbers of the same day sort as their four-digit sequences do |
| OrderModel.NextSequenceOfDayNumber | server/models/Order.js:244-248 | after `YYYYMMDD-NNNN` the next sequence is NNNN+1 in four digits |
| OrderModel.GeneratedNumberIsFreshAndGreatest | server/models/Order.js:231-253 | when the day's stored numbers are well-formed day numbers with sequences 1..9998, the generated number is new and sorts after every one of them |
| OrderModel.FormattedNumberIsDayNumber | server/models/Order.js:247-250 | a generated number is again a well-formed day number with the sequence it was given |
| OrderModel.NumberingRepeatsAfter9999 | server/models/Order.js:241-250 | as written, after `-9999` the hook generates `-10000`, which sorts before `-9999`, so the lookup keeps answering `-9999` and every later order of the day gets `-10000` again |
| OrderModel.SuccessorOf9999 | server/models/Order.js:244-248 | the sequence after `-9999` prints as `10000` |
| OrderModel.SequenceOf9999 | server/models/Order.js:246 | `parseInt` of the part after the dash of `-9999` is 9999 |
| OrderModel.TenThousandSortsFirst | server/models/Order.js:241-242 | `-10000` sorts before `-9999` in string order |
| OrderModel.DayNumberSequenceValue | server/models/Order.js:246 | `parseInt` of the part after the dash of a day number is its sequence |
| OrderModel.FormattedSequenceValue | server/models/Order.js:246-250 | a number formatted with sequence k starts with the day's prefix and `parseInt` reads k back |
| OrderModel.GreatestSequence | server/models/Order.js:241-248 | corrected lookup: the greatest sequence value among the day's numbers, bounding every one of them and carried by one of them unless 0 |
| OrderModel.CorrectedGeneratedNumber | server/models/Order.js:240-250 | the intended numbering, one more than the greatest stored sequence by value; CorrectedNumberIsFresh and CorrectedAgreesBelowCap state its properties |
| OrderModel.CorrectedNumberIsFresh | server/models/Order.js:231-253 | the corrected number carries the day's prefix and a sequence above every stored one, so it is new whatever is stored |
| OrderModel.GreatestIsLatest | server/models/Order.js:241-248 | on well-formed day numbers, the greatest sequence by value is that of the latest number in string order |
| OrderModel.CorrectedAgreesBelowCap | server/models/Order.js:231-253 | while the day's numbers are well formed, the corrected numbering gives the same number as the hook as written |
| OrderModel.DateStrShape | server/models/Order.js:235-237 | the date prefix of a four-digit year is eight decimal digits |
| OrderModel.Order.CalculateTotalPrice | server/models/Order.js:262-277 | subtotal is the sum of price × quantity, tax is 8% of it, and total is subtotal + tax + fee − discount; fee and discount kept |
| OrderModel.Order.AssignOrderNumber | server/models/Order.js:231-253 | an order without a number gets the next number of the day; a number once set is kept |
| OrderModel.Order.StampUpdatedAt | server/models/Order.js:256-259 | every save sets `updatedAt` to the current time |
| OrderModel.Order.Save | server/models/Order.js:231-259 | both hooks in declared order |
| OrderModel.Order.Create | server/models/Order.js:119-224 | a created order is pending, unpaid, not cancelled, with an empty history and both timestamps at creation time |
| OrderRoutes.RoomFor | server/routes/orderRoutes.js:109 | the room of an order is `order_` followed by its id |
| OrderRoutes.RoomForInjective | server/routes/orderRoutes.js:109 | different orders have different rooms |
| OrderRoutes.JoinRoom | server/routes/orderRoutes.js:108-110 | joining adds the socket to that room and to no other |
| OrderRoutes.LeaveRoom | server/routes/orderRoutes.js:113-115 | leaving removes the socket from that room and from no other |
| OrderRoutes.LeaveUndoesJoin | server/routes/orderRoutes.js:108-115 | leaving a room just joined restores every room's members |
| OrderRoutes.SocketHub.JoinOrderRoom | server/routes/orderRoutes.js:108-110 | a connected socket joins the order's room, the other rooms unchanged, and only connected sockets stay in rooms |
| OrderRoutes.SocketHub.LeaveOrderRoom | server/routes/orderRoutes.js:113-115 | the socket leaves the order's room, the other rooms unchanged, and only connected sockets stay in rooms |
| OrderRoutes.SocketHub.EmitToOrderRoom | server/controllers/orderController.js:264-268 | an emission reaches exactly the members of the order's room, all of them connected |
| OrderRoutes.SocketHub.Broadcast | server/controllers/orderController.js:106-107 | a broadcast reaches every connected socket, whether or not it joined a room |
| OrderRoutes.SocketHub.constructor | server/routes/orderRoutes.js:105-122 | the hub starts with no connected socket, no room and no emission |
| OrderRoutes.SocketHub.Connect | server/routes/orderRoutes.js:106 | a new connection joins the connected sockets and is in no room |
| OrderRoutes.SocketHub.Disconnect | server/routes/orderRoutes.js:118-120 | a disconnected socket is no longer connected and has left every room |
| OrderRoutes.ApplyPaymentEvent | server/routes/orderRoutes.js:48-98 | succeeded: payment completed, status confirmed, a "Payment received" entry with status confirmed appended; failed: payment failed, status kept, a "Payment failed" entry with status pending appended; both stamp the time; other events change nothing; no other field changes |
| OrderRoutes.SucceededRedelivery | server/routes/orderRoutes.js:49-63 | a redelivered succeeded event appends a second identical entry |
| OrderRoutes.SucceededOverridesAnyStatus | server/routes/orderRoutes.js:55-57 | a succeeded event confirms a cancelled or delivered order too |
| OrderRoutes.HandleWebhook | server/routes/orderRoutes.js:30-102 | a bad signature gives 400 with the error and changes nothing; otherwise 200, with the order changed by the event and the matching room emission |
| OrderRoutes.MarkPaymentReceived | server/routes/orderRoutes.js:55-63 | the stored effect of a succeeded event |
| OrderRoutes.MarkPaymentFailed | server/routes/orderRoutes.js:79-86 | the stored effect of a failed event |
| OrderController.Catalog.SetStock | server/controllers/orderController.js:53-54 | one product's stock changes, nothing else |
| OrderController.ReserveOne | server/controllers/orderController.js:26-54 | one item either stops the loop (missing product or short stock) with nothing changed, or adds its line at the current price and lowers its stock |
| OrderController.Reserve | server/controllers/orderController.js:25-55 | the loop keeps every product and builds at most one line per item, one per item when it succeeds |
| OrderController.ReserveOneEffect | server/controllers/orderController.js:35-54 | one iteration lowers only its own product's stock, and only by its quantity |
| OrderController.ReserveSubtotal | server/controllers/orderController.js:42-43 | the running subtotal equals the Order model's subtotal of the lines built |
| OrderController.ReserveLinesFollowRequest | server/controllers/orderController.js:45-50 | the lines repeat the requested products and quantities in request order |
| OrderController.ReserveKeepsNamesAndPrices | server/controllers/orderController.js:53 | names and prices in the table are never changed |
| OrderController.ReservedPricesAreCatalogPrices | server/controllers/orderController.js:48 | each line's price is its product's catalogue price |
| OrderController.ReserveFailureSticks | server/controllers/orderController.js:28-40 | after a failure the remaining items are not looked at |
| OrderController.ReserveEffect | server/controllers/orderController.js:25-55 | each product's stock drops by the total quantity of its reserved lines |
| OrderController.ReserveKeepsStockNonNegative | server/controllers/orderController.js:35-40 | stock never goes below zero |
| OrderController.FirstFailureExists | server/controllers/orderController.js:28-40 | a failing checkout fails at a first item after a succeeding prefix |
| OrderController.ReserveFailureKeepsPrefix | server/controllers/orderController.js:25-55 | a failed checkout keeps the decrements of the items before the failing one, which is reported as missing exactly when its product is absent |
| OrderController.ReserveStep | server/controllers/orderController.js:25-55 | the loop after i+1 items is one iteration after i items |
| OrderController.ReserveOneSucceeds | server/controllers/orderController.js:42-53 | the successful iteration in terms of its line |
| OrderController.ReserveStock | server/controllers/orderController.js:22-55 | the loop leaves the table, lines, subtotal and failure that `Reserve` specifies |
| OrderController.CheckoutPricing | server/controllers/orderController.js:57-60 | pricing is consistent, tax 8%, fee 10.00 exactly for "delivery", no discount |
| OrderController.CheckoutScenario | server/controllers/orderController.js:25-60 | 2 × 10.00 (stock 5) and 1 × 20.00 (stock 2), delivered: total 53.20, stocks 3 and 1, restored by the cancel loop |
| OrderController.LastUnitsScenario | server/controllers/orderController.js:35-40 | three of three units leaves 0; four of three fails with the product's name and leaves the stock |
| OrderController.ParsePaymentMethod | server/models/Order.js:95-99 | accepted exactly for "stripe" and "paypal" |
| OrderController.ParseDeliveryType | server/models/Order.js:140-144 | accepted exactly for "pickup" and "delivery" |
| OrderController.PresetOrderNumber | server/controllers/orderController.js:64 | the preset number is never empty, so the number hook keeps it |
| OrderController.AmountInCents | server/controllers/orderController.js:92 | the amount is the total in cents rounded to the nearest integer |
| OrderController.PaymentGateway.Send | server/controllers/orderController.js:91-98 | every gateway request is recorded in order |
| OrderController.PlaceOrder | server/controllers/orderController.js:57-120 | a schema-rejected order gives 500 with nothing created; otherwise a fresh pending order with these lines and pricing; for Stripe one intent request, then 201 with the transaction id and client secret, or 500 when the intent fails; `newOrder` broadcast only on 201 |
| OrderController.CreateOrder | server/controllers/orderController.js:9-121 | the stock table is the loop's result; a stock failure answers 404/400 with nothing else done; otherwise as PlaceOrder on the reserved lines |
| OrderController.SetStatus | server/controllers/orderController.js:249-259 | the requested status is stored with one new history entry and the delivery date when delivered; items, cancellation and payment kept |
| OrderController.StatusHistoryAppendOnly | server/controllers/orderController.js:249-254 | a series of status updates only appends to the history, one entry per update, and the last one wins |
| OrderController.EntriesOf | server/controllers/orderController.js:250-254 | one history entry per update, holding its status, time, note and caller |
| OrderController.UpdateOrderStatus | server/controllers/orderController.js:237-281 | 404 when not found; an unknown status gives 500 with the order unchanged; otherwise 200, the stored state of SetStatus, and one emission to the room |
| OrderController.ApplyStatus | server/controllers/orderController.js:249-261 | the order's new state is SetStatus of the old |
| OrderController.GetOrderResponse | server/controllers/orderController.js:200-232 | 200 exactly for the owner or an admin; 404 for a missing order, 401 for anyone else |
| OrderController.PageCountBounds | server/controllers/orderController.js:161 | `Math.ceil(total / limit)` pages cover every order and the last page is not empty |
| Http.PagingParams | server/controllers/orderController.js:128-129 | page and limit are the parsed values when those are non-zero numbers, and 1 and 10 when absent, NaN or 0 |
| OrderController.CancelGuard | server/controllers/orderController.js:297-311 | a cancel goes ahead exactly for a pending or confirmed order and its owner or an admin; 400 for the status, 401 for the caller |
| OrderController.RefundOutcome | server/controllers/orderController.js:331-343 | a refund is tried only for a completed payment, and is processed exactly when the gateway call returns |
| OrderController.CancelState | server/controllers/orderController.js:313-345 | a cancelled order records reason, time, caller and refund outcome; payment status, history and items kept |
| OrderController.SecondCancelRejected | server/controllers/orderController.js:297-303 | a cancelled order is refused by the status guard, so stock comes back once |
| OrderController.WebhookReopensCancelledOrder | server/routes/orderRoutes.js:55-57 | a succeeded event after a cancel makes the order cancellable again |
| OrderController.Restore | server/controllers/orderController.js:323-329 | the cancel loop keeps every product |
| OrderController.RestoreEffect | server/controllers/orderController.js:323-329 | each existing product gets back the total quantity of its lines |
| OrderController.RestoreUndoesReserve | server/controllers/orderController.js:25-55 | cancelling right after checkout restores the stock table exactly |
| OrderController.CancelOrder | server/controllers/orderController.js:286-364 | 404 / guard answers change nothing; otherwise 200, CancelState stored, stock restored, a refund request exactly for completed payments, and one room emission |
| OrderController.MarkCancelled | server/controllers/orderController.js:314-320 | status cancelled and the new cancellation record |
| OrderController.RecordRefund | server/controllers/orderController.js:332-345 | the refund outcome and the save |
| OrderController.RestoreStock | server/controllers/orderController.js:323-329 | the cancel loop leaves the table `Restore` specifies |
| ProductModel.ParseCategory | server/models/Product.js:22-29 | a category is accepted exactly when it is one of the five |
| ProductModel.CakeCategories | server/models/Product.js:48-62 | the cake categories are birthday, wedding and custom |
| ProductModel.CakeFieldsRequiredIffCake | server/models/Product.js:45-63 | servings, size, weight and preparation time may be left out exactly for a non-cake category |
| ProductModel.AverageRating | server/models/Product.js:211-220 | no reviews give 0 and count 0; otherwise the count is the number of reviews and the average has one decimal and lies within 0.05 of the mean |
| ProductModel.RatingSumBounds | server/models/Product.js:216 | ratings in 1..5 sum to between n and 5n |
| ProductModel.AverageBetweenOneAndFive | server/models/Product.js:217 | the rounded mean of ratings in 1..5 lies in 1..5 |
| ProductModel.NoReviewsBreakSchemaBound | server/models/Product.js:89-94 | as written, the ratings of a product without reviews break the schema's minimum |
| ProductModel.SchemaValid | server/models/Product.js:4-121 | what a save validates: name and description present and within 100 and 2000 characters, a non-negative price and stock, one of the five categories, the cake fields for a cake category, image urls present, valid reviews and the declared `min: 1`/`max: 5` on the average rating; SchemaRejectsUnreviewedProduct states the consequence for a product without reviews |
| ProductModel.SchemaRejectsUnreviewedProduct | server/models/Product.js:88-99 | as written, the schema refuses a product whose ratings are those of no reviews |
| ProductModel.AverageRatingWithinBound | server/models/Product.js:211-220 | with the corrected bound, every computed rating is accepted |
| ProductModel.Product.CalculateAverageRating | server/models/Product.js:211-220 | only `ratings` changes, to AverageRating of the reviews |
| ProductController.StripControlKeys | server/controllers/productController.js:45-49 | exactly select, sort, page, limit and search are dropped; other values kept |
| ProductController.PrefixOperators | server/controllers/productController.js:55 | the `$` rewrite of the operator words; PrefixOperatorsOfWord, PrefixOperatorsConcat and DropUndoesPrefix state what it does |
| ProductController.DropOperatorPrefixes | server/controllers/productController.js:55 | the inverse of the rewrite: each `$` before an operator word is dropped; DropUndoesPrefix states that it undoes PrefixOperators |
| ProductController.DropUndoesPrefix | server/controllers/productController.js:55 | the operator rewrite is undone by dropping the `$` before operator words |
| ProductController.PrefixOperatorsConcat | server/controllers/productController.js:55 | the rewrite works piecewise on pieces split at a word boundary |
| ProductController.PrefixOperatorsOfWord | server/controllers/productController.js:55 | a whole word gets a `$` exactly when it is gt, gte, lt, lte or in |
| ProductController.PrefixedStartsWithNoOperator | server/controllers/productController.js:55 | after the rewrite, no word starts the string that is itself an operator |
| ProductController.WordPrefix | server/controllers/productController.js:55 | the word at the start is no longer than the string |
| ProductController.WordPrefixShape | server/controllers/productController.js:55 | the `\b` word at the start is a prefix of word characters ended by a non-word character or the end |
| ProductController.Tagged | server/controllers/productController.js:55 | a word is kept or gets one `$` |
| ProductController.WholeWordRewrite | server/controllers/productController.js:55 | a string that is one word is rewritten as that word |
| ProductController.PrefixOperatorsKeepsBoundary | server/controllers/productController.js:55 | a string starting with a non-word character keeps its first character |
| ProductController.SelectClause | server/controllers/productController.js:71-74 | a field list is used exactly when `select` is given, with commas made spaces |
| ProductController.SortClause | server/controllers/productController.js:77-82 | the sort given, commas made spaces, else `-createdAt` |
| ProductController.FieldListHasNoCommas | server/controllers/productController.js:72 | the field list has no commas and the same length |
| ProductController.FieldList | server/controllers/productController.js:72 | the field list is the parameter with commas replaced by spaces |
| JsRuntime.JoinSplit | server/controllers/productController.js:72 | `split(',').join(' ')` replaces each comma by a space |
| JsRuntime.SplitJoinRoundTrip | server/controllers/productController.js:72 | splitting and joining on the same separator gives back the string |
| JsRuntime.Split | server/controllers/productController.js:72 | `split` gives at least one piece, none holding the separator |
| JsRuntime.SplitWithoutSeparator | server/controllers/productController.js:72 | a string without the separator splits into itself |
| JsRuntime.SplitAtSeparator | server/models/Order.js:246 | `a-b` split at `-` gives a and b |
| JsRuntime.ReplaceChar | server/controllers/productController.js:72 | each occurrence of a character is replaced, every other character kept |
| JsRuntime.TrimStart | server/middleware/authMiddleware.js:173 | only leading whitespace is removed, and all of it |
| JsRuntime.TrimEnd | server/middleware/authMiddleware.js:173 | only trailing whitespace is removed, and all of it |
| JsRuntime.Trim | server/middleware/authMiddleware.js:173 | the result has no whitespace at either end |
| JsRuntime.TrimSlice | server/middleware/authMiddleware.js:173 | the trimmed string is the slice of the input between whitespace-only ends |
| JsRuntime.TrimOfTrimmed | server/middleware/authMiddleware.js:173 | a trimmed string is unchanged by `trim` |
| JsRuntime.TrimIdempotent | server/middleware/authMiddleware.js:173 | trimming twice is trimming once |
| JsRuntime.DigitPrefix | server/controllers/orderController.js:128-129 | `parseInt` reads the longest run of digits at the start |
| JsRuntime.DigitPrefixShape | server/controllers/orderController.js:128-129 | the run is a prefix, ended by the end or a non-digit |
| JsRuntime.DigitPrefixOfDigits | server/controllers/orderController.js:128-129 | an all-digit string is read whole |
| JsRuntime.ParseIntOr | server/controllers/orderController.js:128-129 | `parseInt(x, 10) \|\| d` is the parsed value when it is a non-zero number, and d when the parameter is absent, NaN or 0 |
| JsRuntime.ParseIntOfDigits | server/models/Order.js:246 | `parseInt` of a digit string is its decimal value |
| JsRuntime.ReadNumeralOfDigits | server/models/Order.js:246 | the numeral reader returns the value of a digit string |
| JsRuntime.NatToString | server/models/Order.js:235-247 | `toString()` of a natural number is a non-empty digit string, one digit exactly below 10 |
| JsRuntime.NatToStringValue | server/models/Order.js:235-247 | the printed digits read back as the number |
| JsRuntime.Repeat | server/models/Order.js:236-247 | n copies of the fill character |
| JsRuntime.PadStart | server/models/Order.js:236-247 | `padStart` puts fill characters before a shorter string up to the width, and leaves a long one alone |
| JsRuntime.ValueIgnoresLeadingZeros | server/models/Order.js:246-247 | leading zeros do not change a numeral's value |
| JsRuntime.ZerosValue | server/models/Order.js:246-247 | a string of zeros has value 0 |
| JsRuntime.ZeroPaddedValue | server/models/Order.js:247 | zero padding keeps the value |
| JsRuntime.PaddedDigitsParse | server/models/Order.js:246-247 | a zero-padded digit string parses back to its value |
| JsRuntime.PaddedNumeralParses | server/models/Order.js:246-247 | a zero-padded printed number parses back to the number |
| JsRuntime.MathRound | server/models/Product.js:217 | `Math.round` gives the integer within half of x, halves rounding up |
| ProductController.Paginate | server/controllers/productController.js:97-111 | the links point to the neighbouring pages with the same limit |
| ProductController.PaginationLinks | server/controllers/productController.js:85-111 | `next` exactly when the next page holds products, `prev` exactly after the first page |
| ProductController.FullPage | server/controllers/productController.js:87-91 | a page inside the matches is the slice from startIndex to endIndex |
| ProductController.PageOf | server/controllers/productController.js:87-91 | a page holds at most `limit` products |
| ProductController.UploadedImages | server/controllers/productController.js:16-20 | one image per file under `/uploads/products/`, labelled with the name given, the first and only the first main |
| ProductController.UploadedImagesMain | server/controllers/productController.js:16-20 | the url gives back the file name, and exactly one image is main |
| ProductController.CreateImages | server/controllers/productController.js:15-22 | uploads replace the body's images |
| ProductController.UpdateImages | server/controllers/productController.js:171-184 | a non-empty upload replaces the images, labelled by the new or stored name, and unlinks every old one; otherwise nothing is touched |
| ProductController.DeleteProduct | server/controllers/productController.js:211-233 | 404 with nothing changed when the id names no product; otherwise 200, the product removed, every other product kept, and each of its image urls sent to be unlinked, in order |
| ProductController.DeleteUnlinksAsUpdate | server/controllers/productController.js:221-225 | deleting a product unlinks exactly the images an update with new uploads would unlink |
| ProductController.SecondDeleteNotFound | server/controllers/productController.js:213-220 | a deleted product is not found again: a second delete answers 404 and unlinks nothing |
| ProductController.ReviewSaveAcceptedIffValid | server/models/Product.js:88-121 | under the schema's declared bound, a save of at least one review passes exactly when the reviews are valid, and a save of none never passes |
| ProductController.ReviewSaveAccepted | server/models/Product.js:88-121 | the save check on changed reviews: it passes only for valid reviews, and never for an empty list |
| ProductController.ValidReviewsRatingsInRange | server/models/Product.js:104-109 | valid reviews have ratings in 1..5 |
| ProductController.CorrectedSaveAccepted | server/models/Product.js:88-121 | the intended save check, with an average of 0 allowed while the count is 0; CorrectedSaveAcceptedIffValid states that it is exactly review validity |
| ProductController.CorrectedSaveAcceptedIffValid | server/models/Product.js:88-121 | under the corrected bound, the save check is exactly review validity, the empty list included, and it passes whenever the as-written check does |
| ProductController.AddReview | server/controllers/productController.js:257-283 | 400 when the caller already reviewed; saved with the new review appended and 201 exactly when it validates; otherwise 500 |
| ProductController.AddKeepsOneReviewPerUser | server/controllers/productController.js:257-267 | adding keeps one review per user and a second add by the same user is refused |
| ProductController.CastObjectId | server/controllers/productController.js:307 | the ObjectId the `:reviewId` parameter casts to: 24 hexadecimal digits in either case, printed in lower case; any other parameter does not cast; an id spelled as stored casts to itself |
| ProductController.CastIgnoresCase | server/controllers/productController.js:307 | two spellings of the parameter that differ only in the case of their letters cast to the same id |
| ProductController.IndexOfReview | server/controllers/productController.js:307 | the index of the first review with that stored id, or none when there is none |
| ProductController.FindReview | server/controllers/productController.js:307 | the index of the first review whose id is the ObjectId the parameter casts to, or none when no review has it or the parameter does not cast |
| ProductController.RevisedReview | server/controllers/productController.js:324-325 | a zero or missing rating and an empty or missing comment keep the old values |
| ProductController.UpdateReview | server/controllers/productController.js:307-333 | the review is looked up by the cast id, so any spelling of its id finds it; then 404 for an unknown review, 401 for a non-author, saved with 200 exactly when the revised list validates |
| ProductController.UpdateTouchesOnlyTarget | server/controllers/productController.js:324-325 | every review whose id is not the cast parameter is unchanged |
| ProductController.RemoveReviewKeeps | server/controllers/productController.js:374-376 | the filter keeps exactly the reviews with another id |
| ProductController.RemoveReviewConcat | server/controllers/productController.js:374-376 | the filter works piecewise |
| ProductController.RemoveReview | server/controllers/productController.js:374-376 | the filter leaves no review with that id and never lengthens the list |
| ProductController.RemoveAbsentReview | server/controllers/productController.js:374-376 | removing an id nobody has changes nothing |
| ProductController.RemoveShrinks | server/controllers/productController.js:374-376 | removing a present id shortens the list |
| ProductController.RemovalBySpelling | server/controllers/productController.js:357-376 | the filter compares stored ids with the parameter as sent: spelled as stored it removes the review found, spelled any other way it removes nothing |
| ProductController.RemoveKeepsOneReviewPerUser | server/controllers/productController.js:374-376 | the filter keeps one review per user |
| ProductController.DeleteReview | server/controllers/productController.js:357-391 | lookup by the cast id: 404 for an unknown review, 401 unless author or admin; then the filter on the parameter as sent is saved with 200 when the save passes and answers 500 when it fails; a save removes the review when the id is spelled as stored and removes nothing otherwise |
| ProductController.LastReviewDeleteFails | server/controllers/productController.js:374-391 | as written, deleting a product's only review answers 500 and keeps it |
| ProductController.DeleteReviewCorrected | server/controllers/productController.js:357-384 | corrected deletion: the same 404 and 401, otherwise saved exactly when the remaining reviews are valid; it agrees with DeleteReview wherever that saves |
| ProductController.LastReviewDeleteCorrected | server/controllers/productController.js:374-384 | under the corrected bound, deleting the only review is saved with 200 and leaves none |
| ProductController.DeletedReviewIsGone | server/controllers/productController.js:357-376 | after a delete by the id as stored the review is not found again |
| ProductController.DeleteByOtherSpellingKeepsReview | server/controllers/productController.js:357-391 | a delete that saves with the id spelled otherwise than stored answers 200, keeps every review, and the review is still found |
| ProductController.UppercaseIdDeleteKeepsReview | server/controllers/productController.js:307-391 | the id `…0a` requested as `…0A`: the review is found, an update behaves as with the stored spelling, and a delete by its author answers 200 with both reviews kept |
| ProductController.DeleteKeepsOneReviewPerUser | server/controllers/productController.js:374-376 | deleting keeps one review per user |
| ProductController.SaveReviews | server/controllers/productController.js:276-278 | reviews stored, ratings recomputed, `updatedAt` stamped |
| ProductController.AddProductReview | server/controllers/productController.js:246-291 | 404 when not found; otherwise the answer and stored state of AddReview |
| ProductController.UpdateProductReview | server/controllers/productController.js:296-341 | 404 when not found; otherwise the answer and stored state of UpdateReview for the `:reviewId` as sent |
| ProductController.DeleteProductReview | server/controllers/productController.js:346-392 | 404 when not found; otherwise the answer and stored state of DeleteReview for the `:reviewId` as sent, the 500 of a failed save and the save that removes nothing included |
| AuthMiddleware.ExtractToken | server/middleware/authMiddleware.js:12-21 | a header starting with `Bearer` gives its second word; otherwise the cookie |
| AuthMiddleware.SecondWord | server/middleware/authMiddleware.js:15-17 | `split(' ')[1]` has no space in it |
| AuthMiddleware.BearerCredentials | server/middleware/authMiddleware.js:12-17 | `Bearer <t>` yields t |
| AuthMiddleware.BearerWithoutSpace | server/middleware/authMiddleware.js:12-17 | `Bearer` with no space yields no token, and the cookie is not consulted |
| AuthMiddleware.LowercaseSchemeUsesCookie | server/middleware/authMiddleware.js:12-21 | a `bearer` header falls through to the cookie |
| AuthMiddleware.ChangedPasswordAfterInMilliseconds | server/middleware/authMiddleware.js:46 | a token is stale exactly when issued, in milliseconds, before the change |
| AuthMiddleware.Protect | server/middleware/authMiddleware.js:7-62 | authenticated exactly for a present, verified token of an existing user issued after any password change; every refusal is 401 |
| AuthMiddleware.PasswordChangeRevokesOlderTokens | server/middleware/authMiddleware.js:45-51 | a token issued before the password change is refused |
| AuthMiddleware.Authorize | server/middleware/authMiddleware.js:73-83 | next exactly when the role is listed, 403 naming the role otherwise |
| AuthMiddleware.VerifyEmail | server/middleware/authMiddleware.js:86-94 | next exactly for a verified email, 403 otherwise |
| AuthMiddleware.AdminChain | server/routes/orderRoutes.js:14-27 | protect then authorize('admin') passes exactly an authenticated admin |
| AuthMiddleware.Recent | server/middleware/authMiddleware.js:115-117 | only times inside the window are kept |
| AuthMiddleware.RecentMembers | server/middleware/authMiddleware.js:115-117 | a time is kept exactly when it was stored and is inside the window |
| AuthMiddleware.RecentLater | server/middleware/authMiddleware.js:115-117 | filtering again later is filtering once later |
| AuthMiddleware.RecentAppend | server/middleware/authMiddleware.js:115-117 | the window filter works piecewise |
| AuthMiddleware.Admit | server/middleware/authMiddleware.js:108-133 | a new address is admitted with one time; a known one is refused with 429 and nothing stored exactly when its recent times reach the limit, else its recent times plus now are stored; other addresses untouched |
| AuthMiddleware.AdmitKeepsWithinLimit | server/middleware/authMiddleware.js:108-133 | no address ever holds more than `limit` times inside the window |
| AuthMiddleware.FirstRequestAlwaysAccepted | server/middleware/authMiddleware.js:128-130 | the first request from an address is always let through |
| AuthMiddleware.RateLimiter.Handle | server/middleware/authMiddleware.js:108-133 | the limiter's decision and new table are those of Admit |
| AuthMiddleware.StripTags | server/middleware/authMiddleware.js:171 | the result has no `<...>` left and no new characters |
| AuthMiddleware.StripTagsOfNoTag | server/middleware/authMiddleware.js:171 | a string without tags is unchanged |
| AuthMiddleware.NoTagCons | server/middleware/authMiddleware.js:171 | a character before a tag-free string leaves it tag-free unless it opens a tag |
| AuthMiddleware.TagAfterSpaceRemoved | server/middleware/authMiddleware.js:170-173 | stripping ` <b>` leaves a single space |
| AuthMiddleware.Sanitize | server/middleware/authMiddleware.js:170-173 | a sanitized string has no tag and no surrounding whitespace |
| AuthMiddleware.SanitizeIdempotent | server/middleware/authMiddleware.js:170-173 | sanitizing twice is sanitizing once |
| AuthMiddleware.TrimFirstIsNotIdempotent | server/middleware/authMiddleware.js:170-173 | the order matters: stripping after trimming can leave whitespace |
| AuthMiddleware.SanitizedFields | server/middleware/authMiddleware.js:168-175 | every string value is sanitized, every other value kept, no key added or lost |
| AuthMiddleware.SanitizedFieldsIdempotent | server/middleware/authMiddleware.js:164-193 | sanitizing a request twice is sanitizing it once |
| AuthMiddleware.SanitizeFields | server/middleware/authMiddleware.js:168-175 | the loop over the keys computes SanitizedFields |
| AuthMiddleware.SanitizeData | server/middleware/authMiddleware.js:164-193 | body and query, when present, are replaced by their sanitized fields |
| AuthMiddleware.ErrorHandler | server/middleware/authMiddleware.js:196-236 | validation errors: 400 with the messages; duplicate key: 400; token errors: 401; otherwise the error's status or 500 with its message or "Server Error" |
| AuthMiddleware.TokenErrors | server/middleware/authMiddleware.js:216-229 | the two token errors get their own messages |
| AuthMiddleware.LoggedActivities | server/middleware/authMiddleware.js:141-153 | only 2xx responses are logged |
| AuthMiddleware.LoggedActivitiesMembers | server/middleware/authMiddleware.js:143 | an activity is logged exactly when it was sent with a 2xx status |
| AuthMiddleware.LoggedActivitiesSnoc | server/middleware/authMiddleware.js:141-153 | one more send extends the log exactly when it is a success |
| AuthMiddleware.LoggedResponse.Send | server/middleware/authMiddleware.js:141-154 | every send is recorded; the log grows by it exactly for a 2xx status |
| RegisterForm.WithField | client/src/pages/auth/Register.js:22-25 | the changed field gets the new value, the others keep theirs |
| RegisterForm.TrimEmptyIffBlank | client/src/pages/auth/Register.js:38-43 | `trim()` is empty exactly for an all-whitespace value |
| RegisterForm.TrimsToEmpty | client/src/pages/auth/Register.js:38-43 | the emptiness test after trimming is blankness |
| RegisterForm.SimpleAddressMatches | client/src/pages/auth/Register.js:44 | `a@b.c` passes the email pattern |
| RegisterForm.DotRightAfterAtFails | client/src/pages/auth/Register.js:44 | `ab@.cd` fails it |
| RegisterForm.EmailPatternUnanchored | client/src/pages/auth/Register.js:44 | the pattern is not anchored: text around a match still matches |
| RegisterForm.FormErrors | client/src/pages/auth/Register.js:35-59 | a field has a message exactly when its rule fails, and it is that rule's message |
| RegisterForm.FieldByFieldIsFormErrors | client/src/pages/auth/Register.js:36-56 | the four checks in order build FormErrors |
| RegisterForm.NoErrorsIffRequirements | client/src/pages/auth/Register.js:58-59 | no errors exactly when name and email are non-blank, the email matches, the password has six characters and the confirmation equals it |
| RegisterForm.NoFieldErrorIffRequirements | client/src/pages/auth/Register.js:35-59 | no field fails its rule exactly when the requirements hold |
| RegisterForm.ConfirmationIndependent | client/src/pages/auth/Register.js:54-56 | the confirmation error is there exactly when the two passwords differ |
| RegisterForm.PasswordIndicators | client/src/pages/auth/Register.js:223-259 | the three indicators: at least six characters, an uppercase letter, a digit |
| RegisterForm.LengthIndicatorMatchesCheck | client/src/pages/auth/Register.js:50-52 | for a non-empty password the length indicator agrees with the validation |
| RegisterForm.LowercaseIndicators | client/src/pages/auth/Register.js:223-259 | `abcdef` lights only the length indicator |
| RegisterForm.IndicatorsAreDisplayOnly | client/src/pages/auth/Register.js:241-259 | a password without uppercase or digits still validates |
| RegisterForm.ClearError | client/src/pages/auth/Register.js:27-32 | the field's message becomes empty, the others are kept |
| RegisterForm.ClearErrorIdempotent | client/src/pages/auth/Register.js:27-32 | clearing twice is clearing once |
| RegisterForm.RegisterPage.ValidateForm | client/src/pages/auth/Register.js:35-60 | the errors become FormErrors and the result is true exactly when there are none |
| RegisterForm.RegisterPage.HandleChange | client/src/pages/auth/Register.js:20-33 | the form gets the new value and the field's error is cleared |
| Aggregation.SortByCorrect | server/routes/adminRoutes.js:244 | `$sort` orders by key and is a permutation |
| Aggregation.Insert | server/routes/adminRoutes.js:244 | one insertion step lengthens the sequence by one |
| Aggregation.InsertMultiset | server/routes/adminRoutes.js:244 | insertion adds exactly the inserted element |
| Aggregation.InsertSorted | server/routes/adminRoutes.js:244 | insertion into a sorted sequence keeps it sorted |
| Aggregation.SortBy | server/routes/adminRoutes.js:244 | sorting keeps the length |
| Aggregation.SortByMembers | server/routes/adminRoutes.js:244 | sorting keeps exactly the members |
| Aggregation.Limit | server/routes/adminRoutes.js:245 | `$limit` keeps a prefix of at most n elements, all of them when there are at most n |
| Aggregation.LimitSorted | server/routes/adminRoutes.js:245 | a prefix of a sorted sequence is sorted |
| Aggregation.LimitKeepsSmallest | server/routes/adminRoutes.js:244-245 | after sort and limit, every element left out has a key no smaller than every element kept |
| Aggregation.Filter | server/routes/adminRoutes.js:271 | `$match` keeps exactly the elements that satisfy the condition |
| Aggregation.FilterSorted | server/routes/adminRoutes.js:271-273 | filtering keeps sortedness |
| AdminRoutes.PendingOrdersBounds | server/routes/adminRoutes.js:24 | the pending count is 0 exactly when no order is pending and the total exactly when all are |
| AdminRoutes.PendingOrders | server/routes/adminRoutes.js:24 | the pending count never exceeds the order count |
| AdminRoutes.PendingOrdersAppend | server/routes/adminRoutes.js:24 | the count is additive over the orders |
| AdminRoutes.Revenue | server/routes/adminRoutes.js:214-229 | no matching order gives 0 |
| AdminRoutes.RevenueByPeriod | server/routes/adminRoutes.js:197-212 | daily, weekly and monthly revenue are Revenue from each period's start |
| AdminRoutes.RevenueAppend | server/routes/adminRoutes.js:214-229 | revenue is additive over the orders |
| AdminRoutes.RevenueLaterStart | server/routes/adminRoutes.js:197-229 | a later start never gives more revenue |
| AdminRoutes.RevenuePeriodsNested | server/routes/adminRoutes.js:27-31 | daily ≤ weekly ≤ monthly revenue |
| AdminRoutes.SalesReport | server/routes/adminRoutes.js:130-152 | the `$match`/`$group`/`$sort` pipeline of the sales report, built one order at a time; SalesReportCorrect states what each row holds |
| AdminRoutes.SalesReportCorrect | server/routes/adminRoutes.js:130-152 | the report is in ascending date order and its row for a day counts and sums exactly the delivered orders of that day in the range |
| AdminRoutes.RowForHasDate | server/routes/adminRoutes.js:140-149 | the row found for a date carries that date |
| AdminRoutes.FirstRowIsEarliest | server/routes/adminRoutes.js:151 | in an ascending report no day before the first row has a row |
| AdminRoutes.AddSaleDates | server/routes/adminRoutes.js:140-149 | adding a sale keeps every existing date and adds only the sale's date |
| AdminRoutes.AddSaleAscending | server/routes/adminRoutes.js:140-151 | adding a sale keeps the report ascending |
| AdminRoutes.AddSaleRows | server/routes/adminRoutes.js:140-149 | adding a sale adds one order and its total to its day's row, and leaves other days' rows alone |
| AdminRoutes.NoOrdersNoSales | server/routes/adminRoutes.js:140-149 | a day without matching orders has no sales |
| AdminRoutes.Inventory | server/routes/adminRoutes.js:170-182 | the `$group` by category, one product at a time; InventoryCorrect states what each row holds |
| AdminRoutes.InventoryCorrect | server/routes/adminRoutes.js:170-182 | a category has a row exactly when it has products, and the row holds its count, stock, low-stock count and price sum |
| AdminRoutes.LowStockWithinCategory | server/routes/adminRoutes.js:177-179 | the low-stock count never exceeds the product count |
| AdminRoutes.NoProductsNoStats | server/routes/adminRoutes.js:170-182 | a category without products has all-zero statistics |
| AdminRoutes.GroupItems | server/routes/adminRoutes.js:236-243 | the `$group` by product of the order lines; GroupItemsCorrect states what each row holds |
| AdminRoutes.GroupItemsCorrect | server/routes/adminRoutes.js:236-243 | one row per product, with the quantity sold and the revenue of its lines |
| AdminRoutes.TallyRows | server/routes/adminRoutes.js:238-243 | adding a line changes only its product's row, by its quantity and revenue |
| AdminRoutes.SalesRowForIn | server/routes/adminRoutes.js:238-243 | a product has a row exactly when some row names it |
| AdminRoutes.TallyProducts | server/routes/adminRoutes.js:238-243 | the rows after adding a line are the old rows' products and the line's |
| AdminRoutes.TallyDistinct | server/routes/adminRoutes.js:238-243 | adding a line keeps one row per product |
| AdminRoutes.NoItemsNoSales | server/routes/adminRoutes.js:238-243 | a product without lines sold nothing and earned nothing |
| AdminRoutes.TopProducts | server/routes/adminRoutes.js:235-256 | group, sort by descending revenue, keep five, then drop the products that no longer exist; TopProductsCorrect states the result |
| AdminRoutes.TopProductsCorrect | server/routes/adminRoutes.js:235-256 | at most five rows, by descending revenue, each a product that still exists, none outsold by a row left out |
| AdminRoutes.DeletedBestSellerShortensList | server/routes/adminRoutes.js:244-254 | a deleted product among the five leaves fewer than five rows |
| AdminRoutes.LowStockProducts | server/routes/adminRoutes.js:268-274 | `find({ stock: { $lt: 10 } })` sorted by ascending stock; LowStockProductsCorrect states the result |
| AdminRoutes.LowStockProductsCorrect | server/routes/adminRoutes.js:268-274 | the list is by ascending stock and holds exactly the products with stock below 10 |
| AdminRoutes.Entries | server/routes/adminRoutes.js:271-273 | one entry per product, in order |
| AdminRoutes.RecentOrders | server/routes/adminRoutes.js:258-266 | sort by descending creation time, keep ten; RecentOrdersCorrect states the result |
| AdminRoutes.RecentOrdersCorrect | server/routes/adminRoutes.js:258-266 | at most ten orders, newest first, and none left out is newer than one kept |
| AdminRoutes.Dashboard | server/routes/adminRoutes.js:15-47 | each figure is its query: the counts, PendingOrders, RevenueByPeriod, TopProducts over the existing products, RecentOrders and LowStockProducts; hence at most five top products and ten recent orders, and with nested period starts the daily, weekly and monthly revenue are increasing |
| AdminRoutes.Bulk | server/routes/adminRoutes.js:50-80 | the bulk route: update, delete, or 500 for any other operation; ApplyUpdates, BulkUpdateInPlace, BulkDeleteExactlyListed and BulkUnknownOperation state each branch |
| AdminRoutes.ApplyUpdates | server/routes/adminRoutes.js:56-65 | every product is replaced by its last listed update, if any |
| AdminRoutes.BulkDeleteExactlyListed | server/routes/adminRoutes.js:66-68 | delete removes exactly the listed products |
| AdminRoutes.BulkUpdateInPlace | server/routes/adminRoutes.js:56-65 | update keeps the list and ids, and leaves unlisted products alone |
| AdminRoutes.BulkUnknownOperation | server/routes/adminRoutes.js:69-71 | exactly the operations other than update and delete give 500 with nothing changed |
| AdminRoutes.NoDocumentNoUpdate | server/routes/adminRoutes.js:56-65 | a product that no update names keeps its document |
| MulterMiddleware.UploadDirectory | server/middleware/multerMiddleware.js:10-18 | products/, avatars/ or others/ under uploads/ by field name |
| MulterMiddleware.Destination | server/middleware/multerMiddleware.js:8-25 | the path built is UploadDirectory |
| MulterMiddleware.ProductImageUrlsPointToStore | server/middleware/multerMiddleware.js:12-13 | each product image url is `/`, the product upload directory and the file name |
| MulterMiddleware.ExtName | server/middleware/multerMiddleware.js:29 | `path.extname` gives the empty string or a dot and a dot-free, slash-free tail |
| MulterMiddleware.StripTrailingSlashes | server/middleware/multerMiddleware.js:29 | trailing slashes are removed, and only they |
| MulterMiddleware.LastComponent | server/middleware/multerMiddleware.js:29 | the base name is the slash-free tail of the path |
| MulterMiddleware.LastDot | server/middleware/multerMiddleware.js:29 | the last dot of the base name, none exactly when there is no dot |
| MulterMiddleware.ExtOfBase | server/middleware/multerMiddleware.js:29 | the extension of a base name is empty or a dot and a dot-free tail |
| MulterMiddleware.LastComponentOfPlainName | server/middleware/multerMiddleware.js:29 | a name without slashes is its own base name |
| MulterMiddleware.LastDotOfExtension | server/middleware/multerMiddleware.js:29 | the last dot of `name.ext` is the one before ext |
| MulterMiddleware.ExtNameOfPlainPath | server/middleware/multerMiddleware.js:29 | a name without slashes has the extension of its base name |
| MulterMiddleware.ExtNameAfterPlainName | server/middleware/multerMiddleware.js:29 | a plain name followed by an extension gives that extension |
| MulterMiddleware.ImageNameExtension | server/middleware/multerMiddleware.js:29 | `cake.png` has extension `.png` |
| MulterMiddleware.LeadingDotIsNoExtension | server/middleware/multerMiddleware.js:29 | `.hidden` has no extension |
| MulterMiddleware.StoredFilename | server/middleware/multerMiddleware.js:26-30 | the time, a dash, the random part and the original's extension; StoredFilenameKeepsExtension states that the extension survives |
| MulterMiddleware.StoredFilenameKeepsExtension | server/middleware/multerMiddleware.js:26-30 | the stored file name keeps the original's extension |
| MulterMiddleware.FileFilter | server/middleware/multerMiddleware.js:34-47 | accepted exactly for JPEG, PNG and WebP; otherwise the invalid-type error |
| MulterMiddleware.HandleMulterError | server/middleware/multerMiddleware.js:66-103 | next exactly without an error; every answer is 400; a non-library error is answered with its own message |
| MulterMiddleware.LibraryErrorMessages | server/middleware/multerMiddleware.js:69-91 | the three limit codes get their own messages and log nothing; other codes are logged |
| MulterMiddleware.RejectedTypeAnswered | server/middleware/multerMiddleware.js:42-46 | a refused type is answered 400 with the invalid-type message |
| MulterMiddleware.FirstRejected | server/middleware/multerMiddleware.js:192-200 | the first image under 400×400 in list order, none exactly when all pass |
| MulterMiddleware.ValidateImageDimensions | server/middleware/multerMiddleware.js:177-211 | the single file is checked before the list, and the first failing image decides the message; DimensionsDecision and TooSmallMessages state the decision and the messages |
| MulterMiddleware.DimensionsDecision | server/middleware/multerMiddleware.js:177-211 | next exactly when every image is at least 400×400; every refusal is 400 |
| MulterMiddleware.TooSmallMessages | server/middleware/multerMiddleware.js:185-200 | the single and multiple uploads have their own messages |
| MulterMiddleware.Uploaded | server/middleware/multerMiddleware.js:157-169 | the uploaded paths include the single file and every file of the list |
| MulterMiddleware.UploadStore.Unlink | server/middleware/multerMiddleware.js:157-169 | unlinking removes exactly that path |
| MulterMiddleware.UploadStore.CleanupOnFinish | server/middleware/multerMiddleware.js:151-174 | after a status of 400 or more every uploaded path is removed; otherwise nothing |

## Left out

- Logging, the `console.log` of unhandled webhook events, and `res.json` bodies beyond the
  status and error message are not modelled.
- Concurrency is not modelled. Each handler is one sequential step, so the races between
  concurrent checkouts, numbering and cancel-versus-webhook are out of scope.
- Database outcomes are inputs: `findById`/`findOne` results and the user collection. A
  database failure (the 500 branches of the `catch` blocks) is not modelled, except where a
  schema check causes it: the order enums and `quantity >= 1` (`Order.create`), and the
  review rules and the declared `min: 1` on `ratings.average` (review saves). The corrected
  bound, which admits the 0 of a product without reviews, is modelled beside it.
- OrderController.Catalog.SetStock: the stock saves of `createOrder` (orderController.js:53-54)
  and `cancelOrder` (325-326), and with them `ReserveStock` and `RestoreStock`, always succeed
  here. In the source they run the whole schema, so the save of a product stored with the
  average 0 (the `default: 0`, below the `min: 1`) fails and the handler answers 500. The
  same rule refuses a `createProduct` whose body gives no ratings; see "## Findings".
- `paymentInfo.transactionId` is declared `required` (Order.js:100-103), but `createOrder`
  sets it only after `Order.create`. The model treats it as optional and does not apply that
  check to the create. The same goes for the `required` on `orderNumber`, which only the
  pre-save hook fills in.
- Mongoose validation beyond those checks is not modelled: address fields and `maxlength` of
  product fields on create or update.
- Other foreign calls are inputs or parameters:
  - Stripe: the intent answer, the refund outcome, the signature check.
  - JWT verification: a map from valid tokens to claims.
  - sharp's metadata: the `Metadata` value.
  - `crypto.randomBytes`, `Math.random`, `Date.now()` and the calendar date of `new Date()`.
- `optimizeImages` (resizing and WebP encoding by sharp) is not modelled: its effect is on
  image bytes.
- `fs.mkdirSync`, unlink failures and unlink callbacks are not modelled. `updateProduct` and
  `deleteProduct` return the image urls rather than performing the unlink; the source unlinks
  `server/public` followed by the url (productController.js:174, 224).
- The directories do not agree: multer writes to `uploads/products/` under the working
  directory (multerMiddleware.js:10-13), while the unlinks of `updateProduct` and
  `deleteProduct` look under `server/public/uploads/products/`. They are the same file only when
  the server runs from `server/public`; otherwise every unlink fails, the `.catch` only logs
  it, and the old images stay on disk. The model does not model file paths, and how the
  upload directory is served is not part of this model.
- How multer enforces `fileSize` (5 MiB) and `files` (10) is not modelled. Only its error codes
  are, in `HandleMulterError`.
- `allowedTypes[file.mimetype]` is looked up on a plain object; the model does not capture
  keys inherited from `Object.prototype`.
- `validateImageDimensions`: when several images fail in `Promise.all`, the model reports the
  first in list order; the source reports whichever rejection happens first.
- `getProducts`: `JSON.stringify`/`JSON.parse` around the operator rewrite are not modelled.
  The rewrite is modelled on the string. The `$regex` search, the text query and the count
  are not modelled. Negative `skip`/`limit` values are not modelled, here or in `getOrders`
  (orderController.js:128-129); `OrderController.PageCountBounds` assumes a positive limit.
- `getProduct` and `getMyOrders` are plain lookups and are not modelled. Of
  `createProduct` and `updateProduct`, only the image lists are modelled; of `deleteProduct`,
  the lookup, the removal and the image list.
- `slugify` in the product's first pre-save hook and the `orders` virtual are not modelled.
- `protect`: the outer `catch` that answers 500 is not modelled.
- OrderController.UpdateOrderStatus: the requested status is a string, so a body without
  `status` is not represented. In the source (orderController.js:249-253) it assigns
  `undefined`, which the enum validator lets through, and the handler answers 200 with the
  status unset, a history entry without a status and an emission of `status: undefined`.
- DeleteReview: a saved deletion shortens the list only when `:reviewId` is spelled as the
  stored id. The lookup casts the parameter to an ObjectId, but the filter compares the raw
  string (productController.js:357, 374-376), so another spelling, in upper case for
  instance, is found, answered 200 and removes nothing; the model states this case rather
  than promising a removal.
- ProductController.CastObjectId: a parameter of 12 characters, which some versions of the
  BSON library cast to an ObjectId from its bytes, does not cast here, so its lookup finds
  nothing.
- OrderRoutes.HandleWebhook: models the handler as if it were wired to work. As written,
  orderRoutes.js uses `stripe` and `Order` without importing them (lines 38, 52, 76), so every
  webhook answers 400 "Webhook Error: stripe is not defined". The route is also mounted after
  `protect` and `authorize('admin')` (lines 14, 25), so a call without a valid token is
  answered 401, and one with a non-admin's token 403, before the handler runs.
- `populate` calls are not modelled. The admin `/users` and `/users/:id/role` routes are
  plain lookups and updates, and are not modelled either.
- GeneratedNumberIsFreshAndGreatest: holds only while every stored number of the day has a
  four-digit sequence from 1 to 9998. At 9999 the numbering as written repeats; see
  "## Findings". `Order.AssignOrderNumber` keeps the hook as written.
- `AdminRoutes.SalesReport`: the UTC calendar day of a timestamp is the `dateOf` parameter,
  and `new Date(startDate)` parsing is not modelled.
- `AdminRoutes.RevenueByPeriod`: the period start dates (`setHours`, `setDate`, `setMonth`)
  are parameters, as `PeriodStarts`.
- `AdminRoutes.TopProducts`: counts the lines of orders of every status, as the source does.
  Ties are ordered as the insertion sort orders them; the database's order among equal keys
  is unspecified.
- `AdminRoutes.Bulk`: update is modelled as replacing each listed document. Partial updates
  and validation of `findByIdAndUpdate` are not modelled.
- `RegisterForm`: string length counts UTF-16 code units in the source and characters here.
- ProductModel.ReviewValid: the `maxlength: 500` of a review comment (Product.js:115) counts
  UTF-16 code units in the source and characters here. A comment of more than 250 characters
  outside the Basic Multilingual Plane passes here and fails the save in the source; the same
  holds for the `maxlength` of the product's name and description in `ProductModel.SchemaValid`.
  `handleSubmit` and the Firebase calls are not modelled.
- Integers and money are unbounded, and reals are exact. JavaScript's double rounding of
  prices, tax and averages is not modelled.
- `ParseInt` models `parseInt` on the inputs the core passes it. It skips leading whitespace,
  accepts one sign, and honours the `0x` prefix when no radix is given. Its `None` result is
  NaN, and `NumberToString` prints it as `NaN`. Numbers are unbounded, so the loss of
  precision above 2^53 is not modelled.

## Findings

| source | as written | input that shows it | evidently intended | confidence | as-written member | corrected member |
|---|---|---|---|---|---|---|
| server/models/Product.js:89-94 | `ratings.average` has `min: 1`, but `calculateAverageRating` (212-214) stores 0 when the last review is removed, so the save of `deleteProductReview` fails validation and the handler answers 500; the same `default: 0` makes `createProduct` without ratings, and the stock saves of `createOrder` and `cancelOrder` on a product without reviews, fail validation too | a product with one review whose author deletes it; a `createProduct` body without `ratings`; a checkout of a product stored with average 0 | an average of 0 is allowed while the count is 0 (the schema's own default) | not executed | ProductController.LastReviewDeleteFails | ProductController.DeleteReviewCorrected |
| server/models/Order.js:241-248 | the day's latest number is found by descending string order and its sequence plus one is padded to four places, so after `-9999` comes `-10000`, which sorts before `-9999`; the lookup keeps answering `-9999` and the `unique` index (Order.js:4-8) refuses every later order of that day | a day's 10000th and 10001st orders | the next sequence is one more than the greatest stored sequence by value | not executed | OrderModel.NumberingRepeatsAfter9999 | OrderModel.CorrectedNumberIsFresh |

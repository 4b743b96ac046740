/** The order controller: checkout with stock reservation and pricing, status updates,
    cancellation with stock restoration and refund, and the read-side rules. */
module OrderController {
  import opened JsRuntime
  import opened Http
  import opened OrderModel
  import opened OrderRoutes

  // ---------------------------------------------------------------------------
  // The product-stock table as the order service sees it
  // ---------------------------------------------------------------------------

  /** The three product fields the order service reads and writes. */
  datatype CatalogEntry = CatalogEntry(name: string, price: real, stock: int)

  type Products = map<ProductId, CatalogEntry>

  /** The product collection; `SetStock` is one `product.save()` of a changed stock. */
  class Catalog {
    var products: Products

    constructor (products: Products)
      ensures this.products == products
    {
      this.products := products;
    }

    method SetStock(id: ProductId, stock: int)
      requires id in products
      modifies this
      ensures products == old(products)[id := old(products)[id].(stock := stock)]
    {
      products := products[id := products[id].(stock := stock)];
    }
  }

  predicate StocksNonNegative(products: Products)
  {
    forall id :: id in products ==> products[id].stock >= 0
  }

  /** The sum of the quantities of the lines for one product. */
  function QuantityOf(lines: seq<OrderItem>, id: ProductId): int
  {
    if |lines| == 0 then 0
    else QuantityOf(lines[..|lines| - 1], id) + (if lines[|lines| - 1].product == id then lines[|lines| - 1].quantity else 0)
  }

  // ---------------------------------------------------------------------------
  // Checkout: the stock loop
  // ---------------------------------------------------------------------------

  /** One requested line of a checkout. */
  datatype RequestItem = RequestItem(product: ProductId, quantity: int)

  datatype StockFailure = ProductMissing(id: ProductId) | InsufficientStock(id: ProductId, name: string)

  /** Where the stock loop stands: the product table, the order lines built so far, the
      running subtotal, and the failure that ended the loop, if one did. */
  datatype Reservation = Reservation(products: Products, lines: seq<OrderItem>, subtotal: real, failure: Option<StockFailure>)

  /** One iteration of the stock loop: a missing product or a short stock stops the loop;
      otherwise the line is recorded at the current price and the stock lowered. */
  function ReserveOne(prev: Reservation, item: RequestItem): (r: Reservation)
    requires prev.failure.None?
    ensures r.products.Keys == prev.products.Keys
    ensures r.failure.None? <==> item.product in prev.products && prev.products[item.product].stock >= item.quantity
    ensures r.failure.Some? ==> r.(failure := None) == prev
    ensures r.failure.None? ==>
              && r.lines == prev.lines + [OrderItem(item.product, item.quantity, prev.products[item.product].price)]
              && r.subtotal == prev.subtotal + LineTotal(r.lines[|r.lines| - 1])
  {
    if item.product !in prev.products then
      prev.(failure := Some(ProductMissing(item.product)))
    else
      var entry := prev.products[item.product];
      if entry.stock < item.quantity then
        prev.(failure := Some(InsufficientStock(item.product, entry.name)))
      else
        var line := OrderItem(item.product, item.quantity, entry.price);
        Reservation(prev.products[item.product := entry.(stock := entry.stock - item.quantity)],
                    prev.lines + [line],
                    prev.subtotal + LineTotal(line),
                    None)
  }

  /** The stock loop over `items`, in input order; the first failure stops it and keeps what
      was already reserved. */
  function Reserve(products: Products, items: seq<RequestItem>): (r: Reservation)
    ensures r.products.Keys == products.Keys
    ensures |r.lines| <= |items| && (r.failure.None? ==> |r.lines| == |items|)
  {
    if |items| == 0 then Reservation(products, [], 0.0, None)
    else
      var prev := Reserve(products, items[..|items| - 1]);
      if prev.failure.Some? then prev
      else ReserveOne(prev, items[|items| - 1])
  }

  /** One iteration lowers the stock of its product by its quantity when it succeeds, and
      changes nothing else in the table. */
  lemma ReserveOneEffect(prev: Reservation, item: RequestItem)
    requires prev.failure.None?
    ensures forall id :: id in prev.products ==>
              ReserveOne(prev, item).products[id] == prev.products[id].(stock := prev.products[id].stock -
                (if ReserveOne(prev, item).failure.None? && id == item.product then item.quantity else 0))
  {
  }

  /** The running subtotal is the subtotal of the lines built. */
  lemma {:induction false} ReserveSubtotal(products: Products, items: seq<RequestItem>)
    ensures Reserve(products, items).subtotal == Subtotal(Reserve(products, items).lines)
  {
    if |items| > 0 {
      var prev := Reserve(products, items[..|items| - 1]);
      ReserveSubtotal(products, items[..|items| - 1]);
      if prev.failure.None? {
        var r := ReserveOne(prev, items[|items| - 1]);
        assert Reserve(products, items) == r;
        if r.failure.None? {
          assert r.lines[..|r.lines| - 1] == prev.lines;
        }
      }
    }
  }

  /** The lines repeat the requested products and quantities, in request order. */
  lemma {:induction false} ReserveLinesFollowRequest(products: Products, items: seq<RequestItem>)
    ensures var r := Reserve(products, items);
            forall k :: 0 <= k < |r.lines| ==>
              r.lines[k].product == items[k].product && r.lines[k].quantity == items[k].quantity
  {
    if |items| > 0 {
      var init := items[..|items| - 1];
      var prev := Reserve(products, init);
      ReserveLinesFollowRequest(products, init);
      if prev.failure.None? {
        var r := ReserveOne(prev, items[|items| - 1]);
        assert Reserve(products, items) == r;
        if r.failure.None? {
          forall k | 0 <= k < |r.lines|
            ensures r.lines[k].product == items[k].product && r.lines[k].quantity == items[k].quantity
          {
            if k < |prev.lines| {
              assert r.lines[k] == prev.lines[k] && init[k] == items[k];
            }
          }
        }
      }
    }
  }

  /** Names and prices in the table are never changed by the stock loop. */
  lemma {:induction false} ReserveKeepsNamesAndPrices(products: Products, items: seq<RequestItem>)
    ensures forall id :: id in products ==>
              Reserve(products, items).products[id].name == products[id].name &&
              Reserve(products, items).products[id].price == products[id].price
  {
    if |items| > 0 {
      var prev := Reserve(products, items[..|items| - 1]);
      ReserveKeepsNamesAndPrices(products, items[..|items| - 1]);
      if prev.failure.None? { ReserveOneEffect(prev, items[|items| - 1]); }
    }
  }

  /** Each line records the price of its product at the time it was reserved. */
  lemma {:induction false} ReservedPricesAreCatalogPrices(products: Products, items: seq<RequestItem>)
    ensures forall k :: 0 <= k < |Reserve(products, items).lines| ==>
              Reserve(products, items).lines[k].product in products &&
              Reserve(products, items).lines[k].price == products[Reserve(products, items).lines[k].product].price
  {
    if |items| > 0 {
      var prev := Reserve(products, items[..|items| - 1]);
      ReservedPricesAreCatalogPrices(products, items[..|items| - 1]);
      ReserveKeepsNamesAndPrices(products, items[..|items| - 1]);
      if prev.failure.None? {
        var r := ReserveOne(prev, items[|items| - 1]);
        assert Reserve(products, items) == r;
        if r.failure.None? {
          forall k | 0 <= k < |r.lines|
            ensures r.lines[k].product in products && r.lines[k].price == products[r.lines[k].product].price
          {
            if k < |prev.lines| {
              assert r.lines[k] == prev.lines[k];
            } else {
              var p := items[|items| - 1].product;
              assert r.lines[k].product == p && r.lines[k].price == prev.products[p].price;
              assert p in products;
            }
          }
        }
      }
    }
  }

  /** Once the loop has failed on a prefix, the rest of the items are never looked at. */
  lemma {:induction false} ReserveFailureSticks(products: Products, items: seq<RequestItem>, k: nat)
    requires k <= |items| && Reserve(products, items[..k]).failure.Some?
    ensures Reserve(products, items) == Reserve(products, items[..k])
    decreases |items| - k
  {
    if k < |items| {
      assert items[..k + 1][..k] == items[..k];
      assert Reserve(products, items[..k + 1]) == Reserve(products, items[..k]);
      ReserveFailureSticks(products, items, k + 1);
    } else {
      assert items[..k] == items;
    }
  }

  /** Every reserved line lowered its product's stock by exactly its quantity; the other
      fields of every product are kept. */
  lemma {:induction false} ReserveEffect(products: Products, items: seq<RequestItem>)
    ensures var r := Reserve(products, items);
            forall id :: id in products ==>
              r.products[id] == products[id].(stock := products[id].stock - QuantityOf(r.lines, id))
  {
    if |items| > 0 {
      var prev := Reserve(products, items[..|items| - 1]);
      ReserveEffect(products, items[..|items| - 1]);
      if prev.failure.None? {
        var r := ReserveOne(prev, items[|items| - 1]);
        ReserveOneEffect(prev, items[|items| - 1]);
        assert Reserve(products, items) == r;
        if r.failure.None? {
          assert r.lines[..|r.lines| - 1] == prev.lines;
        }
      }
    }
  }

  /** Stock never goes negative: a line is reserved only when the stock covers it. */
  lemma {:induction false} ReserveKeepsStockNonNegative(products: Products, items: seq<RequestItem>)
    requires StocksNonNegative(products)
    ensures StocksNonNegative(Reserve(products, items).products)
  {
    if |items| > 0 {
      ReserveKeepsStockNonNegative(products, items[..|items| - 1]);
      var prev := Reserve(products, items[..|items| - 1]);
      if prev.failure.None? { ReserveOneEffect(prev, items[|items| - 1]); }
    }
  }

  /** The length of the prefix on which the loop still succeeds, when it fails at all. */
  lemma {:induction false} FirstFailureExists(products: Products, items: seq<RequestItem>)
    returns (k: nat)
    requires Reserve(products, items).failure.Some?
    ensures k < |items| && Reserve(products, items[..k]).failure.None?
    ensures Reserve(products, items) == ReserveOne(Reserve(products, items[..k]), items[k])
  {
    var init := items[..|items| - 1];
    var prev := Reserve(products, init);
    if prev.failure.Some? {
      k := FirstFailureExists(products, init);
      assert init[..k] == items[..k];
      assert init[..k + 1] == items[..k + 1];
      assert items[..k + 1][..k] == items[..k];
      assert Reserve(products, items[..k + 1]) == Reserve(products, init);
      ReserveFailureSticks(products, items, k + 1);
    } else {
      k := |items| - 1;
    }
  }

  /** A failed checkout keeps the decrements of the items before the failing one, and the
      failing item is the first one whose product is missing or short. */
  lemma ReserveFailureKeepsPrefix(products: Products, items: seq<RequestItem>)
    requires Reserve(products, items).failure.Some?
    ensures var r := Reserve(products, items);
            var n := |r.lines|;
            && n < |items|
            && Reserve(products, items[..n]) == r.(failure := None)
            && (r.failure.value == ProductMissing(items[n].product) <==> items[n].product !in r.products)
  {
    var k := FirstFailureExists(products, items);
    var prev := Reserve(products, items[..k]);
    assert |prev.lines| == k;
  }

  /** The answer to a failed stock check. */
  function StockFailureResponse(f: StockFailure): Response
  {
    match f
    case ProductMissing(id) => Fail(404, "Product not found with ID: " + id)
    case InsufficientStock(_, name) => Fail(400, "Insufficient stock for product: " + name)
  }

  // ---------------------------------------------------------------------------
  // Checkout: pricing, creation, payment intent
  // ---------------------------------------------------------------------------

  const DeliveryCharge: real := 10.0

  /** The pricing of a new order: 8% tax, a flat fee for home delivery, no discount. */
  function CheckoutPricing(subtotal: real, deliveryTypeName: string): (p: Pricing)
    ensures PricingConsistent(p) && p.subtotal == subtotal && p.discount == 0.0
    ensures p.deliveryFee == (if deliveryTypeName == "delivery" then DeliveryCharge else 0.0)
  {
    var tax := subtotal * TaxRate;
    var fee := if deliveryTypeName == "delivery" then DeliveryCharge else 0.0;
    Pricing(subtotal, tax, fee, 0.0, subtotal + tax + fee)
  }

  function ParsePaymentMethod(name: string): (r: Option<PaymentMethod>)
    ensures r == Some(Stripe) <==> name == "stripe"
    ensures r == Some(Paypal) <==> name == "paypal"
  {
    if name == "stripe" then Some(Stripe) else if name == "paypal" then Some(Paypal) else None
  }

  function ParseDeliveryType(name: string): (r: Option<DeliveryType>)
    ensures r == Some(Pickup) <==> name == "pickup"
    ensures r == Some(HomeDelivery) <==> name == "delivery"
  {
    if name == "pickup" then Some(Pickup) else if name == "delivery" then Some(HomeDelivery) else None
  }

  predicate QuantitiesValid(lines: seq<OrderItem>)
  {
    forall k :: 0 <= k < |lines| ==> lines[k].quantity >= 1
  }

  /** `Order.create` is refused by the schema: an unknown payment method or delivery type,
      or a quantity below 1. */
  predicate CreateRejected(lines: seq<OrderItem>, paymentMethodName: string, deliveryTypeName: string)
  {
    ParsePaymentMethod(paymentMethodName).None? || ParseDeliveryType(deliveryTypeName).None? || !QuantitiesValid(lines)
  }

  /** The number `createOrder` presets: the clock, a dash, and a random number below 1000. */
  function PresetOrderNumber(now: Time, random: nat): (r: string)
    ensures r != ""
  {
    NumberToString(Some(now)) + "-" + NatToString(random)
  }

  /** The amount sent to Stripe, in cents. */
  function AmountInCents(total: real): (cents: int)
    ensures (cents as real) - 0.5 <= total * 100.0 < (cents as real) + 0.5
  {
    MathRound(total * 100.0)
  }

  datatype PaymentIntent = PaymentIntent(id: string, clientSecret: string)

  datatype GatewayRequest = CreateIntent(amountCents: int, orderId: OrderId) | CreateRefund(paymentIntent: Option<string>)

  /** The Stripe API as the controller uses it: the requests sent, in order. */
  class PaymentGateway {
    ghost var requests: seq<GatewayRequest>

    constructor ()
      ensures requests == []
    {
      requests := [];
    }

    method Send(request: GatewayRequest)
      modifies this
      ensures requests == old(requests) + [request]
    {
      requests := requests + [request];
    }
  }

  /** A successful iteration, written out. */
  lemma ReserveOneSucceeds(prev: Reservation, item: RequestItem)
    requires prev.failure.None? && item.product in prev.products && prev.products[item.product].stock >= item.quantity
    ensures var entry := prev.products[item.product];
            ReserveOne(prev, item)
            == Reservation(prev.products[item.product := entry.(stock := entry.stock - item.quantity)],
                           prev.lines + [OrderItem(item.product, item.quantity, entry.price)],
                           prev.subtotal + LineTotal(OrderItem(item.product, item.quantity, entry.price)),
                           None)
  {
  }

  /** One more item of the stock loop, after a prefix that did not fail. */
  lemma ReserveStep(products: Products, items: seq<RequestItem>, i: nat, prev: Reservation)
    requires i < |items| && Reserve(products, items[..i]) == prev && prev.failure.None?
    ensures Reserve(products, items[..i + 1]) == ReserveOne(prev, items[i])
  {
    assert items[..i + 1][..i] == items[..i];
  }

  /** The stock loop of `createOrder`: each item is checked against the current table (so a
      repeated product sees its already lowered stock) and saved at once. */
  method ReserveStock(catalog: Catalog, items: seq<RequestItem>)
    returns (lines: seq<OrderItem>, subtotal: real, failure: Option<StockFailure>)
    modifies catalog
    ensures Reservation(catalog.products, lines, subtotal, failure) == Reserve(old(catalog.products), items)
  {
    ghost var products0 := catalog.products;
    subtotal := 0.0;
    lines := [];
    var i := 0;
    while i < |items|
      invariant 0 <= i <= |items|
      invariant Reserve(products0, items[..i]) == Reservation(catalog.products, lines, subtotal, None)
    {
      var item := items[i];
      ReserveStep(products0, items, i, Reservation(catalog.products, lines, subtotal, None));
      if item.product !in catalog.products {
        failure := Some(ProductMissing(item.product));
        ReserveFailureSticks(products0, items, i + 1);
        return;
      }
      var product := catalog.products[item.product];
      if product.stock < item.quantity {
        failure := Some(InsufficientStock(item.product, product.name));
        ReserveFailureSticks(products0, items, i + 1);
        return;
      }
      ReserveOneSucceeds(Reservation(catalog.products, lines, subtotal, None), item);
      var line := OrderItem(item.product, item.quantity, product.price);
      subtotal := subtotal + LineTotal(line);
      lines := lines + [line];
      catalog.SetStock(item.product, product.stock - item.quantity);
      i := i + 1;
    }
    assert items[..i] == items;
    failure := None;
  }

  /** The order `createOrder` stores, before the payment step. */
  ghost predicate IsNewOrder(order: Order, id: OrderId, number: string, user: UserId, lines: seq<OrderItem>,
                             pricing: Pricing, paymentMethod: PaymentMethod, deliveryType: DeliveryType, now: Time)
    reads order
  {
    && order.id == id && order.orderNumber == number && order.user == user && order.items == lines
    && order.pricing == pricing && order.amount == pricing.total && order.deliveryFee == pricing.deliveryFee
    && order.paymentMethod == paymentMethod && order.deliveryType == deliveryType
    && order.paymentStatus == PaymentPending && order.orderStatus == Pending && order.statusHistory == []
    && order.actualDeliveryDate == None && order.cancellation == NotCancelled
    && order.createdAt == now && order.updatedAt == now
  }

  /** `createOrder` after a successful stock loop: `Order.create`, the Stripe payment intent
      and the `newOrder` broadcast. */
  method PlaceOrder(user: UserId, lines: seq<OrderItem>, subtotal: real,
                    paymentMethodName: string, deliveryTypeName: string,
                    newId: OrderId, now: Time, random: nat, intent: Option<PaymentIntent>,
                    gateway: PaymentGateway, hub: SocketHub)
    returns (response: Response, order: Order?, clientSecret: Option<string>)
    requires random < 1000
    modifies gateway, hub`log
    ensures CreateRejected(lines, paymentMethodName, deliveryTypeName) ==>
              response == Fail(500, "Error creating order") && order == null &&
              gateway.requests == old(gateway.requests) && hub.log == old(hub.log)
    ensures !CreateRejected(lines, paymentMethodName, deliveryTypeName) ==>
              && order != null && fresh(order) && order.Valid()
              && IsNewOrder(order, newId, PresetOrderNumber(now, random), user, lines,
                            CheckoutPricing(subtotal, deliveryTypeName),
                            ParsePaymentMethod(paymentMethodName).value, ParseDeliveryType(deliveryTypeName).value, now)
    ensures !CreateRejected(lines, paymentMethodName, deliveryTypeName) && paymentMethodName == "stripe" ==>
              && order != null
              && gateway.requests == old(gateway.requests) + [CreateIntent(AmountInCents(order.pricing.total), order.id)]
              && (intent.None? ==>
                    response == Fail(500, "Error creating order") && order.transactionId == None && hub.log == old(hub.log))
              && (intent.Some? ==>
                    response == Ok(201) && order.transactionId == Some(intent.value.id) &&
                    clientSecret == Some(intent.value.clientSecret) &&
                    hub.log == old(hub.log) + [Emission("newOrder", order.id, None, hub.connected)])
    ensures !CreateRejected(lines, paymentMethodName, deliveryTypeName) && paymentMethodName != "stripe" ==>
              && order != null && response == Ok(201) && order.transactionId == None && clientSecret == None
              && gateway.requests == old(gateway.requests)
              && hub.log == old(hub.log) + [Emission("newOrder", order.id, None, hub.connected)]
  {
    order := null;
    clientSecret := None;
    var pricing := CheckoutPricing(subtotal, deliveryTypeName);
    var paymentMethod := ParsePaymentMethod(paymentMethodName);
    var deliveryType := ParseDeliveryType(deliveryTypeName);
    if paymentMethod.None? || deliveryType.None? || !QuantitiesValid(lines) {
      response := Fail(500, "Error creating order");
      return;
    }
    order := new Order.Create(newId, PresetOrderNumber(now, random), user, lines, paymentMethod.value,
                              pricing.total, deliveryType.value, pricing.deliveryFee, pricing, now);

    if paymentMethodName == "stripe" {
      gateway.Send(CreateIntent(AmountInCents(pricing.total), order.id));
      if intent.None? {
        response := Fail(500, "Error creating order");
        return;
      }
      order.transactionId := Some(intent.value.id);
      order.StampUpdatedAt(now);
      clientSecret := Some(intent.value.clientSecret);
    }

    hub.Broadcast("newOrder", order.id);
    response := Ok(201);
  }

  /** `createOrder`: the stock loop, then the order, the payment intent and the broadcast.
      `intent` is Stripe's answer to the payment-intent request (None when it throws);
      `random` stands for `Math.floor(Math.random() * 1000)`. */
  method CreateOrder(catalog: Catalog, user: UserId, items: seq<RequestItem>,
                     paymentMethodName: string, deliveryTypeName: string,
                     newId: OrderId, now: Time, random: nat, intent: Option<PaymentIntent>,
                     gateway: PaymentGateway, hub: SocketHub)
    returns (response: Response, order: Order?, clientSecret: Option<string>)
    requires random < 1000
    modifies catalog, gateway, hub`log
    ensures catalog.products == Reserve(old(catalog.products), items).products
    ensures Reserve(old(catalog.products), items).failure.Some? ==>
              response == StockFailureResponse(Reserve(old(catalog.products), items).failure.value) &&
              order == null && gateway.requests == old(gateway.requests) && hub.log == old(hub.log)
    ensures var r := Reserve(old(catalog.products), items);
            r.failure.None? && CreateRejected(r.lines, paymentMethodName, deliveryTypeName) ==>
              response == Fail(500, "Error creating order") && order == null &&
              gateway.requests == old(gateway.requests) && hub.log == old(hub.log)
    ensures var r := Reserve(old(catalog.products), items);
            r.failure.None? && !CreateRejected(r.lines, paymentMethodName, deliveryTypeName) ==>
              && order != null && fresh(order) && order.Valid()
              && IsNewOrder(order, newId, PresetOrderNumber(now, random), user, r.lines,
                            CheckoutPricing(r.subtotal, deliveryTypeName),
                            ParsePaymentMethod(paymentMethodName).value, ParseDeliveryType(deliveryTypeName).value, now)
              && (paymentMethodName == "stripe" ==>
                    gateway.requests == old(gateway.requests) + [CreateIntent(AmountInCents(order.pricing.total), order.id)])
              && (paymentMethodName == "stripe" && intent.None? ==>
                    response == Fail(500, "Error creating order") && order.transactionId == None && hub.log == old(hub.log))
              && (paymentMethodName == "stripe" && intent.Some? ==>
                    response == Ok(201) && order.transactionId == Some(intent.value.id) &&
                    clientSecret == Some(intent.value.clientSecret))
              && (paymentMethodName != "stripe" ==>
                    response == Ok(201) && order.transactionId == None && clientSecret == None &&
                    gateway.requests == old(gateway.requests))
              && (response.status == 201 ==>
                    hub.log == old(hub.log) + [Emission("newOrder", order.id, None, hub.connected)])
  {
    order := null;
    clientSecret := None;
    var lines, subtotal, failure := ReserveStock(catalog, items);
    if failure.Some? {
      response := StockFailureResponse(failure.value);
      return;
    }
    response, order, clientSecret := PlaceOrder(user, lines, subtotal, paymentMethodName, deliveryTypeName,
                                                newId, now, random, intent, gateway, hub);
  }

  // ---------------------------------------------------------------------------
  // Status updates
  // ---------------------------------------------------------------------------

  /** What `updateOrderStatus` stores: the requested status with no transition check, one
      new history entry, and the delivery date when the status is `delivered`. */
  function SetStatus(s: OrderState, status: OrderStatus, note: Option<string>, caller: UserId, now: Time): (r: OrderState)
    ensures r.orderStatus == status
    ensures r.statusHistory == s.statusHistory + [HistoryEntry(status, now, note, Some(caller))]
    ensures r.actualDeliveryDate == if status == Delivered then Some(now) else s.actualDeliveryDate
    ensures r.items == s.items && r.cancellation == s.cancellation && r.paymentStatus == s.paymentStatus
  {
    s.(orderStatus := status,
       statusHistory := s.statusHistory + [HistoryEntry(status, now, note, Some(caller))],
       actualDeliveryDate := if status == Delivered then Some(now) else s.actualDeliveryDate,
       updatedAt := now)
  }

  /** One status-update request. */
  datatype StatusRequest = StatusRequest(status: OrderStatus, note: Option<string>, caller: UserId, at: Time)

  function ApplyStatusRequests(s: OrderState, requests: seq<StatusRequest>): OrderState
  {
    if |requests| == 0 then s
    else
      var q := requests[|requests| - 1];
      SetStatus(ApplyStatusRequests(s, requests[..|requests| - 1]), q.status, q.note, q.caller, q.at)
  }

  function EntriesOf(requests: seq<StatusRequest>): (r: seq<HistoryEntry>)
    ensures |r| == |requests|
    ensures forall k :: 0 <= k < |requests| ==>
              r[k] == HistoryEntry(requests[k].status, requests[k].at, requests[k].note, Some(requests[k].caller))
  {
    if |requests| == 0 then []
    else
      var q := requests[|requests| - 1];
      EntriesOf(requests[..|requests| - 1]) + [HistoryEntry(q.status, q.at, q.note, Some(q.caller))]
  }

  /** The history is append-only: a run of updates keeps every earlier entry and adds one
      entry per request, in request order; the last request decides the status. */
  lemma {:induction false} StatusHistoryAppendOnly(s: OrderState, requests: seq<StatusRequest>)
    ensures ApplyStatusRequests(s, requests).statusHistory == s.statusHistory + EntriesOf(requests)
    ensures |requests| > 0 ==> ApplyStatusRequests(s, requests).orderStatus == requests[|requests| - 1].status
  {
    if |requests| > 0 {
      StatusHistoryAppendOnly(s, requests[..|requests| - 1]);
    }
  }

  /** `updateOrderStatus`. A status outside the enumeration is refused by the schema on save,
      so the stored order is unchanged and the answer is 500. */
  method UpdateOrderStatus(order: Order?, requested: string, note: Option<string>, caller: UserId,
                           now: Time, hub: SocketHub) returns (response: Response)
    requires order != null ==> order.Valid()
    modifies order, hub`log
    ensures order != null ==> order.Valid()
    ensures order == null ==> response == Fail(404, "Order not found") && hub.log == old(hub.log)
    ensures order != null && ParseStatus(requested).None? ==>
              response == Fail(500, "Error updating order status") &&
              order.State() == old(order.State()) && hub.log == old(hub.log)
    ensures order != null && ParseStatus(requested).Some? ==>
              && response == Ok(200)
              && order.State() == SetStatus(old(order.State()), ParseStatus(requested).value, note, caller, now)
              && hub.log == old(hub.log) + [Emission("orderStatusUpdate", order.id, ParseStatus(requested), Members(hub.rooms, RoomFor(order.id)))]
  {
    if order == null {
      return Fail(404, "Order not found");
    }
    var status := ParseStatus(requested);
    if status.None? {
      return Fail(500, "Error updating order status");
    }
    ApplyStatus(order, status.value, note, caller, now);
    hub.EmitToOrderRoom("orderStatusUpdate", order.id, Some(order.orderStatus));
    response := Ok(200);
  }

  /** The assignments and the save of `updateOrderStatus` on a found order. */
  method ApplyStatus(order: Order, status: OrderStatus, note: Option<string>, caller: UserId, now: Time)
    modifies order
    ensures order.State() == SetStatus(old(order.State()), status, note, caller, now)
  {
    order.orderStatus := status;
    order.statusHistory := order.statusHistory + [HistoryEntry(status, now, note, Some(caller))];
    if status == Delivered {
      order.actualDeliveryDate := Some(now);
    }
    order.StampUpdatedAt(now);
  }

  // ---------------------------------------------------------------------------
  // Reading orders
  // ---------------------------------------------------------------------------

  /** `getOrder` on the owner of the order found, if any. */
  function GetOrderResponse(owner: Option<UserId>, caller: Caller): (r: Response)
    ensures r.status == 200 <==> owner.Some? && OwnerOrAdmin(owner.value, caller)
    ensures owner.None? ==> r == Fail(404, "Order not found")
    ensures owner.Some? && !OwnerOrAdmin(owner.value, caller) ==> r == Fail(401, "Not authorized to view this order")
  {
    match owner
    case None => Fail(404, "Order not found")
    case Some(u) => if !OwnerOrAdmin(u, caller) then Fail(401, "Not authorized to view this order") else Ok(200)
  }

  /** `Math.ceil(total / limit)`, with `limit` never 0 after the `|| 10` fallback. */
  function PageCount(total: nat, limit: int): int
    requires limit != 0
  {
    var q := (total as real) / (limit as real);
    -((-q).Floor)
  }

  /** The page count covers every order and no page is empty but the last. */
  lemma PageCountBounds(total: nat, limit: int)
    requires limit > 0
    ensures var pages := PageCount(total, limit);
            pages >= 0 && pages * limit >= total && (pages - 1) * limit < total
  {
    var pages := PageCount(total, limit);
    PageCountCeiling(total, limit);
    CoverAll(pages, total, limit);
    LastPageNotEmpty(pages, total, limit);
  }

  /** `Math.ceil`: the least integer not below the quotient. */
  lemma PageCountCeiling(total: nat, limit: int)
    requires limit > 0
    ensures var q := (total as real) / (limit as real);
            q >= 0.0 && PageCount(total, limit) as real >= q && (PageCount(total, limit) - 1) as real < q
  {
  }

  lemma CoverAll(pages: int, total: nat, limit: int)
    requires limit > 0 && pages as real >= (total as real) / (limit as real)
    ensures pages * limit >= total
  {
    var l := limit as real;
    var q := (total as real) / l;
    assert q * l == total as real;
    ScaleAtLeast(pages as real, q, l);
    ProductAsReal(pages, limit);
  }

  lemma LastPageNotEmpty(pages: int, total: nat, limit: int)
    requires limit > 0 && (pages - 1) as real < (total as real) / (limit as real)
    ensures (pages - 1) * limit < total
  {
    var l := limit as real;
    var q := (total as real) / l;
    assert q * l == total as real;
    ScaleBelow((pages - 1) as real, q, l);
    ProductAsReal(pages - 1, limit);
  }

  lemma ScaleAtLeast(x: real, y: real, c: real)
    requires c > 0.0 && x >= y
    ensures x * c >= y * c
  {
    assert x * c - y * c == (x - y) * c;
  }

  lemma ScaleBelow(x: real, y: real, c: real)
    requires c > 0.0 && x < y
    ensures x * c < y * c
  {
    assert y * c - x * c == (y - x) * c;
  }

  lemma ProductAsReal(a: int, b: int)
    ensures (a * b) as real == (a as real) * (b as real)
  {
  }

  // ---------------------------------------------------------------------------
  // Cancellation
  // ---------------------------------------------------------------------------

  /** The guards of `cancelOrder` after the lookup, in their order: the status first, then
      ownership. */
  function CancelGuard(status: OrderStatus, owner: UserId, caller: Caller): (r: Option<Response>)
    ensures r.None? <==> status in {Pending, Confirmed} && OwnerOrAdmin(owner, caller)
    ensures status !in {Pending, Confirmed} ==> r == Some(Fail(400, "Order cannot be cancelled at this stage"))
    ensures status in {Pending, Confirmed} && !OwnerOrAdmin(owner, caller) ==>
              r == Some(Fail(401, "Not authorized to cancel this order"))
  {
    if status !in {Pending, Confirmed} then Some(Fail(400, "Order cannot be cancelled at this stage"))
    else if !OwnerOrAdmin(owner, caller) then Some(Fail(401, "Not authorized to cancel this order"))
    else None
  }

  /** The refund status after a cancel: a refund is tried only for a completed payment. */
  function RefundOutcome(payment: PaymentStatus, refundSucceeded: bool): (r: RefundStatus)
    ensures r == NoRefund <==> payment != Completed
    ensures payment == Completed ==> (r == RefundProcessed <==> refundSucceeded)
  {
    if payment != Completed then NoRefund
    else if refundSucceeded then RefundProcessed
    else RefundFailed
  }

  /** What a successful cancel stores. The payment status itself is not changed. */
  function CancelState(s: OrderState, reason: Option<string>, caller: UserId, now: Time, refundSucceeded: bool): (r: OrderState)
    ensures r.orderStatus == Cancelled && r.cancellation.isCancelled
    ensures r.cancellation == Cancellation(true, reason, Some(now), Some(caller), RefundOutcome(s.paymentStatus, refundSucceeded))
    ensures r.paymentStatus == s.paymentStatus && r.statusHistory == s.statusHistory && r.items == s.items
  {
    s.(orderStatus := Cancelled,
       cancellation := Cancellation(true, reason, Some(now), Some(caller), RefundOutcome(s.paymentStatus, refundSucceeded)),
       updatedAt := now)
  }

  /** A cancelled order is refused by the status guard, so one cancel restores stock
      at most once. */
  lemma SecondCancelRejected(s: OrderState, reason: Option<string>, caller: Caller, now: Time, ok: bool, again: Caller)
    ensures var c := CancelState(s, reason, caller.id, now, ok);
            CancelGuard(c.orderStatus, c.user, again) == Some(Fail(400, "Order cannot be cancelled at this stage"))
  {
  }

  /** A payment-succeeded event arriving after a cancel confirms the order again, and the
      status guard then lets a second cancel through. */
  lemma WebhookReopensCancelledOrder(s: OrderState, reason: Option<string>, caller: Caller, now: Time, later: Time)
    requires OwnerOrAdmin(s.user, caller)
    ensures var cancelled := CancelState(s, reason, caller.id, now, false);
            var confirmed := ApplyPaymentEvent(cancelled, PaymentSucceededEvent, later);
            confirmed.cancellation.isCancelled && CancelGuard(confirmed.orderStatus, confirmed.user, caller).None?
  {
  }

  /** The cancel-time stock loop: every line whose product still exists gets its quantity back. */
  function Restore(products: Products, lines: seq<OrderItem>): (r: Products)
    ensures r.Keys == products.Keys
  {
    if |lines| == 0 then products
    else
      var prev := Restore(products, lines[..|lines| - 1]);
      var line := lines[|lines| - 1];
      if line.product in prev then prev[line.product := prev[line.product].(stock := prev[line.product].stock + line.quantity)]
      else prev
  }

  /** Restoring adds back, per product, the sum of its lines' quantities. */
  lemma {:induction false} RestoreEffect(products: Products, lines: seq<OrderItem>)
    ensures forall id :: id in products ==>
              Restore(products, lines)[id] == products[id].(stock := products[id].stock + QuantityOf(lines, id))
  {
    if |lines| > 0 {
      RestoreEffect(products, lines[..|lines| - 1]);
    }
  }

  /** Cancelling right after checkout puts the stock table back exactly as it was. */
  lemma RestoreUndoesReserve(products: Products, items: seq<RequestItem>)
    ensures Restore(Reserve(products, items).products, Reserve(products, items).lines) == products
  {
    var r := Reserve(products, items);
    ReserveEffect(products, items);
    RestoreEffect(r.products, r.lines);
    var back := Restore(r.products, r.lines);
    assert forall id :: id in products ==> back[id] == products[id];
  }

  /** Two units of a 10.00 product with stock 5 and one of a 20.00 product with stock 2,
      delivered: subtotal 40.00, tax 3.20, fee 10.00, total 53.20; stocks 3 and 1 afterwards,
      and 5 and 2 again after the cancel. */
  lemma CheckoutScenario(a: ProductId, b: ProductId)
    requires a != b
    ensures var products := map[a := CatalogEntry("A", 10.0, 5), b := CatalogEntry("B", 20.0, 2)];
            var r := Reserve(products, [RequestItem(a, 2), RequestItem(b, 1)]);
            && r.failure.None? && r.products[a].stock == 3 && r.products[b].stock == 1
            && r.lines == [OrderItem(a, 2, 10.0), OrderItem(b, 1, 20.0)]
            && CheckoutPricing(r.subtotal, "delivery") == Pricing(40.0, 3.2, 10.0, 0.0, 53.2)
            && Restore(r.products, r.lines) == products
  {
    var products := map[a := CatalogEntry("A", 10.0, 5), b := CatalogEntry("B", 20.0, 2)];
    var items := [RequestItem(a, 2), RequestItem(b, 1)];
    ScenarioReservation(products, a, b);
    RestoreUndoesReserve(products, items);
  }

  /** The two iterations of the stock loop in the scenario above. */
  lemma ScenarioReservation(products: Products, a: ProductId, b: ProductId)
    requires a != b && products == map[a := CatalogEntry("A", 10.0, 5), b := CatalogEntry("B", 20.0, 2)]
    ensures var r := Reserve(products, [RequestItem(a, 2), RequestItem(b, 1)]);
            && r.failure.None? && r.products[a].stock == 3 && r.products[b].stock == 1
            && r.lines == [OrderItem(a, 2, 10.0), OrderItem(b, 1, 20.0)] && r.subtotal == 40.0
  {
    var items := [RequestItem(a, 2), RequestItem(b, 1)];
    assert items[..1] == [RequestItem(a, 2)] && items[..1][..0] == [];
    var r0 := Reserve(products, items[..1][..0]);
    assert r0 == Reservation(products, [], 0.0, None);
    var r1 := Reserve(products, items[..1]);
    assert r1 == ReserveOne(r0, items[0]);
    assert r1.failure.None? && r1.lines == [OrderItem(a, 2, 10.0)] && r1.subtotal == 20.0;
    assert r1.products[a].stock == 3 && r1.products[b] == products[b];
  }

  /** Ordering all three units of a product with stock 3 leaves 0; asking for a fourth
      fails with the product's name and leaves the stock at 3. */
  lemma LastUnitsScenario(p: ProductId, name: string, price: real)
    ensures var products := map[p := CatalogEntry(name, price, 3)];
            var all := Reserve(products, [RequestItem(p, 3)]);
            var more := Reserve(products, [RequestItem(p, 4)]);
            && all.failure.None? && all.products[p].stock == 0
            && more.failure == Some(InsufficientStock(p, name)) && more.products == products
            && StockFailureResponse(more.failure.value) == Fail(400, "Insufficient stock for product: " + name)
  {
    assert [RequestItem(p, 3)][..0] == [] && [RequestItem(p, 4)][..0] == [];
  }

  /** `cancelOrder`. `refundSucceeded` is whether Stripe's refund call returns normally. */
  method CancelOrder(order: Order?, caller: Caller, reason: Option<string>, now: Time, refundSucceeded: bool,
                     catalog: Catalog, gateway: PaymentGateway, hub: SocketHub) returns (response: Response)
    requires order != null ==> order.Valid()
    modifies order, catalog, gateway, hub`log
    ensures order != null ==> order.Valid()
    ensures order == null ==> response == Fail(404, "Order not found")
    ensures order != null && CancelGuard(old(order.orderStatus), old(order.user), caller).Some? ==>
              response == CancelGuard(old(order.orderStatus), old(order.user), caller).value
    ensures (order == null || CancelGuard(old(order.orderStatus), old(order.user), caller).Some?) ==>
              (order != null ==> order.State() == old(order.State())) &&
              catalog.products == old(catalog.products) && gateway.requests == old(gateway.requests) &&
              hub.log == old(hub.log)
    ensures order != null && CancelGuard(old(order.orderStatus), old(order.user), caller).None? ==>
              && response == Ok(200)
              && order.State() == CancelState(old(order.State()), reason, caller.id, now, refundSucceeded)
              && catalog.products == Restore(old(catalog.products), old(order.items))
              && gateway.requests == old(gateway.requests) +
                   (if old(order.paymentStatus) == Completed then [CreateRefund(old(order.transactionId))] else [])
              && hub.log == old(hub.log) + [Emission("orderCancelled", order.id, None, Members(hub.rooms, RoomFor(order.id)))]
  {
    if order == null {
      return Fail(404, "Order not found");
    }
    var guard := CancelGuard(order.orderStatus, order.user, caller);
    if guard.Some? {
      return guard.value;
    }
    var lines := order.items;
    MarkCancelled(order, reason, caller.id, now);
    RestoreStock(catalog, lines);
    if order.paymentStatus == Completed {
      gateway.Send(CreateRefund(order.transactionId));
    }
    RecordRefund(order, refundSucceeded, now);
    hub.EmitToOrderRoom("orderCancelled", order.id, None);
    response := Ok(200);
  }

  /** `order.orderStatus = 'cancelled'` and the new cancellation record (no refund yet). */
  method MarkCancelled(order: Order, reason: Option<string>, caller: UserId, now: Time)
    modifies order
    ensures order.State() == old(order.State()).(orderStatus := Cancelled,
              cancellation := Cancellation(true, reason, Some(now), Some(caller), NoRefund))
  {
    order.orderStatus := Cancelled;
    order.cancellation := Cancellation(true, reason, Some(now), Some(caller), NoRefund);
  }

  /** The refund outcome, then the save. */
  method RecordRefund(order: Order, refundSucceeded: bool, now: Time)
    requires order.cancellation.refundStatus == NoRefund
    modifies order
    ensures order.State() == old(order.State()).(
              cancellation := old(order.cancellation).(refundStatus := RefundOutcome(old(order.paymentStatus), refundSucceeded)),
              updatedAt := now)
  {
    if order.paymentStatus == Completed {
      order.cancellation := order.cancellation.(refundStatus := if refundSucceeded then RefundProcessed else RefundFailed);
    }
    order.StampUpdatedAt(now);
  }

  /** The stock loop of `cancelOrder`: a product that no longer exists is skipped. */
  method RestoreStock(catalog: Catalog, lines: seq<OrderItem>)
    modifies catalog
    ensures catalog.products == Restore(old(catalog.products), lines)
  {
    ghost var products0 := catalog.products;
    var i := 0;
    while i < |lines|
      invariant 0 <= i <= |lines|
      invariant catalog.products == Restore(products0, lines[..i])
    {
      var line := lines[i];
      assert lines[..i + 1][..i] == lines[..i];
      if line.product in catalog.products {
        catalog.SetStock(line.product, catalog.products[line.product].stock + line.quantity);
      }
      i := i + 1;
    }
    assert lines[..i] == lines;
  }
}

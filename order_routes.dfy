/** The order routes that are not plain controller calls: the Stripe webhook, which moves
    an order on a payment event, and the Socket.IO per-order rooms. */
module OrderRoutes {
  import opened JsRuntime
  import opened Http
  import opened OrderModel

  type SocketId = string

  // ---------------------------------------------------------------------------
  // Per-order rooms
  // ---------------------------------------------------------------------------

  /** The room a client joins to follow one order. */
  function RoomFor(orderId: OrderId): (room: string)
    ensures |room| == |orderId| + 6 && room[6..] == orderId
  {
    "order_" + orderId
  }

  /** Different orders have different rooms. */
  lemma RoomForInjective(a: OrderId, b: OrderId)
    requires RoomFor(a) == RoomFor(b)
    ensures a == b
  {
    assert a == RoomFor(a)[6..];
  }

  /** The rooms each connected socket has joined. */
  type Rooms = map<SocketId, set<string>>

  /** The sockets in a room. */
  function Members(rooms: Rooms, room: string): set<SocketId>
  {
    set s | s in rooms && room in rooms[s]
  }

  /** `socket.join(room)`. */
  function JoinRoom(rooms: Rooms, socket: SocketId, room: string): (r: Rooms)
    ensures Members(r, room) == Members(rooms, room) + {socket}
    ensures forall other :: other != room ==> Members(r, other) == Members(rooms, other)
    ensures r.Keys == rooms.Keys + {socket}
  {
    rooms[socket := (if socket in rooms then rooms[socket] else {}) + {room}]
  }

  /** `socket.leave(room)`. */
  function LeaveRoom(rooms: Rooms, socket: SocketId, room: string): (r: Rooms)
    ensures Members(r, room) == Members(rooms, room) - {socket}
    ensures forall other :: other != room ==> Members(r, other) == Members(rooms, other)
    ensures r.Keys == rooms.Keys
  {
    if socket in rooms then rooms[socket := rooms[socket] - {room}] else rooms
  }

  /** Leaving a room undoes joining it, for a socket that was not in it. */
  lemma LeaveUndoesJoin(rooms: Rooms, socket: SocketId, room: string, other: string)
    requires socket in rooms && room !in rooms[socket]
    ensures Members(LeaveRoom(JoinRoom(rooms, socket, room), socket, room), other) == Members(rooms, other)
  {
    var r := LeaveRoom(JoinRoom(rooms, socket, room), socket, room);
    assert r == rooms by {
      assert rooms[socket] + {room} - {room} == rooms[socket];
    }
  }

  /** One Socket.IO emission: the event, its order and status payload, and who receives it. */
  datatype Emission = Emission(event: string, orderId: OrderId, status: Option<OrderStatus>, recipients: set<SocketId>)

  /** The Socket.IO server as the handlers use it. */
  class SocketHub {
    /** The sockets currently connected. */
    var connected: set<SocketId>
    var rooms: Rooms
    /** Everything emitted so far, oldest first. */
    ghost var log: seq<Emission>

    /** Only connected sockets are in rooms. */
    ghost predicate Valid()
      reads this
    {
      rooms.Keys <= connected
    }

    constructor ()
      ensures connected == {} && rooms == map[] && log == []
      ensures Valid()
    {
      connected := {};
      rooms := map[];
      log := [];
    }

    /** A client connects (`io.on('connection')`); it starts in no room. */
    method Connect(socket: SocketId)
      requires Valid() && socket !in connected
      modifies this`connected
      ensures connected == old(connected) + {socket}
      ensures forall room :: socket !in Members(rooms, room)
      ensures Valid()
    {
      connected := connected + {socket};
    }

    /** A client disconnects; Socket.IO takes it out of every room it had joined. */
    method Disconnect(socket: SocketId)
      requires Valid()
      modifies this`connected, this`rooms
      ensures connected == old(connected) - {socket}
      ensures rooms == old(rooms) - {socket}
      ensures forall room :: Members(rooms, room) == Members(old(rooms), room) - {socket}
      ensures Valid()
    {
      connected := connected - {socket};
      rooms := rooms - {socket};
    }

    /** The `join_order_room` handler. */
    method JoinOrderRoom(socket: SocketId, orderId: OrderId)
      requires Valid() && socket in connected
      modifies this`rooms
      ensures Valid()
      ensures rooms == JoinRoom(old(rooms), socket, RoomFor(orderId))
      ensures socket in Members(rooms, RoomFor(orderId))
    {
      rooms := JoinRoom(rooms, socket, RoomFor(orderId));
    }

    /** The `leave_order_room` handler. */
    method LeaveOrderRoom(socket: SocketId, orderId: OrderId)
      requires Valid()
      modifies this`rooms
      ensures Valid()
      ensures rooms == LeaveRoom(old(rooms), socket, RoomFor(orderId))
      ensures socket !in Members(rooms, RoomFor(orderId))
    {
      rooms := LeaveRoom(rooms, socket, RoomFor(orderId));
    }

    /** `io.to('order_' + id).emit(event, payload)`: only the order's room receives it. */
    method EmitToOrderRoom(event: string, orderId: OrderId, status: Option<OrderStatus>)
      modifies this`log
      ensures log == old(log) + [Emission(event, orderId, status, Members(rooms, RoomFor(orderId)))]
      ensures Valid() ==> Members(rooms, RoomFor(orderId)) <= connected
    {
      log := log + [Emission(event, orderId, status, Members(rooms, RoomFor(orderId)))];
    }

    /** `io.emit(event, payload)`: every connected socket receives it, whether or not it
        has joined a room. */
    method Broadcast(event: string, orderId: OrderId)
      modifies this`log
      ensures log == old(log) + [Emission(event, orderId, None, connected)]
    {
      log := log + [Emission(event, orderId, None, connected)];
    }
  }

  // ---------------------------------------------------------------------------
  // The payment webhook
  // ---------------------------------------------------------------------------

  const PaymentSucceededEvent := "payment_intent.succeeded"
  const PaymentFailedEvent := "payment_intent.payment_failed"

  /** What a verified payment event does to the order it names, saved at `now`. */
  function ApplyPaymentEvent(s: OrderState, eventType: string, now: Time): (r: OrderState)
    ensures eventType == PaymentSucceededEvent ==>
              r.paymentStatus == Completed && r.orderStatus == Confirmed
    ensures eventType == PaymentFailedEvent ==>
              r.paymentStatus == PaymentFailed && r.orderStatus == s.orderStatus
    ensures eventType == PaymentSucceededEvent ==>
              r.statusHistory == s.statusHistory + [HistoryEntry(Confirmed, now, Some("Payment received"), None)]
    ensures eventType == PaymentFailedEvent ==>
              r.statusHistory == s.statusHistory + [HistoryEntry(Pending, now, Some("Payment failed"), None)]
    ensures eventType in {PaymentSucceededEvent, PaymentFailedEvent} ==> r.updatedAt == now
    ensures eventType !in {PaymentSucceededEvent, PaymentFailedEvent} ==> r == s
    ensures r.(paymentStatus := s.paymentStatus, orderStatus := s.orderStatus,
               statusHistory := s.statusHistory, updatedAt := s.updatedAt) == s
  {
    if eventType == PaymentSucceededEvent then
      s.(paymentStatus := Completed,
         orderStatus := Confirmed,
         statusHistory := s.statusHistory + [HistoryEntry(Confirmed, now, Some("Payment received"), None)],
         updatedAt := now)
    else if eventType == PaymentFailedEvent then
      s.(paymentStatus := PaymentFailed,
         statusHistory := s.statusHistory + [HistoryEntry(Pending, now, Some("Payment failed"), None)],
         updatedAt := now)
    else s
  }

  /** There is no redelivery guard: the same succeeded event applied twice leaves the
      order confirmed and appends two identical entries. */
  lemma SucceededRedelivery(s: OrderState, now: Time)
    ensures var once := ApplyPaymentEvent(s, PaymentSucceededEvent, now);
            var twice := ApplyPaymentEvent(once, PaymentSucceededEvent, now);
            && twice.orderStatus == once.orderStatus == Confirmed
            && |twice.statusHistory| == |s.statusHistory| + 2
            && twice.statusHistory[|s.statusHistory|] == twice.statusHistory[|s.statusHistory| + 1]
            && twice == once.(statusHistory := once.statusHistory + [once.statusHistory[|s.statusHistory|]])
  {
  }

  /** A succeeded event confirms the order whatever its status was, a cancelled or a
      delivered one included. */
  lemma SucceededOverridesAnyStatus(s: OrderState, now: Time)
    requires s.orderStatus in {Cancelled, Delivered}
    ensures ApplyPaymentEvent(s, PaymentSucceededEvent, now).orderStatus == Confirmed
    ensures ApplyPaymentEvent(s, PaymentSucceededEvent, now).cancellation == s.cancellation
  {
  }

  /** The webhook handler. `order` is the result of the lookup by transaction id (null when
      no order carries it); `signatureValid` is the outcome of Stripe's signature check. */
  method HandleWebhook(signatureValid: bool, signatureError: string, eventType: string, intentId: string,
                       order: Order?, now: Time, hub: SocketHub) returns (response: Response)
    requires order != null ==> order.transactionId == Some(intentId) && order.Valid()
    modifies order, hub`log
    ensures order != null ==> order.Valid()
    ensures !signatureValid ==> response == Fail(400, "Webhook Error: " + signatureError)
    ensures signatureValid ==> response == Ok(200)
    ensures order != null && signatureValid ==>
              order.State() == ApplyPaymentEvent(old(order.State()), eventType, now)
    ensures order != null && !signatureValid ==> order.State() == old(order.State())
    ensures order != null && signatureValid && eventType == PaymentSucceededEvent ==>
              hub.log == old(hub.log) + [Emission("orderStatusUpdate", order.id, Some(Confirmed), Members(hub.rooms, RoomFor(order.id)))]
    ensures order != null && signatureValid && eventType == PaymentFailedEvent ==>
              hub.log == old(hub.log) + [Emission("paymentFailed", order.id, None, Members(hub.rooms, RoomFor(order.id)))]
    ensures (order == null || !signatureValid || eventType !in {PaymentSucceededEvent, PaymentFailedEvent}) ==>
              hub.log == old(hub.log)
  {
    if !signatureValid {
      return Fail(400, "Webhook Error: " + signatureError);
    }
    if eventType == PaymentSucceededEvent {
      if order != null {
        MarkPaymentReceived(order, now);
        hub.EmitToOrderRoom("orderStatusUpdate", order.id, Some(order.orderStatus));
      }
    } else if eventType == PaymentFailedEvent {
      if order != null {
        MarkPaymentFailed(order, now);
        hub.EmitToOrderRoom("paymentFailed", order.id, None);
      }
    }
    response := Ok(200);
  }

  /** The `payment_intent.succeeded` branch on a found order, ending with its save. */
  method MarkPaymentReceived(order: Order, now: Time)
    modifies order
    ensures order.State() == ApplyPaymentEvent(old(order.State()), PaymentSucceededEvent, now)
  {
    order.paymentStatus := Completed;
    order.orderStatus := Confirmed;
    order.statusHistory := order.statusHistory + [HistoryEntry(Confirmed, now, Some("Payment received"), None)];
    order.StampUpdatedAt(now);
  }

  /** The `payment_intent.payment_failed` branch on a found order, ending with its save. */
  method MarkPaymentFailed(order: Order, now: Time)
    modifies order
    ensures order.State() == ApplyPaymentEvent(old(order.State()), PaymentFailedEvent, now)
  {
    order.paymentStatus := PaymentFailed;
    order.statusHistory := order.statusHistory + [HistoryEntry(Pending, now, Some("Payment failed"), None)];
    order.StampUpdatedAt(now);
  }
}

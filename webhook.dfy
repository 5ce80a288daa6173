/** The payment processor's notification that a checkout session completed. */
module Webhook {
  import opened Models
  import opened Cart
  import opened Orders
  import opened Loyalty
  import opened Checkout

  /** The one event type the endpoint acts on. */
  const CheckoutCompleted := "checkout.session.completed"

  /** A signed event: its type and the session's `client_reference_id`, the
      order id checkout attached (None when the session carries none). */
  datatype Event = Event(kind: string, reference: Option<Id>)

  /** The event confirms a pending order: it is authentic, of the completed
      type, names an order that exists, and that order still awaits payment. */
  predicate Confirms(verified: bool, event: Event, orders: map<Id, Order>)
    reads set id | id in orders :: orders[id]
  {
    && verified
    && event.kind == CheckoutCompleted
    && event.reference.Some?
    && event.reference.value in orders
    && orders[event.reference.value].status == PendingPayment
  }

  /** The order a confirmation changes, if the event is one. */
  ghost function Confirmed(verified: bool, event: Event, orders: map<Id, Order>): set<Order>
    reads set id | id in orders :: orders[id]
  {
    if Confirms(verified, event, orders) then {orders[event.reference.value]} else {}
  }

  /** The customer a confirmation credits, if the event is one and the
      customer is found. */
  ghost function Credited(verified: bool, event: Event, orders: map<Id, Order>, users: map<Id, User>): set<User>
    reads set id | id in orders :: orders[id]
  {
    if Confirms(verified, event, orders) && orders[event.reference.value].customer in users
    then {users[orders[event.reference.value].customer]} else {}
  }

  /** `stripe_webhook`. `verified` is whether the signature check accepted
      the payload; `users` is the user table. An event that does not confirm
      a pending order changes nothing. A confirmation sets the status to
      'Recebido' and awards the order's customer; when that customer is
      missing the award is skipped, the status is still committed, and the
      confirmation e-mail lookup then fails. The PIN is not set here: only
      the order's status and the customer's points and tier can change. */
  method StripeWebhook(verified: bool, event: Event, ledger: Ledger, users: map<Id, User>)
    returns (code: int)
    requires ledger.Valid()
    modifies Confirmed(verified, event, ledger.orders)`status
    modifies Credited(verified, event, ledger.orders, users)`points
    modifies Credited(verified, event, ledger.orders, users)`tier
    ensures ledger.Valid()
    ensures !verified ==> code == 400
    ensures verified && !old(Confirms(verified, event, ledger.orders)) ==> code == 200
    ensures old(Confirms(verified, event, ledger.orders)) ==>
      var order := ledger.orders[event.reference.value];
      && order.status == Received
      && order.pin == old(order.pin)
      && (order.customer in users ==>
            code == 200
            && Account(users[order.customer].points, users[order.customer].tier)
               == Award(old(Account(users[order.customer].points, users[order.customer].tier)), order.total))
      && (order.customer !in users ==> code == 500)
  {
    if !verified {
      return 400;
    }
    if event.kind != CheckoutCompleted || event.reference.None? {
      return 200;
    }
    var id := event.reference.value;
    if id !in ledger.orders || ledger.orders[id].status != PendingPayment {
      return 200;
    }
    var order := ledger.orders[id];
    order.status := Received;
    if order.customer in users {
      var earned := Reward(users[order.customer], order.total);
      code := 200;
    } else {
      code := 500;
    }
  }

  /** Scenario: the notification arrives first and the customer then returns
      from the payment page. The customer is credited exactly once, the return
      reports the order as already processed, and the cart is cleared. Neither
      signal sets a PIN: the webhook sets none, and the return only sets one
      for an order still pending, so the order keeps the PIN it had. */
  method NotifiedThenReturned(ledger: Ledger, users: map<Id, User>, cart: CartSession, id: Id, pin: int)
    returns (code: int, back: ReturnOutcome)
    requires 1000 <= pin <= 9999
    requires id in ledger.orders && ledger.orders[id].status == PendingPayment
    requires ledger.orders[id].customer in users
    requires ledger.Valid()
    modifies {ledger.orders[id]}`status, {ledger.orders[id]}`pin
    modifies {users[ledger.orders[id].customer]}`points, {users[ledger.orders[id].customer]}`tier, cart
    ensures ledger.Valid()
    ensures code == 200 && back == AlreadyProcessed
    ensures ledger.orders[id].status == Received
    ensures ledger.orders[id].pin == old(ledger.orders[id].pin)
    ensures var u := users[ledger.orders[id].customer];
            Account(u.points, u.tier) == Award(old(Account(u.points, u.tier)), ledger.orders[id].total)
    ensures cart.Value() == Empty
  {
    var customer := users[ledger.orders[id].customer];
    code := StripeWebhook(true, Event(CheckoutCompleted, Some(id)), ledger, users);
    back := OrderSuccess(ledger, id, customer, cart, pin);
  }
}

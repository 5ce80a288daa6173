/** Checkout, and the customer's return from the payment page. */
module Checkout {
  import opened Models
  import opened Cart
  import opened Pricing
  import opened Orders
  import opened Loyalty
  import Client

  /** The delivery address as copied onto the order: "rua, numero - cep",
      that is the street, a comma and a space, the number, a spaced dash and
      the CEP. */
  function AddressLine(a: Address): (r: string)
    ensures |r| == |a.street| + |a.number| + |a.cep| + 5
    ensures r[..|a.street|] == a.street
    ensures r[|a.street|..|a.street| + 2] == ", "
    ensures r[|a.street| + 2..|a.street| + 2 + |a.number|] == a.number
    ensures r[|a.street| + 2 + |a.number|..|r| - |a.cep|] == " - "
    ensures r[|r| - |a.cep|..] == a.cep
  {
    var withNumber := a.street + ", " + a.number;
    var beforeCep := withNumber + " - ";
    assert beforeCep[|withNumber|..] == " - ";
    assert (beforeCep + a.cep)[..|beforeCep|] == beforeCep;
    beforeCep + a.cep
  }

  /** The checkout form validates when one of the user's own addresses was
      chosen (the radio buttons offer exactly those): an address of the user's
      address book. */
  predicate ValidChoice(choice: Option<Id>, addresses: map<Id, Address>, user: Id)
    ensures ValidChoice(choice, addresses, user) <==> choice.Some? && choice.value in Client.AddressesOf(addresses, user)
  {
    choice.Some? && choice.value in addresses && addresses[choice.value].owner == user
  }

  datatype CheckoutOutcome =
    | EmptyCart                                          // redirect to the home page
    | Crashed                                            // no restaurant, or no fee to add
    | FormShown(subtotal: Money, fee: Money, total: Money)
    | ToPayment(order: Id, lines: seq<LineItem>)         // redirect to the payment page
    | PaymentNotStarted(order: Id)                       // session creation failed

  /** Checkout's two commits: a new order 'Pendente de Pagamento' without a
      PIN, then one item per product row. */
  method FileOrder(ledger: Ledger, newId: Id, customer: Id, restaurant: Id, total: Money,
                   address: string, now: int,
                   rows: seq<Id>, quantities: map<Id, nat>, catalog: map<Id, Product>)
    requires ledger.Valid() && newId !in ledger.orders
    requires Priced(rows, quantities, catalog)
    modifies ledger
    ensures ledger.Valid()
    ensures newId in ledger.orders && fresh(ledger.orders[newId])
    ensures ledger.orders == old(ledger.orders)[newId := ledger.orders[newId]]
    ensures var order := ledger.orders[newId];
      && order.customer == customer && order.restaurant == restaurant
      && order.status == PendingPayment && order.total == total && order.payment == DefaultPayment
      && order.address == address && order.createdAt == now && order.pin == None
    ensures ledger.items == old(ledger.items) + FrozenItems(newId, rows, quantities, catalog)
    ensures ItemsTotal(ledger.items[|old(ledger.items)|..]) == Subtotal(rows, quantities, catalog)
  {
    var order := new Order(newId, customer, restaurant, total, address, now, PendingPayment);
    ledger.Place(order, rows, quantities, catalog);
  }

  /** `checkout`. `rows` is the product query's answer, `choice` the address
      submitted with a valid form (None for a GET or an invalid form), `newId`
      the id the database gives the new order, `now` its creation time and
      `sessionCreated` whether the payment processor accepted the session. */
  method Checkout(ledger: Ledger, cart: CartSession, user: User,
                  restaurants: map<Id, Restaurant>, catalog: map<Id, Product>, rows: seq<Id>,
                  addresses: map<Id, Address>, choice: Option<Id>,
                  newId: Id, now: int, sessionCreated: bool)
    returns (o: CheckoutOutcome)
    requires ledger.Valid()
    requires QueryResult(rows, cart.items, catalog)
    requires newId !in ledger.orders
    modifies ledger
    ensures ledger.Valid()
    ensures cart.items == map[] ==> o == EmptyCart
    ensures cart.items != map[] && (cart.restaurant.None? || cart.restaurant.value !in restaurants) ==> o == Crashed
    ensures cart.items != map[] && cart.restaurant.Some? && cart.restaurant.value in restaurants ==>
      var fee := DeliveryFee(restaurants[cart.restaurant.value].fee, user.tier);
      var subtotal := Subtotal(rows, cart.items, catalog);
      && (fee.None? ==> o == Crashed)
      && (fee.Some? && !ValidChoice(choice, addresses, user.id) ==>
            o == FormShown(subtotal, fee.value, subtotal + fee.value))
      && (fee.Some? && ValidChoice(choice, addresses, user.id) ==>
            && newId in ledger.orders
            && fresh(ledger.orders[newId])
            && ledger.orders == old(ledger.orders)[newId := ledger.orders[newId]]
            && ledger.orders[newId].customer == user.id
            && ledger.orders[newId].restaurant == cart.restaurant.value
            && ledger.orders[newId].status == PendingPayment
            && ledger.orders[newId].total == subtotal + fee.value
            && ledger.orders[newId].address == AddressLine(addresses[choice.value])
            && ledger.orders[newId].createdAt == now
            && ledger.orders[newId].pin == None
            && ledger.orders[newId].payment == DefaultPayment
            && ledger.items == old(ledger.items) + FrozenItems(newId, rows, cart.items, catalog)
            && ItemsTotal(ledger.items[|old(ledger.items)|..]) + fee.value == ledger.orders[newId].total
            && o == (if sessionCreated then ToPayment(newId, PaymentLines(rows, cart.items, catalog, fee.value))
                     else PaymentNotStarted(newId)))
    ensures !(o.ToPayment? || o.PaymentNotStarted?) ==>
      ledger.orders == old(ledger.orders) && ledger.items == old(ledger.items)
  {
    if cart.items == map[] {
      return EmptyCart;
    }
    var subtotal, lines := PriceCheckout(cart.items, catalog, rows);
    if cart.restaurant.None? || cart.restaurant.value !in restaurants {
      return Crashed;
    }
    var rid := cart.restaurant.value;
    var fee := restaurants[rid].fee;
    if user.tier == Gold {
      fee := Some(0);
    }
    if fee.None? {
      return Crashed;
    }
    var total := subtotal + fee.value;
    if fee.value > 0 {
      lines := lines + [LineItem(FeeLabel, fee.value, 1)];
    }
    assert lines == PaymentLines(rows, cart.items, catalog, fee.value);
    if !ValidChoice(choice, addresses, user.id) {
      return FormShown(subtotal, fee.value, total);
    }
    FileOrder(ledger, newId, user.id, rid, total, AddressLine(addresses[choice.value]), now,
              rows, cart.items, catalog);
    if sessionCreated {
      o := ToPayment(newId, lines);
    } else {
      o := PaymentNotStarted(newId);
    }
  }

  datatype ReturnOutcome = OrderNotFound | Confirmed(points: nat) | AlreadyProcessed

  /** `order_success`, the customer's return from the payment page. A pending
      order is confirmed: status 'Recebido', a PIN, and the points credited to
      the calling user, whoever placed the order. Any other status is left as
      it is. The cart is cleared unless the order does not exist. */
  method OrderSuccess(ledger: Ledger, orderId: Id, caller: User, cart: CartSession, pin: int)
    returns (o: ReturnOutcome)
    requires 1000 <= pin <= 9999
    requires ledger.Valid()
    modifies (if orderId in ledger.orders then {ledger.orders[orderId]} else {})`status
    modifies (if orderId in ledger.orders then {ledger.orders[orderId]} else {})`pin
    modifies caller`points, caller`tier, cart
    ensures ledger.Valid()
    ensures orderId !in ledger.orders ==>
      o == OrderNotFound && cart.Value() == old(cart.Value())
      && caller.points == old(caller.points) && caller.tier == old(caller.tier)
    ensures orderId in ledger.orders ==>
      var order := ledger.orders[orderId];
      && cart.Value() == Empty
      && (order.status, Account(caller.points, caller.tier))
         == Settle(old(order.status), old(Account(caller.points, caller.tier)), order.total)
      && (old(order.status) == PendingPayment ==> order.pin == Some(pin) && o == Confirmed(PointsFor(order.total)))
      && (old(order.status) != PendingPayment ==> order.pin == old(order.pin) && o == AlreadyProcessed)
  {
    if orderId !in ledger.orders {
      return OrderNotFound;
    }
    var order := ledger.orders[orderId];
    if order.status == PendingPayment {
      order.status := Received;
      order.pin := Some(pin);
      var earned := Reward(caller, order.total);
      o := Confirmed(earned);
    } else {
      o := AlreadyProcessed;
    }
    cart.Clear();
  }

  /** `order_cancel`: the customer abandoned the payment page. Nothing is
      changed; the cart is kept so that checkout can be tried again. */
  method OrderCancel(cart: CartSession) returns (retry: CartValue)
    ensures retry == cart.Value()
  {
    retry := cart.Value();
  }
}

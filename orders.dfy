/** Orders and their items. An order's status (and its delivery PIN) change in
    place; every other field, and every order item, is fixed when the order is
    placed. */
module Orders {
  import opened Models
  import opened Pricing

  /** The `tipo_pagamento` column default. */
  const DefaultPayment := "Cartão de Crédito"

  class Order {
    const id: Id
    const customer: Id
    const restaurant: Id
    const total: Money
    /** The delivery address copied as text at purchase time. */
    const address: string
    const createdAt: int
    const payment: string
    /** The column default is 'Recebido'; checkout passes 'Pendente de Pagamento'. */
    var status: Status
    /** `delivery_pin` is a plain attribute set on confirmation, not a column. */
    var pin: Option<int>

    constructor (id: Id, customer: Id, restaurant: Id, total: Money, address: string,
                 createdAt: int, status: Status)
      ensures this.id == id && this.customer == customer && this.restaurant == restaurant
      ensures this.total == total && this.address == address && this.createdAt == createdAt
      ensures this.status == status && payment == DefaultPayment && pin == None
    {
      this.id := id;
      this.customer := customer;
      this.restaurant := restaurant;
      this.total := total;
      this.address := address;
      this.createdAt := createdAt;
      this.status := status;
      payment := DefaultPayment;
      pin := None;
    }
  }

  /** `ItemPedido`: the product, the quantity, and the unit price frozen at
      purchase time (`preco_unitario_na_compra`). */
  datatype OrderItem = OrderItem(order: Id, product: Id, quantity: nat, unitPrice: Money)

  /** The items checkout stores for order `oid`: one per row, with the cart
      quantity and the catalogue price of that moment. */
  function FrozenItems(oid: Id, rows: seq<Id>, items: map<Id, nat>, catalog: map<Id, Product>): (r: seq<OrderItem>)
    requires Priced(rows, items, catalog)
    ensures |r| == |rows|
    ensures forall i :: 0 <= i < |rows| ==>
      r[i] == OrderItem(oid, rows[i], items[rows[i]], catalog[rows[i]].price)
    decreases |rows|
  {
    if rows == [] then []
    else
      var p := rows[|rows| - 1];
      FrozenItems(oid, rows[..|rows| - 1], items, catalog) + [OrderItem(oid, p, items[p], catalog[p].price)]
  }

  /** Sum of quantity times frozen unit price. */
  function ItemsTotal(lines: seq<OrderItem>): nat
    decreases |lines|
  {
    if lines == [] then 0
    else ItemsTotal(lines[..|lines| - 1]) + lines[|lines| - 1].quantity * lines[|lines| - 1].unitPrice
  }

  /** The frozen items add up to the subtotal the order was priced with. */
  lemma {:induction false} FrozenItemsTotal(oid: Id, rows: seq<Id>, items: map<Id, nat>, catalog: map<Id, Product>)
    requires Priced(rows, items, catalog)
    ensures ItemsTotal(FrozenItems(oid, rows, items, catalog)) == Subtotal(rows, items, catalog)
    decreases |rows|
  {
    if rows != [] {
      var front, p := rows[..|rows| - 1], rows[|rows| - 1];
      assert Priced(front, items, catalog);
      FrozenItemsTotal(oid, front, items, catalog);
      var r, rf := FrozenItems(oid, rows, items, catalog), FrozenItems(oid, front, items, catalog);
      assert r == rf + [OrderItem(oid, p, items[p], catalog[p].price)];
      assert r[..|r| - 1] == rf;
      assert Subtotal(rows, items, catalog) == Subtotal(front, items, catalog) + catalog[p].price * items[p];
    }
  }

  /** The orders table and the order-items table. */
  class Ledger {
    var orders: map<Id, Order>
    var items: seq<OrderItem>

    /** Each order is filed under its own id, and its status is one read from
        the status column (a known name is never kept as `Other`). */
    ghost predicate Valid()
      reads this, orders.Values
    {
      forall id :: id in orders ==> orders[id].id == id && Canonical(orders[id].status)
    }

    constructor ()
      ensures Valid() && orders == map[] && items == []
    {
      orders := map[];
      items := [];
    }

    /** Files a new order and, one per product row, its items with the cart
        quantity and the catalogue price of that moment. */
    method Place(order: Order, rows: seq<Id>, quantities: map<Id, nat>, catalog: map<Id, Product>)
      requires Valid() && order.id !in orders && Canonical(order.status)
      requires Priced(rows, quantities, catalog)
      modifies this
      ensures Valid()
      ensures orders == old(orders)[order.id := order]
      ensures items == old(items) + FrozenItems(order.id, rows, quantities, catalog)
      ensures ItemsTotal(items[|old(items)|..]) == Subtotal(rows, quantities, catalog)
    {
      orders := orders[order.id := order];
      ghost var before := items;
      var i := 0;
      while i < |rows|
        invariant 0 <= i <= |rows|
        invariant orders == old(orders)[order.id := order]
        invariant items == before + FrozenItems(order.id, rows[..i], quantities, catalog)
      {
        var p := rows[i];
        items := items + [OrderItem(order.id, p, quantities[p], catalog[p].price)];
        assert rows[..i + 1][..i] == rows[..i];
        i := i + 1;
      }
      assert rows[..i] == rows;
      assert items[|before|..] == FrozenItems(order.id, rows, quantities, catalog);
      FrozenItemsTotal(order.id, rows, quantities, catalog);
    }
  }

  /** The ids of the orders a customer has placed (`pedidos_cliente`). */
  function OrderHistory(orders: map<Id, Order>, customer: Id): (r: set<Id>)
    ensures forall id :: id in r <==> id in orders && orders[id].customer == customer
  {
    set id | id in orders && orders[id].customer == customer
  }

  /** Filing a new order adds it to its customer's history and to no other. */
  lemma HistoryAfterInsert(orders: map<Id, Order>, id: Id, o: Order, customer: Id)
    requires id !in orders
    ensures OrderHistory(orders[id := o], customer)
            == OrderHistory(orders, customer) + (if o.customer == customer then {id} else {})
  {
  }
}

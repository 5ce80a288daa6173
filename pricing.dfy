/** Pricing of a cart, shared by the cart page and the checkout: the subtotal
    over the products still in the catalogue, the delivery fee with the Gold
    waiver, and the payment line items handed to the payment processor. */
module Pricing {
  import opened Models
  import opened Cart

  /** `rows` is what the product query `Produto.id.in_(ids)` returns for the
      cart's ids: each product at most once, exactly the cart products that
      still exist, in the database's order. */
  predicate QueryResult(rows: seq<Id>, items: map<Id, nat>, catalog: map<Id, Product>)
  {
    && Distinct(rows)
    && Priced(rows, items, catalog)
    && (forall p :: p in items && p in catalog ==> p in rows)
  }

  predicate Distinct(rows: seq<Id>)
  {
    forall i, j :: 0 <= i < j < |rows| ==> rows[i] != rows[j]
  }

  /** Every row can be priced: it is in the cart and in the catalogue. */
  predicate Priced(rows: seq<Id>, items: map<Id, nat>, catalog: map<Id, Product>)
  {
    forall i :: 0 <= i < |rows| ==> rows[i] in items && rows[i] in catalog
  }

  /** Makes the first row of a non-empty listing a member of it. */
  lemma HeadIsMember(r: seq<Id>)
    ensures |r| > 0 ==> r[0] in r
  {
  }

  /** The query for an empty cart returns no rows. */
  lemma EmptyCartNoRows(rows: seq<Id>, items: map<Id, nat>, catalog: map<Id, Product>)
    requires Priced(rows, items, catalog)
    ensures items == map[] ==> rows == []
  {
    if |rows| > 0 {
      assert rows[0] in items;
    }
  }

  /** `p.preco * quantidade` for one cart product. */
  function LineTotal(p: Id, items: map<Id, nat>, catalog: map<Id, Product>): Money
    requires p in items && p in catalog
  {
    catalog[p].price * items[p]
  }

  /** The accumulated `total_produtos`, row after row: every row's line total
      is part of it. */
  function Subtotal(rows: seq<Id>, items: map<Id, nat>, catalog: map<Id, Product>): (r: Money)
    requires Priced(rows, items, catalog)
    ensures forall i :: 0 <= i < |rows| ==> LineTotal(rows[i], items, catalog) <= r
    decreases |rows|
  {
    if rows == [] then 0
    else
      var front := rows[..|rows| - 1];
      assert forall i :: 0 <= i < |front| ==> front[i] == rows[i];
      Subtotal(front, items, catalog) + LineTotal(rows[|rows| - 1], items, catalog)
  }

  lemma {:induction false} SubtotalAppend(a: seq<Id>, b: seq<Id>, items: map<Id, nat>, catalog: map<Id, Product>)
    requires Priced(a, items, catalog) && Priced(b, items, catalog)
    ensures Priced(a + b, items, catalog)
    ensures Subtotal(a + b, items, catalog) == Subtotal(a, items, catalog) + Subtotal(b, items, catalog)
    decreases |b|
  {
    if b != [] {
      var b' := b[..|b| - 1];
      assert (a + b)[..|a + b| - 1] == a + b';
      assert (a + b)[|a + b| - 1] == b[|b| - 1];
      SubtotalAppend(a, b', items, catalog);
      calc {
        Subtotal(a + b, items, catalog);
        Subtotal(a + b', items, catalog) + LineTotal(b[|b| - 1], items, catalog);
        Subtotal(a, items, catalog) + Subtotal(b', items, catalog) + LineTotal(b[|b| - 1], items, catalog);
        Subtotal(a, items, catalog) + Subtotal(b, items, catalog);
      }
    } else {
      assert a + b == a;
    }
  }

  /** Taking the row at position `k` out of a listing removes exactly that
      product and its line total. */
  lemma RemoveAt(r: seq<Id>, k: nat, items: map<Id, nat>, catalog: map<Id, Product>)
    requires Priced(r, items, catalog) && Distinct(r) && k < |r|
    ensures Priced(r[..k] + r[k + 1..], items, catalog)
    ensures Distinct(r[..k] + r[k + 1..])
    ensures forall p :: p in r[..k] + r[k + 1..] <==> p in r && p != r[k]
    ensures Subtotal(r, items, catalog)
            == Subtotal(r[..k] + r[k + 1..], items, catalog) + LineTotal(r[k], items, catalog)
  {
    var left, right := r[..k], r[k + 1..];
    var r' := left + right;
    assert r == left + [r[k]] + right;
    assert forall i :: 0 <= i < |r'| ==> r'[i] == r[if i < k then i else i + 1];
    forall p ensures p in r' <==> p in r && p != r[k] {
      if p in r && p != r[k] {
        var j :| 0 <= j < |r| && r[j] == p;
        assert r'[if j < k then j else j - 1] == p;
      }
    }
    SubtotalAround(left, r[k], right, items, catalog);
  }

  /** A row in the middle of a listing adds its line total to the rest. */
  lemma SubtotalAround(left: seq<Id>, x: Id, right: seq<Id>, items: map<Id, nat>, catalog: map<Id, Product>)
    requires Priced(left + [x] + right, items, catalog) && x in items && x in catalog
    ensures Priced(left + right, items, catalog)
    ensures Subtotal(left + [x] + right, items, catalog)
            == Subtotal(left + right, items, catalog) + LineTotal(x, items, catalog)
  {
    assert forall i :: 0 <= i < |left| ==> left[i] == (left + [x] + right)[i];
    assert forall i :: 0 <= i < |right| ==> right[i] == (left + [x] + right)[|left| + 1 + i];
    assert (left + [x] + right)[|left|] == x;
    SubtotalAppend(left, right, items, catalog);
    SubtotalAppend(left, [x], items, catalog);
    SubtotalAppend(left + [x], right, items, catalog);
    assert Subtotal([x], items, catalog) == LineTotal(x, items, catalog) by {
      assert [x][..0] == [];
    }
  }

  /** The subtotal does not depend on the order in which the database returns
      the products: two listings of the same distinct products agree. */
  lemma {:induction false} SubtotalOrderFree(r1: seq<Id>, r2: seq<Id>, items: map<Id, nat>, catalog: map<Id, Product>)
    requires Priced(r1, items, catalog) && Priced(r2, items, catalog)
    requires Distinct(r1) && Distinct(r2)
    requires forall p :: p in r1 <==> p in r2
    ensures Subtotal(r1, items, catalog) == Subtotal(r2, items, catalog)
    decreases |r1|
  {
    if r1 == [] {
      HeadIsMember(r2);
    } else {
      var n := |r1| - 1;
      var x := r1[n];
      assert x in r2;
      var k :| 0 <= k < |r2| && r2[k] == x;
      RemoveAt(r1, n, items, catalog);
      RemoveAt(r2, k, items, catalog);
      assert r1[..n] + r1[n + 1..] == r1[..n];
      var r2' := r2[..k] + r2[k + 1..];
      forall p ensures p in r1[..n] <==> p in r2' {
        assert p in r1[..n] + r1[n + 1..] <==> p in r1 && p != x;
      }
      SubtotalOrderFree(r1[..n], r2[..k] + r2[k + 1..], items, catalog);
    }
  }

  /** One entry of the payment session's `line_items`: the label, the unit
      amount in centavos (`int(preco * 100)`) and the quantity. */
  datatype LineItem = LineItem(name: string, unitAmount: Money, quantity: nat)

  const FeeLabel := "Taxa de Entrega"

  function ProductLine(p: Id, items: map<Id, nat>, catalog: map<Id, Product>): LineItem
    requires p in items && p in catalog
  {
    LineItem(catalog[p].name, catalog[p].price, items[p])
  }

  /** The product line items, one per row, in row order. */
  function ProductLines(rows: seq<Id>, items: map<Id, nat>, catalog: map<Id, Product>): (r: seq<LineItem>)
    requires Priced(rows, items, catalog)
    ensures |r| == |rows|
    ensures forall i :: 0 <= i < |rows| ==> r[i] == ProductLine(rows[i], items, catalog)
    decreases |rows|
  {
    if rows == [] then []
    else ProductLines(rows[..|rows| - 1], items, catalog) + [ProductLine(rows[|rows| - 1], items, catalog)]
  }

  /** The full `line_items_stripe`: one line per product, in row order, then one
      delivery-fee line of quantity 1 exactly when the fee is positive. */
  function PaymentLines(rows: seq<Id>, items: map<Id, nat>, catalog: map<Id, Product>, fee: Money): (r: seq<LineItem>)
    requires Priced(rows, items, catalog)
    ensures |r| == |rows| + (if fee > 0 then 1 else 0)
    ensures forall i :: 0 <= i < |rows| ==> r[i] == ProductLine(rows[i], items, catalog)
    ensures fee > 0 ==> r[|rows|] == LineItem(FeeLabel, fee, 1)
  {
    ProductLines(rows, items, catalog) + (if fee > 0 then [LineItem(FeeLabel, fee, 1)] else [])
  }

  /** What the processor charges for a list of line items: every line's amount
      is part of it, and nothing is charged exactly when every line is free. */
  function Charge(lines: seq<LineItem>): (r: nat)
    ensures forall i :: 0 <= i < |lines| ==> lines[i].unitAmount * lines[i].quantity <= r
    ensures r == 0 <==> forall i :: 0 <= i < |lines| ==> lines[i].unitAmount * lines[i].quantity == 0
    decreases |lines|
  {
    if lines == [] then 0
    else Charge(lines[..|lines| - 1]) + lines[|lines| - 1].unitAmount * lines[|lines| - 1].quantity
  }

  lemma {:induction false} ChargeOfProductLines(rows: seq<Id>, items: map<Id, nat>, catalog: map<Id, Product>)
    requires Priced(rows, items, catalog)
    ensures Charge(ProductLines(rows, items, catalog)) == Subtotal(rows, items, catalog)
    decreases |rows|
  {
    if rows != [] {
      var front := rows[..|rows| - 1];
      ChargeOfProductLines(front, items, catalog);
      var lines := ProductLines(rows, items, catalog);
      assert lines[..|lines| - 1] == ProductLines(front, items, catalog);
    }
  }

  /** The amount charged by the payment processor is the order total: the
      subtotal plus the fee. */
  lemma ChargeMatchesTotal(rows: seq<Id>, items: map<Id, nat>, catalog: map<Id, Product>, fee: Money)
    requires Priced(rows, items, catalog)
    ensures Charge(PaymentLines(rows, items, catalog, fee)) == Subtotal(rows, items, catalog) + fee
  {
    ChargeOfProductLines(rows, items, catalog);
    var lines := PaymentLines(rows, items, catalog, fee);
    if fee > 0 {
      assert lines[..|lines| - 1] == ProductLines(rows, items, catalog);
    } else {
      assert lines == ProductLines(rows, items, catalog);
    }
  }

  /** `taxa`: the restaurant's `taxa_entrega`, replaced by 0 for a Gold user. A
      missing fee stays missing, and adding it to the subtotal fails. */
  function DeliveryFee(configured: Option<Money>, tier: Tier): (r: Option<Money>)
    ensures tier == Gold ==> r == Some(0)
    ensures tier != Gold ==> r == configured
  {
    if tier == Gold then Some(0) else configured
  }

  /** A Gold user never pays a fee and never gets a fee line, whatever the
      restaurant charges. */
  lemma GoldHasNoFeeLine(rows: seq<Id>, items: map<Id, nat>, catalog: map<Id, Product>, configured: Option<Money>)
    requires Priced(rows, items, catalog)
    ensures DeliveryFee(configured, Gold) == Some(0)
    ensures PaymentLines(rows, items, catalog, DeliveryFee(configured, Gold).value)
            == ProductLines(rows, items, catalog)
  {
  }

  /** Scenario: two of a 20.00 product and one of a 10.00 product, from a
      restaurant charging 5.00 for delivery, total 55.00 for a Bronze user;
      for a Gold user the total is 50.00 and there is no fee line. */
  lemma ScenarioTotals()
    ensures var catalog := map[1 := Product("X", 2000, true, 1, 7), 2 := Product("Y", 1000, true, 1, 7)];
            var items := map[1 := 2, 2 := 1];
            && Priced([1, 2], items, catalog)
            && Subtotal([1, 2], items, catalog) + DeliveryFee(Some(500), Bronze).value == 5500
            && Subtotal([1, 2], items, catalog) + DeliveryFee(Some(500), Gold).value == 5000
            && PaymentLines([1, 2], items, catalog, DeliveryFee(Some(500), Gold).value)
               == [LineItem("X", 2000, 2), LineItem("Y", 1000, 1)]
  {
    var catalog := map[1 := Product("X", 2000, true, 1, 7), 2 := Product("Y", 1000, true, 1, 7)];
    var items := map[1 := 2, 2 := 1];
    assert [1, 2][..1] == [1];
    assert [1][..0] == [];
  }

  /** A displayed row of the cart page. */
  datatype CartLine = CartLine(id: Id, name: string, price: Money, quantity: nat, subtotal: Money)

  /** `view_cart`: the rows of the cart page and `total_carrinho`. */
  method ViewCart(cart: CartSession, catalog: map<Id, Product>, rows: seq<Id>)
    returns (lines: seq<CartLine>, total: Money)
    requires QueryResult(rows, cart.items, catalog)
    ensures |lines| == |rows|
    ensures forall i :: 0 <= i < |rows| ==>
      lines[i] == CartLine(rows[i], catalog[rows[i]].name, catalog[rows[i]].price,
                           cart.items[rows[i]], LineTotal(rows[i], cart.items, catalog))
    ensures total == Subtotal(rows, cart.items, catalog)
  {
    lines, total := [], 0;
    if cart.items != map[] {
      var i := 0;
      while i < |rows|
        invariant 0 <= i <= |rows|
        invariant |lines| == i
        invariant forall k :: 0 <= k < i ==>
          lines[k] == CartLine(rows[k], catalog[rows[k]].name, catalog[rows[k]].price,
                               cart.items[rows[k]], LineTotal(rows[k], cart.items, catalog))
        invariant total == Subtotal(rows[..i], cart.items, catalog)
      {
        var p := rows[i];
        assert p in rows;
        var quantity := cart.items[p];
        var subtotal := catalog[p].price * quantity;
        lines := lines + [CartLine(p, catalog[p].name, catalog[p].price, quantity, subtotal)];
        total := total + subtotal;
        assert rows[..i + 1][..i] == rows[..i];
        i := i + 1;
      }
      assert rows[..i] == rows;
    } else {
      EmptyCartNoRows(rows, cart.items, catalog);
    }
  }

  /** The pricing loop of `checkout`: `total_produtos` and the product line
      items, in row order. */
  method PriceCheckout(items: map<Id, nat>, catalog: map<Id, Product>, rows: seq<Id>)
    returns (subtotal: Money, lines: seq<LineItem>)
    requires QueryResult(rows, items, catalog)
    ensures subtotal == Subtotal(rows, items, catalog)
    ensures lines == ProductLines(rows, items, catalog)
  {
    subtotal, lines := 0, [];
    var i := 0;
    while i < |rows|
      invariant 0 <= i <= |rows|
      invariant subtotal == Subtotal(rows[..i], items, catalog)
      invariant lines == ProductLines(rows[..i], items, catalog)
    {
      var p := rows[i];
      assert p in rows;
      var quantity := items[p];
      subtotal := subtotal + catalog[p].price * quantity;
      lines := lines + [LineItem(catalog[p].name, catalog[p].price, quantity)];
      assert rows[..i + 1][..i] == rows[..i];
      i := i + 1;
    }
    assert rows[..i] == rows;
  }
}

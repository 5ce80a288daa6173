/** The session cart: a map from product id to quantity and the id of the one
    restaurant the cart orders from. */
module Cart {
  import opened Models

  datatype CartValue = CartValue(items: map<Id, nat>, restaurant: Option<Id>)

  /** The cart `session.get` yields when the session holds none. */
  const Empty := CartValue(map[], None)

  function Quantity(items: map<Id, nat>, pid: Id): nat
  {
    if pid in items then items[pid] else 0
  }

  /** The cart is set to a restaurant other than the product's. */
  predicate Conflicts(c: CartValue, owner: Id)
  {
    c.restaurant.Some? && c.restaurant.value != owner
  }

  /** Every quantity is positive, and the restaurant is set exactly when the
      cart holds items. */
  predicate WellFormed(c: CartValue)
  {
    && (forall p :: p in c.items ==> c.items[p] >= 1)
    && (c.items == map[] <==> c.restaurant == None)
  }

  /** Every item still in the catalogue belongs to the cart's restaurant. */
  predicate SingleRestaurant(c: CartValue, catalog: map<Id, Product>)
  {
    forall p :: p in c.items && p in catalog ==> c.restaurant == Some(catalog[p].restaurant)
  }

  /** `add_to_cart` for a product of restaurant `owner`: a cart of another
      restaurant is first replaced by an empty one; then the restaurant is set
      and the product's quantity raised by one. */
  function AfterAdd(c: CartValue, pid: Id, owner: Id): (r: CartValue)
    ensures r.restaurant == Some(owner)
    ensures r.items.Keys == (if Conflicts(c, owner) then {pid} else c.items.Keys + {pid})
    ensures r.items[pid] == (if Conflicts(c, owner) then 1 else Quantity(c.items, pid) + 1)
    ensures forall q :: q in r.items && q != pid ==> r.items[q] == c.items[q]
  {
    var base := if Conflicts(c, owner) then CartValue(map[], Some(owner))
                else c.(restaurant := Some(owner));
    base.(items := base.items[pid := Quantity(base.items, pid) + 1])
  }

  /** `remove_from_cart`: a present product loses its entry, and the restaurant
      is cleared when nothing remains; an absent product changes nothing. */
  function AfterRemove(c: CartValue, pid: Id): (r: CartValue)
    ensures r.items == c.items - {pid}
    ensures pid !in c.items ==> r == c
    ensures pid in c.items && r.items == map[] ==> r.restaurant == None
    ensures pid in c.items && r.items != map[] ==> r.restaurant == c.restaurant
  {
    if pid in c.items then
      var left := c.items - {pid};
      CartValue(left, if left == map[] then None else c.restaurant)
    else c
  }

  /** Adding keeps the cart well formed and, for a product taken from the
      catalogue, keeps every item of the cart's one restaurant. */
  lemma AddKeepsInvariants(c: CartValue, catalog: map<Id, Product>, pid: Id)
    requires WellFormed(c) && SingleRestaurant(c, catalog)
    requires pid in catalog
    ensures WellFormed(AfterAdd(c, pid, catalog[pid].restaurant))
    ensures SingleRestaurant(AfterAdd(c, pid, catalog[pid].restaurant), catalog)
  {
  }

  /** Removing keeps both invariants. */
  lemma RemoveKeepsInvariants(c: CartValue, catalog: map<Id, Product>, pid: Id)
    requires WellFormed(c) && SingleRestaurant(c, catalog)
    ensures WellFormed(AfterRemove(c, pid))
    ensures SingleRestaurant(AfterRemove(c, pid), catalog)
  {
  }

  /** A sequence of additions, one product after the other. The last product
      added is always in the cart, and the cart holds nothing but what it held
      before and what was added. */
  function AddAll(c: CartValue, pids: seq<Id>, catalog: map<Id, Product>): (r: CartValue)
    requires forall i :: 0 <= i < |pids| ==> pids[i] in catalog
    ensures pids != [] ==> pids[|pids| - 1] in r.items
    ensures forall q :: q in r.items ==> q in c.items || q in pids
    decreases |pids|
  {
    if pids == [] then c
    else AddAll(AfterAdd(c, pids[0], catalog[pids[0]].restaurant), pids[1..], catalog)
  }

  /** However many restaurants the added products come from, the cart holds
      products of one restaurant only, and that is the last product's. */
  lemma {:induction false} AddAllSingleRestaurant(c: CartValue, pids: seq<Id>, catalog: map<Id, Product>)
    requires forall i :: 0 <= i < |pids| ==> pids[i] in catalog
    requires WellFormed(c) && SingleRestaurant(c, catalog)
    ensures WellFormed(AddAll(c, pids, catalog))
    ensures SingleRestaurant(AddAll(c, pids, catalog), catalog)
    ensures pids != [] ==> AddAll(c, pids, catalog).restaurant == Some(catalog[pids[|pids| - 1]].restaurant)
    decreases |pids|
  {
    if pids != [] {
      var next := AfterAdd(c, pids[0], catalog[pids[0]].restaurant);
      AddKeepsInvariants(c, catalog, pids[0]);
      AddAllSingleRestaurant(next, pids[1..], catalog);
      if |pids| > 1 {
        assert pids[1..][|pids[1..]| - 1] == pids[|pids| - 1];
      }
    }
  }

  /** Removing a product just added to a cart that did not hold it, and was not
      of another restaurant, gives back the cart as it was. */
  lemma AddThenRemove(c: CartValue, pid: Id, owner: Id)
    requires WellFormed(c)
    requires pid !in c.items && !Conflicts(c, owner)
    ensures AfterRemove(AfterAdd(c, pid, owner), pid) == c
  {
    var a := AfterAdd(c, pid, owner);
    assert a.items - {pid} == c.items;
  }

  /** The session cart. Each route reads it, changes it and stores it back. */
  class CartSession {
    var items: map<Id, nat>
    var restaurant: Option<Id>

    function Value(): CartValue
      reads this
    {
      CartValue(items, restaurant)
    }

    constructor ()
      ensures Value() == Empty
    {
      items := map[];
      restaurant := None;
    }

    /** `add_to_cart`. A product id missing from the catalogue is a 404. */
    method Add(catalog: map<Id, Product>, pid: Id) returns (o: AddOutcome)
      modifies this
      ensures pid !in catalog ==> o == ProductNotFound && Value() == old(Value())
      ensures pid in catalog ==>
        && Value() == AfterAdd(old(Value()), pid, catalog[pid].restaurant)
        && (o == CartReset <==> Conflicts(old(Value()), catalog[pid].restaurant))
        && o != ProductNotFound
    {
      if pid !in catalog {
        return ProductNotFound;
      }
      var product := catalog[pid];
      if restaurant.Some? && restaurant.value != product.restaurant {
        items := map[];
        restaurant := Some(product.restaurant);
        o := CartReset;
      } else {
        restaurant := Some(product.restaurant);
        o := Added;
      }
      if pid in items {
        items := items[pid := items[pid] + 1];
      } else {
        items := items[pid := 1];
      }
    }

    /** `remove_from_cart`; `found` tells which message is shown. */
    method Remove(pid: Id) returns (found: bool)
      modifies this
      ensures found == (pid in old(items))
      ensures Value() == AfterRemove(old(Value()), pid)
    {
      found := pid in items;
      if found {
        items := items - {pid};
        if items == map[] {
          restaurant := None;
        }
      }
    }

    /** `session.pop('cart')`: the next read sees the empty cart. */
    method Clear()
      modifies this
      ensures Value() == Empty
    {
      items := map[];
      restaurant := None;
    }
  }

  datatype AddOutcome = Added | CartReset | ProductNotFound
}

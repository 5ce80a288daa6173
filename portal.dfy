/** The restaurant portal's menu tables and the two routes that delete from
    them, plus the registration that turns a customer into a restaurant owner. */
module Portal {
  import opened Models
  import Orders

  /** What a delete request answers. */
  datatype DeleteOutcome =
    | Forbidden    // 403
    | NotFound     // 404
    | Crashed      // the account has no restaurant to compare with
    | InUse        // 500: an order item still refers to a product to delete, so
                   // the commit fails on its non-null product id
    | Deleted

  /** The checks of `delete_category` and `delete_product`, in their order:
      the role first, then the lookup (`itemOwner` is the found item's
      restaurant, None when there is no such item), then ownership. A delete gets past them exactly for a
      restaurant account whose restaurant owns the item; a non-owner account
      is refused whatever the item. */
  function DeleteGuard(role: Role, actorRestaurant: Option<Id>, itemOwner: Option<Id>): (r: DeleteOutcome)
    ensures r == Deleted <==> role == RestaurantOwner && itemOwner.Some? && actorRestaurant == itemOwner
    ensures r == NotFound <==> role == RestaurantOwner && itemOwner.None?
    ensures r == Crashed <==> role == RestaurantOwner && itemOwner.Some? && actorRestaurant.None?
    ensures role != RestaurantOwner ==> r == Forbidden
    ensures r != InUse
  {
    if role != RestaurantOwner then Forbidden
    else if itemOwner.None? then NotFound
    else if actorRestaurant.None? then Crashed
    else if itemOwner.value != actorRestaurant.value then Forbidden
    else Deleted
  }

  /** Some order item refers to product `pid`. The relation from order items
      to products has no delete cascade, so deleting such a product would null
      the item's product id. */
  predicate Ordered(orderItems: seq<Orders.OrderItem>, pid: Id)
  {
    exists i :: 0 <= i < |orderItems| && orderItems[i].product == pid
  }

  /** Some product of category `cid` has been ordered. */
  predicate CategoryOrdered(products: map<Id, Product>, orderItems: seq<Orders.OrderItem>, cid: Id)
  {
    exists p :: p in products && products[p].category == cid && Ordered(orderItems, p)
  }

  /** The products that survive deleting category `cid` (the relation's
      delete-orphan cascade). */
  function WithoutCategory(products: map<Id, Product>, cid: Id): (r: map<Id, Product>)
    ensures forall p :: p in r <==> p in products && products[p].category != cid
    ensures forall p :: p in r ==> r[p] == products[p]
  {
    map p | p in products && products[p].category != cid :: products[p]
  }

  /** Every product's category exists. */
  predicate Integrity(categories: map<Id, Category>, products: map<Id, Product>)
  {
    forall p :: p in products ==> products[p].category in categories
  }

  /** Thanks to the cascade, deleting a category leaves no product behind
      that refers to it. */
  lemma DeleteCategoryKeepsIntegrity(categories: map<Id, Category>, products: map<Id, Product>, cid: Id)
    requires Integrity(categories, products)
    ensures Integrity(categories - {cid}, WithoutCategory(products, cid))
  {
  }

  /** Deleting a product leaves every other product's category in place. */
  lemma DeleteProductKeepsIntegrity(categories: map<Id, Category>, products: map<Id, Product>, pid: Id)
    requires Integrity(categories, products)
    ensures Integrity(categories, products - {pid})
  {
  }

  /** Every order item refers to a product that exists. */
  predicate ItemsResolve(products: map<Id, Product>, orderItems: seq<Orders.OrderItem>)
  {
    forall i :: 0 <= i < |orderItems| ==> orderItems[i].product in products
  }

  /** A product delete that goes through leaves every order item resolvable. */
  lemma DeleteProductKeepsOrders(products: map<Id, Product>, orderItems: seq<Orders.OrderItem>, pid: Id)
    requires ItemsResolve(products, orderItems) && !Ordered(orderItems, pid)
    ensures ItemsResolve(products - {pid}, orderItems)
  {
  }

  /** So does a category delete that goes through, cascade included. */
  lemma DeleteCategoryKeepsOrders(products: map<Id, Product>, orderItems: seq<Orders.OrderItem>, cid: Id)
    requires ItemsResolve(products, orderItems) && !CategoryOrdered(products, orderItems, cid)
    ensures ItemsResolve(WithoutCategory(products, cid), orderItems)
  {
    forall i | 0 <= i < |orderItems|
      ensures orderItems[i].product in WithoutCategory(products, cid)
    {
      assert Ordered(orderItems, orderItems[i].product);
    }
  }

  /** The validated fields of the registration form. */
  datatype RestaurantForm = RestaurantForm(name: string, cnpj: string, fee: Money, prepMinutes: int)

  datatype RegisterOutcome =
    | AlreadyOwner       // redirect to the dashboard
    | FormShown          // GET, or a form that does not validate
    | Failed             // the commit failed and was rolled back
    | Registered(id: Id)

  /** The restaurant a registration creates: inactive, owned by the user. */
  function NewRestaurant(form: RestaurantForm, owner: Id): (r: Restaurant)
    ensures !r.active && r.owner == owner && r.fee == Some(form.fee)
    ensures r.name == form.name && r.cnpj == form.cnpj && r.prepMinutes == form.prepMinutes
  {
    Restaurant(form.name, form.cnpj, Some(form.fee), form.prepMinutes, owner, false)
  }

  /** The restaurants, categories and products tables. */
  class Catalogue {
    var restaurants: map<Id, Restaurant>
    var categories: map<Id, Category>
    var products: map<Id, Product>

    ghost predicate Valid()
      reads this
    {
      Integrity(categories, products)
    }

    constructor ()
      ensures Valid()
      ensures restaurants == map[] && categories == map[] && products == map[]
    {
      restaurants := map[];
      categories := map[];
      products := map[];
    }

    /** `delete_category`: an owned category goes, with its products, unless
        one of those products has been ordered. `orderItems` is the
        order-items table. */
    method DeleteCategory(actor: User, cid: Id, orderItems: seq<Orders.OrderItem>) returns (o: DeleteOutcome)
      requires Valid()
      modifies this`categories, this`products
      ensures Valid()
      ensures var g := DeleteGuard(actor.role, actor.restaurant,
                                   if cid in old(categories) then Some(old(categories)[cid].restaurant) else None);
        && (g != Deleted ==> o == g)
        && (g == Deleted ==> o == if CategoryOrdered(old(products), orderItems, cid) then InUse else Deleted)
      ensures o == Deleted ==>
        categories == old(categories) - {cid} && products == WithoutCategory(old(products), cid)
      ensures o != Deleted ==> categories == old(categories) && products == old(products)
    {
      if actor.role != RestaurantOwner {
        return Forbidden;
      }
      if cid !in categories {
        return NotFound;
      }
      if actor.restaurant.None? {
        return Crashed;
      }
      if categories[cid].restaurant != actor.restaurant.value {
        return Forbidden;
      }
      if CategoryOrdered(products, orderItems, cid) {
        return InUse;
      }
      DeleteCategoryKeepsIntegrity(categories, products, cid);
      categories := categories - {cid};
      products := WithoutCategory(products, cid);
      o := Deleted;
    }

    /** `delete_product`: an owned product goes, and nothing else, unless it
        has been ordered. `orderItems` is the order-items table. */
    method DeleteProduct(actor: User, pid: Id, orderItems: seq<Orders.OrderItem>) returns (o: DeleteOutcome)
      requires Valid()
      modifies this`products
      ensures Valid()
      ensures var g := DeleteGuard(actor.role, actor.restaurant,
                                   if pid in old(products) then Some(old(products)[pid].restaurant) else None);
        && (g != Deleted ==> o == g)
        && (g == Deleted ==> o == if Ordered(orderItems, pid) then InUse else Deleted)
      ensures o == Deleted ==> products == old(products) - {pid}
      ensures o != Deleted ==> products == old(products)
    {
      if actor.role != RestaurantOwner {
        return Forbidden;
      }
      if pid !in products {
        return NotFound;
      }
      if actor.restaurant.None? {
        return Crashed;
      }
      if products[pid].restaurant != actor.restaurant.value {
        return Forbidden;
      }
      if Ordered(orderItems, pid) {
        return InUse;
      }
      products := products - {pid};
      o := Deleted;
    }

    /** `register` (restaurant). `form` holds the validated fields (None for a
      GET or an invalid form), `newId` the id the database assigns and
      `commitOk` whether the commit succeeded; a failed commit is rolled
      back, the role included. */
    method Register(actor: User, form: Option<RestaurantForm>, newId: Id, commitOk: bool)
      returns (o: RegisterOutcome)
      requires newId !in restaurants
      modifies this`restaurants, actor`role, actor`restaurant
      ensures o.Registered? <==> old(actor.role) != RestaurantOwner && form.Some? && commitOk
      ensures o.Registered? ==>
        && form.Some? && o.id == newId
        && restaurants == old(restaurants)[newId := NewRestaurant(form.value, actor.id)]
        && actor.role == RestaurantOwner && actor.restaurant == Some(newId)
      ensures old(actor.role) == RestaurantOwner ==> o == AlreadyOwner
      ensures old(actor.role) != RestaurantOwner && form.None? ==> o == FormShown
      ensures old(actor.role) != RestaurantOwner && form.Some? && !commitOk ==> o == Failed
      ensures !o.Registered? ==>
        restaurants == old(restaurants) && actor.role == old(actor.role) && actor.restaurant == old(actor.restaurant)
    {
      if actor.role == RestaurantOwner {
        return AlreadyOwner;
      }
      if form.None? {
        return FormShown;
      }
      if !commitOk {
        return Failed;
      }
      restaurants := restaurants[newId := NewRestaurant(form.value, actor.id)];
      actor.role := RestaurantOwner;
      actor.restaurant := Some(newId);
      o := Registered(newId);
    }
  }
}

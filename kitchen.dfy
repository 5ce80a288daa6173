/** The restaurant's order board: the status flow an owner moves an order
    along, one step per submission, and the list of orders still open. */
module Kitchen {
  import opened Models
  import opened Orders

  /** `STATUS_FLUXO`. */
  const Flow: seq<Status> := [Received, InPreparation, InDelivery, Completed]

  /** `STATUS_FLUXO.index(status)`: the position in the flow, or None where
      the lookup raises `ValueError`. */
  function FlowIndex(s: Status): (r: Option<nat>)
    ensures r.Some? ==> r.value < |Flow| && Flow[r.value] == s
    ensures r.None? ==> s !in Flow
  {
    match s
    case Received => Some(0)
    case InPreparation => Some(1)
    case InDelivery => Some(2)
    case Completed => Some(3)
    case _ => None
  }

  /** The status after one submission of the advance button: a status outside
      the flow stays, one inside moves to the next position, the last one
      included, which stays. */
  function Advance(s: Status): (r: Status)
    ensures FlowIndex(s).None? ==> r == s
    ensures FlowIndex(s).Some? ==> FlowIndex(r) == Some(Min(FlowIndex(s).value + 1, |Flow| - 1))
  {
    match FlowIndex(s)
    case Some(i) => if i < |Flow| - 1 then Flow[i + 1] else s
    case None => s
  }

  /** One step forward from any status before the last. */
  lemma AdvanceOneStep(s: Status, i: nat)
    requires FlowIndex(s) == Some(i) && i < |Flow| - 1
    ensures FlowIndex(Advance(s)) == Some(i + 1)
    ensures Advance(s) == Flow[i + 1]
  {
  }

  /** 'Concluído' is final. */
  lemma AdvanceFinal()
    ensures Advance(Completed) == Completed
  {
  }

  /** A status outside the flow ('Pendente de Pagamento', 'Cancelado', any
      other string) is left as it is. */
  lemma AdvanceOutsideFlow(s: Status)
    requires s !in Flow
    ensures Advance(s) == s
  {
  }

  /** The position in the flow never goes down, and rises by at most one. */
  lemma AdvanceNeverDecreases(s: Status, i: nat)
    requires FlowIndex(s) == Some(i)
    ensures FlowIndex(Advance(s)).Some?
    ensures i <= FlowIndex(Advance(s)).value <= i + 1
  {
  }

  /** `n` submissions in a row. */
  function AdvanceTimes(s: Status, n: nat): Status
    decreases n
  {
    if n == 0 then s else AdvanceTimes(Advance(s), n - 1)
  }

  function Min(a: nat, b: nat): nat
  {
    if a <= b then a else b
  }

  /** After `n` submissions an order at position `i` is at `min(i + n, 3)`. */
  lemma {:induction false} AdvanceTimesIndex(s: Status, i: nat, n: nat)
    requires FlowIndex(s) == Some(i)
    ensures FlowIndex(AdvanceTimes(s, n)) == Some(Min(i + n, |Flow| - 1))
    decreases n
  {
    if n > 0 {
      if i < |Flow| - 1 {
        AdvanceOneStep(s, i);
        AdvanceTimesIndex(Advance(s), i + 1, n - 1);
      } else {
        AdvanceTimesIndex(Advance(s), i, n - 1);
      }
    }
  }

  /** From 'Recebido', three submissions reach 'Concluído', and so does any
      larger number. */
  lemma ReceivedReachesCompleted(n: nat)
    requires n >= 3
    ensures AdvanceTimes(Received, n) == Completed
  {
    AdvanceTimesIndex(Received, 0, n);
  }

  /** What the page reports after a status submission. */
  datatype KitchenOutcome =
    | Forbidden                  // 403: not a restaurant account
    | Crashed                    // the account has no restaurant
    | ListShown                  // GET, or a form that does not validate
    | Ignored                    // no such order, or another restaurant's
    | Moved(to: Status)          // advanced and committed
    | AlreadyFinal               // 'Concluído': informational message
    | NotAdvanceable             // status outside the flow

  /** The message for a submission on an owned order in status `s`. */
  function StepOutcome(s: Status): (o: KitchenOutcome)
    ensures o.Moved? <==> Advance(s) != s
    ensures o.Moved? ==> o.to == Advance(s)
    ensures o == AlreadyFinal <==> s == Completed
    ensures o == NotAdvanceable <==> s !in Flow
  {
    match FlowIndex(s)
    case Some(i) => if i < |Flow| - 1 then Moved(Flow[i + 1]) else AlreadyFinal
    case None => NotAdvanceable
  }

  /** The order exists and belongs to restaurant `rid`. */
  predicate Owned(orders: map<Id, Order>, id: Id, rid: Id)
  {
    id in orders && orders[id].restaurant == rid
  }

  /** The status form of a request: absent or not validating (a GET, say),
      or validated, with the `pedido_id` field it carried if it carried one. */
  datatype StatusForm = NoForm | Validated(orderId: Option<Id>)

  /** The orders a submission of `form` may change. */
  function Target(orders: map<Id, Order>, form: StatusForm): set<Order>
  {
    if form.Validated? && form.orderId.Some? && form.orderId.value in orders
    then {orders[form.orderId.value]} else {}
  }

  /** `manage_orders`. A validated form without a `pedido_id` looks up no
      order and is ignored like an unknown one. Only the status of the
      submitted order can change: its PIN and the other orders are framed
      out. */
  method ManageOrders(actor: User, ledger: Ledger, form: StatusForm) returns (o: KitchenOutcome)
    requires ledger.Valid()
    modifies Target(ledger.orders, form)`status
    ensures ledger.Valid()
    ensures actor.role != RestaurantOwner ==> o == Forbidden
    ensures actor.role == RestaurantOwner && actor.restaurant.None? ==> o == Crashed
    ensures actor.role == RestaurantOwner && actor.restaurant.Some? ==>
      && (form.NoForm? ==> o == ListShown)
      && (form.Validated? && !(form.orderId.Some? && Owned(ledger.orders, form.orderId.value, actor.restaurant.value)) ==>
            o == Ignored)
      && (form.Validated? && form.orderId.Some? && Owned(ledger.orders, form.orderId.value, actor.restaurant.value) ==>
            var order := ledger.orders[form.orderId.value];
            order.status == Advance(old(order.status)) && o == StepOutcome(old(order.status)))
    ensures forall order :: order in Target(ledger.orders, form) && !o.Moved? ==> order.status == old(order.status)
  {
    if actor.role != RestaurantOwner {
      return Forbidden;
    }
    if actor.restaurant.None? {
      return Crashed;
    }
    var rid := actor.restaurant.value;
    if form.NoForm? {
      return ListShown;
    }
    if form.orderId.None? {
      return Ignored;
    }
    var id := form.orderId.value;
    if id !in ledger.orders || ledger.orders[id].restaurant != rid {
      return Ignored;
    }
    var order := ledger.orders[id];
    var index := FlowIndex(order.status);
    if index.None? {
      o := NotAdvanceable;
    } else if index.value < |Flow| - 1 {
      order.status := Flow[index.value + 1];
      o := Moved(order.status);
    } else {
      o := AlreadyFinal;
    }
  }

  /** An order stays on the board until it is 'Concluído' or 'Cancelado'. So an
      order in the flow is open exactly while it can still be advanced, and an
      order still waiting for payment is on the board as well. */
  predicate Open(s: Status)
    ensures FlowIndex(s).Some? ==> (Open(s) <==> FlowIndex(s).value < |Flow| - 1)
    ensures s == PendingPayment ==> Open(s)
  {
    s != Completed && s != Cancelled
  }

  /** The creation time of every order. */
  function CreatedAt(orders: map<Id, Order>): (r: map<Id, int>)
    ensures r.Keys == orders.Keys
    ensures forall id :: id in orders ==> r[id] == orders[id].createdAt
  {
    map id | id in orders :: orders[id].createdAt
  }

  /** `m` was created no earlier than any order of `ids`. */
  predicate IsNewest(m: Id, ids: set<Id>, created: map<Id, int>)
    requires ids <= created.Keys
  {
    m in ids && forall x :: x in ids ==> created[x] <= created[m]
  }

  /** A non-empty set of orders has a newest one. */
  lemma {:induction false} NewestExists(ids: set<Id>, created: map<Id, int>)
    requires ids != {} && ids <= created.Keys
    ensures exists m :: IsNewest(m, ids, created)
    decreases ids
  {
    var y :| y in ids;
    var rest := ids - {y};
    if rest == {} {
      assert ids == {y};
      assert IsNewest(y, ids, created);
    } else {
      NewestExists(rest, created);
      var m :| IsNewest(m, rest, created);
      if created[y] <= created[m] {
        assert IsNewest(m, ids, created);
      } else {
        assert IsNewest(y, ids, created);
      }
    }
  }

  /** The orders of `ids`, each once, newest first (`order_by(data_criacao.desc())`;
      ties in creation time may come in any order). */
  ghost function NewestFirst(ids: set<Id>, created: map<Id, int>): (r: seq<Id>)
    requires ids <= created.Keys
    ensures forall x :: x in r <==> x in ids
    ensures forall i, j :: 0 <= i < j < |r| ==> r[i] != r[j]
    ensures forall i, j :: 0 <= i < j < |r| ==> created[r[i]] >= created[r[j]]
    decreases ids
  {
    if ids == {} then []
    else
      NewestExists(ids, created);
      var m :| IsNewest(m, ids, created);
      var rest := NewestFirst(ids - {m}, created);
      assert forall j :: 0 <= j < |rest| ==> rest[j] in ids - {m};
      NewestThenRest(m, rest, ids, created);
      [m] + rest
  }

  /** The newest order followed by the others, newest first, is the whole
      set newest first. */
  lemma NewestThenRest(m: Id, rest: seq<Id>, ids: set<Id>, created: map<Id, int>)
    requires ids <= created.Keys && IsNewest(m, ids, created)
    requires forall x :: x in rest <==> x in ids - {m}
    requires forall i, j :: 0 <= i < j < |rest| ==> rest[i] != rest[j]
    requires forall j :: 0 <= j < |rest| ==> rest[j] in created
    requires forall i, j :: 0 <= i < j < |rest| ==> created[rest[i]] >= created[rest[j]]
    ensures forall x :: x in [m] + rest <==> x in ids
    ensures forall i, j :: 0 <= i < j < |[m] + rest| ==> ([m] + rest)[i] != ([m] + rest)[j]
    ensures forall i, j :: 0 <= i < j < |[m] + rest| ==> created[([m] + rest)[i]] >= created[([m] + rest)[j]]
  {
    var r := [m] + rest;
    assert forall j :: 0 < j < |r| ==> r[j] == rest[j - 1];
  }

  /** The board of restaurant `rid`: exactly its open orders, each once,
      newest first. The statuses are as read from the status column, so the
      test against 'Concluído' and 'Cancelado' is the query's string test. */
  ghost function KitchenList(orders: map<Id, Order>, rid: Id): (r: seq<Id>)
    requires forall id :: id in orders ==> Canonical(orders[id].status)
    reads set id | id in orders :: orders[id]
    ensures forall x :: x in r <==> x in orders && orders[x].restaurant == rid && Open(orders[x].status)
    ensures forall i, j :: 0 <= i < j < |r| ==> r[i] != r[j]
    ensures forall i, j :: 0 <= i < j < |r| ==> r[i] in orders && r[j] in orders
                                                && orders[r[i]].createdAt >= orders[r[j]].createdAt
  {
    var ids := set id | id in orders && orders[id].restaurant == rid && Open(orders[id].status);
    NewestFirst(ids, CreatedAt(orders))
  }
}

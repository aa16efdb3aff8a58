/**
 * src/app/api/webhook/route.ts: the payment provider's notification that a
 * checkout completed. For every cart row whose id is listed in the session
 * metadata one completed order is created, and then the listed rows are
 * deleted. There is no transaction and no record of the checkout itself: the
 * metadata is trusted as it is, and the cart rows are the only memory of what
 * was bought.
 */
module Webhook {
  import opened Wrappers
  import opened Schema
  import opened Http
  import opened Store
  import Text
  import Seqs
  import Cart
  import Checkout

  const CompletedEvent := "checkout.session.completed"

  /** The verified event: its type and the session's `userId` and `cartItemIds` metadata (absent when unset). */
  datatype Event = Event(kind: string, userId: Option<string>, cartItemIds: Option<string>)

  /** The outcome of one delivery: the status answered and the tables afterwards. */
  datatype Outcome = Outcome(status: int, tables: Tables)

  function IdIn(ids: set<Id>): CartItem -> bool {
    (c: CartItem) => c.id in ids
  }

  function IdSet(ids: seq<Id>): set<Id> {
    set i | i in ids
  }

  /** `findMany({ where: { id: { in: ids } } })`: the listed rows, whoever owns them, in table order. */
  function ListedRows(cart: seq<CartItem>, ids: set<Id>): (r: seq<CartItem>)
    ensures forall c :: c in r <==> c in cart && c.id in ids
  {
    Seqs.Filter(cart, IdIn(ids))
  }

  /** The current price of a row's product. */
  function PriceOf(products: seq<Product>, c: CartItem): (r: real)
    requires RowOk(c, products)
    ensures exists p :: p in products && p.id == c.productId && p.price == r
  {
    FindProduct(products, c.productId).value.price
  }

  /** The order created for one cart row. */
  function OrderFor(c: CartItem, products: seq<Product>, userId: Id, now: Time, id: Id): Order
    requires RowOk(c, products)
  {
    var price := PriceOf(products, c);
    Order(id, userId, [OrderItem(c.productId, c.quantity, price)], "completed", price * c.quantity as real, now)
  }

  /** The orders the handler asks to create, the `k`-th with the id `mint(k)` the database assigns. */
  function OrdersFor(rows: seq<CartItem>, products: seq<Product>, userId: Id, now: Time, mint: nat -> Id)
    : (r: seq<Order>)
    requires forall c :: c in rows ==> RowOk(c, products)
    ensures |r| == |rows|
  {
    seq(|rows|, k requires 0 <= k < |rows| => OrderFor(rows[k], products, userId, now, mint(k)))
  }

  /**
   * The `Promise.all` of creates, taken one after another: a create whose id
   * is already taken fails, which makes the whole call throw, but the other
   * creates still land. The result is the orders table and whether a create failed.
   */
  function Fanout(orders: seq<Order>, pending: seq<Order>, failed: bool): (r: (seq<Order>, bool))
    ensures orders <= r.0
    ensures failed ==> r.1
    ensures forall o :: o in r.0 ==> o in orders || o in pending
    ensures UniqueOrderIds(orders) ==> UniqueOrderIds(r.0)
    decreases |pending|
  {
    if pending == [] then (orders, failed)
    else if pending[0].id in OrderIds(orders) then
      var r := Fanout(orders, pending[1..], true);
      assert forall o :: o in pending[1..] ==> o in pending;
      r
    else
      var grown := orders + [pending[0]];
      assert UniqueOrderIds(orders) ==> UniqueOrderIds(grown) by {
        if UniqueOrderIds(orders) {
          AppendFreshOrder(orders, pending[0]);
        }
      }
      var r := Fanout(grown, pending[1..], failed);
      assert forall o :: o in pending[1..] ==> o in pending;
      r
  }

  /** Appending an order whose id is not taken keeps the ids unique. */
  lemma AppendFreshOrder(orders: seq<Order>, o: Order)
    requires UniqueOrderIds(orders) && o.id !in OrderIds(orders)
    ensures UniqueOrderIds(orders + [o])
  {
    var grown := orders + [o];
    forall i, j | 0 <= i < j < |grown| ensures grown[i].id != grown[j].id {
      if j == |orders| {
        assert grown[i] in orders;
      }
    }
  }

  /** One create: a taken id marks the fan-out failed, a fresh one appends the order. */
  lemma FanoutStep(orders: seq<Order>, pending: seq<Order>, failed: bool)
    requires pending != []
    ensures Fanout(orders, pending, failed)
            == if pending[0].id in OrderIds(orders) then Fanout(orders, pending[1..], true)
               else Fanout(orders + [pending[0]], pending[1..], failed)
  {
  }

  lemma OrderIdsSnoc(orders: seq<Order>, o: Order)
    ensures OrderIds(orders + [o]) == OrderIds(orders) + {o.id}
  {
    assert forall x :: x in orders + [o] <==> x in orders || x == o;
  }

  /** Ids fresh for the table and distinct among themselves. */
  predicate FreshIds(orders: seq<Order>, pending: seq<Order>) {
    && (forall i :: 0 <= i < |pending| ==> pending[i].id !in OrderIds(orders))
    && (forall i, j :: 0 <= i < j < |pending| ==> pending[i].id != pending[j].id)
  }

  /** Once the first create lands, the rest are still fresh. */
  lemma FreshIdsTail(orders: seq<Order>, pending: seq<Order>)
    requires pending != [] && FreshIds(orders, pending)
    ensures FreshIds(orders + [pending[0]], pending[1..])
  {
    var rest := pending[1..];
    OrderIdsSnoc(orders, pending[0]);
    forall i | 0 <= i < |rest| ensures rest[i].id !in OrderIds(orders + [pending[0]]) {
      assert rest[i] == pending[i + 1];
    }
    forall i, j | 0 <= i < j < |rest| ensures rest[i].id != rest[j].id {
      assert rest[i] == pending[i + 1] && rest[j] == pending[j + 1];
    }
  }

  /** With ids that are fresh and distinct, every create lands and none fails. */
  lemma {:induction false} FanoutFresh(orders: seq<Order>, pending: seq<Order>, failed: bool)
    requires FreshIds(orders, pending)
    ensures Fanout(orders, pending, failed) == (orders + pending, failed)
    decreases |pending|
  {
    if pending != [] {
      var o, rest := pending[0], pending[1..];
      FanoutStep(orders, pending, failed);
      FreshIdsTail(orders, pending);
      FanoutFresh(orders + [o], rest, failed);
      Seqs.SnocThenAppend(orders, pending);
    } else {
      assert orders + pending == orders;
    }
  }

  /** A create whose id is already in the table makes the fan-out fail. */
  lemma {:induction false} FanoutTaken(orders: seq<Order>, pending: seq<Order>, failed: bool, i: nat)
    requires i < |pending| && pending[i].id in OrderIds(orders)
    ensures Fanout(orders, pending, failed).1
    decreases |pending|
  {
    if i > 0 {
      FanoutStep(orders, pending, failed);
      var taken := pending[0].id in OrderIds(orders);
      var grown := if taken then orders else orders + [pending[0]];
      OrderIdsSnoc(orders, pending[0]);
      assert pending[1..][i - 1] == pending[i];
      FanoutTaken(grown, pending[1..], taken || failed, i - 1);
    }
  }

  /** A fan-out in which no create failed appended every pending order, in order. */
  lemma {:induction false} FanoutNoFailure(orders: seq<Order>, pending: seq<Order>, failed: bool)
    requires !Fanout(orders, pending, failed).1
    ensures Fanout(orders, pending, failed).0 == orders + pending
    decreases |pending|
  {
    if pending == [] {
      assert orders + pending == orders;
    } else {
      FanoutStep(orders, pending, failed);
      FanoutNoFailure(orders + [pending[0]], pending[1..], failed);
      Seqs.SnocThenAppend(orders, pending);
    }
  }

  /** The ids listed in the metadata. */
  function Listed(e: Event): set<Id>
    requires e.cartItemIds.Some?
  {
    IdSet(Text.Split(e.cartItemIds.value, ','))
  }

  /** What one delivery does to the tables. */
  function Handle(t: Tables, signature: Option<string>, event: Option<Event>, now: Time, mint: nat -> Id)
    : (r: Outcome)
    requires CartWellFormed(t.cartItems, t.products)
    ensures r.status == OK || r.status == BadRequest
    ensures !Truthy(signature) || event.None? ==> r == Outcome(BadRequest, t)
    ensures Truthy(signature) && event.Some? && event.value.kind != CompletedEvent ==> r == Outcome(OK, t)
    ensures Truthy(signature) && event.Some? && event.value.kind == CompletedEvent
            && !(Truthy(event.value.userId) && Truthy(event.value.cartItemIds))
            ==> r == Outcome(BadRequest, t)
    ensures Truthy(signature) && event.Some? && event.value.kind == CompletedEvent && r.status == OK
            ==> && Truthy(event.value.userId) && Truthy(event.value.cartItemIds)
                && var ids := Listed(event.value);
                   && r.tables.orders == t.orders + OrdersFor(ListedRows(t.cartItems, ids), t.products,
                                                              event.value.userId.value, now, mint)
                   && r.tables.cartItems == Cart.RemoveIds(t.cartItems, ids)
    ensures r.tables == t.(orders := r.tables.orders, cartItems := r.tables.cartItems)
    ensures t.orders <= r.tables.orders
    ensures r.status != OK ==> r.tables.cartItems == t.cartItems
    ensures CartWellFormed(r.tables.cartItems, r.tables.products)
    ensures Consistent(t) ==> Consistent(r.tables)
  {
    if !Truthy(signature) || event.None? then Outcome(BadRequest, t)
    else if event.value.kind != CompletedEvent then Outcome(OK, t)
    else if !Truthy(event.value.userId) || !Truthy(event.value.cartItemIds) then Outcome(BadRequest, t)
    else
      var ids := Listed(event.value);
      var pending := OrdersFor(ListedRows(t.cartItems, ids), t.products, event.value.userId.value, now, mint);
      var created := Fanout(t.orders, pending, false);
      if created.1 then Outcome(BadRequest, t.(orders := created.0))
      else
        FanoutNoFailure(t.orders, pending, false);
        Cart.RemoveIdsWellFormed(t.cartItems, t.products, ids);
        Outcome(OK, t.(orders := created.0, cartItems := Cart.RemoveIds(t.cartItems, ids)))
  }

  /** POST: one delivery of a provider notification; `event` is `None` when signature verification throws. */
  method Post(db: Db, signature: Option<string>, event: Option<Event>, now: Time, mint: nat -> Id)
    returns (r: Reply<()>)
    requires db.Valid()
    modifies db
    ensures db.Valid()
    ensures Outcome(r.status, db.Snapshot()) == Handle(old(db.Snapshot()), signature, event, now, mint)
  {
    if !Truthy(signature) {
      return Fail(BadRequest);
    }
    if event.None? {
      return Fail(BadRequest);
    }
    var e := event.value;
    if e.kind != CompletedEvent {
      return Reply(OK, None);
    }
    if !Truthy(e.userId) || !Truthy(e.cartItemIds) {
      // "Missing metadata" is thrown and answered with 400
      return Fail(BadRequest);
    }
    var ids := Listed(e);
    var rows := ListedRows(db.cartItems, ids);
    ghost var pending := OrdersFor(rows, db.products, e.userId.value, now, mint);
    var failed := false;
    var k := 0;
    while k < |rows|
      invariant 0 <= k <= |rows|
      invariant db.Snapshot() == old(db.Snapshot()).(orders := db.orders)
      invariant Fanout(db.orders, pending[k..], failed) == Fanout(old(db.orders), pending, false)
    {
      var order := OrderFor(rows[k], db.products, e.userId.value, now, mint(k));
      assert pending[k..][0] == order && pending[k..][1..] == pending[k + 1..];
      FanoutStep(db.orders, pending[k..], failed);
      if order.id in OrderIds(db.orders) {
        failed := true;
      } else {
        db.orders := db.orders + [order];
      }
      k := k + 1;
    }
    if failed {
      return Fail(BadRequest);
    }
    Cart.RemoveIdsWellFormed(db.cartItems, db.products, ids);
    db.cartItems := Cart.RemoveIds(db.cartItems, ids);
    r := Reply(OK, None);
  }

  // ---- Properties of a delivery ----

  /**
   * A completed delivery whose metadata is present and whose minted ids are
   * fresh and distinct succeeds: it appends one order per listed row to the
   * orders and deletes exactly the listed rows from the cart.
   */
  lemma DeliveryOutcome(t: Tables, signature: Option<string>, e: Event, now: Time, mint: nat -> Id)
    requires CartWellFormed(t.cartItems, t.products)
    requires Truthy(signature) && e.kind == CompletedEvent && Truthy(e.userId) && Truthy(e.cartItemIds)
    requires FreshIds(t.orders, OrdersFor(ListedRows(t.cartItems, Listed(e)), t.products, e.userId.value, now, mint))
    ensures var r := Handle(t, signature, Some(e), now, mint);
            var ids := Listed(e);
            && r.status == OK
            && r.tables == t.(orders := t.orders + OrdersFor(ListedRows(t.cartItems, ids), t.products,
                                                             e.userId.value, now, mint),
                              cartItems := Cart.RemoveIds(t.cartItems, ids))
  {
    var pending := OrdersFor(ListedRows(t.cartItems, Listed(e)), t.products, e.userId.value, now, mint);
    FanoutFresh(t.orders, pending, false);
  }

  /**
   * `o` is the completed order for cart row `c`: it belongs to `userId`, holds
   * one item with the row's product, quantity and that product's current
   * price, and totals price times quantity.
   */
  predicate CompletedOrderFor(o: Order, c: CartItem, products: seq<Product>, userId: Id, now: Time, id: Id) {
    exists p :: p in products && p.id == c.productId
      && o == Order(id, userId, [OrderItem(c.productId, c.quantity, p.price)], "completed",
                    p.price * c.quantity as real, now)
  }

  /**
   * One order per listed row, in table order: the `k`-th order belongs to the
   * metadata user, is completed, and holds one item with the row's product,
   * quantity and current price, for a total of price times quantity.
   */
  lemma OneOrderPerListedRow(cart: seq<CartItem>, products: seq<Product>, ids: set<Id>, userId: Id,
                             now: Time, mint: nat -> Id)
    requires CartWellFormed(cart, products)
    ensures var rows := ListedRows(cart, ids);
            var orders := OrdersFor(rows, products, userId, now, mint);
            && |orders| == |rows|
            && (forall c :: c in cart && c.id in ids <==> c in rows)
            && forall k :: 0 <= k < |orders| ==> CompletedOrderFor(orders[k], rows[k], products, userId, now, mint(k))
  {
    var rows := ListedRows(cart, ids);
    var orders := OrdersFor(rows, products, userId, now, mint);
    forall k | 0 <= k < |orders| ensures CompletedOrderFor(orders[k], rows[k], products, userId, now, mint(k)) {
      var c := rows[k];
      assert c in rows;
      var p := FindProduct(products, c.productId).value;
      assert orders[k] == OrderFor(c, products, userId, now, mint(k));
      assert p in products && p.id == c.productId;
    }
  }


  /**
   * Replaying a delivery that succeeded changes nothing: the listed rows are
   * gone, so no order is created and nothing is left to delete.
   */
  lemma ReplayChangesNothing(t: Tables, signature: Option<string>, event: Option<Event>, now: Time,
                             mint: nat -> Id, later: Time, mint2: nat -> Id)
    requires CartWellFormed(t.cartItems, t.products)
    requires Handle(t, signature, event, now, mint).status == OK
    ensures var t2 := Handle(t, signature, event, now, mint).tables;
            Handle(t2, signature, event, later, mint2) == Outcome(OK, t2)
  {
    var t2 := Handle(t, signature, event, now, mint).tables;
    if event.value.kind == CompletedEvent {
      var e := event.value;
      var ids := Listed(e);
      Seqs.FilterNone(t2.cartItems, IdIn(ids));
      assert OrdersFor([], t2.products, e.userId.value, later, mint2) == [];
      Seqs.FilterAll(t2.cartItems, Cart.IdNotIn(ids));
    }
  }

  /** A delivery that failed after creating orders leaves every listed row in place for the redelivery. */
  lemma FailedDeliveryKeepsRows(t: Tables, signature: Option<string>, event: Option<Event>, now: Time,
                                mint: nat -> Id)
    requires CartWellFormed(t.cartItems, t.products)
    requires Truthy(signature) && event.Some? && event.value.kind == CompletedEvent
    requires Truthy(event.value.userId) && Truthy(event.value.cartItemIds)
    requires Handle(t, signature, event, now, mint).status == BadRequest
    ensures var t2 := Handle(t, signature, event, now, mint).tables;
            ListedRows(t2.cartItems, Listed(event.value)) == ListedRows(t.cartItems, Listed(event.value))
  {
  }

  /** The rows a checkout's metadata lists are exactly the buyer's cart rows. */
  lemma ListedRowsAreOwned(t: Tables, userId: Id)
    requires Consistent(t)
    requires forall c :: c in t.cartItems ==> ',' !in c.id
    requires Cart.LinesOf(t.cartItems, t.products, userId) != []
    ensures var meta := Checkout.MetadataOf(userId, Cart.LinesOf(t.cartItems, t.products, userId));
            ListedRows(t.cartItems, IdSet(Text.Split(meta.cartItemIds, ','))) == Cart.RowsOf(t.cartItems, userId)
  {
    var cart := t.cartItems;
    var lines := Cart.LinesOf(cart, t.products, userId);
    var meta := Checkout.MetadataOf(userId, lines);
    forall i | 0 <= i < |lines| ensures ',' !in lines[i].item.id {
      assert lines[i].item in cart;
    }
    Checkout.MetadataRoundTrip(userId, lines);
    var ids := IdSet(Checkout.RowIds(lines));
    assert IdSet(Text.Split(meta.cartItemIds, ',')) == ids;
    forall c | c in cart ensures IdIn(ids)(c) == Cart.OwnedBy(userId)(c) {
      if c.id in ids {
        assert c.id in Checkout.RowIds(lines);
        var i :| 0 <= i < |lines| && Checkout.RowIds(lines)[i] == c.id;
        SameIdSameRow(cart, t.products, c, lines[i].item);
      }
      if c.userId == userId {
        var i :| 0 <= i < |lines| && lines[i].item == c;
        assert Checkout.RowIds(lines)[i] == c.id;
      }
    }
    Seqs.FilterCongruent(cart, IdIn(ids), Cart.OwnedBy(userId));
  }

  /** The order created for one row costs what checkout charges for that row before discounts. */
  lemma OrderCostsLine(c: CartItem, line: Cart.CartLine, products: seq<Product>, userId: Id, now: Time, id: Id)
    requires UniqueProductIds(products) && RowOk(c, products)
    requires line.item == c && line.product in products && line.product.id == c.productId
    ensures OrderFor(c, products, userId, now, id).totalPrice == Checkout.LineCost(line)
  {
    SameIdSameProduct(products, line.product, FindProduct(products, c.productId).value);
  }

  /** The orders created for the buyer's rows cost, together, the checkout's subtotal of those rows. */
  lemma OrdersCostSubtotal(t: Tables, userId: Id, now: Time, mint: nat -> Id)
    requires Consistent(t)
    ensures Seqs.SumOf(OrdersFor(Cart.RowsOf(t.cartItems, userId), t.products, userId, now, mint), TotalPriceOf)
            == Checkout.Subtotal(Cart.LinesOf(t.cartItems, t.products, userId))
  {
    var lines := Cart.LinesOf(t.cartItems, t.products, userId);
    var rows := Cart.RowsOf(t.cartItems, userId);
    assert lines == Cart.WithProducts(rows, t.products);
    var orders := OrdersFor(rows, t.products, userId, now, mint);
    forall k | 0 <= k < |orders| ensures TotalPriceOf(orders[k]) == Checkout.LineCost(lines[k]) {
      assert rows[k] in rows;
      OrderCostsLine(rows[k], lines[k], t.products, userId, now, mint(k));
    }
    Seqs.SumOfPointwise(orders, TotalPriceOf, lines, Checkout.LineCost);
  }

  /**
   * Checkout and delivery reconcile: when the metadata was written by a
   * checkout of the same cart, the listed rows are exactly the buyer's rows,
   * and the created orders' totals add up to the undiscounted subtotal the
   * checkout computed.
   */
  lemma OrdersMatchCheckout(t: Tables, userId: Id, now: Time, mint: nat -> Id)
    requires Consistent(t)
    requires forall c :: c in t.cartItems ==> ',' !in c.id
    requires Cart.LinesOf(t.cartItems, t.products, userId) != []
    ensures var lines := Cart.LinesOf(t.cartItems, t.products, userId);
            var meta := Checkout.MetadataOf(userId, lines);
            var rows := ListedRows(t.cartItems, IdSet(Text.Split(meta.cartItemIds, ',')));
            && rows == Cart.RowsOf(t.cartItems, userId)
            && Seqs.SumOf(OrdersFor(rows, t.products, meta.userId, now, mint), TotalPriceOf)
               == Checkout.Subtotal(lines)
  {
    ListedRowsAreOwned(t, userId);
    OrdersCostSubtotal(t, userId, now, mint);
  }

  lemma SameIdSameProduct(products: seq<Product>, a: Product, b: Product)
    requires UniqueProductIds(products)
    requires a in products && b in products && a.id == b.id
    ensures a == b
  {
    var i :| 0 <= i < |products| && products[i] == a;
    var j :| 0 <= j < |products| && products[j] == b;
    assert i == j;
  }

  /** Cart ids are unique: two rows of a well-formed cart with the same id are the same row. */
  lemma SameIdSameRow(cart: seq<CartItem>, products: seq<Product>, a: CartItem, b: CartItem)
    requires CartWellFormed(cart, products)
    requires a in cart && b in cart && a.id == b.id
    ensures a == b
  {
    var i :| 0 <= i < |cart| && cart[i] == a;
    var j :| 0 <= j < |cart| && cart[j] == b;
    assert i == j;
  }
}

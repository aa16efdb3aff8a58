/**
 * src/app/api/orders/route.ts: the caller's orders, newest first, and the
 * direct creation of a single-item order.
 */
module Orders {
  import opened Wrappers
  import opened Schema
  import opened Http
  import opened Store
  import Seqs

  /**
   * The status of an order created without one. The default is set by the
   * database schema, which is not part of this model; "pending" is assumed.
   */
  const DefaultStatus := "pending"

  function BoughtBy(userId: Id): Order -> bool {
    (o: Order) => o.userId == userId
  }

  function CreatedAt(o: Order): int {
    o.createdAt
  }

  function ItemCost(i: OrderItem): real {
    i.price * i.quantity as real
  }

  /** An order's total is the sum of its items' price times quantity. */
  predicate TotalMatchesItems(o: Order) {
    o.totalPrice == Seqs.SumOf(o.items, ItemCost)
  }

  /** `findMany({ where: { userId }, orderBy: { createdAt: "desc" } })` */
  function OrdersOf(orders: seq<Order>, userId: Id): seq<Order> {
    Seqs.SortBy(Seqs.Filter(orders, BoughtBy(userId)), Seqs.Descending(CreatedAt))
  }

  /** The caller's orders are exactly theirs, each once, newest first. */
  lemma OrdersOfCorrect(orders: seq<Order>, userId: Id)
    ensures var r := OrdersOf(orders, userId);
            && multiset(r) == multiset(Seqs.Filter(orders, BoughtBy(userId)))
            && (forall o :: o in r <==> o in orders && o.userId == userId)
            && forall i, j :: 0 <= i < j < |r| ==> r[i].createdAt >= r[j].createdAt
  {
    Seqs.SortedDescending(Seqs.Filter(orders, BoughtBy(userId)), CreatedAt);
  }

  /** GET */
  function Get(orders: seq<Order>, session: Option<SessionUser>): (r: Reply<seq<Order>>)
    ensures session.None? <==> r == Fail(Unauthorized)
    ensures session.Some? ==> r == Ok(OrdersOf(orders, session.value.id))
  {
    match session
    case None => Fail(Unauthorized)
    case Some(user) => Ok(OrdersOf(orders, user.id))
  }

  /** The order a POST creates: one item at the product's current price. */
  function NewOrder(id: Id, userId: Id, product: Product, quantity: int, now: Time): (o: Order)
    ensures TotalMatchesItems(o)
    ensures o.userId == userId && o.status == DefaultStatus && o.createdAt == now
    ensures o.items == [OrderItem(product.id, quantity, product.price)]
  {
    var item := OrderItem(product.id, quantity, product.price);
    assert [item][..0] == [];
    Order(id, userId, [item], DefaultStatus, product.price * quantity as real, now)
  }

  /** `!quantity || quantity < 1`: missing, zero or below one. */
  predicate BadQuantity(quantity: Option<int>) {
    quantity.None? || quantity.value == 0 || quantity.value < 1
  }

  /** POST: create a single-item order for the caller; `newId` is the id the database assigns. */
  method Post(db: Db, session: Option<SessionUser>, productId: Option<string>, quantity: Option<int>,
              now: Time, newId: Id)
    returns (r: Reply<Order>)
    requires db.Valid()
    modifies db
    ensures db.Valid()
    ensures session.None? ==> r.status == Unauthorized
    ensures session.Some? && (!Truthy(productId) || BadQuantity(quantity)) ==> r.status == BadRequest
    ensures session.Some? && Truthy(productId) && !BadQuantity(quantity)
            && FindProduct(old(db.products), productId.value).None?
            ==> r.status == NotFound
    ensures r.status != OK ==> db.Snapshot() == old(db.Snapshot())
    ensures r.status == OK <==>
              session.Some? && Truthy(productId) && !BadQuantity(quantity)
              && FindProduct(old(db.products), productId.value).Some? && newId !in OrderIds(old(db.orders))
    ensures r.status == OK ==>
              var o := NewOrder(newId, session.value.id, FindProduct(old(db.products), productId.value).value,
                                quantity.value, now);
              db.Snapshot() == old(db.Snapshot()).(orders := old(db.orders) + [o]) && r == Ok(o)
  {
    if session.None? {
      return Fail(Unauthorized);
    }
    if !Truthy(productId) || BadQuantity(quantity) {
      return Fail(BadRequest);
    }
    var product := FindProduct(db.products, productId.value);
    if product.None? {
      return Fail(NotFound);
    }
    if newId in OrderIds(db.orders) {
      // the insert throws on the duplicate key; answered with 500
      return Fail(ServerError);
    }
    var o := NewOrder(newId, session.value.id, product.value, quantity.value, now);
    ghost var before := db.orders;
    db.orders := db.orders + [o];
    assert forall i :: 0 <= i < |before| ==> before[i] in before;
    r := Ok(o);
  }
}

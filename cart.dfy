/**
 * src/app/api/cart/route.ts: the signed-in user's shopping cart. Adding a
 * product that is already in the cart raises that row's quantity by one;
 * otherwise a row with quantity 1 is created. Rows can only be changed or
 * removed by their owner.
 */
module Cart {
  import opened Wrappers
  import opened Schema
  import opened Http
  import opened Store
  import Seqs

  /** A cart row with its product (`include: { product: ... }`). */
  datatype CartLine = CartLine(item: CartItem, product: Product)

  function OwnedBy(userId: Id): CartItem -> bool {
    (c: CartItem) => c.userId == userId
  }

  function SameLine(userId: Id, productId: Id): CartItem -> bool {
    (c: CartItem) => c.userId == userId && c.productId == productId
  }

  function HasId(id: Id): CartItem -> bool {
    (c: CartItem) => c.id == id
  }

  function IdNotIn(ids: set<Id>): CartItem -> bool {
    (c: CartItem) => c.id !in ids
  }

  function CartIds(cart: seq<CartItem>): set<Id> {
    set c | c in cart :: c.id
  }

  /** `findMany({ where: { userId } })`: the user's rows, in table order. */
  function RowsOf(cart: seq<CartItem>, userId: Id): (r: seq<CartItem>)
    ensures forall c :: c in r <==> c in cart && c.userId == userId
  {
    Seqs.Filter(cart, OwnedBy(userId))
  }

  function WithProducts(rows: seq<CartItem>, products: seq<Product>): (r: seq<CartLine>)
    requires forall c :: c in rows ==> RowOk(c, products)
    ensures |r| == |rows|
    ensures forall i :: 0 <= i < |r| ==>
              r[i].item == rows[i] && r[i].product in products && r[i].product.id == rows[i].productId
  {
    if rows == [] then []
    else
      assert RowOk(rows[0], products);
      [CartLine(rows[0], FindProduct(products, rows[0].productId).value)] + WithProducts(rows[1..], products)
  }

  /** The user's cart rows joined with their products, in table order. */
  function LinesOf(cart: seq<CartItem>, products: seq<Product>, userId: Id): (r: seq<CartLine>)
    requires CartWellFormed(cart, products)
    ensures forall i :: 0 <= i < |r| ==>
              r[i].item in cart && r[i].item.userId == userId
              && r[i].product in products && r[i].product.id == r[i].item.productId
    ensures forall c :: c in cart && c.userId == userId ==> exists i :: 0 <= i < |r| && r[i].item == c
  {
    var rows := RowsOf(cart, userId);
    var r := WithProducts(rows, products);
    forall c | c in cart && c.userId == userId ensures exists i :: 0 <= i < |r| && r[i].item == c {
      var i :| 0 <= i < |rows| && rows[i] == c;
      assert r[i].item == c;
    }
    r
  }

  /** GET: exactly the caller's rows with their products. */
  function Get(cart: seq<CartItem>, products: seq<Product>, session: Option<SessionUser>)
    : (r: Reply<seq<CartLine>>)
    requires CartWellFormed(cart, products)
    ensures session.None? ==> r == Fail(Unauthorized)
    ensures session.Some? ==> r == Ok(LinesOf(cart, products, session.value.id))
  {
    match session
    case None => Fail(Unauthorized)
    case Some(user) => Ok(LinesOf(cart, products, user.id))
  }

  // ---- Specification of the writes ----

  /** The total quantity of one product in one user's cart. */
  function Quantity(cart: seq<CartItem>, userId: Id, productId: Id): int {
    if cart == [] then 0
    else (if SameLine(userId, productId)(cart[0]) then cart[0].quantity else 0)
         + Quantity(cart[1..], userId, productId)
  }

  lemma {:induction false} QuantityAppend(cart: seq<CartItem>, c: CartItem, userId: Id, productId: Id)
    ensures Quantity(cart + [c], userId, productId)
            == Quantity(cart, userId, productId) + (if SameLine(userId, productId)(c) then c.quantity else 0)
  {
    if cart != [] {
      assert (cart + [c])[1..] == cart[1..] + [c];
      QuantityAppend(cart[1..], c, userId, productId);
    }
  }

  lemma {:induction false} QuantityUpdate(cart: seq<CartItem>, k: nat, c: CartItem, userId: Id, productId: Id)
    requires k < |cart|
    requires c.userId == cart[k].userId && c.productId == cart[k].productId
    ensures Quantity(cart[k := c], userId, productId)
            == Quantity(cart, userId, productId)
               + (if SameLine(userId, productId)(c) then c.quantity - cart[k].quantity else 0)
  {
    if k == 0 {
      assert cart[k := c][1..] == cart[1..];
    } else {
      assert cart[k := c][1..] == cart[1..][k - 1 := c];
      QuantityUpdate(cart[1..], k - 1, c, userId, productId);
    }
  }

  /** The cart after adding one unit of a product for a user; `None` when the new row's id is taken. */
  function AddOne(cart: seq<CartItem>, userId: Id, productId: Id, newId: Id): Option<seq<CartItem>> {
    match Seqs.IndexWhere(cart, SameLine(userId, productId))
    case Some(k) => Some(cart[k := cart[k].(quantity := cart[k].quantity + 1)])
    case None => if newId in CartIds(cart) then None else Some(cart + [CartItem(newId, userId, productId, 1)])
  }

  /** Adding a product raises its quantity in that user's cart by exactly one and changes no other quantity. */
  lemma AddOneAddsOne(cart: seq<CartItem>, userId: Id, productId: Id, newId: Id, u: Id, p: Id)
    requires AddOne(cart, userId, productId, newId).Some?
    ensures Quantity(AddOne(cart, userId, productId, newId).value, u, p)
            == Quantity(cart, u, p) + (if u == userId && p == productId then 1 else 0)
  {
    match Seqs.IndexWhere(cart, SameLine(userId, productId))
    case Some(k) =>
      QuantityUpdate(cart, k, cart[k].(quantity := cart[k].quantity + 1), u, p);
    case None =>
      QuantityAppend(cart, CartItem(newId, userId, productId, 1), u, p);
  }

  /** `deleteMany({ where: { id: { in: ids } } })` */
  function RemoveIds(cart: seq<CartItem>, ids: set<Id>): (r: seq<CartItem>)
    ensures forall c :: c in r <==> c in cart && c.id !in ids
  {
    Seqs.Filter(cart, IdNotIn(ids))
  }

  function Distinct(): (CartItem, CartItem) -> bool {
    (a: CartItem, b: CartItem) => DistinctRows(a, b)
  }

  /** Removing rows keeps the cart constraints. */
  lemma RemoveIdsWellFormed(cart: seq<CartItem>, products: seq<Product>, ids: set<Id>)
    requires CartWellFormed(cart, products)
    ensures CartWellFormed(RemoveIds(cart, ids), products)
  {
    assert Seqs.Pairwise(cart, Distinct());
    Seqs.FilterPairwise(cart, IdNotIn(ids), Distinct());
  }

  /** Changing a row's quantity to a positive value keeps the cart constraints. */
  lemma UpdateWellFormed(cart: seq<CartItem>, products: seq<Product>, k: nat, c: CartItem)
    requires CartWellFormed(cart, products) && k < |cart|
    requires c == cart[k].(quantity := c.quantity) && c.quantity >= 1
    ensures CartWellFormed(cart[k := c], products)
  {
    assert RowOk(cart[k], products);
    forall x | x in cart[k := c] ensures RowOk(x, products) {
      var i :| 0 <= i < |cart| && cart[k := c][i] == x;
      if i != k { assert x == cart[i]; }
    }
  }

  /** Appending a row with a fresh id, for a (user, product) pair the cart lacks, keeps the cart constraints. */
  lemma AppendWellFormed(cart: seq<CartItem>, products: seq<Product>, c: CartItem)
    requires CartWellFormed(cart, products) && RowOk(c, products)
    requires c.id !in CartIds(cart)
    requires forall x :: x in cart ==> !SameLine(c.userId, c.productId)(x)
    ensures CartWellFormed(cart + [c], products)
  {
    var s := cart + [c];
    forall i, j | 0 <= i < j < |s| ensures DistinctRows(s[i], s[j]) {
      if j == |cart| {
        assert s[i] in cart;
        assert !SameLine(c.userId, c.productId)(s[i]);
      }
    }
  }

  /** The index of the row with this id when the user owns it (`findUnique` plus the owner test). */
  function OwnedRow(cart: seq<CartItem>, id: Id, userId: Id): Option<nat> {
    match Seqs.IndexWhere(cart, HasId(id))
    case Some(k) => if cart[k].userId == userId then Some(k) else None
    case None => None
  }

  // ---- The handlers that write ----

  /** POST: add one unit of a product to the caller's cart. */
  method Post(db: Db, session: Option<SessionUser>, productId: Option<string>, newId: Id)
    returns (r: Reply<CartItem>)
    requires db.Valid()
    modifies db
    ensures db.Valid()
    ensures session.None? ==> r.status == Unauthorized
    ensures session.Some? && !Truthy(productId) ==> r.status == BadRequest
    ensures session.Some? && Truthy(productId) && FindProduct(old(db.products), productId.value).None?
            ==> r.status == NotFound
    ensures r.status != OK ==> db.Snapshot() == old(db.Snapshot())
    ensures r.status == OK <==>
              session.Some? && Truthy(productId) && FindProduct(old(db.products), productId.value).Some?
              && AddOne(old(db.cartItems), session.value.id, productId.value, newId).Some?
    ensures r.status == OK ==>
              db.Snapshot() == old(db.Snapshot()).(cartItems :=
                AddOne(old(db.cartItems), session.value.id, productId.value, newId).value)
              && r.body.Some? && r.body.value in db.cartItems
              && r.body.value.userId == session.value.id && r.body.value.productId == productId.value
  {
    if session.None? {
      return Fail(Unauthorized);
    }
    var userId := session.value.id;
    if !Truthy(productId) {
      return Fail(BadRequest);
    }
    var pid := productId.value;
    if FindProduct(db.products, pid).None? {
      return Fail(NotFound);
    }
    var existing := Seqs.IndexWhere(db.cartItems, SameLine(userId, pid));
    if existing.Some? {
      var k := existing.value;
      assert RowOk(db.cartItems[k], db.products);
      var updated := db.cartItems[k].(quantity := db.cartItems[k].quantity + 1);
      UpdateWellFormed(db.cartItems, db.products, k, updated);
      ghost var before := db.cartItems;
      db.cartItems := db.cartItems[k := updated];
      assert AddOne(before, userId, pid, newId) == Some(db.cartItems);
      assert db.cartItems[k] == updated;
      return Ok(updated);
    }
    if newId in CartIds(db.cartItems) {
      // the database rejects a duplicate primary key; the handler answers 500
      return Fail(ServerError);
    }
    var row := CartItem(newId, userId, pid, 1);
    ghost var p := FindProduct(db.products, pid).value;
    assert p in db.products && p.id == row.productId;
    AppendWellFormed(db.cartItems, db.products, row);
    assert AddOne(db.cartItems, userId, pid, newId) == Some(db.cartItems + [row]);
    db.cartItems := db.cartItems + [row];
    return Ok(row);
  }

  /** PATCH: set the quantity of one of the caller's rows. */
  method Patch(db: Db, session: Option<SessionUser>, id: Option<string>, quantity: Option<int>)
    returns (r: Reply<CartItem>)
    requires db.Valid()
    modifies db
    ensures db.Valid()
    ensures session.None? ==> r.status == Unauthorized
    ensures session.Some? && (!Truthy(id) || quantity.None? || quantity.value < 1) ==> r.status == BadRequest
    ensures session.Some? && Truthy(id) && quantity.Some? && quantity.value >= 1
            && OwnedRow(old(db.cartItems), id.value, session.value.id).None?
            ==> r.status == NotFound
    ensures session.Some? && Truthy(id) && quantity.Some? && quantity.value >= 1
            && OwnedRow(old(db.cartItems), id.value, session.value.id).Some?
            ==> r.status == OK
    ensures r.status != OK ==> db.Snapshot() == old(db.Snapshot())
    ensures r.status == OK ==>
              session.Some? && Truthy(id) && quantity.Some?
              && OwnedRow(old(db.cartItems), id.value, session.value.id).Some?
              && var k := OwnedRow(old(db.cartItems), id.value, session.value.id).value;
                 db.Snapshot() == old(db.Snapshot()).(cartItems :=
                   old(db.cartItems)[k := old(db.cartItems)[k].(quantity := quantity.value)])
                 && r.body == Some(db.cartItems[k])
  {
    if session.None? {
      return Fail(Unauthorized);
    }
    if !Truthy(id) || quantity.None? || quantity.value < 1 {
      return Fail(BadRequest);
    }
    var found := OwnedRow(db.cartItems, id.value, session.value.id);
    if found.None? {
      return Fail(NotFound);
    }
    var k := found.value;
    var updated := db.cartItems[k].(quantity := quantity.value);
    UpdateWellFormed(db.cartItems, db.products, k, updated);
    db.cartItems := db.cartItems[k := updated];
    return Ok(updated);
  }

  /** DELETE: remove one of the caller's rows; answers 204. */
  method Delete(db: Db, session: Option<SessionUser>, id: Option<string>) returns (r: Reply<()>)
    requires db.Valid()
    modifies db
    ensures db.Valid()
    ensures session.None? ==> r.status == Unauthorized
    ensures session.Some? && !Truthy(id) ==> r.status == BadRequest
    ensures session.Some? && Truthy(id) && OwnedRow(old(db.cartItems), id.value, session.value.id).None?
            ==> r.status == NotFound
    ensures session.Some? && Truthy(id) && OwnedRow(old(db.cartItems), id.value, session.value.id).Some?
            ==> r.status == NoContent
    ensures r.status != NoContent ==> db.Snapshot() == old(db.Snapshot())
    ensures r.status == NoContent ==>
              session.Some? && Truthy(id) && OwnedRow(old(db.cartItems), id.value, session.value.id).Some?
              && db.Snapshot() == old(db.Snapshot()).(cartItems := RemoveIds(old(db.cartItems), {id.value}))
  {
    if session.None? {
      return Fail(Unauthorized);
    }
    if !Truthy(id) {
      return Fail(BadRequest);
    }
    if OwnedRow(db.cartItems, id.value, session.value.id).None? {
      return Fail(NotFound);
    }
    RemoveIdsWellFormed(db.cartItems, db.products, {id.value});
    db.cartItems := RemoveIds(db.cartItems, {id.value});
    return Reply(NoContent, None);
  }
}

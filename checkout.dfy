/**
 * src/app/api/checkout/route.ts: turns the caller's cart into a payment
 * provider checkout session. The handler computes a total with the discount
 * code and the best role discount, bumps the code's `usedCount` when the code
 * applies, and sends the provider one line item per cart row at the product's
 * undiscounted price, with the caller's id and the cart row ids as metadata.
 */
module Checkout {
  import opened Wrappers
  import opened Schema
  import opened Http
  import opened Store
  import Text
  import Seqs
  import Cart

  // ---- The total ----

  /** `Math.round`: the nearest integer, halves rounded up. */
  function Round(x: real): (r: int)
    ensures x - 0.5 < r as real <= x + 0.5
  {
    (x + 0.5).Floor
  }

  function LineCost(l: Cart.CartLine): real {
    l.product.price * l.item.quantity as real
  }

  /** The `reduce` over the cart: the sum of current price times quantity, in cart order. */
  function Subtotal(lines: seq<Cart.CartLine>): real {
    Seqs.SumOf(lines, LineCost)
  }

  /**
   * Whether a stored code may be used now: `maxUses` unset or 0 (no limit) or
   * not yet reached, and `expiresAt` unset or still in the future.
   */
  predicate CodeApplies(d: DiscountCode, now: Time) {
    && (d.maxUses.None? || d.maxUses.value == 0 || d.usedCount < d.maxUses.value)
    && (d.expiresAt.None? || now < d.expiresAt.value)
  }

  function CodeIs(code: string): DiscountCode -> bool {
    (d: DiscountCode) => d.code == code
  }

  /** The index of the code the request redeems: given, found by its (unique) `code`, and applicable. */
  function Redeemable(codes: seq<DiscountCode>, discountCode: Option<string>, now: Time): (r: Option<nat>)
    requires UniqueCodes(codes)
    ensures r.Some? ==> r.value < |codes| && Truthy(discountCode)
                        && codes[r.value].code == discountCode.value && CodeApplies(codes[r.value], now)
    ensures r.None? ==> !Truthy(discountCode)
                        || forall i :: 0 <= i < |codes| && codes[i].code == discountCode.value
                                       ==> !CodeApplies(codes[i], now)
  {
    if !Truthy(discountCode) then None
    else match Seqs.IndexWhere(codes, CodeIs(discountCode.value))
      case None => None
      case Some(k) => if CodeApplies(codes[k], now) then Some(k) else None
  }

  /** The codes table after the request: `usedCount` of the redeemed code is one higher. */
  function Redeem(codes: seq<DiscountCode>, discountCode: Option<string>, now: Time): (r: seq<DiscountCode>)
    requires UniqueCodes(codes)
    ensures |r| == |codes|
    ensures forall i :: 0 <= i < |codes| ==>
              r[i] == codes[i].(usedCount := r[i].usedCount)
              && r[i].usedCount == codes[i].usedCount
                   + (if Truthy(discountCode) && codes[i].code == discountCode.value
                         && CodeApplies(codes[i], now) then 1 else 0)
    ensures forall i :: 0 <= i < |codes| && codes[i].maxUses.Some? && codes[i].maxUses.value > 0
                        && codes[i].usedCount <= codes[i].maxUses.value
                        ==> r[i].usedCount <= codes[i].maxUses.value
    ensures UniqueCodes(r)
  {
    match Redeemable(codes, discountCode, now)
    case None => codes
    case Some(k) => codes[k := codes[k].(usedCount := codes[k].usedCount + 1)]
  }

  /** One step of the role-discount `reduce`: a truthy discount above the running maximum replaces it. */
  function RoleDiscountStep(max: real, role: Role): real {
    if role.discount.Some? && role.discount.value != 0.0 && role.discount.value > max
    then role.discount.value else max
  }

  /** The role-discount `reduce` from a running maximum. */
  function MaxFrom(max: real, roles: seq<Role>): (r: real)
    requires max >= 0.0
    ensures r >= max
    ensures forall role :: role in roles && role.discount.Some? ==> role.discount.value <= r
    ensures r == max || exists role :: role in roles && role.discount == Some(r)
    decreases |roles|
  {
    if roles == [] then max
    else
      var next := RoleDiscountStep(max, roles[0]);
      var r := MaxFrom(next, roles[1..]);
      assert forall role :: role in roles ==> role == roles[0] || role in roles[1..];
      r
  }

  /** `user?.roles.reduce(...)`: absent for a missing user, else the largest discount or 0. */
  function RoleDiscount(user: Option<User>, roles: seq<Role>): Option<real> {
    match user
    case None => None
    case Some(u) => Some(MaxFrom(0.0, RolesOf(roles, u)))
  }

  /** The discount code's rate when one is redeemed. */
  function CodeRate(codes: seq<DiscountCode>, k: Option<nat>): Option<real>
    requires k.Some? ==> k.value < |codes|
  {
    if k.Some? then Some(codes[k.value].discount) else None
  }

  /** `amount * (1 - rate)` */
  function Discounted(amount: real, rate: real): real {
    amount * (1.0 - rate)
  }

  /** The total after the code discount and then the role discount (applied only when truthy). */
  function Total(subtotal: real, codeRate: Option<real>, roleDiscount: Option<real>): real {
    var afterCode := if codeRate.Some? then Discounted(subtotal, codeRate.value) else subtotal;
    if roleDiscount.Some? && roleDiscount.value != 0.0 then Discounted(afterCode, roleDiscount.value)
    else afterCode
  }

  /** With rates in [0, 1] the discounted total lies between 0 and the subtotal. */
  lemma TotalWithinSubtotal(subtotal: real, codeRate: Option<real>, roleDiscount: Option<real>)
    requires subtotal >= 0.0
    requires codeRate.Some? ==> 0.0 <= codeRate.value <= 1.0
    requires roleDiscount.Some? ==> 0.0 <= roleDiscount.value <= 1.0
    ensures 0.0 <= Total(subtotal, codeRate, roleDiscount) <= subtotal
  {
    var afterCode := if codeRate.Some? then Discounted(subtotal, codeRate.value) else subtotal;
    if codeRate.Some? {
      MultiplyByFraction(subtotal, 1.0 - codeRate.value);
    }
    if roleDiscount.Some? && roleDiscount.value != 0.0 {
      MultiplyByFraction(afterCode, 1.0 - roleDiscount.value);
    }
  }

  lemma MultiplyByFraction(x: real, f: real)
    requires x >= 0.0 && 0.0 <= f <= 1.0
    ensures 0.0 <= x * f <= x
  {
    assert x * f <= x * 1.0;
  }

  /** The role discount never lowers below 0 nor exceeds the largest rate of the user's roles. */
  lemma RoleDiscountBounds(user: Option<User>, roles: seq<Role>)
    requires user.Some?
    requires forall r :: r in RolesOf(roles, user.value) && r.discount.Some? ==> r.discount.value <= 1.0
    ensures RoleDiscount(user, roles).Some?
    ensures 0.0 <= RoleDiscount(user, roles).value <= 1.0
  {
    var d := MaxFrom(0.0, RolesOf(roles, user.value));
    assert d == 0.0 || exists role :: role in RolesOf(roles, user.value) && role.discount == Some(d);
  }

  // ---- What the provider receives ----

  datatype LineItem = LineItem(currency: string, name: string, description: string, images: seq<string>,
                               unitAmount: int, quantity: int)

  datatype Metadata = Metadata(userId: Id, cartItemIds: string)

  datatype ProviderRequest = ProviderRequest(paymentMethods: seq<string>, lineItems: seq<LineItem>,
                                             mode: string, metadata: Metadata)

  /** A row's line item: the product's own price in cents, whatever discount was computed. */
  function LineItemOf(l: Cart.CartLine): LineItem {
    LineItem("usd", l.product.title, l.product.description, [l.product.imageUrl],
             Round(l.product.price * 100.0), l.item.quantity)
  }

  function LineItems(lines: seq<Cart.CartLine>): (r: seq<LineItem>)
    ensures |r| == |lines|
    ensures forall i :: 0 <= i < |lines| ==> r[i] == LineItemOf(lines[i])
  {
    seq(|lines|, i requires 0 <= i < |lines| => LineItemOf(lines[i]))
  }

  function RowIds(lines: seq<Cart.CartLine>): (r: seq<Id>)
    ensures |r| == |lines|
    ensures forall i :: 0 <= i < |lines| ==> r[i] == lines[i].item.id
  {
    seq(|lines|, i requires 0 <= i < |lines| => lines[i].item.id)
  }

  function MetadataOf(userId: Id, lines: seq<Cart.CartLine>): Metadata {
    Metadata(userId, Text.Join(RowIds(lines), ','))
  }

  /** The session request; note that it has no discount input. */
  function RequestFor(userId: Id, lines: seq<Cart.CartLine>): ProviderRequest {
    ProviderRequest(["card"], LineItems(lines), "payment", MetadataOf(userId, lines))
  }

  /** Splitting the metadata at "," gives back the cart row ids in cart order. */
  lemma MetadataRoundTrip(userId: Id, lines: seq<Cart.CartLine>)
    requires lines != []
    requires forall i :: 0 <= i < |lines| ==> ',' !in lines[i].item.id
    ensures Text.Split(MetadataOf(userId, lines).cartItemIds, ',') == RowIds(lines)
  {
    Text.SplitJoin(RowIds(lines), ',');
  }

  /** What the provider charges, in cents: the sum of unit amount times quantity. */
  function ChargedCents(items: seq<LineItem>): int {
    if items == [] then 0
    else ChargedCents(items[..|items| - 1]) + items[|items| - 1].unitAmount * items[|items| - 1].quantity
  }

  function TotalQuantity(lines: seq<Cart.CartLine>): int {
    if lines == [] then 0 else TotalQuantity(lines[..|lines| - 1]) + lines[|lines| - 1].item.quantity
  }

  lemma NonNegativeProduct(a: real, b: real)
    requires a >= 0.0 && b >= 0.0
    ensures a * b >= 0.0
  {
  }

  /** Rounding one unit price moves the row's charge by at most half a cent per unit. */
  lemma RoundingError(x: real, q: int)
    requires q >= 0
    ensures -(q as real) / 2.0 <= (Round(x) * q) as real - x * q as real <= q as real / 2.0
  {
    var e := Round(x) as real - x;
    var qr := q as real;
    assert (Round(x) * q) as real == Round(x) as real * qr;
    assert (Round(x) * q) as real - x * qr == e * qr;
    NonNegativeProduct(0.5 - e, qr);
    NonNegativeProduct(e + 0.5, qr);
  }

  /** One more row adds its rounded unit amount times its quantity. */
  lemma ChargedCentsStep(lines: seq<Cart.CartLine>)
    requires lines != []
    ensures ChargedCents(LineItems(lines))
            == ChargedCents(LineItems(lines[..|lines| - 1]))
               + Round(lines[|lines| - 1].product.price * 100.0) * lines[|lines| - 1].item.quantity
  {
    assert LineItems(lines)[..|lines| - 1] == LineItems(lines[..|lines| - 1]);
  }

  lemma LineCostCents(l: Cart.CartLine)
    ensures 100.0 * LineCost(l) == (l.product.price * 100.0) * l.item.quantity as real
  {
  }

  /** The bound of the shorter cart plus the bound of the last row gives the bound of the cart. */
  lemma AddBounds(charged0: real, sub0: real, q0: real, rowCharged: real, rowCents: real, q: real)
    requires -q0 / 2.0 <= charged0 - 100.0 * sub0 <= q0 / 2.0
    requires -q / 2.0 <= rowCharged - rowCents <= q / 2.0
    ensures -(q0 + q) / 2.0 <= (charged0 + rowCharged) - (100.0 * sub0 + rowCents) <= (q0 + q) / 2.0
  {
  }

  /**
   * The provider charges the undiscounted subtotal up to rounding: the charged
   * cents differ from 100 times the subtotal by at most half a cent per unit.
   */
  lemma {:induction false} ChargedCentsNearSubtotal(lines: seq<Cart.CartLine>)
    requires forall i :: 0 <= i < |lines| ==> lines[i].item.quantity >= 0
    ensures -(TotalQuantity(lines) as real) / 2.0
            <= ChargedCents(LineItems(lines)) as real - 100.0 * Subtotal(lines)
            <= TotalQuantity(lines) as real / 2.0
  {
    if lines != [] {
      var init := lines[..|lines| - 1];
      var l := lines[|lines| - 1];
      var x := l.product.price * 100.0;
      var q := l.item.quantity;
      ChargedCentsNearSubtotal(init);
      ChargedCentsStep(lines);
      RoundingError(x, q);
      LineCostCents(l);
      assert Subtotal(lines) == Subtotal(init) + LineCost(l);
      AddBounds(ChargedCents(LineItems(init)) as real, Subtotal(init), TotalQuantity(init) as real,
                (Round(x) * q) as real, x * q as real, q as real);
    }
  }

  // ---- The handler ----

  /** The `usedCount: { increment: 1 }` update. */
  method UseCode(db: Db, discountCode: Option<string>, now: Time)
    requires db.Valid()
    modifies db
    ensures db.Valid()
    ensures db.Snapshot() == old(db.Snapshot()).(discountCodes := Redeem(old(db.discountCodes), discountCode, now))
  {
    db.discountCodes := Redeem(db.discountCodes, discountCode, now);
  }

  /**
   * POST: `sent` is the request made to the provider (if the handler got that
   * far), `total` the discounted total the handler computes and never sends,
   * `created` the provider's session url, or `None` when the call throws.
   */
  method Post(db: Db, session: Option<SessionUser>, discountCode: Option<string>, now: Time,
              created: Option<string>)
    returns (r: Reply<string>, sent: Option<ProviderRequest>, total: real)
    requires db.Valid()
    modifies db
    ensures db.Valid()
    ensures session.None? ==> r == Fail(Unauthorized) && sent.None? && db.Snapshot() == old(db.Snapshot())
    ensures session.Some? && Cart.LinesOf(old(db.cartItems), old(db.products), session.value.id) == []
            ==> r == Fail(BadRequest) && sent.None? && db.Snapshot() == old(db.Snapshot())
    ensures session.Some? && Cart.LinesOf(old(db.cartItems), old(db.products), session.value.id) != []
            ==> db.Snapshot() == old(db.Snapshot()).(discountCodes := Redeem(old(db.discountCodes), discountCode, now))
    ensures session.Some? && Cart.LinesOf(old(db.cartItems), old(db.products), session.value.id) != []
            ==> total == Total(Subtotal(Cart.LinesOf(old(db.cartItems), old(db.products), session.value.id)),
                               CodeRate(old(db.discountCodes), Redeemable(old(db.discountCodes), discountCode, now)),
                               RoleDiscount(FindUser(old(db.users), session.value.id), old(db.roles)))
    ensures session.Some? && Cart.LinesOf(old(db.cartItems), old(db.products), session.value.id) != []
            ==> sent == Some(RequestFor(session.value.id, Cart.LinesOf(old(db.cartItems), old(db.products), session.value.id)))
    ensures session.Some? && Cart.LinesOf(old(db.cartItems), old(db.products), session.value.id) != []
            ==> r == (if created.Some? then Ok(created.value) else Fail(ServerError))
  {
    if session.None? {
      return Fail(Unauthorized), None, 0.0;
    }
    var userId := session.value.id;
    var lines := Cart.LinesOf(db.cartItems, db.products, userId);
    if lines == [] {
      return Fail(BadRequest), None, 0.0;
    }
    total := Subtotal(lines);
    var k := Redeemable(db.discountCodes, discountCode, now);

    if k.Some? {
      total := Discounted(total, db.discountCodes[k.value].discount);
      UseCode(db, discountCode, now);
    } else {
      assert Redeem(db.discountCodes, discountCode, now) == db.discountCodes;
    }
    var roleDiscount := RoleDiscount(FindUser(db.users, userId), db.roles);
    if roleDiscount.Some? && roleDiscount.value != 0.0 {
      total := Discounted(total, roleDiscount.value);
    }
    sent := Some(RequestFor(userId, lines));
    if created.None? {
      // the provider call threw; the code stays redeemed
      return Fail(ServerError), sent, total;
    }
    r := Ok(created.value);
  }
}

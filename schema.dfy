/**
 * The records of the marketplace database (the shapes of src/types/prisma.ts,
 * restricted to the columns the modelled handlers read or write), the
 * signed-in session user, and the lookups and constraints shared by the
 * handlers.
 */
module Schema {
  import opened Wrappers
  import Seqs

  type Id = string
  /** Milliseconds since the epoch. */
  type Time = int

  /** A role's `permissions` JSON column: only a JSON array of strings grants anything. */
  datatype Json = JArray(items: seq<string>) | JOther

  datatype Role = Role(id: Id, name: string, description: Option<string>, color: Option<string>,
                       permissions: Json, discount: Option<real>, isTeam: bool)

  /** A user; `roleIds` lists the user's roles (the many-to-many relation) in relation order. */
  datatype User = User(id: Id, name: Option<string>, email: Option<string>, username: string,
                       image: Option<string>, password: Option<string>, emailNotifications: bool,
                       roleIds: seq<Id>)

  datatype Product = Product(id: Id, title: string, description: string, price: real,
                             imageUrl: string, category: string, creatorId: Id)

  datatype OrderItem = OrderItem(productId: Id, quantity: int, price: real)

  datatype Order = Order(id: Id, userId: Id, items: seq<OrderItem>, status: string,
                         totalPrice: real, createdAt: Time)

  datatype CartItem = CartItem(id: Id, userId: Id, productId: Id, quantity: int)

  /** A rating of an order: `userId` is the rated seller, `raterId` the buyer who wrote it. */
  datatype Rating = Rating(id: Id, orderId: Id, userId: Id, raterId: Id, rating: int,
                           comment: Option<string>, createdAt: Time)

  datatype Chat = Chat(id: Id, orderId: Id, userId: Id, updatedAt: Time)

  datatype DiscountCode = DiscountCode(id: Id, code: string, discount: real, maxUses: Option<int>,
                                       usedCount: int, expiresAt: Option<Time>)

  datatype Portfolio = Portfolio(id: Id, userId: Id, title: string, description: string, createdAt: Time)

  datatype PortfolioItem = PortfolioItem(id: Id, portfolioId: Id, title: string, description: string,
                                         mediaUrl: string, mediaType: string, createdAt: Time)

  datatype SocialLinks = SocialLinks(website: string, twitter: string)

  /** A creator's store settings; an optional column that was never written is `None`. */
  datatype StoreSettings = StoreSettings(userId: Id, storeName: string, storeDescription: string,
                                         paymentEmail: string, automaticDelivery: Option<bool>,
                                         notifyOnSale: Option<bool>, discordServer: Option<string>,
                                         socialLinks: Option<SocialLinks>)

  datatype Affiliate = Affiliate(id: Id, userId: Id, code: string, commission: real, createdAt: Time)

  /** `session.user` of a signed-in request; optional fields may be absent from the token. */
  datatype SessionUser = SessionUser(id: Id, email: Option<string>, name: Option<string>,
                                     username: Option<string>)

  /** JavaScript truthiness of an optional string: present and non-empty. */
  predicate Truthy(s: Option<string>) {
    s.Some? && s.value != ""
  }

  /** `s || fallback` for an optional string. */
  function OrElse(s: Option<string>, fallback: string): string {
    if Truthy(s) then s.value else fallback
  }

  /** `Array.isArray(role.permissions) && role.permissions.includes(p)` */
  predicate HasPermission(role: Role, p: string) {
    role.permissions.JArray? && p in role.permissions.items
  }

  /** `user?.roles.some(role => ... includes(p))`: false for a missing user. */
  predicate UserHasPermission(user: Option<User>, roles: seq<Role>, p: string) {
    user.Some? && exists r :: r in RolesOf(roles, user.value) && HasPermission(r, p)
  }

  /** `findUnique({ where: { id } })`: the first row whose primary key, read by `key`, is `id`. */
  function FindBy<T>(rows: seq<T>, key: T -> Id, id: Id): (r: Option<T>)
    ensures r.Some? ==> r.value in rows && key(r.value) == id
    ensures r.None? ==> forall x :: x in rows ==> key(x) != id
  {
    if rows == [] then None
    else if key(rows[0]) == id then Some(rows[0])
    else FindBy(rows[1..], key, id)
  }

  function UserKey(u: User): Id { u.id }
  function RoleKey(r: Role): Id { r.id }
  function ProductKey(p: Product): Id { p.id }
  function OrderKey(o: Order): Id { o.id }

  function FindUser(users: seq<User>, id: Id): (r: Option<User>)
    ensures r.Some? ==> r.value in users && r.value.id == id
    ensures r.None? ==> forall u :: u in users ==> u.id != id
  {
    FindBy(users, UserKey, id)
  }

  function FindRole(roles: seq<Role>, id: Id): (r: Option<Role>)
    ensures r.Some? ==> r.value in roles && r.value.id == id
    ensures r.None? ==> forall x :: x in roles ==> x.id != id
  {
    FindBy(roles, RoleKey, id)
  }

  function FindProduct(products: seq<Product>, id: Id): (r: Option<Product>)
    ensures r.Some? ==> r.value in products && r.value.id == id
    ensures r.None? ==> forall x :: x in products ==> x.id != id
  {
    FindBy(products, ProductKey, id)
  }

  function FindOrder(orders: seq<Order>, id: Id): (r: Option<Order>)
    ensures r.Some? ==> r.value in orders && r.value.id == id
    ensures r.None? ==> forall x :: x in orders ==> x.id != id
  {
    FindBy(orders, OrderKey, id)
  }

  /** The user's roles (`include: { roles: true }`), in relation order. */
  function RolesOfIds(roles: seq<Role>, ids: seq<Id>): (r: seq<Role>)
    ensures forall x :: x in r ==> x in roles && x.id in ids
  {
    if ids == [] then []
    else
      var rest := RolesOfIds(roles, ids[1..]);
      match FindRole(roles, ids[0])
      case Some(role) => [role] + rest
      case None => rest
  }

  function RolesOf(roles: seq<Role>, user: User): seq<Role> {
    RolesOfIds(roles, user.roleIds)
  }

  /** The product exists and `userId` created it. */
  predicate CreatedBy(products: seq<Product>, productId: Id, userId: Id) {
    FindProduct(products, productId).Some? && FindProduct(products, productId).value.creatorId == userId
  }

  /** The user created the product of some item of the order. */
  predicate SellerOf(o: Order, products: seq<Product>, userId: Id) {
    exists i :: 0 <= i < |o.items| && CreatedBy(products, o.items[i].productId, userId)
  }

  // ---- Table constraints (primary keys and unique columns) ----

  predicate UniqueUserIds(s: seq<User>) { forall i, j :: 0 <= i < j < |s| ==> s[i].id != s[j].id }
  predicate UniqueEmails(s: seq<User>) {
    forall i, j :: 0 <= i < j < |s| && s[i].email.Some? ==> s[i].email != s[j].email
  }
  predicate UniqueUsernames(s: seq<User>) { forall i, j :: 0 <= i < j < |s| ==> s[i].username != s[j].username }
  predicate UniqueRoleIds(s: seq<Role>) { forall i, j :: 0 <= i < j < |s| ==> s[i].id != s[j].id }
  predicate UniqueRoleNames(s: seq<Role>) { forall i, j :: 0 <= i < j < |s| ==> s[i].name != s[j].name }
  predicate UniqueProductIds(s: seq<Product>) { forall i, j :: 0 <= i < j < |s| ==> s[i].id != s[j].id }
  predicate UniqueOrderIds(s: seq<Order>) { forall i, j :: 0 <= i < j < |s| ==> s[i].id != s[j].id }
  predicate UniqueChatIds(s: seq<Chat>) { forall i, j :: 0 <= i < j < |s| ==> s[i].id != s[j].id }
  predicate OneChatPerOrder(s: seq<Chat>) { forall i, j :: 0 <= i < j < |s| ==> s[i].orderId != s[j].orderId }
  predicate UniqueCodes(s: seq<DiscountCode>) {
    forall i, j :: 0 <= i < j < |s| ==> s[i].id != s[j].id && s[i].code != s[j].code
  }
  predicate UniquePortfolioIds(s: seq<Portfolio>) { forall i, j :: 0 <= i < j < |s| ==> s[i].id != s[j].id }
  predicate OnePortfolioPerUser(s: seq<Portfolio>) { forall i, j :: 0 <= i < j < |s| ==> s[i].userId != s[j].userId }
  predicate UniqueItemIds(s: seq<PortfolioItem>) { forall i, j :: 0 <= i < j < |s| ==> s[i].id != s[j].id }
  predicate OneSettingsPerUser(s: seq<StoreSettings>) { forall i, j :: 0 <= i < j < |s| ==> s[i].userId != s[j].userId }
  predicate UniqueAffiliateIds(s: seq<Affiliate>) { forall i, j :: 0 <= i < j < |s| ==> s[i].id != s[j].id }
  predicate OneAffiliatePerUser(s: seq<Affiliate>) { forall i, j :: 0 <= i < j < |s| ==> s[i].userId != s[j].userId }

  function TotalPriceOf(o: Order): real {
    o.totalPrice
  }

  function OrderIds(orders: seq<Order>): set<Id> {
    set o | o in orders :: o.id
  }

  /** Every portfolio item belongs to an existing portfolio. */
  predicate ItemsHavePortfolio(items: seq<PortfolioItem>, portfolios: seq<Portfolio>) {
    forall i :: 0 <= i < |items| ==> exists p :: p in portfolios && p.id == items[i].portfolioId
  }

  /** Two cart rows have different ids and are not for the same (user, product). */
  predicate DistinctRows(a: CartItem, b: CartItem) {
    a.id != b.id && (a.userId != b.userId || a.productId != b.productId)
  }

  /** A cart row has quantity at least 1 and names an existing product. */
  predicate RowOk(c: CartItem, products: seq<Product>) {
    c.quantity >= 1 && exists p :: p in products && p.id == c.productId
  }

  /** Cart rows: quantity at least 1, an existing product, unique ids and one row per (user, product). */
  predicate CartWellFormed(cart: seq<CartItem>, products: seq<Product>) {
    && (forall i, j :: 0 <= i < j < |cart| ==> DistinctRows(cart[i], cart[j]))
    && (forall c :: c in cart ==> RowOk(c, products))
  }
}

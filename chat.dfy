/**
 * src/app/api/chat/route.ts: the buyer-seller conversations attached to
 * orders. Both handlers first make sure the signed-in user has a row (creating
 * one with a basic role when it is missing). GET lists the chats the caller
 * takes part in, newest activity first; POST opens the one chat of an order,
 * for its buyer or for the creator of one of its products.
 */
module Chats {
  import opened Wrappers
  import opened Schema
  import opened Http
  import opened Store
  import Seqs

  // ---- The session user's row ----

  /** The user created for a session without a row: every missing field gets its fallback. */
  function DefaultUser(s: SessionUser, passwordHash: string, roleId: Id): User {
    User(s.id, Some(OrElse(s.name, "Default User")), Some(OrElse(s.email, s.id + "@temp.com")),
         OrElse(s.username, "user_" + s.id), None, Some(passwordHash), true, [roleId])
  }

  /** The one role created with that user. */
  function BasicRole(s: SessionUser, roleId: Id): Role {
    Role(roleId, "user_" + s.id, Some("Basic user role"), None, JArray(["basic_access"]), None, false)
  }

  /** Creating the user and its role would repeat a unique value (email, username, role id or role name). */
  predicate CreateConflicts(t: Tables, u: User, role: Role) {
    || (exists x :: x in t.users && (x.email == u.email || x.username == u.username))
    || (exists x :: x in t.roles && (x.id == role.id || x.name == role.name))
  }

  /**
   * The tables after the session user is known to have a row; `None` when the
   * create throws because a unique value is taken (answered with 500).
   */
  function WithSessionUser(t: Tables, s: SessionUser, passwordHash: string, roleId: Id): (r: Option<Tables>)
    requires Consistent(t)
    ensures FindUser(t.users, s.id).Some? ==> r == Some(t)
    ensures r.None? <==>
              FindUser(t.users, s.id).None? && CreateConflicts(t, DefaultUser(s, passwordHash, roleId), BasicRole(s, roleId))
    ensures r.Some? ==> Consistent(r.value) && FindUser(r.value.users, s.id).Some?
    ensures r.Some? && FindUser(t.users, s.id).None? ==>
              r.value == t.(users := t.users + [DefaultUser(s, passwordHash, roleId)],
                            roles := t.roles + [BasicRole(s, roleId)])
  {
    if FindUser(t.users, s.id).Some? then Some(t)
    else
      var u := DefaultUser(s, passwordHash, roleId);
      var role := BasicRole(s, roleId);
      if CreateConflicts(t, u, role) then None
      else
        var t2 := t.(users := t.users + [u], roles := t.roles + [role]);
        assert UniqueUserIds(t2.users) by {
          forall i, j | 0 <= i < j < |t2.users| ensures t2.users[i].id != t2.users[j].id {
            if j == |t.users| { assert t2.users[i] in t.users; }
          }
        }
        assert UniqueEmails(t2.users) && UniqueUsernames(t2.users) by {
          forall i, j | 0 <= i < j < |t2.users|
            ensures t2.users[i].email.Some? ==> t2.users[i].email != t2.users[j].email
            ensures t2.users[i].username != t2.users[j].username
          {
            if j == |t.users| { assert t2.users[i] in t.users; }
          }
        }
        assert UniqueRoleIds(t2.roles) && UniqueRoleNames(t2.roles) by {
          forall i, j | 0 <= i < j < |t2.roles|
            ensures t2.roles[i].id != t2.roles[j].id && t2.roles[i].name != t2.roles[j].name
          {
            if j == |t.roles| { assert t2.roles[i] in t.roles; }
          }
        }
        FindUserAppended(t.users, u);
        Some(t2)
  }

  lemma {:induction false} FindUserAppended(users: seq<User>, u: User)
    requires FindUser(users, u.id).None?
    ensures FindUser(users + [u], u.id) == Some(u)
  {
    if users != [] {
      assert (users + [u])[1..] == users[1..] + [u];
      FindUserAppended(users[1..], u);
    }
  }

  /** A created user has exactly the basic role, which grants only "basic_access". */
  lemma CreatedUserRoles(t: Tables, s: SessionUser, passwordHash: string, roleId: Id)
    requires Consistent(t)
    requires FindUser(t.users, s.id).None? && WithSessionUser(t, s, passwordHash, roleId).Some?
    ensures var t2 := WithSessionUser(t, s, passwordHash, roleId).value;
            && FindUser(t2.users, s.id) == Some(DefaultUser(s, passwordHash, roleId))
            && RolesOf(t2.roles, FindUser(t2.users, s.id).value) == [BasicRole(s, roleId)]
            && forall p :: UserHasPermission(FindUser(t2.users, s.id), t2.roles, p) <==> p == "basic_access"
  {
    var t2 := WithSessionUser(t, s, passwordHash, roleId).value;
    var role := BasicRole(s, roleId);
    FindUserAppended(t.users, DefaultUser(s, passwordHash, roleId));
    FindRoleAppended(t.roles, role);
    assert RolesOfIds(t2.roles, [roleId][1..]) == [];
  }

  lemma {:induction false} FindRoleAppended(roles: seq<Role>, role: Role)
    requires forall x :: x in roles ==> x.id != role.id
    ensures FindRole(roles + [role], role.id) == Some(role)
  {
    if roles != [] {
      assert (roles + [role])[1..] == roles[1..] + [role];
      assert roles[0] in roles;
      FindRoleAppended(roles[1..], role);
    }
  }

  /** Makes sure the session user has a row; `false` when the create throws. */
  method EnsureUser(db: Db, s: SessionUser, passwordHash: string, roleId: Id) returns (ok: bool)
    requires db.Valid()
    modifies db
    ensures db.Valid()
    ensures ok <==> WithSessionUser(old(db.Snapshot()), s, passwordHash, roleId).Some?
    ensures ok ==> db.Snapshot() == WithSessionUser(old(db.Snapshot()), s, passwordHash, roleId).value
    ensures !ok ==> db.Snapshot() == old(db.Snapshot())
  {
    if FindUser(db.users, s.id).Some? {
      return true;
    }
    var u := DefaultUser(s, passwordHash, roleId);
    var role := BasicRole(s, roleId);
    if CreateConflicts(db.Snapshot(), u, role) {
      return false;
    }
    db.users := db.users + [u];
    db.roles := db.roles + [role];
    return true;
  }

  // ---- GET: the chats the caller takes part in ----

  /** The `where` of the chat query: the chat's user, the order's buyer, or a seller in the order. */
  predicate Visible(c: Chat, orders: seq<Order>, products: seq<Product>, userId: Id) {
    || c.userId == userId
    || (FindOrder(orders, c.orderId).Some?
        && (FindOrder(orders, c.orderId).value.userId == userId
            || SellerOf(FindOrder(orders, c.orderId).value, products, userId)))
  }

  function VisibleTo(orders: seq<Order>, products: seq<Product>, userId: Id): Chat -> bool {
    (c: Chat) => Visible(c, orders, products, userId)
  }

  function UpdatedAt(c: Chat): int {
    c.updatedAt
  }

  datatype ProductSummary = ProductSummary(title: string, creatorId: Id)
  datatype ItemView = ItemView(item: OrderItem, product: Option<ProductSummary>)
  datatype OrderView = OrderView(id: Id, orderItems: seq<ItemView>)
  datatype UserView = UserView(id: Id, username: string)
  datatype ChatView = ChatView(chat: Chat, order: OrderView, user: UserView)

  function ItemViewOf(products: seq<Product>, item: OrderItem): ItemView {
    match FindProduct(products, item.productId)
    case Some(p) => ItemView(item, Some(ProductSummary(p.title, p.creatorId)))
    case None => ItemView(item, None)
  }

  /** The transform of one chat: the order id is taken from the chat, missing relations get defaults. */
  function Transform(c: Chat, t: Tables): (v: ChatView)
    ensures v.chat == c && v.order.id == c.orderId
    ensures FindOrder(t.orders, c.orderId).None? ==> v.order.orderItems == []
    ensures FindOrder(t.orders, c.orderId).Some? ==> |v.order.orderItems| == |FindOrder(t.orders, c.orderId).value.items|
    ensures FindOrder(t.orders, c.orderId).Some? ==>
              forall i :: 0 <= i < |v.order.orderItems| ==>
                v.order.orderItems[i] == ItemViewOf(t.products, FindOrder(t.orders, c.orderId).value.items[i])
    ensures FindUser(t.users, c.userId).None? ==> v.user == UserView(c.userId, "Unknown User")
    ensures FindUser(t.users, c.userId).Some? ==>
              v.user == UserView(c.userId, FindUser(t.users, c.userId).value.username)
  {
    var items := match FindOrder(t.orders, c.orderId)
      case Some(o) => seq(|o.items|, i requires 0 <= i < |o.items| => ItemViewOf(t.products, o.items[i]))
      case None => [];
    var user := match FindUser(t.users, c.userId)
      case Some(u) => UserView(u.id, u.username)
      case None => UserView(c.userId, "Unknown User");
    ChatView(c, OrderView(c.orderId, items), user)
  }

  /** The chat query: the visible chats, newest activity first. */
  function VisibleChats(t: Tables, userId: Id): seq<Chat> {
    Seqs.SortBy(Seqs.Filter(t.chats, VisibleTo(t.orders, t.products, userId)), Seqs.Descending(UpdatedAt))
  }

  /** The listed chats are exactly the visible ones, each once, newest activity first. */
  lemma VisibleChatsCorrect(t: Tables, userId: Id)
    ensures var r := VisibleChats(t, userId);
            && multiset(r) == multiset(Seqs.Filter(t.chats, VisibleTo(t.orders, t.products, userId)))
            && (forall c :: c in r <==> c in t.chats && Visible(c, t.orders, t.products, userId))
            && forall i, j :: 0 <= i < j < |r| ==> r[i].updatedAt >= r[j].updatedAt
  {
    Seqs.SortedDescending(Seqs.Filter(t.chats, VisibleTo(t.orders, t.products, userId)), UpdatedAt);
  }

  function TransformAll(chats: seq<Chat>, t: Tables): (r: seq<ChatView>)
    ensures |r| == |chats| && forall i :: 0 <= i < |r| ==> r[i] == Transform(chats[i], t)
  {
    seq(|chats|, i requires 0 <= i < |chats| => Transform(chats[i], t))
  }

  /** The GET answer for a user with a row. */
  function ChatsFor(t: Tables, userId: Id): seq<ChatView> {
    TransformAll(VisibleChats(t, userId), t)
  }

  /** GET; `passwordHash` and `roleId` are what a user creation would use. */
  method Get(db: Db, session: Option<SessionUser>, passwordHash: string, roleId: Id)
    returns (r: Reply<seq<ChatView>>)
    requires db.Valid()
    modifies db
    ensures db.Valid()
    ensures session.None? ==> r == Fail(Unauthorized) && db.Snapshot() == old(db.Snapshot())
    ensures session.Some? && WithSessionUser(old(db.Snapshot()), session.value, passwordHash, roleId).None?
            ==> r == Fail(ServerError) && db.Snapshot() == old(db.Snapshot())
    ensures session.Some? && WithSessionUser(old(db.Snapshot()), session.value, passwordHash, roleId).Some?
            ==> db.Snapshot() == WithSessionUser(old(db.Snapshot()), session.value, passwordHash, roleId).value
                && r == Ok(ChatsFor(db.Snapshot(), session.value.id))
  {
    if session.None? {
      return Fail(Unauthorized);
    }
    var ok := EnsureUser(db, session.value, passwordHash, roleId);
    if !ok {
      return Fail(ServerError);
    }
    r := Ok(ChatsFor(db.Snapshot(), session.value.id));
  }

  // ---- POST: open the chat of an order ----

  /** `findUnique({ where: { orderId } })` on the chats. */
  function FindChatOfOrder(chats: seq<Chat>, orderId: Id): (r: Option<Chat>)
    ensures r.Some? ==> r.value in chats && r.value.orderId == orderId
    ensures r.None? ==> forall c :: c in chats ==> c.orderId != orderId
  {
    if chats == [] then None
    else if chats[0].orderId == orderId then Some(chats[0])
    else FindChatOfOrder(chats[1..], orderId)
  }

  /** The buyer or a seller of the order. */
  predicate MayOpen(o: Order, products: seq<Product>, userId: Id) {
    o.userId == userId || SellerOf(o, products, userId)
  }

  function ChatIds(chats: seq<Chat>): set<Id> {
    set c | c in chats :: c.id
  }

  /** What POST does once the user row exists: the answer and the new chats table. */
  function Open(chats: seq<Chat>, orders: seq<Order>, products: seq<Product>, userId: Id,
                orderId: Option<string>, newId: Id, now: Time): (r: (Reply<Chat>, seq<Chat>))
    requires OneChatPerOrder(chats) && UniqueChatIds(chats)
    ensures OneChatPerOrder(r.1) && UniqueChatIds(r.1)
    ensures r.1 != chats ==> Truthy(orderId) && r.0 == Ok(Chat(newId, orderId.value, userId, now))
                             && r.1 == chats + [Chat(newId, orderId.value, userId, now)]
    ensures !Truthy(orderId) ==> r == (Fail(BadRequest), chats)
    ensures Truthy(orderId) && FindChatOfOrder(chats, orderId.value).Some?
            ==> r == (Ok(FindChatOfOrder(chats, orderId.value).value), chats)
    ensures r.1 != chats <==>
              Truthy(orderId) && FindChatOfOrder(chats, orderId.value).None?
              && FindOrder(orders, orderId.value).Some? && MayOpen(FindOrder(orders, orderId.value).value, products, userId)
              && newId !in ChatIds(chats)
    ensures Truthy(orderId) && FindChatOfOrder(chats, orderId.value).None? && FindOrder(orders, orderId.value).None?
            ==> r.0 == Fail(NotFound)
    ensures Truthy(orderId) && FindChatOfOrder(chats, orderId.value).None? && FindOrder(orders, orderId.value).Some?
            && !MayOpen(FindOrder(orders, orderId.value).value, products, userId)
            ==> r.0 == Fail(Unauthorized)
  {
    if !Truthy(orderId) then (Fail(BadRequest), chats)
    else match FindChatOfOrder(chats, orderId.value)
      case Some(existing) => (Ok(existing), chats)
      case None =>
        match FindOrder(orders, orderId.value)
        case None => (Fail(NotFound), chats)
        case Some(o) =>
          if !MayOpen(o, products, userId) then (Fail(Unauthorized), chats)
          else if newId in ChatIds(chats) then (Fail(ServerError), chats)
          else
            var c := Chat(newId, orderId.value, userId, now);
            var grown := chats + [c];
            assert OneChatPerOrder(grown) && UniqueChatIds(grown) by {
              forall i, j | 0 <= i < j < |grown|
                ensures grown[i].orderId != grown[j].orderId && grown[i].id != grown[j].id
              {
                if j == |chats| { assert grown[i] in chats; }
              }
            }
            (Ok(c), grown)
  }

  /** POST; `newId` and `now` are the id and timestamp the database gives a new chat. */
  method Post(db: Db, session: Option<SessionUser>, orderId: Option<string>, passwordHash: string, roleId: Id,
              newId: Id, now: Time)
    returns (r: Reply<Chat>)
    requires db.Valid()
    modifies db
    ensures db.Valid()
    ensures session.None? ==> r == Fail(Unauthorized) && db.Snapshot() == old(db.Snapshot())
    ensures session.Some? && WithSessionUser(old(db.Snapshot()), session.value, passwordHash, roleId).None?
            ==> r == Fail(ServerError) && db.Snapshot() == old(db.Snapshot())
    ensures session.Some? && WithSessionUser(old(db.Snapshot()), session.value, passwordHash, roleId).Some?
            ==> var t := WithSessionUser(old(db.Snapshot()), session.value, passwordHash, roleId).value;
                var outcome := Open(t.chats, t.orders, t.products, session.value.id, orderId, newId, now);
                r == outcome.0 && db.Snapshot() == t.(chats := outcome.1)
  {
    if session.None? {
      return Fail(Unauthorized);
    }
    var ok := EnsureUser(db, session.value, passwordHash, roleId);
    if !ok {
      return Fail(ServerError);
    }
    var userId := session.value.id;
    if !Truthy(orderId) {
      return Fail(BadRequest);
    }
    var existing := FindChatOfOrder(db.chats, orderId.value);
    if existing.Some? {
      return Ok(existing.value);
    }
    var order := FindOrder(db.orders, orderId.value);
    if order.None? {
      return Fail(NotFound);
    }
    if !MayOpen(order.value, db.products, userId) {
      return Fail(Unauthorized);
    }
    if newId in ChatIds(db.chats) {
      return Fail(ServerError);
    }
    var c := Chat(newId, orderId.value, userId, now);
    ghost var outcome := Open(db.chats, db.orders, db.products, userId, orderId, newId, now);
    db.chats := db.chats + [c];
    assert db.chats == outcome.1;
    r := Ok(c);
  }
}

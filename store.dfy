/**
 * The database the route handlers share, as an object holding one table per
 * model. Each table is the sequence of its rows in table order (the order a
 * `findMany` without `orderBy` lists them). `Valid` holds the primary keys,
 * the unique columns the handlers rely on, and the cart and portfolio-item
 * constraints.
 */
module Store {
  import opened Schema

  /** A snapshot of every table, to say in one equation what a handler changed. */
  datatype Tables = Tables(
    users: seq<User>, roles: seq<Role>, products: seq<Product>, orders: seq<Order>,
    cartItems: seq<CartItem>, ratings: seq<Rating>, chats: seq<Chat>,
    discountCodes: seq<DiscountCode>, portfolios: seq<Portfolio>,
    portfolioItems: seq<PortfolioItem>, storeSettings: seq<StoreSettings>,
    affiliates: seq<Affiliate>)

  predicate Consistent(t: Tables) {
    && UniqueUserIds(t.users) && UniqueEmails(t.users) && UniqueUsernames(t.users)
    && UniqueRoleIds(t.roles) && UniqueRoleNames(t.roles)
    && UniqueProductIds(t.products)
    && UniqueOrderIds(t.orders)
    && CartWellFormed(t.cartItems, t.products)
    && UniqueChatIds(t.chats) && OneChatPerOrder(t.chats)
    && UniqueCodes(t.discountCodes)
    && UniquePortfolioIds(t.portfolios) && OnePortfolioPerUser(t.portfolios)
    && UniqueItemIds(t.portfolioItems) && ItemsHavePortfolio(t.portfolioItems, t.portfolios)
    && OneSettingsPerUser(t.storeSettings)
    && UniqueAffiliateIds(t.affiliates) && OneAffiliatePerUser(t.affiliates)
  }

  class Db {
    var users: seq<User>
    var roles: seq<Role>
    var products: seq<Product>
    var orders: seq<Order>
    var cartItems: seq<CartItem>
    var ratings: seq<Rating>
    var chats: seq<Chat>
    var discountCodes: seq<DiscountCode>
    var portfolios: seq<Portfolio>
    var portfolioItems: seq<PortfolioItem>
    var storeSettings: seq<StoreSettings>
    var affiliates: seq<Affiliate>

    function Snapshot(): Tables
      reads this
    {
      Tables(users, roles, products, orders, cartItems, ratings, chats, discountCodes,
             portfolios, portfolioItems, storeSettings, affiliates)
    }

    predicate Valid()
      reads this
    {
      Consistent(Snapshot())
    }

    constructor (t: Tables)
      requires Consistent(t)
      ensures Valid() && Snapshot() == t
    {
      users, roles, products, orders := t.users, t.roles, t.products, t.orders;
      cartItems, ratings, chats, discountCodes := t.cartItems, t.ratings, t.chats, t.discountCodes;
      portfolios, portfolioItems, storeSettings, affiliates := t.portfolios, t.portfolioItems, t.storeSettings, t.affiliates;
    }
  }
}

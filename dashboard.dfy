/**
 * src/app/api/dashboard/route.ts: the signed-in user's dashboard: order
 * counts as buyer and as seller, the average of the ratings the user
 * received, distinct customers, revenue, the five newest orders and reviews,
 * and whether a portfolio and store settings exist.
 */
module Dashboard {
  import opened Wrappers
  import opened Schema
  import opened Http
  import opened Store
  import Seqs
  import Orders

  /** `orderItems: { some: { product: { creatorId } } }` */
  function SoldBy(products: seq<Product>, userId: Id): Order -> bool {
    (o: Order) => SellerOf(o, products, userId)
  }

  /** The recent-orders `where`: bought by the user, or holding one of the user's products. */
  function Involving(products: seq<Product>, userId: Id): Order -> bool {
    Seqs.Either(Orders.BoughtBy(userId), SoldBy(products, userId))
  }

  /** The revenue `where`: a completed order holding one of the user's products. */
  function CompletedSale(products: seq<Product>, userId: Id): Order -> bool {
    (o: Order) => SellerOf(o, products, userId) && o.status == "completed"
  }

  function RatingOf(userId: Id): Rating -> bool {
    (r: Rating) => r.userId == userId
  }

  function RatingValue(r: Rating): real {
    r.rating as real
  }

  function RatedAt(r: Rating): int {
    r.createdAt
  }

  function Buyers(orders: seq<Order>): (r: seq<Id>)
    ensures |r| == |orders|
  {
    seq(|orders|, i requires 0 <= i < |orders| => orders[i].userId)
  }

  // ---- The statistics ----

  /** `buyerOrders + sellerOrders` */
  function TotalOrders(orders: seq<Order>, products: seq<Product>, userId: Id): nat {
    |Seqs.Filter(orders, Orders.BoughtBy(userId))| + |Seqs.Filter(orders, SoldBy(products, userId))|
  }

  /** The mean of the ratings, 0 when there are none. */
  function AverageRating(ratings: seq<Rating>): real {
    if |ratings| > 0 then Seqs.SumOf(ratings, RatingValue) / |ratings| as real else 0.0
  }

  /** `new Set(sold.map(o => o.userId)).size` */
  function TotalCustomers(orders: seq<Order>, products: seq<Product>, userId: Id): nat {
    |Seqs.Dedupe(Buyers(Seqs.Filter(orders, SoldBy(products, userId))))|
  }

  /** `_sum.totalPrice || 0`: an empty sum is 0. */
  function TotalRevenue(orders: seq<Order>, products: seq<Product>, userId: Id): real {
    Seqs.SumOf(Seqs.Filter(orders, CompletedSale(products, userId)), TotalPriceOf)
  }

  function RecentOrders(orders: seq<Order>, products: seq<Product>, userId: Id): seq<Order> {
    Seqs.Take(Seqs.SortBy(Seqs.Filter(orders, Involving(products, userId)), Seqs.Descending(Orders.CreatedAt)), 5)
  }

  function RecentReviews(ratings: seq<Rating>, userId: Id): seq<Rating> {
    Seqs.Take(Seqs.SortBy(Seqs.Filter(ratings, RatingOf(userId)), Seqs.Descending(RatedAt)), 5)
  }

  predicate HasPortfolio(portfolios: seq<Portfolio>, userId: Id) {
    exists p :: p in portfolios && p.userId == userId
  }

  predicate HasStoreSetup(settings: seq<StoreSettings>, userId: Id) {
    exists s :: s in settings && s.userId == userId
  }

  datatype UserSummary = UserSummary(id: Id, username: string, email: Option<string>, roles: seq<Role>,
                                     hasPortfolio: bool, hasStoreSetup: bool)

  datatype Stats = Stats(totalOrders: nat, averageRating: real, totalCustomers: nat, totalRevenue: real)

  datatype View = View(user: UserSummary, stats: Stats, recentOrders: seq<Order>, recentReviews: seq<Rating>)

  /** GET */
  function Get(t: Tables, session: Option<SessionUser>): (r: Reply<View>)
    ensures session.None? <==> r == Fail(Unauthorized)
    ensures session.Some? && FindUser(t.users, session.value.id).None? <==> r == Fail(NotFound)
    ensures r.status == OK <==> session.Some? && FindUser(t.users, session.value.id).Some?
    ensures r.status == OK ==>
              var u := FindUser(t.users, session.value.id).value;
              && r.body.Some?
              && r.body.value.user == UserSummary(u.id, u.username, u.email, RolesOf(t.roles, u),
                                                   HasPortfolio(t.portfolios, u.id),
                                                   HasStoreSetup(t.storeSettings, u.id))
              && r.body.value.stats == Stats(TotalOrders(t.orders, t.products, u.id),
                                             AverageRating(Seqs.Filter(t.ratings, RatingOf(u.id))),
                                             TotalCustomers(t.orders, t.products, u.id),
                                             TotalRevenue(t.orders, t.products, u.id))
              && r.body.value.recentOrders == RecentOrders(t.orders, t.products, u.id)
              && r.body.value.recentReviews == RecentReviews(t.ratings, u.id)
  {
    match session
    case None => Fail(Unauthorized)
    case Some(s) =>
      match FindUser(t.users, s.id)
      case None => Fail(NotFound)
      case Some(u) =>
        Ok(View(UserSummary(u.id, u.username, u.email, RolesOf(t.roles, u),
                            HasPortfolio(t.portfolios, u.id), HasStoreSetup(t.storeSettings, u.id)),
                Stats(TotalOrders(t.orders, t.products, u.id),
                      AverageRating(Seqs.Filter(t.ratings, RatingOf(u.id))),
                      TotalCustomers(t.orders, t.products, u.id),
                      TotalRevenue(t.orders, t.products, u.id)),
                RecentOrders(t.orders, t.products, u.id),
                RecentReviews(t.ratings, u.id)))
  }

  // ---- What the statistics mean ----

  /**
   * The two counts add up to the orders the user takes part in plus the
   * orders where the user is both buyer and seller: a self-purchase counts twice.
   */
  lemma TotalOrdersCountsOverlapTwice(orders: seq<Order>, products: seq<Product>, userId: Id)
    ensures TotalOrders(orders, products, userId)
            == |Seqs.Filter(orders, Involving(products, userId))|
               + |Seqs.Filter(orders, Seqs.Both(Orders.BoughtBy(userId), SoldBy(products, userId)))|
  {
    Seqs.FilterInclusionExclusion(orders, Orders.BoughtBy(userId), SoldBy(products, userId));
  }

  lemma DivisionBounds(sum: real, n: real, lo: real, hi: real)
    requires n > 0.0 && n * lo <= sum <= n * hi
    ensures lo <= sum / n <= hi
  {
    assert sum / n * n == sum;
  }

  /** The average lies within any bounds every rating lies within (so between the least and greatest). */
  lemma AverageWithinBounds(ratings: seq<Rating>, lo: int, hi: int)
    requires |ratings| > 0
    requires forall i :: 0 <= i < |ratings| ==> lo <= ratings[i].rating <= hi
    ensures lo as real <= AverageRating(ratings) <= hi as real
  {
    Seqs.SumOfBounds(ratings, RatingValue, lo as real, hi as real);
    DivisionBounds(Seqs.SumOf(ratings, RatingValue), |ratings| as real, lo as real, hi as real);
  }

  /** The customers are the distinct buyers of orders holding the user's products. */
  lemma TotalCustomersCorrect(orders: seq<Order>, products: seq<Product>, userId: Id)
    ensures TotalCustomers(orders, products, userId)
            == |set o | o in orders && SellerOf(o, products, userId) :: o.userId|
  {
    var sold := Seqs.Filter(orders, SoldBy(products, userId));
    var buyers := Buyers(sold);
    var d := Seqs.Dedupe(buyers);
    Seqs.DistinctCount(d);
    assert (set x | x in d) == (set o | o in orders && SellerOf(o, products, userId) :: o.userId) by {
      forall x | x in d ensures x in (set o | o in orders && SellerOf(o, products, userId) :: o.userId) {
        var i :| 0 <= i < |buyers| && buyers[i] == x;
        assert sold[i] in sold;
      }
      forall o | o in orders && SellerOf(o, products, userId) ensures o.userId in d {
        assert o in sold;
        var i :| 0 <= i < |sold| && sold[i] == o;
        assert buyers[i] == o.userId;
      }
    }
  }

  /** The five newest orders the user takes part in, newest first, none newer left out. */
  lemma RecentOrdersCorrect(orders: seq<Order>, products: seq<Product>, userId: Id)
    ensures var r := RecentOrders(orders, products, userId);
            var candidates := Seqs.Filter(orders, Involving(products, userId));
            && (forall o :: o in candidates <==> o in orders && (o.userId == userId || SellerOf(o, products, userId)))
            && |r| == (if |candidates| <= 5 then |candidates| else 5)
            && (forall o :: o in r ==> o in orders && (o.userId == userId || SellerOf(o, products, userId)))
            && (forall i, j :: 0 <= i < j < |r| ==> r[i].createdAt >= r[j].createdAt)
            && forall o, p ::
                 o in orders && (o.userId == userId || SellerOf(o, products, userId)) && o !in r && p in r
                 ==> p.createdAt >= o.createdAt
  {
    Seqs.TakeNewestOf(orders, Involving(products, userId), Orders.CreatedAt, 5);
    var r := RecentOrders(orders, products, userId);
    forall o | o in r ensures o in orders && (o.userId == userId || SellerOf(o, products, userId)) {
      assert Involving(products, userId)(o);
    }
    forall o, p | o in orders && (o.userId == userId || SellerOf(o, products, userId)) && o !in r && p in r
      ensures p.createdAt >= o.createdAt
    {
      assert Involving(products, userId)(o);
      assert Orders.CreatedAt(p) >= Orders.CreatedAt(o);
    }
  }

  /** The five newest ratings the user received, newest first, none newer left out. */
  lemma RecentReviewsCorrect(ratings: seq<Rating>, userId: Id)
    ensures var r := RecentReviews(ratings, userId);
            var received := Seqs.Filter(ratings, RatingOf(userId));
            && (forall x :: x in received <==> x in ratings && x.userId == userId)
            && |r| == (if |received| <= 5 then |received| else 5)
            && (forall x :: x in r ==> x in ratings && x.userId == userId)
            && (forall i, j :: 0 <= i < j < |r| ==> r[i].createdAt >= r[j].createdAt)
            && forall x, y :: x in ratings && x.userId == userId && x !in r && y in r ==> y.createdAt >= x.createdAt
  {
    Seqs.TakeNewestOf(ratings, RatingOf(userId), RatedAt, 5);
    var r := RecentReviews(ratings, userId);
    forall x, y | x in ratings && x.userId == userId && x !in r && y in r ensures y.createdAt >= x.createdAt {
      assert RatedAt(y) >= RatedAt(x);
    }
  }

  /** A user with no completed sale has no revenue. */
  lemma RevenueOfNoSales(orders: seq<Order>, products: seq<Product>, userId: Id)
    requires forall o :: o in orders ==> !(SellerOf(o, products, userId) && o.status == "completed")
    ensures TotalRevenue(orders, products, userId) == 0.0
  {
    Seqs.FilterNone(orders, CompletedSale(products, userId));
  }
}

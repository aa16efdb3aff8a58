/**
 * src/app/api/admin/sales/route.ts: sales analytics over the completed
 * orders of a date range, for holders of the "manage_roles" permission:
 * the total and count of the orders, and three dictionaries built by adding
 * into `acc[key]`: item prices by product category, item prices by the
 * creator's username, and order totals by day.
 */
module Sales {
  import opened Wrappers
  import opened Schema
  import opened Http
  import opened Store
  import Seqs

  const MillisPerDay := 86400000

  /** The UTC day of a timestamp (`toISOString().split('T')[0]`), as a day number. */
  function Day(t: Time): int {
    t / MillisPerDay
  }

  /** The `where` of the order query. */
  predicate Counted(o: Order, start: Time, end: Time) {
    o.status == "completed" && start <= o.createdAt <= end
  }

  function CountedIn(start: Time, end: Time): Order -> bool {
    (o: Order) => Counted(o, start, end)
  }

  /** Every item's product and that product's creator can be loaded. */
  predicate ItemResolves(item: OrderItem, products: seq<Product>, users: seq<User>) {
    FindProduct(products, item.productId).Some?
    && FindUser(users, FindProduct(products, item.productId).value.creatorId).Some?
  }

  predicate AllItemsResolve(orders: seq<Order>, products: seq<Product>, users: seq<User>) {
    forall o, i :: o in orders && 0 <= i < |o.items| ==> ItemResolves(o.items[i], products, users)
  }

  function CategoryEntry(item: OrderItem, products: seq<Product>, users: seq<User>): (string, real)
    requires ItemResolves(item, products, users)
  {
    (FindProduct(products, item.productId).value.category, item.price)
  }

  function CreatorEntry(item: OrderItem, products: seq<Product>, users: seq<User>): (string, real)
    requires ItemResolves(item, products, users)
  {
    (FindUser(users, FindProduct(products, item.productId).value.creatorId).value.username, item.price)
  }

  /** The `(category, item price)` entries of one order, in item order. */
  function OrderCategoryEntries(o: Order, products: seq<Product>, users: seq<User>): (r: seq<(string, real)>)
    requires forall i :: 0 <= i < |o.items| ==> ItemResolves(o.items[i], products, users)
    ensures |r| == |o.items|
  {
    seq(|o.items|, i requires 0 <= i < |o.items| => CategoryEntry(o.items[i], products, users))
  }

  function OrderCreatorEntries(o: Order, products: seq<Product>, users: seq<User>): (r: seq<(string, real)>)
    requires forall i :: 0 <= i < |o.items| ==> ItemResolves(o.items[i], products, users)
    ensures |r| == |o.items|
  {
    seq(|o.items|, i requires 0 <= i < |o.items| => CreatorEntry(o.items[i], products, users))
  }

  /** Every item's entry, order after order: what the category `forEach` adds, in that order. */
  function CategoryEntries(orders: seq<Order>, products: seq<Product>, users: seq<User>): seq<(string, real)>
    requires AllItemsResolve(orders, products, users)
  {
    if orders == [] then []
    else CategoryEntries(orders[..|orders| - 1], products, users)
         + OrderCategoryEntries(orders[|orders| - 1], products, users)
  }

  function CreatorEntries(orders: seq<Order>, products: seq<Product>, users: seq<User>): seq<(string, real)>
    requires AllItemsResolve(orders, products, users)
  {
    if orders == [] then []
    else CreatorEntries(orders[..|orders| - 1], products, users)
         + OrderCreatorEntries(orders[|orders| - 1], products, users)
  }

  function DayEntry(o: Order): (int, real) {
    (Day(o.createdAt), o.totalPrice)
  }

  function DayEntries(orders: seq<Order>): (r: seq<(int, real)>)
    ensures |r| == |orders|
  {
    seq(|orders|, i requires 0 <= i < |orders| => DayEntry(orders[i]))
  }

  /** The sum of every item price of the orders. */
  function ItemPriceSum(orders: seq<Order>): real {
    if orders == [] then 0.0
    else ItemPriceSum(orders[..|orders| - 1]) + Seqs.SumOf(orders[|orders| - 1].items, ItemPrice)
  }

  function ItemPrice(i: OrderItem): real {
    i.price
  }

  // ---- The group-by loops ----

  lemma GroupTotalsSnoc<K>(entries: seq<(K, real)>, e: (K, real))
    ensures Seqs.GroupTotals(entries + [e]) == Seqs.AddTo(Seqs.GroupTotals(entries), e.0, e.1)
  {
    assert (entries + [e])[..|entries|] == entries;
  }

  lemma SnocPrefix<T>(done: seq<T>, mine: seq<T>, j: nat)
    requires j < |mine|
    ensures done + mine[..j] + [mine[j]] == done + mine[..j + 1]
  {
    assert mine[..j + 1] == mine[..j] + [mine[j]];
  }

  /** One more order appends its item entries, in item order. */
  lemma CategoryEntriesStep(orders: seq<Order>, products: seq<Product>, users: seq<User>, k: nat)
    requires AllItemsResolve(orders, products, users) && k < |orders|
    ensures AllItemsResolve(orders[..k], products, users) && AllItemsResolve(orders[..k + 1], products, users)
    ensures forall i :: 0 <= i < |orders[k].items| ==> ItemResolves(orders[k].items[i], products, users)
    ensures CategoryEntries(orders[..k + 1], products, users)
            == CategoryEntries(orders[..k], products, users) + OrderCategoryEntries(orders[k], products, users)
  {
    assert orders[k] in orders;
    assert orders[..k + 1][..k] == orders[..k];
  }

  lemma CreatorEntriesStep(orders: seq<Order>, products: seq<Product>, users: seq<User>, k: nat)
    requires AllItemsResolve(orders, products, users) && k < |orders|
    ensures AllItemsResolve(orders[..k], products, users) && AllItemsResolve(orders[..k + 1], products, users)
    ensures forall i :: 0 <= i < |orders[k].items| ==> ItemResolves(orders[k].items[i], products, users)
    ensures CreatorEntries(orders[..k + 1], products, users)
            == CreatorEntries(orders[..k], products, users) + OrderCreatorEntries(orders[k], products, users)
  {
    assert orders[k] in orders;
    assert orders[..k + 1][..k] == orders[..k];
  }

  /** `salesByCategory`: for each order, for each item, `acc[category] += item.price`. */
  method SalesByCategory(orders: seq<Order>, products: seq<Product>, users: seq<User>)
    returns (acc: map<string, real>)
    requires AllItemsResolve(orders, products, users)
    ensures acc == Seqs.GroupTotals(CategoryEntries(orders, products, users))
  {
    acc := map[];
    var k := 0;
    while k < |orders|
      invariant 0 <= k <= |orders|
      invariant AllItemsResolve(orders[..k], products, users)
      invariant acc == Seqs.GroupTotals(CategoryEntries(orders[..k], products, users))
    {
      var o := orders[k];
      CategoryEntriesStep(orders, products, users, k);
      ghost var done := CategoryEntries(orders[..k], products, users);
      ghost var mine := OrderCategoryEntries(o, products, users);
      var j := 0;
      assert done + mine[..0] == done;
      while j < |o.items|
        invariant 0 <= j <= |o.items|
        invariant acc == Seqs.GroupTotals(done + mine[..j])
      {
        var entry := CategoryEntry(o.items[j], products, users);
        GroupTotalsSnoc(done + mine[..j], entry);
        SnocPrefix(done, mine, j);
        acc := Seqs.AddTo(acc, entry.0, entry.1);
        j := j + 1;
      }
      assert mine[..j] == mine;
      k := k + 1;
    }
    assert orders[..k] == orders;
  }

  /** `salesByCreator`: for each order, for each item, `acc[creator username] += item.price`. */
  method SalesByCreator(orders: seq<Order>, products: seq<Product>, users: seq<User>)
    returns (acc: map<string, real>)
    requires AllItemsResolve(orders, products, users)
    ensures acc == Seqs.GroupTotals(CreatorEntries(orders, products, users))
  {
    acc := map[];
    var k := 0;
    while k < |orders|
      invariant 0 <= k <= |orders|
      invariant AllItemsResolve(orders[..k], products, users)
      invariant acc == Seqs.GroupTotals(CreatorEntries(orders[..k], products, users))
    {
      var o := orders[k];
      CreatorEntriesStep(orders, products, users, k);
      ghost var done := CreatorEntries(orders[..k], products, users);
      ghost var mine := OrderCreatorEntries(o, products, users);
      var j := 0;
      assert done + mine[..0] == done;
      while j < |o.items|
        invariant 0 <= j <= |o.items|
        invariant acc == Seqs.GroupTotals(done + mine[..j])
      {
        var entry := CreatorEntry(o.items[j], products, users);
        GroupTotalsSnoc(done + mine[..j], entry);
        SnocPrefix(done, mine, j);
        acc := Seqs.AddTo(acc, entry.0, entry.1);
        j := j + 1;
      }
      assert mine[..j] == mine;
      k := k + 1;
    }
    assert orders[..k] == orders;
  }

  /** `dailySales`: for each order, `acc[day] += order.totalPrice`. */
  method DailySales(orders: seq<Order>) returns (acc: map<int, real>)
    ensures acc == Seqs.GroupTotals(DayEntries(orders))
  {
    acc := map[];
    var k := 0;
    while k < |orders|
      invariant 0 <= k <= |orders|
      invariant acc == Seqs.GroupTotals(DayEntries(orders[..k]))
    {
      var entry := DayEntry(orders[k]);
      GroupTotalsSnoc(DayEntries(orders[..k]), entry);
      assert DayEntries(orders[..k]) + [entry] == DayEntries(orders[..k + 1]);
      acc := Seqs.AddTo(acc, entry.0, entry.1);
      k := k + 1;
    }
    assert orders[..k] == orders;
  }

  // ---- What the dictionaries add up to ----

  lemma {:induction false} CategoryEntriesSum(orders: seq<Order>, products: seq<Product>, users: seq<User>)
    requires AllItemsResolve(orders, products, users)
    ensures Seqs.SumOf(CategoryEntries(orders, products, users), Seqs.EntryValue) == ItemPriceSum(orders)
  {
    if orders != [] {
      var init, o := orders[..|orders| - 1], orders[|orders| - 1];
      assert o in orders;
      assert forall x :: x in init ==> x in orders;
      CategoryEntriesSum(init, products, users);
      Seqs.SumOfAppend(CategoryEntries(init, products, users), OrderCategoryEntries(o, products, users), Seqs.EntryValue);
      Seqs.SumOfPointwise(OrderCategoryEntries(o, products, users), Seqs.EntryValue, o.items, ItemPrice);
    }
  }

  lemma {:induction false} CreatorEntriesSum(orders: seq<Order>, products: seq<Product>, users: seq<User>)
    requires AllItemsResolve(orders, products, users)
    ensures Seqs.SumOf(CreatorEntries(orders, products, users), Seqs.EntryValue) == ItemPriceSum(orders)
  {
    if orders != [] {
      var init, o := orders[..|orders| - 1], orders[|orders| - 1];
      assert o in orders;
      assert forall x :: x in init ==> x in orders;
      CreatorEntriesSum(init, products, users);
      Seqs.SumOfAppend(CreatorEntries(init, products, users), OrderCreatorEntries(o, products, users), Seqs.EntryValue);
      Seqs.SumOfPointwise(OrderCreatorEntries(o, products, users), Seqs.EntryValue, o.items, ItemPrice);
    }
  }

  /**
   * Both item dictionaries distribute the same money: their values add up to
   * the sum of all item prices (unit prices, not multiplied by quantity).
   */
  lemma CategoryAndCreatorAgree(orders: seq<Order>, products: seq<Product>, users: seq<User>)
    requires AllItemsResolve(orders, products, users)
    ensures Seqs.MapSum(Seqs.GroupTotals(CategoryEntries(orders, products, users))) == ItemPriceSum(orders)
    ensures Seqs.MapSum(Seqs.GroupTotals(CreatorEntries(orders, products, users))) == ItemPriceSum(orders)
  {
    Seqs.GroupTotalsConserves(CategoryEntries(orders, products, users));
    CategoryEntriesSum(orders, products, users);
    Seqs.GroupTotalsConserves(CreatorEntries(orders, products, users));
    CreatorEntriesSum(orders, products, users);
  }

  /** The day totals add up to `totalSales`. */
  lemma DailySumsToTotal(orders: seq<Order>)
    ensures Seqs.MapSum(Seqs.GroupTotals(DayEntries(orders))) == Seqs.SumOf(orders, TotalPriceOf)
  {
    Seqs.GroupTotalsConserves(DayEntries(orders));
    Seqs.SumOfPointwise(DayEntries(orders), Seqs.EntryValue, orders, TotalPriceOf);
  }

  /** A day's value is the sum of the totals of exactly the orders created that day. */
  lemma DailyValue(orders: seq<Order>, d: int)
    ensures d in Seqs.GroupTotals(DayEntries(orders)) <==> exists i :: 0 <= i < |orders| && Day(orders[i].createdAt) == d
    ensures d in Seqs.GroupTotals(DayEntries(orders)) ==>
              Seqs.GroupTotals(DayEntries(orders))[d] == Seqs.SumOf(Seqs.EntriesWithKey(DayEntries(orders), d), Seqs.EntryValue)
  {
    Seqs.GroupTotalsKeys(DayEntries(orders), d);
    if exists i :: 0 <= i < |orders| && Day(orders[i].createdAt) == d {
      var i :| 0 <= i < |orders| && Day(orders[i].createdAt) == d;
      assert DayEntries(orders)[i].0 == d;
    }
    if d in Seqs.GroupTotals(DayEntries(orders)) {
      Seqs.GroupTotalsValue(DayEntries(orders), d);
    }
  }

  // ---- The handler ----

  datatype Report = Report(totalSales: real, totalOrders: nat, salesByCategory: map<string, real>,
                           salesByCreator: map<string, real>, dailySales: map<int, real>,
                           startDate: Time, endDate: Time)

  /**
   * GET. `startParam` and `endParam` are the parsed query parameters (absent
   * or empty: `None`); `monthAgo` is the clock's time one calendar month
   * before `now`.
   */
  method Get(db: Db, session: Option<SessionUser>, startParam: Option<Time>, endParam: Option<Time>,
             now: Time, monthAgo: Time)
    returns (r: Reply<Report>)
    ensures session.None? ==> r == Fail(Unauthorized)
    ensures session.Some? && !UserHasPermission(FindUser(db.users, session.value.id), db.roles, "manage_roles")
            ==> r == Fail(Forbidden)
    ensures r.status == OK ==>
              && session.Some? && UserHasPermission(FindUser(db.users, session.value.id), db.roles, "manage_roles")
              && r.body.Some?
              && var report := r.body.value;
                 var counted := Seqs.Filter(db.orders, CountedIn(report.startDate, report.endDate));
                 && report.startDate == startParam.GetOr(monthAgo)
                 && report.endDate == endParam.GetOr(now)
                 && report.totalSales == Seqs.SumOf(counted, TotalPriceOf)
                 && report.totalOrders == |counted|
                 && AllItemsResolve(counted, db.products, db.users)
                 && report.salesByCategory == Seqs.GroupTotals(CategoryEntries(counted, db.products, db.users))
                 && report.salesByCreator == Seqs.GroupTotals(CreatorEntries(counted, db.products, db.users))
                 && report.dailySales == Seqs.GroupTotals(DayEntries(counted))
    ensures session.Some? && UserHasPermission(FindUser(db.users, session.value.id), db.roles, "manage_roles")
            ==> (r.status == OK
                 <==> AllItemsResolve(Seqs.Filter(db.orders, CountedIn(startParam.GetOr(monthAgo), endParam.GetOr(now))),
                                      db.products, db.users))
    ensures r.status == OK || r.body.None?
  {
    if session.None? {
      return Fail(Unauthorized);
    }
    if !UserHasPermission(FindUser(db.users, session.value.id), db.roles, "manage_roles") {
      return Fail(Forbidden);
    }
    var startDate := startParam.GetOr(monthAgo);
    var endDate := endParam.GetOr(now);
    var orders := Seqs.Filter(db.orders, CountedIn(startDate, endDate));
    if !AllItemsResolve(orders, db.products, db.users) {
      // reading `product.category` or `creator.username` of a missing relation throws
      return Fail(ServerError);
    }
    var totalSales := Seqs.SumOf(orders, TotalPriceOf);
    var byCategory := SalesByCategory(orders, db.products, db.users);
    var byCreator := SalesByCreator(orders, db.products, db.users);
    var daily := DailySales(orders);
    r := Ok(Report(totalSales, |orders|, byCategory, byCreator, daily, startDate, endDate));
  }
}

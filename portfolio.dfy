/**
 * src/app/api/portfolio/route.ts: reading the caller's portfolio with its
 * items newest first, and creating it, at most one per user.
 */
module Portfolios {
  import opened Wrappers
  import opened Schema
  import opened Http
  import opened Store
  import Seqs

  /** A portfolio with its items (`include: { items }`). */
  datatype View = View(portfolio: Portfolio, items: seq<PortfolioItem>)

  function OwnedBy(userId: Id): Portfolio -> bool {
    (p: Portfolio) => p.userId == userId
  }

  /** `portfolio.findUnique({ where: { userId } })` */
  function PortfolioOf(portfolios: seq<Portfolio>, userId: Id): (r: Option<Portfolio>)
    ensures r.Some? ==> r.value in portfolios && r.value.userId == userId
    ensures r.None? <==> forall p :: p in portfolios ==> p.userId != userId
  {
    match Seqs.IndexWhere(portfolios, OwnedBy(userId))
    case Some(k) => Some(portfolios[k])
    case None => None
  }

  function InPortfolio(portfolioId: Id): PortfolioItem -> bool {
    (i: PortfolioItem) => i.portfolioId == portfolioId
  }

  function ItemCreatedAt(i: PortfolioItem): int {
    i.createdAt
  }

  /** The portfolio's items in table order (`include: { items: true }`). */
  function ItemsOf(items: seq<PortfolioItem>, portfolioId: Id): (r: seq<PortfolioItem>)
    ensures forall i :: i in r <==> i in items && i.portfolioId == portfolioId
  {
    Seqs.Filter(items, InPortfolio(portfolioId))
  }

  /** The portfolio's items newest first (`orderBy: { createdAt: "desc" }`). */
  function NewestFirst(items: seq<PortfolioItem>, portfolioId: Id): (r: seq<PortfolioItem>)
    ensures multiset(r) == multiset(ItemsOf(items, portfolioId))
    ensures forall i :: i in r <==> i in items && i.portfolioId == portfolioId
    ensures forall a, b :: 0 <= a < b < |r| ==> r[a].createdAt >= r[b].createdAt
  {
    Seqs.SortedDescending(ItemsOf(items, portfolioId), ItemCreatedAt);
    Seqs.SortBy(ItemsOf(items, portfolioId), Seqs.Descending(ItemCreatedAt))
  }

  /** GET */
  function Get(t: Tables, session: Option<SessionUser>): (r: Reply<View>)
    ensures session.None? <==> r == Fail(Unauthorized)
    ensures session.Some? && PortfolioOf(t.portfolios, session.value.id).None? <==> r == Fail(NotFound)
    ensures r.status == OK <==> session.Some? && PortfolioOf(t.portfolios, session.value.id).Some?
    ensures r.status == OK ==>
              var p := PortfolioOf(t.portfolios, session.value.id).value;
              r == Ok(View(p, NewestFirst(t.portfolioItems, p.id)))
  {
    if session.None? then Fail(Unauthorized)
    else match PortfolioOf(t.portfolios, session.value.id)
      case None => Fail(NotFound)
      case Some(p) => Ok(View(p, NewestFirst(t.portfolioItems, p.id)))
  }

  predicate IdTaken(portfolios: seq<Portfolio>, id: Id) {
    exists p :: p in portfolios && p.id == id
  }

  /** Appending a portfolio with a fresh id for a user who has none keeps the portfolio constraints. */
  lemma AppendKeepsUnique(portfolios: seq<Portfolio>, items: seq<PortfolioItem>, p: Portfolio)
    requires UniquePortfolioIds(portfolios) && OnePortfolioPerUser(portfolios)
    requires ItemsHavePortfolio(items, portfolios)
    requires !IdTaken(portfolios, p.id) && PortfolioOf(portfolios, p.userId).None?
    ensures UniquePortfolioIds(portfolios + [p]) && OnePortfolioPerUser(portfolios + [p])
    ensures ItemsHavePortfolio(items, portfolios + [p])
  {
    var s := portfolios + [p];
    forall i, j | 0 <= i < j < |s| ensures s[i].id != s[j].id && s[i].userId != s[j].userId {
      if j == |portfolios| {
        assert s[i] in portfolios;
      }
    }
    forall i | 0 <= i < |items| ensures exists q :: q in s && q.id == items[i].portfolioId {
      var q :| q in portfolios && q.id == items[i].portfolioId;
      assert q in s;
    }
  }

  /** A portfolio whose id no portfolio had yet has no items. */
  lemma FreshPortfolioIsEmpty(portfolios: seq<Portfolio>, items: seq<PortfolioItem>, id: Id)
    requires ItemsHavePortfolio(items, portfolios) && !IdTaken(portfolios, id)
    ensures ItemsOf(items, id) == []
  {
    forall x | x in items ensures !InPortfolio(id)(x) {
      var i :| 0 <= i < |items| && items[i] == x;
      var q :| q in portfolios && q.id == items[i].portfolioId;
    }
    Seqs.FilterNone(items, InPortfolio(id));
  }

  /**
   * POST: create the caller's portfolio. `newId` and `now` are the id and
   * timestamp the database assigns; a colliding id makes the insert throw (500).
   */
  method Post(db: Db, session: Option<SessionUser>, title: Option<string>, description: Option<string>,
              newId: Id, now: Time)
    returns (r: Reply<View>)
    requires db.Valid()
    modifies db
    ensures db.Valid()
    ensures session.None? ==> r == Fail(Unauthorized)
    ensures session.Some? && !(Truthy(title) && Truthy(description)) ==> r == Fail(BadRequest)
    ensures session.Some? && PortfolioOf(old(db.portfolios), session.value.id).Some? ==> r.status == BadRequest
    ensures r.status != OK ==> db.Snapshot() == old(db.Snapshot())
    ensures r.status == OK <==>
              && session.Some? && Truthy(title) && Truthy(description)
              && PortfolioOf(old(db.portfolios), session.value.id).None?
              && !IdTaken(old(db.portfolios), newId)
    ensures r.status == OK ==>
              var p := Portfolio(newId, session.value.id, title.value, description.value, now);
              && r == Ok(View(p, []))
              && db.Snapshot() == old(db.Snapshot()).(portfolios := old(db.portfolios) + [p])
  {
    if session.None? {
      return Fail(Unauthorized);
    }
    if !Truthy(title) || !Truthy(description) {
      return Fail(BadRequest);
    }
    if PortfolioOf(db.portfolios, session.value.id).Some? {
      return Fail(BadRequest);
    }
    if IdTaken(db.portfolios, newId) {
      return Fail(ServerError);
    }
    var p := Portfolio(newId, session.value.id, title.value, description.value, now);
    AppendKeepsUnique(db.portfolios, db.portfolioItems, p);
    FreshPortfolioIsEmpty(db.portfolios, db.portfolioItems, newId);
    db.portfolios := db.portfolios + [p];
    return Ok(View(p, ItemsOf(db.portfolioItems, newId)));
  }

  /** After a successful POST, GET shows the new portfolio, still without items. */
  lemma PostThenGet(t: Tables, s: SessionUser, p: Portfolio)
    requires Consistent(t)
    requires PortfolioOf(t.portfolios, s.id).None? && !IdTaken(t.portfolios, p.id) && p.userId == s.id
    ensures Get(t.(portfolios := t.portfolios + [p]), Some(s)) == Ok(View(p, []))
  {
    var all := t.portfolios + [p];
    var found := PortfolioOf(all, s.id);
    assert found == Some(p) by {
      assert p in all;
      assert found.value in t.portfolios || found.value == p;
    }
    FreshPortfolioIsEmpty(t.portfolios, t.portfolioItems, p.id);
  }
}

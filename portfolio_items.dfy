/**
 * src/app/api/portfolio/items/route.ts: adding an item to the caller's
 * portfolio and answering with the portfolio and all its items.
 */
module PortfolioItems {
  import opened Wrappers
  import opened Schema
  import opened Http
  import opened Store
  import Seqs
  import Portfolios

  /** The four body fields, each required to be a non-empty string. */
  datatype Fields = Fields(title: Option<string>, description: Option<string>, mediaUrl: Option<string>,
                           mediaType: Option<string>)

  predicate Complete(f: Fields) {
    Truthy(f.title) && Truthy(f.description) && Truthy(f.mediaUrl) && Truthy(f.mediaType)
  }

  predicate IdTaken(items: seq<PortfolioItem>, id: Id) {
    exists i :: i in items && i.id == id
  }

  /** Appending an item with a fresh id that names an existing portfolio keeps the item constraints. */
  lemma AppendKeepsValid(items: seq<PortfolioItem>, portfolios: seq<Portfolio>, item: PortfolioItem)
    requires UniqueItemIds(items) && ItemsHavePortfolio(items, portfolios)
    requires !IdTaken(items, item.id) && exists p :: p in portfolios && p.id == item.portfolioId
    ensures UniqueItemIds(items + [item]) && ItemsHavePortfolio(items + [item], portfolios)
  {
    var s := items + [item];
    forall i, j | 0 <= i < j < |s| ensures s[i].id != s[j].id {
      if j == |items| {
        assert s[i] in items;
      }
    }
    forall i | 0 <= i < |s| ensures exists p :: p in portfolios && p.id == s[i].portfolioId {
      if i < |items| {
        assert s[i] == items[i];
      }
    }
  }

  /** The portfolio's items after the insert: the ones it had, then the new one. */
  lemma ItemsAfterAppend(items: seq<PortfolioItem>, item: PortfolioItem)
    ensures Portfolios.ItemsOf(items + [item], item.portfolioId)
            == Portfolios.ItemsOf(items, item.portfolioId) + [item]
  {
    Seqs.FilterAppend(items, [item], Portfolios.InPortfolio(item.portfolioId));
    assert [item][1..] == [];
  }

  /**
   * POST: add an item to the caller's portfolio. `newId` and `now` are the id
   * and timestamp the database assigns; a colliding id makes the insert
   * throw (500). The answer is the portfolio re-read with its items in table
   * order.
   */
  method Post(db: Db, session: Option<SessionUser>, fields: Fields, newId: Id, now: Time)
    returns (r: Reply<Portfolios.View>)
    requires db.Valid()
    modifies db
    ensures db.Valid()
    ensures session.None? ==> r == Fail(Unauthorized)
    ensures session.Some? && !Complete(fields) ==> r == Fail(BadRequest)
    ensures session.Some? && Complete(fields) && Portfolios.PortfolioOf(old(db.portfolios), session.value.id).None?
            ==> r == Fail(NotFound)
    ensures r.status != OK ==> db.Snapshot() == old(db.Snapshot())
    ensures r.status == OK <==>
              && session.Some? && Complete(fields)
              && Portfolios.PortfolioOf(old(db.portfolios), session.value.id).Some?
              && !IdTaken(old(db.portfolioItems), newId)
    ensures r.status == OK ==>
              var p := Portfolios.PortfolioOf(old(db.portfolios), session.value.id).value;
              var item := PortfolioItem(newId, p.id, fields.title.value, fields.description.value,
                                        fields.mediaUrl.value, fields.mediaType.value, now);
              && db.Snapshot() == old(db.Snapshot()).(portfolioItems := old(db.portfolioItems) + [item])
              && r == Ok(Portfolios.View(p, Portfolios.ItemsOf(old(db.portfolioItems), p.id) + [item]))
  {
    if session.None? {
      return Fail(Unauthorized);
    }
    if !Complete(fields) {
      return Fail(BadRequest);
    }
    var found := Portfolios.PortfolioOf(db.portfolios, session.value.id);
    if found.None? {
      return Fail(NotFound);
    }
    var p := found.value;
    if IdTaken(db.portfolioItems, newId) {
      return Fail(ServerError);
    }
    var item := PortfolioItem(newId, p.id, fields.title.value, fields.description.value,
                              fields.mediaUrl.value, fields.mediaType.value, now);
    AppendKeepsValid(db.portfolioItems, db.portfolios, item);
    ItemsAfterAppend(db.portfolioItems, item);
    db.portfolioItems := db.portfolioItems + [item];
    return Ok(Portfolios.View(p, Portfolios.ItemsOf(db.portfolioItems, p.id)));
  }

  /**
   * After a successful POST the portfolio GET lists the new item; an item
   * newer than every other item of the portfolio comes first.
   */
  lemma PostThenGet(t: Tables, s: SessionUser, item: PortfolioItem)
    requires Portfolios.PortfolioOf(t.portfolios, s.id).Some?
    requires item.portfolioId == Portfolios.PortfolioOf(t.portfolios, s.id).value.id
    ensures var g := Portfolios.Get(t.(portfolioItems := t.portfolioItems + [item]), Some(s));
            && g.status == OK && item in g.body.value.items
            && ((forall x :: x in t.portfolioItems && x.portfolioId == item.portfolioId ==> x.createdAt < item.createdAt)
                ==> g.body.value.items[0] == item)
  {
    var g := Portfolios.Get(t.(portfolioItems := t.portfolioItems + [item]), Some(s));
    var l := g.body.value.items;
    assert item in l;
    var k :| 0 <= k < |l| && l[k] == item;
    assert l[0] in l;
  }
}

/**
 * src/app/api/admin/affiliates/route.ts: listing the affiliates newest first
 * and enrolling a user as an affiliate with a fresh referral code, both
 * behind the "manage_affiliates" permission. `random` holds the values
 * `Math.random` returns while the code is drawn.
 */
module Affiliates {
  import opened Wrappers
  import opened Schema
  import opened Http
  import opened Store
  import Seqs
  import Utils

  const ManageAffiliates := "manage_affiliates"

  predicate CanManageAffiliates(t: Tables, s: SessionUser) {
    UserHasPermission(FindUser(t.users, s.id), t.roles, ManageAffiliates)
  }

  function CreatedAt(a: Affiliate): int {
    a.createdAt
  }

  /** GET: every affiliate, newest first. */
  function Get(t: Tables, session: Option<SessionUser>): (r: Reply<seq<Affiliate>>)
    ensures session.None? <==> r == Fail(Unauthorized)
    ensures session.Some? && !CanManageAffiliates(t, session.value) <==> r == Fail(Forbidden)
    ensures r.status == OK <==> session.Some? && CanManageAffiliates(t, session.value)
    ensures r.status == OK ==>
              && r.body.Some?
              && multiset(r.body.value) == multiset(t.affiliates)
              && forall i, j :: 0 <= i < j < |r.body.value| ==> r.body.value[i].createdAt >= r.body.value[j].createdAt
  {
    if session.None? then Fail(Unauthorized)
    else if !CanManageAffiliates(t, session.value) then Fail(Forbidden)
    else
      Seqs.SortedDescending(t.affiliates, CreatedAt);
      Ok(Seqs.SortBy(t.affiliates, Seqs.Descending(CreatedAt)))
  }

  function HasEmail(email: string): User -> bool {
    (u: User) => u.email == Some(email)
  }

  /** `user.findUnique({ where: { email } })` */
  function FindUserByEmail(users: seq<User>, email: string): (r: Option<User>)
    ensures r.Some? ==> r.value in users && r.value.email == Some(email)
    ensures r.None? <==> forall u :: u in users ==> u.email != Some(email)
  {
    match Seqs.IndexWhere(users, HasEmail(email))
    case Some(k) => Some(users[k])
    case None => None
  }

  /** `targetUser.affiliate` is set. */
  predicate IsAffiliate(affiliates: seq<Affiliate>, userId: Id) {
    exists a :: a in affiliates && a.userId == userId
  }

  predicate IdTaken(affiliates: seq<Affiliate>, id: Id) {
    exists a :: a in affiliates && a.id == id
  }

  /** Appending an affiliate with a fresh id for a user who is not one keeps both unique columns unique. */
  lemma AppendKeepsUnique(affiliates: seq<Affiliate>, a: Affiliate)
    requires UniqueAffiliateIds(affiliates) && OneAffiliatePerUser(affiliates)
    requires !IdTaken(affiliates, a.id) && !IsAffiliate(affiliates, a.userId)
    ensures UniqueAffiliateIds(affiliates + [a]) && OneAffiliatePerUser(affiliates + [a])
  {
    var s := affiliates + [a];
    forall i, j | 0 <= i < j < |s| ensures s[i].id != s[j].id && s[i].userId != s[j].userId {
      if j == |affiliates| {
        assert s[i] in affiliates;
      }
    }
  }

  /**
   * POST: enrol the user with this email. A missing email makes the lookup
   * throw (500). `newId` and `now` are the id and timestamp the database
   * assigns; a colliding id makes the insert throw (500).
   */
  method Post(db: Db, session: Option<SessionUser>, email: Option<string>, commission: real,
              random: seq<real>, newId: Id, now: Time)
    returns (r: Reply<Affiliate>)
    requires db.Valid()
    requires |random| >= Utils.CodeLength && forall i :: 0 <= i < |random| ==> Utils.IsDraw(random[i])
    modifies db
    ensures db.Valid()
    ensures session.None? ==> r == Fail(Unauthorized)
    ensures session.Some? && !CanManageAffiliates(old(db.Snapshot()), session.value) ==> r == Fail(Forbidden)
    ensures session.Some? && CanManageAffiliates(old(db.Snapshot()), session.value) && email.None?
            ==> r == Fail(ServerError)
    ensures session.Some? && CanManageAffiliates(old(db.Snapshot()), session.value) && email.Some?
            && FindUserByEmail(old(db.users), email.value).None?
            ==> r == Fail(NotFound)
    ensures session.Some? && CanManageAffiliates(old(db.Snapshot()), session.value) && email.Some?
            && FindUserByEmail(old(db.users), email.value).Some?
            && IsAffiliate(old(db.affiliates), FindUserByEmail(old(db.users), email.value).value.id)
            ==> r == Fail(BadRequest)
    ensures r.status != OK ==> db.Snapshot() == old(db.Snapshot())
    ensures r.status == OK <==>
              && session.Some? && CanManageAffiliates(old(db.Snapshot()), session.value) && email.Some?
              && FindUserByEmail(old(db.users), email.value).Some?
              && !IsAffiliate(old(db.affiliates), FindUserByEmail(old(db.users), email.value).value.id)
              && !IdTaken(old(db.affiliates), newId)
    ensures r.status == OK ==>
              var a := Affiliate(newId, FindUserByEmail(old(db.users), email.value).value.id,
                                 Utils.CodeOf(random), commission, now);
              && r == Ok(a)
              && db.Snapshot() == old(db.Snapshot()).(affiliates := old(db.affiliates) + [a])
              && |a.code| == Utils.CodeLength && forall c :: c in a.code ==> c in Utils.Characters
  {
    if session.None? {
      return Fail(Unauthorized);
    }
    if !CanManageAffiliates(db.Snapshot(), session.value) {
      return Fail(Forbidden);
    }
    if email.None? {
      return Fail(ServerError);
    }
    var target := FindUserByEmail(db.users, email.value);
    if target.None? {
      return Fail(NotFound);
    }
    if IsAffiliate(db.affiliates, target.value.id) {
      return Fail(BadRequest);
    }
    var code := Utils.GenerateAffiliateCode(random);
    if IdTaken(db.affiliates, newId) {
      return Fail(ServerError);
    }
    var a := Affiliate(newId, target.value.id, code, commission, now);
    AppendKeepsUnique(db.affiliates, a);
    db.affiliates := db.affiliates + [a];
    return Ok(a);
  }

  /**
   * An affiliate enrolled later than every existing one heads the next
   * listing, provided the caller may still manage affiliates.
   */
  lemma NewestListedFirst(t: Tables, session: Option<SessionUser>, a: Affiliate)
    requires forall x :: x in t.affiliates ==> x.createdAt < a.createdAt
    requires Get(t.(affiliates := t.affiliates + [a]), session).status == OK
    ensures var l := Get(t.(affiliates := t.affiliates + [a]), session).body.value;
            |l| > 0 && l[0] == a
  {
    var all := t.affiliates + [a];
    var l := Get(t.(affiliates := all), session).body.value;
    assert a in multiset(all);
    assert a in multiset(l);
    var k :| 0 <= k < |l| && l[k] == a;
    assert l[0] in multiset(all);
  }
}

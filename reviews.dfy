/**
 * src/app/api/reviews/route.ts: the three newest ratings, each shown with
 * its author's name, first role and avatar, falling back to fixed texts
 * where the author has none.
 */
module Reviews {
  import opened Wrappers
  import opened Schema
  import opened Http
  import opened Store
  import Seqs

  const Shown := 3
  const AnonymousName := "Anonymous"
  const MemberRole := "Member"
  const DefaultAvatar := "/avatars/default.png"

  datatype Review = Review(id: Id, name: string, role: string, content: string, avatar: string,
                           rating: int, createdAt: Time)

  function RatedAt(r: Rating): int {
    r.createdAt
  }

  /** `rater.roles[0]?.name || "Member"` */
  function FirstRoleName(roles: seq<Role>): (r: string)
    ensures r != ""
    ensures |roles| > 0 && roles[0].name != "" ==> r == roles[0].name
    ensures !(|roles| > 0 && roles[0].name != "") ==> r == MemberRole
  {
    if |roles| > 0 && roles[0].name != "" then roles[0].name else MemberRole
  }

  /** The `map` of one rating, given its author. */
  function Format(rating: Rating, rater: User, roles: seq<Role>): (r: Review)
    ensures r.id == rating.id && r.rating == rating.rating && r.createdAt == rating.createdAt
    ensures r.name == OrElse(rater.name, AnonymousName) && r.name != ""
    ensures r.role == FirstRoleName(RolesOf(roles, rater))
    ensures r.content == OrElse(rating.comment, "")
    ensures r.avatar == OrElse(rater.image, DefaultAvatar) && r.avatar != ""
  {
    Review(rating.id, OrElse(rater.name, AnonymousName), FirstRoleName(RolesOf(roles, rater)),
           OrElse(rating.comment, ""), OrElse(rater.image, DefaultAvatar), rating.rating, rating.createdAt)
  }

  /** `findMany({ orderBy: { createdAt: "desc" }, take: 3 })` */
  function Newest(ratings: seq<Rating>): seq<Rating> {
    Seqs.Take(Seqs.SortBy(ratings, Seqs.Descending(RatedAt)), Shown)
  }

  predicate RatersExist(taken: seq<Rating>, users: seq<User>) {
    forall i :: 0 <= i < |taken| ==> FindUser(users, taken[i].raterId).Some?
  }

  function FormatAll(taken: seq<Rating>, users: seq<User>, roles: seq<Role>): (r: seq<Review>)
    requires RatersExist(taken, users)
    ensures |r| == |taken|
    ensures forall i :: 0 <= i < |taken| ==> r[i] == Format(taken[i], FindUser(users, taken[i].raterId).value, roles)
  {
    seq(|taken|, i requires 0 <= i < |taken| => Format(taken[i], FindUser(users, taken[i].raterId).value, roles))
  }

  /**
   * GET. Every rating names its author; a rating whose author row is missing
   * makes the query fail (500).
   */
  function Get(t: Tables): (r: Reply<seq<Review>>)
    ensures r.status == OK <==> RatersExist(Newest(t.ratings), t.users)
    ensures r.status != OK ==> r == Fail(ServerError)
    ensures r.status == OK ==> r == Ok(FormatAll(Newest(t.ratings), t.users, t.roles))
  {
    var taken := Newest(t.ratings);
    if RatersExist(taken, t.users) then Ok(FormatAll(taken, t.users, t.roles)) else Fail(ServerError)
  }

  /** At most three ratings, newest first, all of them when there are few, none left out newer than one taken. */
  lemma NewestCorrect(ratings: seq<Rating>)
    ensures var taken := Newest(ratings);
            && |taken| == (if |ratings| <= Shown then |ratings| else Shown)
            && (|ratings| <= Shown ==> multiset(taken) == multiset(ratings))
            && (forall x :: x in taken ==> x in ratings)
            && (forall i, j :: 0 <= i < j < |taken| ==> taken[i].createdAt >= taken[j].createdAt)
            && forall x, y :: x in ratings && x !in taken && y in taken ==> y.createdAt >= x.createdAt
  {
    var taken := Newest(ratings);
    Seqs.TakeNewest(ratings, RatedAt, Shown);
    forall i, j | 0 <= i < j < |taken| ensures taken[i].createdAt >= taken[j].createdAt {
      assert RatedAt(taken[i]) >= RatedAt(taken[j]);
    }
    forall x, y | x in ratings && x !in taken && y in taken ensures y.createdAt >= x.createdAt {
      assert RatedAt(y) >= RatedAt(x);
    }
  }

  /**
   * The reviews are the newest ratings, in the same order, each formatted
   * with its author; so they are newest first and none left out is newer.
   */
  lemma GetCorrect(t: Tables)
    requires Get(t).status == OK
    ensures var l := Get(t).body.value;
            var taken := Newest(t.ratings);
            && |l| == |taken| == (if |t.ratings| <= Shown then |t.ratings| else Shown)
            && (forall i :: 0 <= i < |l| ==>
                  && taken[i] in t.ratings
                  && l[i] == Format(taken[i], FindUser(t.users, taken[i].raterId).value, t.roles))
            && (forall i, j :: 0 <= i < j < |l| ==> l[i].createdAt >= l[j].createdAt)
            && forall x, i :: x in t.ratings && x !in taken && 0 <= i < |l| ==> l[i].createdAt >= x.createdAt
  {
    var l := Get(t).body.value;
    var taken := Newest(t.ratings);
    NewestCorrect(t.ratings);
    forall i | 0 <= i < |l| ensures taken[i] in t.ratings && l[i].createdAt == taken[i].createdAt {
      assert taken[i] in taken;
    }
    forall x, i | x in t.ratings && x !in taken && 0 <= i < |l| ensures l[i].createdAt >= x.createdAt {
      assert taken[i] in taken;
    }
  }
}

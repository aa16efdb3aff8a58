/**
 * src/app/api/admin/roles/route.ts: listing the roles by name and creating a
 * role, both behind the "manage_roles" permission.
 */
module Roles {
  import opened Wrappers
  import opened Schema
  import opened Http
  import opened Store
  import Seqs
  import Text

  const ManageRoles := "manage_roles"

  /** The caller's own roles grant "manage_roles" (false when the caller is not in the table). */
  predicate CanManageRoles(t: Tables, s: SessionUser) {
    UserHasPermission(FindUser(t.users, s.id), t.roles, ManageRoles)
  }

  /** `orderBy: { name: "asc" }` */
  function ByName(): (Role, Role) -> bool {
    (a: Role, b: Role) => Text.LexLe(a.name, b.name)
  }

  lemma ByNameIsTotalPreorder()
    ensures Seqs.TotalPreorder(ByName())
  {
    forall a: Role, b: Role ensures ByName()(a, b) || ByName()(b, a) {
      Text.LexLeTotal(a.name, b.name);
    }
    forall a: Role, b: Role, c: Role | ByName()(a, b) && ByName()(b, c) ensures ByName()(a, c) {
      Text.LexLeTransitive(a.name, b.name, c.name);
    }
  }

  /** GET: every role, in ascending order of name. */
  function Get(t: Tables, session: Option<SessionUser>): (r: Reply<seq<Role>>)
    ensures session.None? <==> r == Fail(Unauthorized)
    ensures session.Some? && !CanManageRoles(t, session.value) <==> r == Fail(Forbidden)
    ensures r.status == OK <==> session.Some? && CanManageRoles(t, session.value)
    ensures r.status == OK ==>
              && r.body.Some?
              && multiset(r.body.value) == multiset(t.roles)
              && forall i, j :: 0 <= i < j < |r.body.value| ==> Text.LexLe(r.body.value[i].name, r.body.value[j].name)
  {
    if session.None? then Fail(Unauthorized)
    else if !CanManageRoles(t, session.value) then Fail(Forbidden)
    else
      ByNameIsTotalPreorder();
      Seqs.SortByCorrect(t.roles, ByName());
      var sorted := Seqs.SortBy(t.roles, ByName());
      assert forall i, j :: 0 <= i < j < |sorted| ==> ByName()(sorted[i], sorted[j]);
      Ok(sorted)
  }

  /** A role occurs at most once in a table whose names are unique. */
  lemma {:induction false} AtMostOnce(roles: seq<Role>, x: Role)
    requires UniqueRoleNames(roles)
    ensures multiset(roles)[x] <= 1
  {
    if roles != [] {
      var rest := roles[1..];
      assert roles == [roles[0]] + rest;
      assert UniqueRoleNames(rest) by {
        forall i, j | 0 <= i < j < |rest| ensures rest[i].name != rest[j].name {
          assert rest[i] == roles[i + 1] && rest[j] == roles[j + 1];
        }
      }
      AtMostOnce(rest, x);
      if x == roles[0] {
        assert x !in rest by {
          forall k | 0 <= k < |rest| ensures rest[k] != x {
            assert rest[k] == roles[k + 1];
          }
        }
      }
    }
  }

  lemma TwiceCounted(l: seq<Role>, i: nat, j: nat)
    requires i < j < |l| && l[i] == l[j]
    ensures multiset(l)[l[i]] >= 2
  {
    assert l == l[..i] + [l[i]] + l[i + 1..j] + [l[j]] + l[j + 1..];
  }

  /**
   * Role names are unique, so the listing is strictly ascending: the order is
   * fully determined and the tie-breaking of the sort never matters.
   */
  lemma ListingStrictlyAscending(t: Tables, session: Option<SessionUser>)
    requires UniqueRoleNames(t.roles) && Get(t, session).status == OK
    ensures var l := Get(t, session).body.value;
            forall i, j :: 0 <= i < j < |l| ==> Text.LexLe(l[i].name, l[j].name) && l[i].name != l[j].name
  {
    var l := Get(t, session).body.value;
    forall i, j | 0 <= i < j < |l| ensures l[i].name != l[j].name {
      if l[i] == l[j] {
        TwiceCounted(l, i, j);
        AtMostOnce(t.roles, l[i]);
      } else {
        assert l[i] in multiset(t.roles) && l[j] in multiset(t.roles);
        var a :| 0 <= a < |t.roles| && t.roles[a] == l[i];
        var b :| 0 <= b < |t.roles| && t.roles[b] == l[j];
        assert a != b;
      }
    }
  }

  /** `findUnique({ where: { name } })` finds a role. */
  predicate NameTaken(roles: seq<Role>, name: string) {
    exists x :: x in roles && x.name == name
  }

  predicate IdTaken(roles: seq<Role>, id: Id) {
    exists x :: x in roles && x.id == id
  }

  /** `!name || !description || !color || !Array.isArray(permissions)` fails. */
  predicate FieldsPresent(name: Option<string>, description: Option<string>, color: Option<string>,
                          permissions: Json) {
    Truthy(name) && Truthy(description) && Truthy(color) && permissions.JArray?
  }

  /** Appending a role with a fresh id and an unused name keeps both unique columns unique. */
  lemma AppendKeepsUnique(roles: seq<Role>, role: Role)
    requires UniqueRoleIds(roles) && UniqueRoleNames(roles)
    requires !IdTaken(roles, role.id) && !NameTaken(roles, role.name)
    ensures UniqueRoleIds(roles + [role]) && UniqueRoleNames(roles + [role])
  {
    var s := roles + [role];
    forall i, j | 0 <= i < j < |s| ensures s[i].id != s[j].id && s[i].name != s[j].name {
      if j == |roles| {
        assert s[i] in roles;
      }
    }
  }

  /**
   * POST: create a role. `permissions` is the JSON value of the body field
   * (`JOther` for anything that is not an array, including a missing field);
   * an absent `isTeam` takes the column default, false. `newId` is the id the
   * database assigns; a collision makes the insert throw, answered with 500.
   */
  method Post(db: Db, session: Option<SessionUser>, name: Option<string>, description: Option<string>,
              color: Option<string>, permissions: Json, discount: Option<real>, isTeam: Option<bool>, newId: Id)
    returns (r: Reply<Role>)
    requires db.Valid()
    modifies db
    ensures db.Valid()
    ensures session.None? ==> r == Fail(Unauthorized)
    ensures session.Some? && !CanManageRoles(old(db.Snapshot()), session.value) ==> r == Fail(Forbidden)
    ensures session.Some? && CanManageRoles(old(db.Snapshot()), session.value)
            && !FieldsPresent(name, description, color, permissions)
            ==> r == Fail(BadRequest)
    ensures session.Some? && CanManageRoles(old(db.Snapshot()), session.value)
            && FieldsPresent(name, description, color, permissions) && NameTaken(old(db.roles), name.value)
            ==> r == Fail(BadRequest)
    ensures r.status != OK ==> db.Snapshot() == old(db.Snapshot())
    ensures r.status == OK <==>
              && session.Some? && CanManageRoles(old(db.Snapshot()), session.value)
              && FieldsPresent(name, description, color, permissions)
              && !NameTaken(old(db.roles), name.value) && !IdTaken(old(db.roles), newId)
    ensures r.status == OK ==>
              var role := Role(newId, name.value, description, color, permissions, discount, isTeam.GetOr(false));
              && r == Ok(role)
              && db.Snapshot() == old(db.Snapshot()).(roles := old(db.roles) + [role])
  {
    if session.None? {
      return Fail(Unauthorized);
    }
    if !CanManageRoles(db.Snapshot(), session.value) {
      return Fail(Forbidden);
    }
    if !FieldsPresent(name, description, color, permissions) {
      return Fail(BadRequest);
    }
    if NameTaken(db.roles, name.value) {
      return Fail(BadRequest);
    }
    if IdTaken(db.roles, newId) {
      return Fail(ServerError);
    }
    var role := Role(newId, name.value, description, color, permissions, discount, isTeam.GetOr(false));
    AppendKeepsUnique(db.roles, role);
    db.roles := db.roles + [role];
    return Ok(role);
  }

  /**
   * A role created by a successful POST is in the next listing, with the
   * fields it was given, provided the caller may still manage roles.
   */
  lemma CreatedRoleListed(t: Tables, session: Option<SessionUser>, role: Role)
    requires Get(t.(roles := t.roles + [role]), session).status == OK
    ensures role in Get(t.(roles := t.roles + [role]), session).body.value
  {
    var l := Get(t.(roles := t.roles + [role]), session).body.value;
    assert role in multiset(t.roles + [role]);
    assert role in multiset(l);
  }
}

/**
 * src/lib/auth.ts: credential sign-in and the JWT session. `Authorize` finds
 * the user by email or username, checks the password, and derives the flags
 * and the permission list from the user's roles; the `jwt` callback copies
 * the signed-in user onto the token and the `session` callback copies the
 * token onto `session.user`.
 */
module Auth {
  import opened Wrappers
  import opened Schema
  import Seqs

  /** The user object `authorize` returns. */
  datatype AuthUser = AuthUser(id: Id, email: string, name: Option<string>, username: string, roles: seq<Role>,
                               isTeamMember: bool, isAdmin: bool, isSuperAdmin: bool, permissions: seq<string>)

  // ---- Flags and permissions ----

  /** `roles.some(role => Array.isArray(perms) && perms.includes(p))` */
  predicate Grants(roles: seq<Role>, p: string) {
    exists r :: r in roles && HasPermission(r, p)
  }

  predicate AnyTeamRole(roles: seq<Role>) {
    exists r :: r in roles && r.isTeam
  }

  /** `Array.isArray(perms) ? perms : []` */
  function PermissionsOf(r: Role): seq<string> {
    if r.permissions.JArray? then r.permissions.items else []
  }

  /** The `flatMap` of every role's permission array, in role order. */
  function AllPermissions(roles: seq<Role>): seq<string> {
    if roles == [] then [] else PermissionsOf(roles[0]) + AllPermissions(roles[1..])
  }

  /** `Array.from(new Set(flatMap(...)))` */
  function Permissions(roles: seq<Role>): seq<string> {
    Seqs.Dedupe(AllPermissions(roles))
  }

  lemma {:induction false} AllPermissionsGrants(roles: seq<Role>, p: string)
    ensures p in AllPermissions(roles) <==> Grants(roles, p)
  {
    if roles != [] {
      AllPermissionsGrants(roles[1..], p);
      assert p in PermissionsOf(roles[0]) <==> HasPermission(roles[0], p);
      if Grants(roles, p) {
        var r :| r in roles && HasPermission(r, p);
        assert r == roles[0] || r in roles[1..];
      }
      if Grants(roles[1..], p) {
        var r :| r in roles[1..] && HasPermission(r, p);
        assert r in roles;
      }
    }
  }

  /**
   * The permission list holds every permission some array-valued role grants,
   * each once, and nothing else; so `isAdmin` and `isSuperAdmin` are exactly
   * the membership of "admin" and "super_admin".
   */
  lemma PermissionsCorrect(roles: seq<Role>)
    ensures Seqs.NoDuplicates(Permissions(roles))
    ensures forall p :: p in Permissions(roles) <==> Grants(roles, p)
  {
    forall p ensures p in Permissions(roles) <==> Grants(roles, p) {
      AllPermissionsGrants(roles, p);
    }
  }

  /** Roles whose permissions are not an array contribute nothing. */
  lemma NonArrayRolesGrantNothing(roles: seq<Role>, extra: Role)
    requires !extra.permissions.JArray?
    ensures Permissions(roles + [extra]) == Permissions(roles)
  {
    AllPermissionsAppend(roles, [extra]);
    assert AllPermissions([extra]) == PermissionsOf(extra) + AllPermissions([]);
    assert AllPermissions(roles) + [] == AllPermissions(roles);
  }

  lemma {:induction false} AllPermissionsAppend(a: seq<Role>, b: seq<Role>)
    ensures AllPermissions(a + b) == AllPermissions(a) + AllPermissions(b)
  {
    if a == [] {
      assert a + b == b;
    } else {
      assert (a + b)[1..] == a[1..] + b;
      AllPermissionsAppend(a[1..], b);
    }
  }

  /** Neither of the two admin flags implies the other. */
  lemma AdminFlagsIndependent()
    ensures exists roles :: Grants(roles, "super_admin") && !Grants(roles, "admin")
    ensures exists roles :: Grants(roles, "admin") && !Grants(roles, "super_admin")
  {
    var super := Role("r1", "super", None, None, JArray(["super_admin"]), None, false);
    assert HasPermission(super, "super_admin");
    assert !Grants([super], "admin") by {
      assert forall r :: r in [super] ==> r == super;
      assert "admin" != "super_admin";
    }
    var admin := Role("r2", "admin", None, None, JArray(["admin"]), None, false);
    assert HasPermission(admin, "admin");
    assert !Grants([admin], "super_admin") by {
      assert forall r :: r in [admin] ==> r == admin;
      assert "admin" != "super_admin";
    }
  }

  // ---- authorize ----

  /** `OR: [{ email: login }, { username: login }]` */
  function MatchesLogin(login: string): User -> bool {
    (u: User) => u.email == Some(login) || u.username == login
  }

  /** `findFirst`: the first user in table order whose email or username is the login. */
  function FindByLogin(users: seq<User>, login: string): (r: Option<User>)
    ensures r.Some? ==> r.value in users && MatchesLogin(login)(r.value)
    ensures r.Some? ==> exists k :: 0 <= k < |users| && users[k] == r.value
                                    && forall j :: 0 <= j < k ==> !MatchesLogin(login)(users[j])
    ensures r.None? <==> forall u :: u in users ==> !MatchesLogin(login)(u)
  {
    match Seqs.IndexWhere(users, MatchesLogin(login))
    case Some(k) => Some(users[k])
    case None => None
  }

  /**
   * `authorize`: `compare` is bcrypt's check of the typed password against
   * the stored hash. `None` is the `null` that refuses the sign-in.
   */
  function Authorize(users: seq<User>, roles: seq<Role>, email: Option<string>, password: Option<string>,
                     compare: (string, string) -> bool): (r: Option<AuthUser>)
    ensures r.Some? <==>
              && Truthy(email) && Truthy(password)
              && FindByLogin(users, email.value).Some?
              && Truthy(FindByLogin(users, email.value).value.password)
              && compare(password.value, FindByLogin(users, email.value).value.password.value)
    ensures r.Some? ==>
              var u := FindByLogin(users, email.value).value;
              && r.value.id == u.id && r.value.username == u.username && r.value.name == u.name
              && r.value.email == (if u.email.Some? then u.email.value else "")
              && r.value.roles == RolesOf(roles, u)
              && (r.value.isTeamMember <==> exists role :: role in r.value.roles && role.isTeam)
              && (r.value.isAdmin <==> "admin" in r.value.permissions)
              && (r.value.isSuperAdmin <==> "super_admin" in r.value.permissions)
              && Seqs.NoDuplicates(r.value.permissions)
              && forall p :: p in r.value.permissions <==> exists role :: role in r.value.roles && HasPermission(role, p)
  {
    if !Truthy(email) || !Truthy(password) then None
    else match FindByLogin(users, email.value)
      case None => None
      case Some(u) =>
        if !Truthy(u.password) || !compare(password.value, u.password.value) then None
        else
          var rs := RolesOf(roles, u);
          PermissionsCorrect(rs);
          Some(AuthUser(u.id, OrElse(u.email, ""), u.name, u.username, rs, AnyTeamRole(rs),
                        Grants(rs, "admin"), Grants(rs, "super_admin"), Permissions(rs)))
  }

  // ---- The jwt and session callbacks ----

  /** The JWT: the fields the `jwt` callback writes; a field never written is `None`. */
  class Token {
    var id: Option<Id>
    var email: Option<string>
    var name: Option<string>
    var username: Option<string>
    var roles: Option<seq<Role>>
    var isTeamMember: Option<bool>
    var isAdmin: Option<bool>
    var isSuperAdmin: Option<bool>
    var permissions: Option<seq<string>>

    constructor ()
      ensures id.None? && email.None? && name.None? && username.None? && roles.None?
      ensures isTeamMember.None? && isAdmin.None? && isSuperAdmin.None? && permissions.None?
    {
      id, email, name, username, roles := None, None, None, None, None;
      isTeamMember, isAdmin, isSuperAdmin, permissions := None, None, None, None;
    }

    /** The token holds every field of the signed-in user. */
    predicate Carries(u: AuthUser)
      reads this
    {
      && id == Some(u.id) && email == Some(u.email) && name == u.name && username == Some(u.username)
      && roles == Some(u.roles) && isTeamMember == Some(u.isTeamMember) && isAdmin == Some(u.isAdmin)
      && isSuperAdmin == Some(u.isSuperAdmin) && permissions == Some(u.permissions)
    }

    /** `jwt({ token, user })`: on sign-in copy the user's fields; otherwise leave the token as it is. */
    method Jwt(user: Option<AuthUser>)
      modifies this
      ensures user.Some? ==> Carries(user.value)
      ensures user.None? ==> unchanged(this)
    {
      if user.Some? {
        var u := user.value;
        id, email, name, username, roles := Some(u.id), Some(u.email), u.name, Some(u.username), Some(u.roles);
        isTeamMember, isAdmin, isSuperAdmin := Some(u.isTeamMember), Some(u.isAdmin), Some(u.isSuperAdmin);
        permissions := Some(u.permissions);
      }
    }
  }

  /** `session.user`, which the `session` callback overwrites field by field. */
  class SessionUserObject {
    var id: Option<Id>
    var email: Option<string>
    var name: Option<string>
    var username: Option<string>
    var roles: Option<seq<Role>>
    var isTeamMember: Option<bool>
    var isAdmin: Option<bool>
    var isSuperAdmin: Option<bool>
    var permissions: Option<seq<string>>

    constructor (id: Option<Id>, email: Option<string>, name: Option<string>)
      ensures this.id == id && this.email == email && this.name == name
      ensures username.None? && roles.None? && isTeamMember.None? && isAdmin.None?
      ensures isSuperAdmin.None? && permissions.None?
    {
      this.id, this.email, this.name := id, email, name;
      username, roles, isTeamMember, isAdmin, isSuperAdmin, permissions := None, None, None, None, None, None;
    }

    /** Every field equals the token's. */
    predicate Mirrors(token: Token)
      reads this, token
    {
      && id == token.id && email == token.email && name == token.name && username == token.username
      && roles == token.roles && isTeamMember == token.isTeamMember && isAdmin == token.isAdmin
      && isSuperAdmin == token.isSuperAdmin && permissions == token.permissions
    }

    /** `session({ session, token })`: copy the token's fields when there is a token. */
    method Session(token: Token?)
      modifies this
      ensures token != null ==> Mirrors(token) && unchanged(token)
      ensures token == null ==> unchanged(this)
    {
      if token != null {
        id, email, name, username, roles := token.id, token.email, token.name, token.username, token.roles;
        isTeamMember, isAdmin, isSuperAdmin := token.isTeamMember, token.isAdmin, token.isSuperAdmin;
        permissions := token.permissions;
      }
    }
  }

  /**
   * A sign-in followed by a request: the session user shows what `authorize`
   * derived, so its `isAdmin` is set exactly when its permissions hold "admin".
   */
  method SignIn(token: Token, session: SessionUserObject, user: AuthUser)
    requires token != session as object
    modifies token, session
    ensures token.Carries(user) && session.Mirrors(token)
    ensures session.isAdmin == Some(user.isAdmin) && session.permissions == Some(user.permissions)
  {
    token.Jwt(Some(user));
    session.Session(token);
  }
}

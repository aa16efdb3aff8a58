/**
 * src/app/api/creator/store/settings/route.ts: reading a creator's store
 * settings (defaults when none are stored) and writing them with an upsert.
 * A body field that is absent is `None`; Prisma leaves a column it is given
 * `undefined` for as it was on update, and never writes it on create.
 */
module Settings {
  import opened Wrappers
  import opened Schema
  import opened Http
  import opened Store
  import Seqs

  /** The settings as the handlers answer them (the row without its key). */
  datatype View = View(storeName: string, storeDescription: string, paymentEmail: string,
                       automaticDelivery: Option<bool>, notifyOnSale: Option<bool>,
                       discordServer: Option<string>, socialLinks: Option<SocialLinks>)

  /** The PUT body. */
  datatype Body = Body(storeName: Option<string>, storeDescription: Option<string>, paymentEmail: Option<string>,
                       automaticDelivery: Option<bool>, notifyOnSale: Option<bool>,
                       discordServer: Option<string>, socialLinks: Option<SocialLinks>)

  function ViewOf(s: StoreSettings): View {
    View(s.storeName, s.storeDescription, s.paymentEmail, s.automaticDelivery, s.notifyOnSale,
         s.discordServer, s.socialLinks)
  }

  function OwnedBy(userId: Id): StoreSettings -> bool {
    (s: StoreSettings) => s.userId == userId
  }

  /** `storeSettings.findUnique({ where: { userId } })`, as an index into the table. */
  function RowOf(settings: seq<StoreSettings>, userId: Id): (r: Option<nat>)
    ensures r.Some? ==> r.value < |settings| && settings[r.value].userId == userId
    ensures r.None? <==> forall s :: s in settings ==> s.userId != userId
  {
    Seqs.IndexWhere(settings, OwnedBy(userId))
  }

  /** The answer when nothing is stored: empty texts, the session email, both switches on. */
  function Defaults(session: SessionUser): View {
    View("", "", OrElse(session.email, ""), Some(true), Some(true), Some(""), Some(SocialLinks("", "")))
  }

  /** GET */
  function Get(t: Tables, session: Option<SessionUser>): (r: Reply<View>)
    ensures session.None? <==> r == Fail(Unauthorized)
    ensures r.status == OK <==> session.Some?
    ensures session.Some? && RowOf(t.storeSettings, session.value.id).None?
            ==> r == Ok(Defaults(session.value))
    ensures session.Some? && RowOf(t.storeSettings, session.value.id).Some?
            ==> r == Ok(ViewOf(t.storeSettings[RowOf(t.storeSettings, session.value.id).value]))
  {
    if session.None? then Fail(Unauthorized)
    else match RowOf(t.storeSettings, session.value.id)
      case None => Ok(Defaults(session.value))
      case Some(k) => Ok(ViewOf(t.storeSettings[k]))
  }

  /** `!body.storeName || !body.storeDescription || !body.paymentEmail` fails. */
  predicate Complete(b: Body) {
    Truthy(b.storeName) && Truthy(b.storeDescription) && Truthy(b.paymentEmail)
  }

  /** A column given `undefined` keeps its value. */
  function Keep<T>(given: Option<T>, current: Option<T>): Option<T> {
    if given.Some? then given else current
  }

  /** The `update` branch. */
  function Updated(s: StoreSettings, b: Body): StoreSettings
    requires Complete(b)
  {
    StoreSettings(s.userId, b.storeName.value, b.storeDescription.value, b.paymentEmail.value,
                  Keep(b.automaticDelivery, s.automaticDelivery), Keep(b.notifyOnSale, s.notifyOnSale),
                  Keep(b.discordServer, s.discordServer), Keep(b.socialLinks, s.socialLinks))
  }

  /** The `create` branch. */
  function Created(userId: Id, b: Body): StoreSettings
    requires Complete(b)
  {
    StoreSettings(userId, b.storeName.value, b.storeDescription.value, b.paymentEmail.value,
                  b.automaticDelivery, b.notifyOnSale, b.discordServer, b.socialLinks)
  }

  /** The table after the upsert. */
  function Upsert(settings: seq<StoreSettings>, userId: Id, b: Body): (r: seq<StoreSettings>)
    requires Complete(b)
  {
    match RowOf(settings, userId)
    case Some(k) => settings[k := Updated(settings[k], b)]
    case None => settings + [Created(userId, b)]
  }

  /**
   * The upsert keeps one row per user, changes no other user's row, and
   * leaves the caller's row holding the body's required fields and each
   * optional field the body gives.
   */
  lemma UpsertCorrect(settings: seq<StoreSettings>, userId: Id, b: Body)
    requires Complete(b) && OneSettingsPerUser(settings)
    ensures var r := Upsert(settings, userId, b);
            && OneSettingsPerUser(r)
            && (forall s :: s in settings && s.userId != userId ==> s in r)
            && (forall s :: s in r && s.userId != userId ==> s in settings)
            && RowOf(r, userId).Some?
            && var row := r[RowOf(r, userId).value];
               && row.storeName == b.storeName.value && row.storeDescription == b.storeDescription.value
               && row.paymentEmail == b.paymentEmail.value
               && (b.automaticDelivery.Some? ==> row.automaticDelivery == b.automaticDelivery)
               && (b.notifyOnSale.Some? ==> row.notifyOnSale == b.notifyOnSale)
               && (b.discordServer.Some? ==> row.discordServer == b.discordServer)
               && (b.socialLinks.Some? ==> row.socialLinks == b.socialLinks)
  {
    var r := Upsert(settings, userId, b);
    match RowOf(settings, userId)
    case Some(k) =>
      forall s | s in settings && s.userId != userId ensures s in r {
        var i :| 0 <= i < |settings| && settings[i] == s;
        assert r[i] == s;
      }
      forall s | s in r && s.userId != userId ensures s in settings {
        var i :| 0 <= i < |r| && r[i] == s;
        assert settings[i] == s;
      }
      assert r[k].userId == userId;
      assert RowOf(r, userId).value == k by {
        forall j | 0 <= j < k ensures r[j].userId != userId {
          assert r[j] == settings[j];
        }
      }
    case None =>
      assert r[|settings|].userId == userId;
      assert r[..|settings|] == settings;
      forall s | s in r && s.userId != userId ensures s in settings {
        var i :| 0 <= i < |r| && r[i] == s;
        assert i < |settings|;
      }
      assert RowOf(r, userId).value == |settings| by {
        forall j | 0 <= j < |settings| ensures r[j].userId != userId {
          assert r[j] == settings[j];
          assert settings[j] in settings;
        }
      }
  }

  /** Writing the same body twice leaves the table as writing it once. */
  lemma UpsertIdempotent(settings: seq<StoreSettings>, userId: Id, b: Body)
    requires Complete(b) && OneSettingsPerUser(settings)
    ensures Upsert(Upsert(settings, userId, b), userId, b) == Upsert(settings, userId, b)
  {
    UpsertCorrect(settings, userId, b);
    var r := Upsert(settings, userId, b);
    var k := RowOf(r, userId).value;
    assert Updated(r[k], b) == r[k];
    assert r[k := r[k]] == r;
  }

  /** PUT: validate the body and upsert the caller's row; the answer is the row written. */
  method Put(db: Db, session: Option<SessionUser>, b: Body) returns (r: Reply<View>)
    requires db.Valid()
    modifies db
    ensures db.Valid()
    ensures session.None? ==> r == Fail(Unauthorized)
    ensures session.Some? && !Complete(b) ==> r == Fail(BadRequest)
    ensures r.status != OK ==> db.Snapshot() == old(db.Snapshot())
    ensures r.status == OK <==> session.Some? && Complete(b)
    ensures r.status == OK ==>
              && db.Snapshot() == old(db.Snapshot()).(storeSettings :=
                   Upsert(old(db.storeSettings), session.value.id, b))
              && r == Get(db.Snapshot(), session)
  {
    if session.None? {
      return Fail(Unauthorized);
    }
    if !Complete(b) {
      return Fail(BadRequest);
    }
    var userId := session.value.id;
    UpsertCorrect(db.storeSettings, userId, b);
    var found := RowOf(db.storeSettings, userId);
    var row: StoreSettings;
    if found.Some? {
      row := Updated(db.storeSettings[found.value], b);
      db.storeSettings := db.storeSettings[found.value := row];
    } else {
      row := Created(userId, b);
      db.storeSettings := db.storeSettings + [row];
    }
    assert db.storeSettings == Upsert(old(db.storeSettings), userId, b);
    assert row == db.storeSettings[RowOf(db.storeSettings, userId).value];
    return Ok(ViewOf(row));
  }
}

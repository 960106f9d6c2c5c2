/** The `users` table (app/models/user.py): one record per Telegram user, keyed by the
    Telegram id. Columns declared `Mapped[bool]`/`Mapped[float]` are NOT NULL; the ones
    declared `X | None` are Options. created_at/updated_at (clock values) are not kept. */
module UserModel {
  import opened Wrappers
  import opened Text

  datatype User = User(
    id: int,
    lang: Option<string>,
    refCode: Option<string>,
    isRegistered: bool,
    depositTotalUsd: real,
    hasVip: bool,
    isSubscribed: Option<bool>,            // tri-state: None (never checked), true, false
    shownRegularAccessOnce: bool,
    shownVipAccessOnce: bool,
    lastBotMessageId: Option<int>,
    clickId: Option<string>,
    partnerTraderId: Option<string>)

  /** `User(id=tg_id)`: every column at its declared default. */
  function NewUser(id: int): (u: User)
    ensures u.id == id
    ensures !u.isRegistered && u.depositTotalUsd == 0.0 && !u.hasVip
    ensures u.isSubscribed == None && u.lang == None && u.refCode == None
    ensures !u.shownRegularAccessOnce && !u.shownVipAccessOnce
    ensures u.clickId == None && u.partnerTraderId == None && u.lastBotMessageId == None
  {
    User(id, None, None, false, 0.0, false, None, false, false, None, None, None)
  }

  /** Python truthiness of an optional string: present and non-empty. */
  predicate TruthyText(o: Option<string>) { o.Some? && o.value != [] }

  /** Python truthiness of an optional int: present and non-zero. */
  predicate TruthyInt(o: Option<int>) { o.Some? && o.value != 0 }

  /** The primary key: the record stored under k has id k. */
  predicate WellKeyed(users: map<int, User>) {
    forall k :: k in users ==> users[k].id == k
  }

  /** The unique index on click_id (NULLs may repeat). */
  predicate UniqueClickIds(users: map<int, User>) {
    forall a, b :: a in users && b in users && users[a].clickId.Some? && users[a].clickId == users[b].clickId ==> a == b
  }

  /** The unique index on partner_trader_id (NULLs may repeat). */
  predicate UniqueTraderIds(users: map<int, User>) {
    forall a, b :: a in users && b in users && users[a].partnerTraderId.Some? && users[a].partnerTraderId == users[b].partnerTraderId ==> a == b
  }

  /** No record other than `id` holds click id c. */
  predicate ClickFree(users: map<int, User>, id: int, c: string) {
    forall k :: k in users && k != id ==> users[k].clickId != Some(c)
  }

  /** No record other than `id` holds trader id t. */
  predicate TraderFree(users: map<int, User>, id: int, t: string) {
    forall k :: k in users && k != id ==> users[k].partnerTraderId != Some(t)
  }

  /** Writing u under its own id keeps both unique indexes. */
  predicate Storable(users: map<int, User>, u: User) {
    (u.clickId.Some? ==> ClickFree(users, u.id, u.clickId.value))
    && (u.partnerTraderId.Some? ==> TraderFree(users, u.id, u.partnerTraderId.value))
  }

  predicate Constraints(users: map<int, User>) {
    WellKeyed(users) && UniqueClickIds(users) && UniqueTraderIds(users)
  }

  lemma PutKeepsConstraints(users: map<int, User>, u: User)
    requires Constraints(users) && Storable(users, u)
    ensures Constraints(users[u.id := u])
  {
  }

  /** `session.get(User, id)` or, when missing, `User(id=id)`. */
  function StoredOrNew(users: map<int, User>, id: int): (u: User)
    ensures id in users ==> u == users[id]
    ensures id !in users ==> u == NewUser(id)
  {
    if id in users then users[id] else NewUser(id)
  }

  /** A record whose identifiers are those already stored (or none, for a new record)
      can be written back without touching the unique indexes. */
  lemma KeepsIdentifiersStorable(users: map<int, User>, u: User)
    requires Constraints(users)
    requires u.clickId == StoredOrNew(users, u.id).clickId
    requires u.partnerTraderId == StoredOrNew(users, u.id).partnerTraderId
    ensures Storable(users, u)
  {
  }

  /** A fresh record holds no identifiers, so it can always be stored. */
  lemma NewUserStorable(users: map<int, User>, id: int)
    ensures Storable(users, NewUser(id))
  {
  }
}

/** The database as the core sees it through its sessions: the users table keyed by
    Telegram id and the postbacks audit table in insertion order. Every service commits
    what it changes, so a committed write is an update of these fields. */
module Store {
  import opened Wrappers
  import opened UserModel
  import opened PostbackModel

  /** A commit rejected by a unique index (click_id, partner_trader_id). */
  datatype StoreError = UniqueViolation

  class Db {
    var users: map<int, User>
    var postbacks: seq<Postback>
    var nextPostbackId: int

    /** Primary key and unique indexes hold, deposit totals never go negative, and the
        audit table's autoincrement ids increase. */
    ghost predicate Valid()
      reads this
    {
      Constraints(users)
      && (forall k :: k in users ==> users[k].depositTotalUsd >= 0.0)
      && nextPostbackId >= 1
      && IdsIncreasing(postbacks) && IdsBelow(postbacks, nextPostbackId)
    }

    constructor ()
      ensures Valid() && users == map[] && postbacks == [] && nextPostbackId == 1
    {
      users := map[];
      postbacks := [];
      nextPostbackId := 1;
    }

    /** `session.get(User, id)`, creating and committing `User(id=id)` when missing. */
    method GetOrCreate(id: int) returns (u: User)
      requires Valid()
      modifies this
      ensures Valid()
      ensures u == (if id in old(users) then old(users)[id] else NewUser(id))
      ensures users == old(users)[id := u]
      ensures postbacks == old(postbacks) && nextPostbackId == old(nextPostbackId)
    {
      if id in users {
        u := users[id];
        assert users == users[id := u];
      } else {
        u := NewUser(id);
        NewUserStorable(users, id);
        PutKeepsConstraints(users, u);
        users := users[id := u];
      }
    }

    /** Commit a changed record whose identifiers are free. */
    method Put(u: User)
      requires Valid() && Storable(users, u) && u.depositTotalUsd >= 0.0
      modifies this
      ensures Valid()
      ensures users == old(users)[u.id := u]
      ensures postbacks == old(postbacks) && nextPostbackId == old(nextPostbackId)
    {
      PutKeepsConstraints(users, u);
      users := users[u.id := u];
    }

    /** Commit a change to fields other than the identifiers (creating the record when
        missing). */
    method Save(u: User)
      requires Valid() && u.depositTotalUsd >= 0.0
      requires u.clickId == StoredOrNew(users, u.id).clickId
      requires u.partnerTraderId == StoredOrNew(users, u.id).partnerTraderId
      modifies this
      ensures Valid()
      ensures users == old(users)[u.id := u]
      ensures postbacks == old(postbacks) && nextPostbackId == old(nextPostbackId)
    {
      KeepsIdentifiersStorable(users, u);
      Put(u);
    }

    /** Insert an audit row; the table assigns the next id. */
    method Append(row: Postback) returns (id: int)
      requires Valid()
      modifies this
      ensures Valid()
      ensures id == old(nextPostbackId)
      ensures postbacks == old(postbacks) + [row.(id := id)]
      ensures users == old(users) && nextPostbackId == old(nextPostbackId) + 1
    {
      id := nextPostbackId;
      AppendKeepsIncreasing(postbacks, id, row.(id := id));
      postbacks := postbacks + [row.(id := id)];
      nextPostbackId := id + 1;
    }
  }

  /** Two writes of one key's record leave the table as one write of that key. */
  lemma UpdatesCompose(m0: map<int, User>, m1: map<int, User>, m2: map<int, User>, k: int)
    requires k in m1 && m1 == m0[k := m1[k]]
    requires k in m2 && m2 == m1[k := m2[k]]
    ensures m2 == m0[k := m2[k]]
  {
  }
}

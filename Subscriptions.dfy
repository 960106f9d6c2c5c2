/** Subscription checking and caching (app/services/subscriptions.py). */
module Subscriptions {
  import opened Wrappers
  import opened UserModel
  import opened Config
  import opened Store

  /** The aiogram chat-member classes the check distinguishes. */
  datatype MemberKind = AdministratorMember | OwnerMember | OtherMember

  datatype ChatMember = ChatMember(kind: MemberKind, status: Option<string>)

  /** What `bot.get_chat_member` does: answers with a member, or raises. */
  datatype Lookup = Found(member: ChatMember) | LookupFailed

  /** _is_member: administrator and owner objects count; otherwise the status decides. */
  predicate IsMember(cm: ChatMember) {
    cm.kind == AdministratorMember || cm.kind == OwnerMember
    || (cm.status.Some? && cm.status.value in {"member", "administrator", "creator"})
  }

  /** A status outside the three subscribed statuses never counts for an ordinary member. */
  lemma LeftMemberIsNotSubscribed(status: string)
    requires status != "member" && status != "administrator" && status != "creator"
    ensures !IsMember(ChatMember(OtherMember, Some(status)))
    ensures !IsMember(ChatMember(OtherMember, None))
  {
  }

  /** verify_and_cache: with the check disabled (or no channel) the answer is true and,
      unless asked not to, cached; otherwise the lookup decides (a failed lookup is
      false) and the answer is cached. A missing user is created for the write. */
  method VerifyAndCache(db: Db, tgId: int, s: Settings, channelId: Option<int>, setIfDisabled: bool,
                        lookup: Lookup) returns (ok: bool)
    requires db.Valid()
    modifies db
    ensures db.Valid()
    ensures db.postbacks == old(db.postbacks)
    ensures !s.requireSubscription || !TruthyInt(channelId) ==> ok
    ensures (!s.requireSubscription || !TruthyInt(channelId)) && !setIfDisabled ==> db.users == old(db.users)
    ensures (!s.requireSubscription || !TruthyInt(channelId)) && setIfDisabled ==>
      db.users == old(db.users)[tgId := StoredOrNew(old(db.users), tgId).(isSubscribed := Some(true))]
    ensures s.requireSubscription && TruthyInt(channelId) ==>
      ok == (lookup.Found? && IsMember(lookup.member))
      && db.users == old(db.users)[tgId := StoredOrNew(old(db.users), tgId).(isSubscribed := Some(ok))]
  {
    if !s.requireSubscription || !TruthyInt(channelId) {
      if setIfDisabled {
        var u := StoredOrNew(db.users, tgId);
        db.Save(u.(isSubscribed := Some(true)));
      }
      return true;
    }
    ok := false;
    if lookup.Found? {
      ok := IsMember(lookup.member);
    }
    var u := StoredOrNew(db.users, tgId);
    db.Save(u.(isSubscribed := Some(ok)));
  }
}

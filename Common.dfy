/** The shared handlers' helpers (app/routers/common.py): the Russian-first text lookup,
    the language-only upsert, the stored-language read, and the main keyboard's label. */
module Common {
  import opened Wrappers
  import opened Text
  import opened UserModel
  import opened Store
  import opened Checks
  import opened MainApp

  /** t(lang, key): unsupported languages read as "ru"; a non-empty file text wins, else
      the built-in text for that language, else the key (the same lookup as the screens'
      text before formatting). */
  function T(c: Catalog, lang: string, key: string): (r: string)
    ensures var l := if lang in SupportedLangs then lang else "ru";
      l in c.cache && TruthyText(Get(c.cache[l], key)) ==> r == c.cache[l][key]
    ensures var l := if lang in SupportedLangs then lang else "ru";
      (l !in c.cache || !TruthyText(Get(c.cache[l], key))) && (key !in c.defaults || l !in c.defaults[key])
      ==> r == key
  {
    RawText(c, if lang in SupportedLangs then lang else "ru", key)
  }

  /** It is the screens' lookup with no formatting arguments. */
  lemma SameLookupAsScreens(c: Catalog, lang: string, key: string)
    ensures T(c, lang, key) == Checks.T(c, lang, key, _ => None)
  {
  }

  /** get_or_create_user(tg_id, lang): the /start upsert without a ref code. */
  method GetOrCreateUser(db: Db, id: int, lang: Option<string>) returns (u: User)
    requires db.Valid()
    modifies db
    ensures db.Valid()
    ensures u == Upserted(old(db.users), id, lang, None)
    ensures db.users == old(db.users)[id := u]
    ensures db.postbacks == old(db.postbacks)
  {
    if id !in db.users {
      u := NewUser(id);
      if TruthyText(lang) {
        u := u.(lang := lang);
      }
      db.Save(u);
    } else {
      u := db.users[id];
      if TruthyText(lang) && u.lang != lang {
        u := u.(lang := lang);
        db.Save(u);
      } else {
        assert db.users == db.users[id := u];
      }
    }
  }

  /** A user's lang is kept by this upsert whenever no new one is given. */
  lemma UpsertWithoutLangKeepsRecord(users: map<int, User>, id: int)
    requires id in users
    ensures Upserted(users, id, None, None) == users[id]
  {
  }

  /** get_user_lang: the stored language when it is one the texts support, else "ru". */
  function GetUserLang(users: map<int, User>, id: int): (l: string)
    ensures l in SupportedLangs
    ensures id in users && users[id].lang.Some? && users[id].lang.value in SupportedLangs ==> l == users[id].lang.value
    ensures !(id in users && users[id].lang.Some? && users[id].lang.value in SupportedLangs) ==> l == "ru"
  {
    if id in users && users[id].lang.Some? && users[id].lang.value in SupportedLangs then users[id].lang.value
    else "ru"
  }

  /** The language the upsert stores is the one read back, when it is supported. */
  lemma UpsertedLangReadBack(users: map<int, User>, id: int, lang: string)
    requires lang in SupportedLangs
    ensures GetUserLang(users[id := Upserted(users, id, Some(lang), None)], id) == lang
  {
  }

  /** update_last_bot_message_id: the same write as the screens' copy of it. */
  method UpdateLastBotMessageId(db: Db, tgId: int, messageId: Option<int>)
    requires db.Valid()
    modifies db
    ensures db.Valid()
    ensures db.postbacks == old(db.postbacks)
    ensures tgId !in old(db.users) ==> db.users == old(db.users)
    ensures tgId in old(db.users) ==>
      db.users == old(db.users)[tgId := old(db.users)[tgId].(lastBotMessageId := messageId)]
  {
    SetLastBotMessageId(db, tgId, messageId);
  }

  /** kb_main's first button: the VIP label exactly for VIP users. */
  function KbMainLabelKey(vip: bool): (key: string)
    ensures key == "btn.vip_signals" <==> vip
    ensures key == "btn.get_signal" <==> !vip
  {
    if vip then "btn.vip_signals" else "btn.get_signal"
  }
}

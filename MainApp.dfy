/** The bot's entry handlers (app/main.py): the English-first text lookup, the upsert
    run by /start and the language buttons, the /start payload, and the "menu:get"
    button that walks a user through the funnel. */
module MainApp {
  import opened Wrappers
  import opened Text
  import opened UserModel
  import opened Config
  import opened Store
  import opened Access
  import opened Subscriptions
  import opened Tracking
  import opened PostbackService
  import opened Checks

  const MainLangs: set<string> := {"en", "ru", "hi", "ar", "es", "fr", "ro"}

  /** `d.get(key)` on a text map, as an Option. */
  function Get(d: map<string, string>, key: string): Option<string> {
    if key in d then Some(d[key]) else None
  }

  /** The first truthy candidate, else `last` (a chain of `or`s). */
  function FirstText(cands: seq<Option<string>>, last: string): (r: string)
    ensures forall j :: (0 <= j < |cands| && TruthyText(cands[j])
                         && (forall i :: 0 <= i < j ==> !TruthyText(cands[i]))) ==> r == cands[j].value
    ensures (forall i :: 0 <= i < |cands| ==> !TruthyText(cands[i])) ==> r == last
  {
    if cands == [] then last
    else if TruthyText(cands[0]) then cands[0].value
    else FirstText(cands[1..], last)
  }

  /** The language t() reads: a supported one as given, anything else as English. */
  function TextLang(lang: string): string { if lang in MainLangs then lang else "en" }

  /** The file text for a language, when that language's file has the key. */
  function FileText(c: Catalog, l: string, key: string): Option<string> {
    if l in c.cache then Get(c.cache[l], key) else None
  }

  /** The built-in text of a key for a language. */
  function DefaultText(c: Catalog, key: string, l: string): Option<string> {
    if key in c.defaults then Get(c.defaults[key], l) else None
  }

  /** t(lang, key): unsupported languages read as English; then the file text, the
      built-in text for that language, for English, for Russian, and finally the key. */
  function T(c: Catalog, lang: string, key: string): (r: string)
    ensures key != "" ==> r != ""
    ensures var l := TextLang(lang);
      TruthyText(FileText(c, l, key)) ==> r == FileText(c, l, key).value
    ensures var l := TextLang(lang);
      !TruthyText(FileText(c, l, key)) && TruthyText(DefaultText(c, key, l))
      ==> r == DefaultText(c, key, l).value
    ensures var l := TextLang(lang);
      (!TruthyText(FileText(c, l, key)) && !TruthyText(DefaultText(c, key, l))
       && TruthyText(DefaultText(c, key, "en"))) ==> r == DefaultText(c, key, "en").value
    ensures var l := TextLang(lang);
      (!TruthyText(FileText(c, l, key)) && !TruthyText(DefaultText(c, key, l))
       && !TruthyText(DefaultText(c, key, "en")) && TruthyText(DefaultText(c, key, "ru")))
      ==> r == DefaultText(c, key, "ru").value
    ensures var l := TextLang(lang);
      (!TruthyText(FileText(c, l, key)) && !TruthyText(DefaultText(c, key, l))
       && !TruthyText(DefaultText(c, key, "en")) && !TruthyText(DefaultText(c, key, "ru")))
      ==> r == key
  {
    var l := TextLang(lang);
    var cands := [FileText(c, l, key), DefaultText(c, key, l), DefaultText(c, key, "en"), DefaultText(c, key, "ru")];
    assert cands[0] == FileText(c, l, key) && cands[1] == DefaultText(c, key, l);
    assert cands[2] == DefaultText(c, key, "en") && cands[3] == DefaultText(c, key, "ru");
    FirstText(cands, key)
  }

  /** A built-in English text stands in for any language that has neither a file text
      nor a built-in text of its own. */
  lemma EnglishFallback(c: Catalog, lang: string, key: string)
    requires lang in MainLangs && lang in c.cache && key !in c.cache[lang]
    requires key in c.defaults && lang !in c.defaults[key]
    requires "en" in c.defaults[key] && c.defaults[key]["en"] != ""
    ensures T(c, lang, key) == c.defaults[key]["en"]
  {
    assert !TruthyText(FileText(c, lang, key)) && !TruthyText(DefaultText(c, key, lang));
  }

  /** Every unsupported language reads exactly the English texts. */
  lemma UnsupportedLangReadsEnglish(c: Catalog, lang: string, key: string)
    requires lang !in MainLangs
    ensures T(c, lang, key) == T(c, "en", key)
  {
  }

  /** The record get_or_create_user leaves behind: a new record takes the given lang and
      ref code when they are truthy; a stored one has its lang replaced by a truthy
      different lang and gets a ref code only while it has none (first write wins). */
  function Upserted(users: map<int, User>, id: int, lang: Option<string>, refCode: Option<string>): (u: User)
    ensures id !in users ==>
      u == NewUser(id).(lang := if TruthyText(lang) then lang else None,
                        refCode := if TruthyText(refCode) then refCode else None)
    ensures id in users ==> u == users[id].(lang := u.lang, refCode := u.refCode)
    ensures id in users && TruthyText(lang) ==> u.lang == lang
    ensures id in users && !TruthyText(lang) ==> u.lang == users[id].lang
    ensures id in users && TruthyText(users[id].refCode) ==> u.refCode == users[id].refCode
    ensures id in users && !TruthyText(users[id].refCode) && TruthyText(refCode) ==> u.refCode == refCode
  {
    if id !in users then
      NewUser(id).(lang := if TruthyText(lang) then lang else None,
                   refCode := if TruthyText(refCode) then refCode else None)
    else
      var stored := users[id];
      var withLang := if TruthyText(lang) && stored.lang != lang then stored.(lang := lang) else stored;
      if TruthyText(refCode) && !TruthyText(stored.refCode) then withLang.(refCode := refCode) else withLang
  }

  /** Running the same upsert twice leaves the record the first run left. */
  lemma UpsertIdempotent(users: map<int, User>, id: int, lang: Option<string>, refCode: Option<string>)
    ensures var u := Upserted(users, id, lang, refCode);
      Upserted(users[id := u], id, lang, refCode) == u
  {
  }

  /** A later /start payload never replaces the ref code of the first one. */
  lemma {:induction false} RefCodeFirstWriteWins(users: map<int, User>, id: int, r1: Option<string>, r2: Option<string>)
    requires TruthyText(r1) && id !in users
    ensures var u := Upserted(users, id, None, r1);
      Upserted(users[id := u], id, None, r2).refCode == r1
  {
    var u := Upserted(users, id, None, r1);
    assert u.refCode == r1;
  }

  /** get_or_create_user: the upsert, committed (ref codes and languages are not
      identifiers, so the write never meets a unique index). */
  method GetOrCreateUser(db: Db, id: int, lang: Option<string>, refCode: Option<string>) returns (u: User)
    requires db.Valid()
    modifies db
    ensures db.Valid()
    ensures u == Upserted(old(db.users), id, lang, refCode)
    ensures db.users == old(db.users)[id := u]
    ensures db.postbacks == old(db.postbacks)
  {
    if id !in db.users {
      u := NewUser(id);
      if TruthyText(lang) {
        u := u.(lang := lang);
      }
      if TruthyText(refCode) {
        u := u.(refCode := refCode);
      }
      assert u == Upserted(db.users, id, lang, refCode);
      db.Save(u);
    } else {
      u := db.users[id];
      var updated := false;
      if TruthyText(lang) && u.lang != lang {
        u := u.(lang := lang);
        updated := true;
      }
      if TruthyText(refCode) && !TruthyText(u.refCode) {
        u := u.(refCode := refCode);
        updated := true;
      }
      assert u == Upserted(db.users, id, lang, refCode);
      if updated {
        db.Save(u);
      } else {
        assert db.users == db.users[id := u];
      }
    }
  }

  /** The index of the first whitespace character. */
  function FirstSpace(s: string): (r: Option<nat>)
    ensures r.Some? ==> r.value < |s| && IsSpace(s[r.value])
    ensures r.Some? ==> forall i :: 0 <= i < r.value ==> !IsSpace(s[i])
    ensures r.None? ==> forall i :: 0 <= i < |s| ==> !IsSpace(s[i])
  {
    if s == [] then None
    else if IsSpace(s[0]) then Some(0)
    else match FirstSpace(s[1..])
      case None => None
      case Some(k) => Some(k + 1)
  }

  /** `text.split(maxsplit=1)`: at most two whitespace-free-ended words, the second
      being everything after the first word's trailing whitespace. */
  function SplitOnce(text: string): (parts: seq<string>)
    ensures |parts| <= 2
    ensures |parts| >= 1 ==> parts[0] != [] && !IsSpace(parts[0][0])
    ensures |parts| == 2 ==> parts[1] != [] && !IsSpace(parts[1][0])
  {
    var t := LStrip(text);
    if t == [] then []
    else match FirstSpace(t)
      case None => [t]
      case Some(k) =>
        var rest := LStrip(t[k..]);
        if rest == [] then [t[..k]] else [t[..k], rest]
  }

  /** The words split(maxsplit=1) finds: none for blank text; otherwise the first word (the
      longest whitespace-free start of the text without its leading whitespace) and then,
      when anything but whitespace follows it, that rest with its leading whitespace
      removed. */
  lemma SplitOnceWords(text: string)
    ensures SplitOnce(text) == [] <==> LStrip(text) == []
    ensures var parts, t := SplitOnce(text), LStrip(text);
      |parts| >= 1 ==>
        |parts[0]| <= |t| && parts[0] == t[..|parts[0]|]
        && (forall i :: 0 <= i < |parts[0]| ==> !IsSpace(t[i]))
        && (|parts[0]| < |t| ==> IsSpace(t[|parts[0]|]))
    ensures var parts, t := SplitOnce(text), LStrip(text);
      |parts| == 1 ==> |parts[0]| <= |t| && LStrip(t[|parts[0]|..]) == []
    ensures var parts, t := SplitOnce(text), LStrip(text);
      |parts| == 2 ==> |parts[0]| <= |t| && parts[1] == LStrip(t[|parts[0]|..])
  {
    var t := LStrip(text);
    var parts := SplitOnce(text);
    if t != [] {
      var first := FirstSpace(t);
      if first.None? {
        assert parts == [t];
        assert t[..|t|] == t && t[|t|..] == [];
      } else {
        var k := first.value;
        var rest := LStrip(t[k..]);
        assert parts == if rest == [] then [t[..k]] else [t[..k], rest];
        assert |parts[0]| == k && parts[0] == t[..k];
      }
    }
  }

  /** The /start payload: the stripped text after the command, None without one. */
  function RefCodeOf(text: Option<string>): (r: Option<string>)
    ensures r.Some? ==> TruthyText(r) && Strip(r.value) == r.value
    ensures !TruthyText(text) ==> r.None?
  {
    if !TruthyText(text) then None
    else
      var parts := SplitOnce(text.value);
      if |parts| == 2 then
        var code := Strip(parts[1]);
        if code == "" then None
        else
          StripNoSpaceEnds(code);
          Some(code)
      else None
  }

  /** The first whitespace character is at k when it is whitespace and nothing before
      it is. */
  lemma FirstSpaceAt(s: string, k: nat)
    requires k < |s| && IsSpace(s[k]) && forall i :: 0 <= i < k ==> !IsSpace(s[i])
    ensures FirstSpace(s) == Some(k)
  {
  }

  lemma LStripKeeps(s: string)
    requires s == [] || !IsSpace(s[0])
    ensures LStrip(s) == s
  {
  }

  lemma LStripOneSpace(code: string)
    requires code != [] && !IsSpace(code[0])
    ensures LStrip(" " + code) == code
  {
    assert (" " + code)[1..] == code;
    LStripKeeps(code);
  }

  /** "/start CODE" with a one-word command and a code without surrounding whitespace
      yields exactly that code. */
  lemma StartPayloadReadBack(cmd: string, code: string)
    requires cmd != [] && forall i :: 0 <= i < |cmd| ==> !IsSpace(cmd[i])
    requires code != [] && !IsSpace(code[0]) && !IsSpace(code[|code| - 1])
    ensures RefCodeOf(Some(cmd + " " + code)) == Some(code)
  {
    SplitCommandAndCode(cmd, code);
    StripNoSpaceEnds(code);
  }

  lemma SplitCommandAndCode(cmd: string, code: string)
    requires cmd != [] && forall i :: 0 <= i < |cmd| ==> !IsSpace(cmd[i])
    requires code != [] && !IsSpace(code[0])
    ensures SplitOnce(cmd + " " + code) == [cmd, code]
  {
    var text := cmd + " " + code;
    assert text[0] == cmd[0];
    LStripKeeps(text);
    assert forall i :: 0 <= i < |cmd| ==> text[i] == cmd[i];
    FirstSpaceAt(text, |cmd|);
    assert text[|cmd|..] == " " + code;
    LStripOneSpace(code);
    assert text[..|cmd|] == cmd;
  }

  /** A bare "/start" carries no ref code. */
  lemma BareStartHasNoRefCode(cmd: string)
    requires cmd != [] && forall i :: 0 <= i < |cmd| ==> !IsSpace(cmd[i])
    ensures RefCodeOf(Some(cmd)) == None
  {
    assert LStrip(cmd) == cmd;
  }

  /** cmd_start: upsert with the payload's ref code; a user who has picked a language
      gets the main menu, anyone else the language picker. Both windows record the id of
      the message carrying them (`delivered`; None when sending raised) as the last bot
      message. */
  method CmdStart(db: Db, tgId: int, text: Option<string>, delivered: Option<int>) returns (screen: Screen)
    requires db.Valid()
    modifies db
    ensures db.Valid()
    ensures var u := Upserted(old(db.users), tgId, None, RefCodeOf(text));
      db.users == old(db.users)[tgId := u.(lastBotMessageId := if delivered.Some? then delivered else u.lastBotMessageId)]
      && screen == (if TruthyText(u.lang) then MainMenu(u.hasVip) else LanguagePicker)
    ensures db.postbacks == old(db.postbacks)
  {
    var refCode := RefCodeOf(text);
    var u := GetOrCreateUser(db, tgId, None, refCode);
    screen := if TruthyText(u.lang) then MainMenu(u.hasVip) else LanguagePicker;
    if delivered.Some? {
      SetLastBotMessageId(db, tgId, delivered);
    }
  }

  datatype MenuOutcome =
    | Shown(screen: Screen, lang: string, messageId: Option<int>)
    | ClickIdRejected

  /** The language the main menu is drawn in. */
  function MenuLang(u: User): (l: string)
    ensures l in MainLangs
    ensures u.lang.Some? && u.lang.value in MainLangs ==> l == u.lang.value
  {
    if u.lang.Some? && u.lang.value in MainLangs then u.lang.value else "en"
  }

  /** The subscription answer menu_get's refresh stores: true without a configured
      channel, else whether the membership lookup found a member (a failed lookup is no). */
  predicate SubscriptionAnswer(s: Settings, member: Lookup) {
    !TruthyInt(s.subChannelId) || (member.Found? && IsMember(member.member))
  }

  /** The record after menu_get's refresh: the loaded one, with the fresh subscription
      answer when the check is required. */
  function Refreshed(u: User, s: Settings, member: Lookup): (v: User)
    ensures v.(isSubscribed := u.isSubscribed) == u
    ensures s.requireSubscription ==> v.isSubscribed == Some(SubscriptionAnswer(s, member))
    ensures !s.requireSubscription ==> v == u
  {
    if s.requireSubscription then u.(isSubscribed := Some(SubscriptionAnswer(s, member))) else u
  }

  /** The first half of menu_get: load (creating when missing), refresh the
      subscription answer when it is required (errors are swallowed), and run the
      postbacks pass. The record as loaded is returned; only is_subscribed can have
      moved in the store since. */
  method RefreshForMenu(db: Db, tgId: int, s: Settings, member: Lookup) returns (u: User)
    requires db.Valid()
    modifies db
    ensures db.Valid()
    ensures db.postbacks == old(db.postbacks)
    ensures u == StoredOrNew(old(db.users), tgId)
    ensures db.users == old(db.users)[tgId := Refreshed(u, s, member)]
  {
    u := db.GetOrCreate(tgId);
    if s.requireSubscription {
      var _ := VerifyAndCache(db, tgId, s, s.subChannelId, true, member);
    }
    var _ := RecomputeUserFromPostbacks(db, tgId);
  }

  /** What menu_get leaves for user `tgId`: only that record changes; a refused click id
      leaves the refreshed record; otherwise the step's screen for the record as first
      loaded is shown and the refreshed record is updated as PushedRecord says. */
  predicate MenuLeaves(before: map<int, User>, after: map<int, User>, tgId: int, s: Settings,
                       member: Lookup, refUrl: Url, delivered: Option<int>, out: MenuOutcome) {
    tgId in after && after == before[tgId := after[tgId]]
    && var u := StoredOrNew(before, tgId);
    var step := DecideNextStep(u, s).step;
    var refreshed := Refreshed(u, s, member);
    var v := after[tgId];
    (out == ClickIdRejected ==> step == Registration && v == refreshed && !TruthyText(u.clickId))
    && (out != ClickIdRejected ==>
          PushedRecord(refreshed, v, step, delivered)
          && out.screen == ScreenFor(step, u, s, refUrl, v.clickId.GetOr(""))
          && out.lang == MenuLang(u)
          && out.messageId == delivered)
  }

  /** menu_get. The record is loaded (created when missing), the subscription answer is
      refreshed when required (`member` is the membership lookup), the postbacks pass
      re-reads it, and the decision is then taken on the record as LOADED at the start:
      the handler's own session hands back that object rather than re-reading it. A
      one-shot screen commits its latch (that column only) before being shown; the
      registration screen makes sure of a click id. `delivered` is the id of the message
      sent, recorded as the last bot message. */
  method MenuGet(db: Db, tgId: int, s: Settings, member: Lookup, refUrl: Url, token: string,
                 delivered: Option<int>) returns (out: MenuOutcome)
    requires db.Valid()
    modifies db
    ensures db.Valid()
    ensures db.postbacks == old(db.postbacks)
    ensures MenuLeaves(old(db.users), db.users, tgId, s, member, refUrl, delivered, out)
  {
    var u := RefreshForMenu(db, tgId, s, member);
    var step := DecideNextStep(u, s).step;
    ghost var afterRefresh := db.users;
    var screen := ShowAndRecord(db, tgId, step, s, refUrl, token, delivered);
    UpdatesCompose(old(db.users), afterRefresh, db.users, tgId);
    if screen.None? {
      return ClickIdRejected;
    }
    assert ScreenFor(step, afterRefresh[tgId], s, refUrl, db.users[tgId].clickId.GetOr(""))
        == ScreenFor(step, u, s, refUrl, db.users[tgId].clickId.GetOr(""));
    return Shown(screen.value, MenuLang(u), delivered);
  }

  /** The users menu_get leaves as written on an open step: the user's record is only
      refreshed, and the menu message is recorded under `botId`, the author of the message
      the menu is drawn from, whose record is created when missing. */
  function MenuUsersAsWritten(users: map<int, User>, tgId: int, botId: int, s: Settings,
                              member: Lookup, delivered: Option<int>): map<int, User>
  {
    var r := users[tgId := Refreshed(StoredOrNew(users, tgId), s, member)];
    if delivered.Some? then r[botId := StoredOrNew(r, botId).(lastBotMessageId := delivered)] else r
  }

  /** menu_get as written. The open_vip and open_regular steps hand the main menu the
      message the button sits on, so the window helper reads that message's author, the
      bot (`botId`), and records the menu message under the bot's id, creating a record for
      it when missing. Every other step is as MenuGet. */
  method MenuGetAsWritten(db: Db, tgId: int, botId: int, s: Settings, member: Lookup, refUrl: Url,
                          token: string, delivered: Option<int>) returns (out: MenuOutcome)
    requires db.Valid()
    modifies db
    ensures db.Valid()
    ensures db.postbacks == old(db.postbacks)
    ensures var u := StoredOrNew(old(db.users), tgId);
      var step := DecideNextStep(u, s).step;
      if step == OpenVip || step == OpenRegular then
        out == Shown(MainMenu(step == OpenVip), MenuLang(u), delivered)
        && db.users == MenuUsersAsWritten(old(db.users), tgId, botId, s, member, delivered)
      else
        MenuLeaves(old(db.users), db.users, tgId, s, member, refUrl, delivered, out)
  {
    var u := StoredOrNew(db.users, tgId);
    var step := DecideNextStep(u, s).step;
    if step != OpenVip && step != OpenRegular {
      out := MenuGet(db, tgId, s, member, refUrl, token, delivered);
      return;
    }
    ghost var before := db.users;
    out := MenuGet(db, tgId, s, member, refUrl, token, None);
    assert db.users == before[tgId := Refreshed(u, s, member)];
    if delivered.Some? {
      ghost var mid := db.users;
      var _ := db.GetOrCreate(botId);
      SetLastBotMessageId(db, botId, delivered);
      assert db.users == mid[botId := StoredOrNew(mid, botId).(lastBotMessageId := delivered)];
    }
    out := out.(messageId := delivered);
  }

  /** As written, a user shown the main menu for the first time from a menu click keeps
      the old last-bot-message id (so the next window does not replace the menu), and the
      bot gains a user record of its own that the admin counters and broadcasts count. */
  lemma MenuGetAsWrittenMissesUser(users: map<int, User>, tgId: int, botId: int, s: Settings,
                                   member: Lookup, m: int)
    requires tgId in users && botId !in users
    requires DecideNextStep(users[tgId], s).step in {OpenVip, OpenRegular}
    requires users[tgId].lastBotMessageId != Some(m)
    ensures var after := MenuUsersAsWritten(users, tgId, botId, s, member, Some(m));
      after[tgId].lastBotMessageId == users[tgId].lastBotMessageId
      && after[tgId].lastBotMessageId != Some(m)
      && botId in after && after[botId] == NewUser(botId).(lastBotMessageId := Some(m))
      && |after.Keys| == |users.Keys| + 1
  {
    var r := users[tgId := Refreshed(users[tgId], s, member)];
    assert r.Keys == users.Keys;
    assert botId != tgId;
    var after := r[botId := NewUser(botId).(lastBotMessageId := Some(m))];
    assert after.Keys == users.Keys + {botId};
  }

  /** The decision menu_get takes is the one for the record as first loaded: a user whose
      subscription was unknown is shown the subscription screen on that click even when
      the refresh has just found them subscribed. */
  lemma StaleSubscriptionAnswer(u: User, s: Settings)
    requires s.requireSubscription && u.isSubscribed == None
    ensures DecideNextStep(u, s).step == Subscription
    ensures DecideNextStep(u.(isSubscribed := Some(true)), s).step != Subscription
  {
  }
}

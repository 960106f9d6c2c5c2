/** The funnel screens pushed to a user (app/routers/checks.py): text lookup, the
    last-bot-message bookkeeping, and the decision-to-screen dispatch. */
module Checks {
  import opened Wrappers
  import opened Text
  import opened UserModel
  import opened Config
  import opened Store
  import opened Access
  import opened Tracking

  const SupportedLangs: set<string> := {"ru", "en", "es", "uk"}

  /** The text before formatting: a non-empty file text, else the built-in default for
      that language, else the key itself. */
  function RawText(c: Catalog, lang: string, key: string): (raw: string)
    ensures lang in c.cache && key in c.cache[lang] && c.cache[lang][key] != "" ==> raw == c.cache[lang][key]
    ensures !(lang in c.cache && key in c.cache[lang] && c.cache[lang][key] != "") ==>
      raw == (if key in c.defaults && lang in c.defaults[key] then c.defaults[key][lang] else key)
  {
    var bucket := if lang in c.cache then c.cache[lang] else map[];
    if key in bucket && bucket[key] != "" then bucket[key]
    else if key in c.defaults && lang in c.defaults[key] then c.defaults[key][lang]
    else key
  }

  /** t(lang, key, **fmt): unsupported languages read as "ru"; `format` is `str.format`
      with the caller's arguments (None where it raises, which leaves the raw text). */
  function T(c: Catalog, lang: string, key: string, format: string -> Option<string>): (r: string)
    ensures var raw := RawText(c, if lang in SupportedLangs then lang else "ru", key);
      r == (if format(raw).Some? then format(raw).value else raw)
  {
    var l := if lang in SupportedLangs then lang else "ru";
    var raw := RawText(c, l, key);
    match format(raw)
      case Some(x) => x
      case None => raw
  }

  /** Every unsupported language reads exactly the Russian texts. */
  lemma UnsupportedLangReadsRussian(c: Catalog, lang: string, key: string, format: string -> Option<string>)
    requires lang !in SupportedLangs
    ensures T(c, lang, key, format) == T(c, "ru", key, format)
  {
  }

  /** With no text anywhere the key itself is shown. */
  lemma MissingTextShowsKey(c: Catalog, lang: string, key: string)
    requires lang in SupportedLangs && lang !in c.cache && key !in c.defaults
    ensures T(c, lang, key, _ => None) == key
  {
  }

  /** set_last_bot_message_id: nothing for a missing user, otherwise only that field. */
  method SetLastBotMessageId(db: Db, tgId: int, messageId: Option<int>)
    requires db.Valid()
    modifies db
    ensures db.Valid()
    ensures db.postbacks == old(db.postbacks)
    ensures tgId !in old(db.users) ==> db.users == old(db.users)
    ensures tgId in old(db.users) ==>
      db.users == old(db.users)[tgId := old(db.users)[tgId].(lastBotMessageId := messageId)]
  {
    if tgId in db.users {
      db.Save(db.users[tgId].(lastBotMessageId := messageId));
    }
  }

  datatype Screen =
    | SubscriptionScreen
    | RegistrationScreen(link: RefLink)
    | DepositScreen(need: real, have: real)
    | VipWindow
    | AccessOkWindow
    | MainMenu(vip: bool)
    | LanguagePicker

  /** The object a screen is sent through. push_next_screen builds a bare object with
      `chat` and `from_user` attributes for the main menu. */
  datatype SendContext = MessageCtx(chatId: int) | CallbackCtx(messageChatId: int) | BareObject(chatId: int)

  /** How the menu sender (app/routers/menu.py) finds the chat as written: a Message gives
      its chat, anything else is read as a callback through `.message`, which a bare
      object does not have (AttributeError). */
  function MenuChatAsWritten(ctx: SendContext): Option<int> {
    match ctx
      case MessageCtx(c) => Some(c)
      case CallbackCtx(c) => Some(c)
      case BareObject(_) => None
  }

  /** The evidently intended lookup: any context that has a chat is sent to it. */
  function MenuChat(ctx: SendContext): (r: Option<int>)
    ensures r.Some?
    ensures ctx.MessageCtx? || ctx.CallbackCtx? ==> r == MenuChatAsWritten(ctx)
  {
    match ctx
      case MessageCtx(c) => Some(c)
      case CallbackCtx(c) => Some(c)
      case BareObject(c) => Some(c)
  }

  /** As written, the main menu pushed for open_vip/open_regular is never delivered. */
  lemma PushedMenuNeverDelivered(tgId: int)
    ensures MenuChatAsWritten(BareObject(tgId)) == None
    ensures MenuChat(BareObject(tgId)) == Some(tgId)
  {
  }

  datatype PushOutcome =
    | NoUser
    | ClickIdConflict
    | SendFailed(screen: Screen)
    | Sent(screen: Screen, messageId: int)

  /** The screen for a decision (deposit shows the full access threshold, not the
      remaining amount); `clickId` is the user's click id on the registration step. */
  function ScreenFor(step: Step, u: User, s: Settings, refUrl: Url, clickId: string): (sc: Screen)
    ensures step == Deposit ==> sc == DepositScreen(s.accessThresholdUsd, u.depositTotalUsd)
    ensures step in {OpenVip, OpenRegular} ==> sc == MainMenu(step == OpenVip)
  {
    match step
      case Subscription => SubscriptionScreen
      case Registration => RegistrationScreen(BuildRefLinkWithClick(s.refLink, refUrl, clickId))
      case Deposit => DepositScreen(s.accessThresholdUsd, u.depositTotalUsd)
      case VipOnce => VipWindow
      case AccessOkOnce => AccessOkWindow
      case OpenVip => MainMenu(true)
      case OpenRegular => MainMenu(false)
  }

  /** The record a shown step leaves for the stored user `u`: the step's one-shot latch is
      set, a registration screen holds a click id (an existing one is kept, any other step
      keeps it as it was), the delivered message id is recorded, and nothing else changes. */
  predicate PushedRecord(u: User, v: User, step: Step, delivered: Option<int>) {
    v == u.(shownVipAccessOnce := u.shownVipAccessOnce || step == VipOnce,
            shownRegularAccessOnce := u.shownRegularAccessOnce || step == AccessOkOnce,
            clickId := v.clickId,
            lastBotMessageId := if delivered.Some? then delivered else u.lastBotMessageId)
    && (step != Registration ==> v.clickId == u.clickId)
    && (step == Registration ==> TruthyText(v.clickId))
    && (TruthyText(u.clickId) ==> v.clickId == u.clickId)
  }

  /** The step a one-shot window settles into once it has been shown. */
  function Settled(step: Step): Step {
    match step
      case VipOnce => OpenVip
      case AccessOkOnce => OpenRegular
      case _ => step
  }

  /** After a push the funnel decides the same step again, except that a one-shot window
      has settled into its open step: neither window is pushed twice. */
  lemma PushSettles(u: User, v: User, s: Settings, delivered: Option<int>)
    requires PushedRecord(u, v, DecideNextStep(u, s).step, delivered)
    ensures DecideNextStep(v, s).step == Settled(DecideNextStep(u, s).step)
  {
    var step := DecideNextStep(u, s).step;
    var w := u.(clickId := v.clickId, lastBotMessageId := v.lastBotMessageId);
    assert DecideNextStep(w, s) == DecideNextStep(u, s);
    if step == VipOnce {
      assert v == MarkVipOnceShown(w);
      MarkVipSettles(w, s);
    } else if step == AccessOkOnce {
      assert v == MarkRegularOnceShown(w);
      MarkRegularSettles(w, s);
    } else {
      assert v == w;
    }
  }

  /** The screen-side effects of a decided step on a stored user: a one-shot latch is
      set and committed BEFORE its window is sent, the registration screen makes sure of
      a click id (None when its commit is rejected), and the other steps write nothing. */
  method ShowStep(db: Db, tgId: int, step: Step, s: Settings, refUrl: Url, token: string)
    returns (screen: Option<Screen>)
    requires db.Valid() && tgId in db.users
    modifies db
    ensures db.Valid()
    ensures db.postbacks == old(db.postbacks)
    ensures tgId in db.users && db.users == old(db.users)[tgId := db.users[tgId]]
    ensures screen.None? ==>
      step == Registration && db.users == old(db.users) && !TruthyText(old(db.users)[tgId].clickId)
    ensures screen.Some? ==>
      var u := old(db.users)[tgId];
      var v := db.users[tgId];
      v == u.(shownVipAccessOnce := u.shownVipAccessOnce || step == VipOnce,
              shownRegularAccessOnce := u.shownRegularAccessOnce || step == AccessOkOnce,
              clickId := v.clickId)
      && (step != Registration ==> v.clickId == u.clickId)
      && (step == Registration ==> TruthyText(v.clickId))
      && (TruthyText(u.clickId) ==> v.clickId == u.clickId)
      && screen.value == ScreenFor(step, u, s, refUrl, v.clickId.GetOr(""))
  {
    match step {
      case Subscription =>
        screen := Some(SubscriptionScreen);
      case Registration =>
        var c := EnsureClickId(db, tgId, token);
        if c.Err? {
          return None;
        }
        screen := Some(RegistrationScreen(BuildRefLinkWithClick(s.refLink, refUrl, c.value)));
      case Deposit =>
        screen := Some(DepositScreen(s.accessThresholdUsd, db.users[tgId].depositTotalUsd));
      case VipOnce =>
        db.Save(MarkVipOnceShown(db.users[tgId]));
        screen := Some(VipWindow);
      case AccessOkOnce =>
        db.Save(MarkRegularOnceShown(db.users[tgId]));
        screen := Some(AccessOkWindow);
      case OpenVip =>
        screen := Some(MainMenu(true));
      case OpenRegular =>
        screen := Some(MainMenu(false));
    }
  }

  /** A decided step's screen, then the id of the message that carried it (when one was
      delivered) recorded as the user's last bot message. */
  method ShowAndRecord(db: Db, tgId: int, step: Step, s: Settings, refUrl: Url, token: string,
                       delivered: Option<int>) returns (screen: Option<Screen>)
    requires db.Valid() && tgId in db.users
    modifies db
    ensures db.Valid()
    ensures db.postbacks == old(db.postbacks)
    ensures tgId in db.users && db.users == old(db.users)[tgId := db.users[tgId]]
    ensures screen.None? ==>
      step == Registration && db.users == old(db.users) && !TruthyText(old(db.users)[tgId].clickId)
    ensures screen.Some? ==>
      var u := old(db.users)[tgId];
      var v := db.users[tgId];
      PushedRecord(u, v, step, delivered)
      && screen.value == ScreenFor(step, u, s, refUrl, v.clickId.GetOr(""))
  {
    screen := ShowStep(db, tgId, step, s, refUrl, token);
    if screen.Some? && delivered.Some? {
      ghost var shown := db.users;
      SetLastBotMessageId(db, tgId, delivered);
      UpdatesCompose(old(db.users), shown, db.users, tgId);
    }
  }

  /** What a push leaves: nothing for a missing user; otherwise only that user's record
      changes, to the record the decided step leaves (unchanged when the registration click
      id is rejected), and the outcome carries the step's screen and the delivered id. */
  predicate PushLeaves(before: map<int, User>, after: map<int, User>, tgId: int, s: Settings,
                       refUrl: Url, delivered: Option<int>, out: PushOutcome)
  {
    (tgId !in before <==> out == NoUser)
    && (tgId !in before ==> after == before)
    && (tgId in before ==>
      var u := before[tgId];
      var step := DecideNextStep(u, s).step;
      tgId in after && after == before[tgId := after[tgId]]
      && (out == ClickIdConflict ==>
            step == Registration && after == before && !TruthyText(u.clickId))
      && (out != ClickIdConflict ==>
            var v := after[tgId];
            PushedRecord(u, v, step, delivered)
            && out.screen == ScreenFor(step, u, s, refUrl, v.clickId.GetOr(""))
            && (delivered.Some? ==> out == Sent(out.screen, delivered.value))
            && (delivered.None? ==> out.SendFailed?)))
  }

  /** push_next_screen: decide on the stored record, show the step, and record the sent
      message id. `delivered` is the id Telegram assigns, or None when sending raises;
      `token` feeds click-id generation. */
  method PushNextScreen(db: Db, tgId: int, s: Settings, refUrl: Url, token: string, delivered: Option<int>)
    returns (out: PushOutcome)
    requires db.Valid()
    modifies db
    ensures db.Valid()
    ensures db.postbacks == old(db.postbacks)
    ensures PushLeaves(old(db.users), db.users, tgId, s, refUrl, delivered, out)
  {
    if tgId !in db.users {
      return NoUser;
    }
    var step := DecideNextStep(db.users[tgId], s).step;
    var screen := ShowAndRecord(db, tgId, step, s, refUrl, token, delivered);
    if screen.None? {
      return ClickIdConflict;
    }
    // the open steps' main menu goes through the corrected MenuChat; as written
    // (MenuChatAsWritten) that send raises, which is the delivered == None case
    if delivered.None? {
      return SendFailed(screen.value);
    }
    return Sent(screen.value, delivered.value);
  }

  /** The "check:sub" button: its subscription refresh raises (it calls a settings helper
      that does not exist) and the error is swallowed, so it only pushes the next screen
      on the stored record. */
  method CheckSubscriptionButton(db: Db, tgId: int, s: Settings, refUrl: Url, token: string, delivered: Option<int>)
    returns (out: PushOutcome)
    requires db.Valid()
    modifies db
    ensures db.Valid()
    ensures db.postbacks == old(db.postbacks)
    ensures PushLeaves(old(db.users), db.users, tgId, s, refUrl, delivered, out)
    ensures tgId in old(db.users) ==> tgId in db.users && db.users[tgId].isSubscribed == old(db.users)[tgId].isSubscribed
    ensures tgId in old(db.users) && NeedsSubscription(old(db.users)[tgId], s) ==>
      out == (if delivered.Some? then Sent(SubscriptionScreen, delivered.value) else SendFailed(SubscriptionScreen))
  {
    out := PushNextScreen(db, tgId, s, refUrl, token, delivered);
  }
}

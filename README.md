# Telegram funnel bot — a verified model of its core

The bot walks a Telegram user through a funnel: subscribe to a channel, register with
a partner (affiliate) program, deposit up to an access threshold, and then open a
regular or VIP mini-app. The partner program reports registrations and deposits by HTTP
postbacks. Each postback is written to an audit table and applied to the matching user.
An admin panel broadcasts to audience segments and lists postbacks and users. It also
edits the live settings and shows statistics.

This project models that core in Dafny:

- **The access decision engine.** `Access.DecideNextStep` maps a user record and the
  settings to one of seven steps. The two one-shot latches are set by
  `MarkVipOnceShown` and `MarkRegularOnceShown`.
- **The store.** `Store.Db` is a class holding `users: map<int, User>` (the primary key
  and the two unique columns as invariants) and the `postbacks` audit table as a `seq`,
  with its autoincrement counter.
- **Postback ingestion.** `PostbackService.ApplyPostback` is one atomic method over the
  store. It is specified by the pure `ApplyOutcome`: resolve the user (tg id, then
  trader id, then click id), create a user lazily, apply the event with first-write-wins
  binding, and report the `became_vip` edge.
- **The HTTP boundary.** `PostbackWeb.ParsePostback` covers:
  - the secret gate;
  - the query-over-form merge;
  - event normalisation;
  - the alias chains;
  - `_to_int` and `_to_float`.

  `HandlePostback` adds the status codes and the UI push.
- **Supporting records.** These cover the subscription cache, click-id generation, the
  referral link, admin-id parsing, the get-or-create upserts, `/start` ref-code parsing,
  text lookup, and the decision-to-screen dispatch in `push_next_screen` and `menu_get`.
- **The admin panel.**
  - The broadcast segment (a class), its audience filter, button input and batch
    counters.
  - The postback list's per-admin state (a class) and its pages.
  - User search, pagination and the list keyboard (built by a loop, as in the source),
    the header counters and the pending-search set (a class).
  - The settings screen's pending-key map and the setters (a class over the live
    settings).
  - The statistics definitions.

Time, Telegram and the network are parameters: `now` for the clock, `delivered` for
whether a send succeeded and the id it got, `deliver` for a broadcast send, a `Lookup`
for a chat-member query, `resolve` for `@username` resolution, and `token` for the
random click-id suffix.

## Model

| member | source | states |
|---|---|---|
| `Access.DecideNextStep` | app/services/users.py:40-96 | Seven if-and-only-if clauses, one per step. Subscription comes first (None counts as not subscribed), then registration, then VIP before regular access, then deposit. The deposit step only happens with deposits required, with need = threshold − total > 0 and have = total. vip is set exactly on the two VIP steps. |
| `Access.HasRegularAccess` | app/services/users.py:32-33 | Deposit at least the access threshold, or deposits not required. |
| `Access.HasVipAccess` | app/services/users.py:36-37 | Deposit at least the VIP threshold. |
| `Access.MarkRegularOnceShown` | app/services/users.py:99-100 | The regular latch is set and every other field is unchanged. |
| `Access.MarkVipOnceShown` | app/services/users.py:103-104 | The VIP latch is set and every other field is unchanged. |
| `Access.MarkVipSettles` | app/services/users.py:68-73 | After marking, vip_once becomes open_vip. Every other decision is unchanged. |
| `Access.MarkRegularSettles` | app/services/users.py:76-79 | After marking, access_ok_once becomes open_regular. Every other decision is unchanged. |
| `Access.FreshUserGated` | app/services/users.py:56-61 | A new record is stopped at subscription when it is required, and at registration otherwise. |
| `Access.DepositMonotone` | app/services/users.py:64-95 | More deposit (or gaining has_vip) never moves a user back in the funnel. |
| `UserModel.NewUser` | app/models/user.py:13-34 | The declared defaults: not registered, 0.0 deposited, no VIP, subscription unknown, latches off, identifiers empty. |
| `UserModel.PutKeepsConstraints` | app/models/user.py:13-34 | Storing a record whose click/trader ids are free keeps the primary key and both unique columns. |
| `UserModel.StoredOrNew` | app/models/user.py:13-27 | The stored record, or a default record with that id. |
| `UserModel.KeepsIdentifiersStorable` | app/models/user.py:33-34 | A record that keeps its stored click and trader ids can be stored again. |
| `UserModel.NewUserStorable` | app/models/user.py:33-34 | A default record, with no identifiers, can always be stored. |
| `PostbackModel.AppendKeepsIncreasing` | app/models/postback.py:12 | Appending the next autoincrement id keeps audit ids strictly increasing. |
| `Store.Db.constructor` | app/models/user.py:13-34 | An empty store starts at postback id 1. |
| `Store.Db.GetOrCreate` | app/services/postbacks.py:154-163 | Returns the stored record, or inserts and returns a default one. Nothing else changes. |
| `Store.Db.Put` | app/models/user.py:33-34 | Stores a record whose identifiers are free. Only that key changes. |
| `Store.Db.Save` | app/models/user.py:13-34 | Updates a record that keeps its identifiers. Only that key changes. |
| `Store.Db.Append` | app/models/postback.py:12 | Appends the row under the next id and advances the counter. |
| `PostbackService.AuditRow` | app/services/postbacks.py:69-83 | The audit row: lower-cased event, tg id, external id, amount or 0.0, raw text or "" when it is falsy, and never a ts or hash. |
| `PostbackService.TraderOwner` | app/services/postbacks.py:43-47 | The unique user holding the trader id, or proof that none does. |
| `PostbackService.ClickOwner` | app/services/postbacks.py:49-53 | The unique user holding the click id, or proof that none does. |
| `PostbackService.FindUserForPostbackIds` | app/services/postbacks.py:29-55 | Priority lookup: a stored truthy tg id wins, then the trader id, then the click id. None exactly when no identifier hits. |
| `PostbackService.Bind` | app/services/postbacks.py:111-114 | First write wins: a set identifier is kept, and an unset one takes a truthy incoming value. |
| `PostbackService.ApplyEvent` | app/services/postbacks.py:107-123 | Registration sets is_registered and binds both ids. Deposits add a positive amount and bind only the trader id. became_vip ⇔ deposit kind ∧ not yet VIP ∧ total ≥ threshold. All other fields are kept. |
| `PostbackService.EventOf` | app/services/postbacks.py:69 | The lower-cased event, "" when absent. |
| `PostbackService.AmountOf` | app/services/postbacks.py:73 | The amount, 0.0 when absent. |
| `PostbackService.Register` | app/services/postbacks.py:109-114 | The registration mutation. RegisterFields is proved to compute it. |
| `PostbackService.DepositInto` | app/services/postbacks.py:116-123 | The deposit mutation with became_vip. DepositFields is proved to compute it. |
| `PostbackService.ApplyOutcome` | app/services/postbacks.py:58-150 | The result and users of apply_postback. Its properties are the lemmas UnmatchedChangesNothing, MatchedEchoesStoredRecord, OnlyTargetChanges and OutcomeKeepsConstraints. |
| `PostbackService.Target` | app/services/postbacks.py:92-103 | The matched record, or a new one when only a truthy tg id is known. None exactly when neither applies. |
| `PostbackService.MutateUser` | app/services/postbacks.py:107-123 | The field-by-field mutation computes ApplyEvent. |
| `PostbackService.RegisterFields` | app/services/postbacks.py:109-114 | The registration branch marks the user registered and fills trader and click id only where they were empty. |
| `PostbackService.DepositFields` | app/services/postbacks.py:116-123 | The deposit branch adds a positive amount, fills an empty trader id, and reports becoming VIP exactly when the new total reaches the threshold for a user who was not VIP. |
| `PostbackService.ApplyPostback` | app/services/postbacks.py:58-151 | The audit row is appended with the next id on every call. Users and the result are those of ApplyOutcome. |
| `PostbackService.RecomputeUserFromPostbacks` | app/services/postbacks.py:154-163 | Get-or-create. An existing user is returned unchanged. |
| `PostbackService.UnmatchedChangesNothing` | app/services/postbacks.py:140-151 | With no match and no tg id, no user changes. The result reports total 0, not registered, no VIP. |
| `PostbackService.MatchedEchoesStoredRecord` | app/services/postbacks.py:128-138 | A matched result echoes the stored identifiers and totals after the mutation. |
| `PostbackService.OnlyTargetChanges` | app/services/postbacks.py:89-125 | Every user other than the target is unchanged. A store error changes no user. |
| `PostbackService.OutcomeKeepsConstraints` | app/services/postbacks.py:89-125 | Applying a postback keeps the primary key and both unique columns. |
| `PostbackService.RegistrationIdempotent` | app/services/postbacks.py:109-114 | A second identical registration changes nothing and does not fire became_vip. |
| `PostbackService.DepositsAccumulate` | app/services/postbacks.py:116-118 | Two positive deposits add up. |
| `PostbackService.BecameVipFiresOnce` | app/services/postbacks.py:121-123 | The deposit that crosses the VIP threshold fires became_vip, and the next deposit does not. |
| `PostbackService.FirstWriteWins` | app/services/postbacks.py:111-120 | No event overwrites a set trader id or click id. |
| `PostbackWeb.SetDefaults` | app/web/postbacks.py:71-72 | setdefault for every form field: the query's values win, form fields fill only absent keys. |
| `PostbackWeb.BuildParams` | app/web/postbacks.py:67-74 | The setdefault loop: the query map with form fields only for absent keys. |
| `PostbackWeb.Params` | app/web/postbacks.py:67-74 | Query keys with form fields added only for absent keys. BuildParams is proved to compute it. |
| `PostbackWeb.FirstTruthy` | app/web/postbacks.py:83-87 | The first truthy value along an alias chain, in order. |
| `PostbackWeb.FirstTruthyNone` | app/web/postbacks.py:83-87 | A chain with no truthy value gives None. |
| `PostbackWeb.ToInt` | app/web/postbacks.py:28-34 | None maps to None. |
| `PostbackWeb.ToFloat` | app/web/postbacks.py:19-25 | None maps to None. |
| `PostbackWeb.ToIntReadsShown` | app/web/postbacks.py:28-34 | The decimal text of any integer converts back to it. |
| `PostbackWeb.ToFloatReadsShown` | app/web/postbacks.py:19-25 | The decimal text of any integer converts to that number. |
| `PostbackWeb.NormalizeEvent` | app/web/postbacks.py:76-81 | Stripped and lower-cased. The four known kinds pass, other text containing "deposit" becomes "deposit", and anything else is rejected. |
| `PostbackWeb.StripOrNone` | app/web/postbacks.py:83-84 | Stripped, with an empty result becoming None. |
| `PostbackWeb.ParsePostback` | app/web/postbacks.py:61-98 | Forbidden ⇔ the secret gate rejects. BadEvent ⇔ it passes and the event does not normalise. An accepted payload carries a known event. |
| `PostbackWeb.SecretRejects` | app/web/postbacks.py:62-65 | Rejects when the stripped secret is set and the stripped query secret differs. |
| `PostbackWeb.PayloadOf` | app/web/postbacks.py:83-99 | The payload from the alias chains, the stripped ids and the converted numbers. |
| `PostbackWeb.QueryWinsOverForm` | app/web/postbacks.py:67-74 | A key present in the query keeps the query's value. |
| `PostbackWeb.EmptySecretAdmits` | app/web/postbacks.py:62-64 | An empty configured secret admits every request. |
| `PostbackWeb.AutoPushUi` | app/web/postbacks.py:42-58 | Nothing happens for an unknown user. Otherwise only that user's record changes: it is the record the decided step leaves, with the step's latch, the click id for registration and the delivered message id (PushedUsers), or it stays as it was when the registration screen's click id is rejected. |
| `PostbackWeb.PushedUserSettles` | app/web/postbacks.py:42-58 | After the push the pushed user's next decision is the same step, with a one-shot window settled into its open step, so a later postback never repeats the window. |
| `PostbackWeb.ParseRequest` | app/web/postbacks.py:61-98 | Computes ParsePostback. |
| `PostbackWeb.HandleAccepted` | app/web/postbacks.py:100-117 | The audit row is always appended. A store error answers 500 with the users unchanged. A successful apply answers 200 "ok". The users are then those ApplyOutcome leaves, and for a truthy result tg id that user's next screen has been pushed onto that record (Pushed). |
| `PostbackWeb.Respond` | app/web/postbacks.py:62-117 | 403 and 400 leave the store untouched. An accepted payload adds exactly one audit row. A failed apply answers 500 with the users unchanged. A successful one answers 200, with the applied users and the push as in HandleAccepted. |
| `PostbackWeb.HandlePostback` | app/web/postbacks.py:61-117 | 403 exactly when the secret gate rejects, 400 for an unknown event, both leaving the store untouched. An accepted request is applied exactly once (one audit row). On success the users are the applied ones with the matched user's next screen pushed. |
| `Subscriptions.LeftMemberIsNotSubscribed` | app/services/subscriptions.py:12-22 | A plain member whose status is not member, administrator or creator is not a member. |
| `Subscriptions.IsMember` | app/services/subscriptions.py:12-22 | Administrator and owner objects count. Otherwise the status must be member, administrator or creator. |
| `Subscriptions.VerifyAndCache` | app/services/subscriptions.py:25-63 | Disabled or no channel: answers True, and stores True only with set_if_disabled. Otherwise it stores and returns the membership, and a failed lookup is False. A missing user is created. |
| `Tracking.GenClickId` | app/services/tracking.py:11-13 | The tg id, "-", and the token. Never empty. |
| `Tracking.ClickIdOwner` | app/services/tracking.py:11-13 | The id before the first "-" of a generated click id. GeneratedClickIdNamesUser reads it back. |
| `Tracking.GeneratedClickIdNamesUser` | app/services/tracking.py:11-13 | The user id reads back from a generated click id. |
| `Tracking.GeneratedClickIdsDistinct` | app/services/tracking.py:11-13 | Different users never get the same generated click id. |
| `Tracking.EnsureClickId` | app/services/tracking.py:16-30 | An existing click id is returned with no write. Otherwise the generated one is stored, or the unique index refuses it. |
| `Tracking.EnsureClickIdTwice` | app/services/tracking.py:16-30 | Idempotent: a second call returns the first call's value. |
| `Tracking.BuildRefLinkWithClick` | app/services/tracking.py:33-44 | An empty REF_LINK gives no link. Otherwise click_id is set and every other query key and URL part is kept. |
| `Tracking.RefLinkStable` | app/services/tracking.py:40-44 | Rebuilding the link from its own result changes nothing. |
| `Config.Defaults` | app/config.py:18-56 | The declared defaults: thresholds 100 and 300, both steps required, no admins, no channel, empty REF_LINK. |
| `Config.Values` | app/config.py:77-80 | Every JSON element converted, in order. |
| `Config.ConvertedPrefixUpTo` | app/config.py:77-82 | A failing element keeps exactly the ids appended before it. |
| `Config.CsvParts` | app/config.py:84-87 | ";" read as ",", with blank parts skipped. |
| `Config.NonBlank` | app/config.py:85-86 | Keeps exactly the parts that are not blank. |
| `Config.ParseAllValues` | app/config.py:86-87 | A successful CSV reading holds each part's int() value, in order, one per part. |
| `Config.ParseAllSucceeds` | app/config.py:86-87 | When every part goes through int(), the CSV reading succeeds. |
| `Config.ParseAllFailsAt` | app/config.py:86-87 | One part that int() rejects makes the whole CSV reading fail. |
| `Config.AdminIdSet` | app/config.py:66-97 | The collected ids that are > 0. ADMIN_ID is included when > 0. A CSV failure is an error. |
| `Config.InsertSorted` | app/config.py:96-97 | Inserting into an increasing list keeps it increasing and adds exactly one element. |
| `Config.ExtendFromJson` | app/config.py:77-82 | The extend loop: all values, or the prefix before the failing one. |
| `Config.ExtendFromCsv` | app/config.py:84-87 | The CSV loop computes ParseAll. |
| `Config.ReadRaw` | app/config.py:73-87 | JSON list, else CSV, with an empty ADMIN_IDS giving nothing. |
| `Config.FromRaw` | app/config.py:72-88 | The ids ADMIN_IDS adds: a convertible JSON list, else the CSV parts after the JSON prefix. |
| `Config.CollectedIds` | app/config.py:66-93 | The ids from ADMIN_IDS, then ADMIN_ID when positive. |
| `Config.SortedPositive` | app/config.py:96-97 | sorted({x > 0}): increasing, with exactly the positive ids. |
| `Config.AdminIds` | app/config.py:66-97 | An error exactly when collection fails. Otherwise increasing, and exactly the positive collected ids. |
| `Config.ConvertAllPrefixFails` | app/config.py:84-87 | A failure in any prefix makes the whole CSV fail. |
| `Config.IsAdmin` | app/config.py:99-104 | False for a uid that int() rejects. An admin_ids error propagates. Otherwise true exactly when the id is positive and among the collected ids, which include ADMIN_ID > 0. |
| `Config.CsvListedIsAdmin` | app/config.py:72-104 | With a CSV ADMIN_IDS whose parts all read, an id is an admin exactly when it is positive and is listed or equals ADMIN_ID. |
| `Config.IsAdminTextForm` | app/config.py:99-104 | A uid given as decimal text is judged like the integer. |
| `Checks.RawText` | app/routers/checks.py:112-117 | A non-empty file text wins, then the built-in text, then the key. |
| `Checks.T` | app/routers/checks.py:112-119 | An unsupported language reads as "ru", and a formatting failure gives the unformatted text. |
| `Checks.UnsupportedLangReadsRussian` | app/routers/checks.py:113 | Any unsupported language reads exactly as "ru". |
| `Checks.MissingTextShowsKey` | app/routers/checks.py:117-119 | With no text anywhere, the key itself is shown. |
| `Checks.SetLastBotMessageId` | app/routers/checks.py:128-134 | Nothing happens for a missing user. Otherwise only last_bot_message_id changes. |
| `Checks.MenuChat` | app/routers/menu.py:82-95 | Corrected sender lookup: every context is sent to its chat, and a Message or callback is sent as before. |
| `Checks.PushedMenuNeverDelivered` | app/routers/checks.py:346-354 | As written, the pushed main menu finds no chat. The corrected lookup finds the user's chat. |
| `Checks.MenuChatAsWritten` | app/routers/menu.py:84-95 | A Message gives its chat. Anything else is read through .message, which a bare object lacks. |
| `Checks.ScreenFor` | app/routers/checks.py:306-354 | The deposit screen shows the full access threshold and the total. The open steps show the main menu with vip = (step is open_vip). |
| `Checks.ShowStep` | app/routers/checks.py:306-344 | Sets the latch for vip_once or access_ok_once before sending. Registration ensures a click id. No other field changes. |
| `Checks.ShowAndRecord` | app/routers/checks.py:288-344 | Only this user's record changes: the step's latch, the click id for registration, and the delivered message id. A rejected click id writes nothing. The screen is the one for the decided step. |
| `Checks.PushNextScreen` | app/routers/checks.py:294-354 | Nothing happens for a missing user, and NoUser is answered exactly then. Otherwise it sends the screen of the current decision, and the new record is the old one with only the matching latch, the registration click id and the delivered message id changed (PushedRecord, gathered in PushLeaves). A rejected click id changes nothing. The open steps use the corrected menu sender (see "## Left out"). |
| `Checks.PushSettles` | app/routers/checks.py:294-344 | After a push the decision is the same step, except that vip_once becomes open_vip and access_ok_once becomes open_regular: neither window is pushed twice. |
| `Checks.CheckSubscriptionButton` | app/routers/checks.py:368-378 | The refresh raises and is swallowed, so is_subscribed never changes. What is left is the push: the audit table is kept and the users are as PushNextScreen leaves them (PushLeaves). A gated user is shown the subscription screen again. |
| `Common.T` | app/routers/common.py:76-81 | "ru" for unsupported languages. A non-empty file text wins. The key is shown when no text exists. |
| `Common.SameLookupAsScreens` | app/routers/common.py:76-81 | Identical to the screens' lookup without format arguments. |
| `Common.GetOrCreateUser` | app/routers/common.py:85-99 | The upsert without a ref code. Only that key changes. |
| `Common.UpsertWithoutLangKeepsRecord` | app/routers/common.py:93-97 | With no new language, an existing record is unchanged. |
| `Common.GetUserLang` | app/routers/common.py:102-105 | The stored language when it is supported. Otherwise "ru": for a missing user, a missing language or an unsupported one. |
| `Common.UpsertedLangReadBack` | app/routers/common.py:85-105 | A supported language given to the upsert is the one read back. |
| `Common.UpdateLastBotMessageId` | app/routers/common.py:108-114 | Nothing happens for a missing user. Otherwise only last_bot_message_id changes. |
| `Common.KbMainLabelKey` | app/routers/common.py:131-136 | "btn.vip_signals" ⇔ vip, "btn.get_signal" ⇔ not vip. |
| `MainApp.FirstText` | app/main.py:119-124 | The first truthy candidate in order, else the last resort. |
| `MainApp.T` | app/main.py:119-124 | "en" for unsupported languages. Then, in order: a non-empty file text, the built-in text of that language, of "en", of "ru", and finally the key. Never empty for a non-empty key. |
| `MainApp.EnglishFallback` | app/main.py:121-124 | A text missing in the language falls back to the English default. |
| `MainApp.UnsupportedLangReadsEnglish` | app/main.py:120 | Any unsupported language reads exactly as "en". |
| `MainApp.Upserted` | app/main.py:131-152 | A new user carries the given truthy lang and ref code. An existing user's lang is overwritten when a truthy one is given. The ref code is set only when empty. Nothing else changes. |
| `MainApp.UpsertIdempotent` | app/main.py:131-152 | Repeating the same upsert changes nothing. |
| `MainApp.RefCodeFirstWriteWins` | app/main.py:146-148 | A later /start never replaces the first ref code. |
| `MainApp.GetOrCreateUser` | app/main.py:131-152 | The method computes Upserted. Only that key changes. |
| `MainApp.FirstSpace` | app/main.py:214 | The index of the first whitespace character. |
| `MainApp.SplitOnce` | app/main.py:214 | split(maxsplit=1): at most two non-empty parts, neither starting with whitespace. |
| `MainApp.SplitOnceWords` | app/main.py:214 | The parts are the first word of the text with its leading whitespace removed, and the rest after that word with its leading whitespace removed. The rest is omitted when it is blank, and blank text gives no parts. |
| `MainApp.RefCodeOf` | app/main.py:212-216 | The stripped argument after the command, with empty becoming None. No text gives None. |
| `MainApp.FirstSpaceAt` | app/main.py:214 | The first whitespace character is found at its index. |
| `MainApp.LStripKeeps` | app/main.py:214-216 | Text not starting with whitespace is unchanged by lstrip. |
| `MainApp.LStripOneSpace` | app/main.py:214-216 | lstrip removes a single leading space. |
| `MainApp.StartPayloadReadBack` | app/main.py:212-216 | "/start CODE" yields CODE. |
| `MainApp.BareStartHasNoRefCode` | app/main.py:213-216 | A bare command yields no ref code. |
| `MainApp.CmdStart` | app/main.py:209-229 | Upserts with the ref code. The main menu is shown when a language is stored, else the language picker. The delivered message id is recorded as the last bot message, and no other field changes. |
| `MainApp.MenuLang` | app/main.py:288 | The stored language when supported, else "en". |
| `MainApp.RefreshForMenu` | app/main.py:264-285 | Creates the user if missing. When subscription is required it stores is_subscribed as true without a channel, else the membership answer (false for a failed lookup). Nothing else changes, and it returns the record as first loaded. |
| `MainApp.Refreshed` | app/main.py:272-277 | The refreshed record differs from the loaded one only in is_subscribed, which holds the fresh answer when the check is required. |
| `MainApp.MenuGet` | app/main.py:262-323 | Decides on the first-loaded record. The new record is the refreshed one with only the decided step's latch, the registration click id and the delivered message id changed. lang, ref code, trader id and deposits stay. It shows the screen of that decision. A rejected click id leaves the refreshed record. On the open_vip and open_regular steps the menu message is recorded on the user, which is the corrected sender (see "## Findings"). |
| `MainApp.MenuGetAsWritten` | app/main.py:316-322 | The handler as written. On the open_vip and open_regular steps it shows the main menu through the window helper of app/routers/menu.py, leaves the user's record only refreshed, and records the delivered message under the bot's id, creating the bot's record when missing. Every other step leaves what MenuGet leaves. |
| `MainApp.MenuGetAsWrittenMissesUser` | app/routers/menu.py:51-60 | As written, a delivered main menu leaves the user's last bot message id at its old value. The bot gains a new record holding the menu id, so the users table has one more row. |
| `MainApp.StaleSubscriptionAnswer` | app/main.py:265-287 | A never-checked user is sent to subscription even when the refresh finds them subscribed. |
| `AdminBroadcast.Toggled` | app/routers/admin/broadcast.py:307-310 | Flips the code's membership and keeps every other code. |
| `AdminBroadcast.ToggleTwiceRestores` | app/routers/admin/broadcast.py:307-310 | Two presses restore the language set. |
| `AdminBroadcast.NextTri` | app/routers/admin/broadcast.py:325-333 | None → True → False → None. |
| `AdminBroadcast.NextTriCycle` | app/routers/admin/broadcast.py:325-333 | Three steps return to the start. |
| `AdminBroadcast.Cycled` | app/routers/admin/broadcast.py:325-335 | Corrected cycle: the pressed filter steps, and the languages and the other filters are kept. |
| `AdminBroadcast.CycleThriceRestores` | app/routers/admin/broadcast.py:325-335 | Three presses of one button restore the segment. |
| `AdminBroadcast.CycledAsWritten` | app/routers/admin/broadcast.py:317-335 | As written, every button except "access" cycles correctly. |
| `AdminBroadcast.AccessButtonRaises` | app/routers/admin/broadcast.py:325 | As written, the access button raises. The corrected cycle sets access_ok to True. |
| `AdminBroadcast.Segment.constructor` | app/routers/admin/broadcast.py:31-36 | A fresh segment has no constraints. |
| `AdminBroadcast.Segment.ToggleLang` | app/routers/admin/broadcast.py:303-310 | Only the language set changes, and it changes as Toggled. |
| `AdminBroadcast.Segment.CycleFilter` | app/routers/admin/broadcast.py:317-335 | The access button raises and changes nothing. Any other button applies Cycled. |
| `AdminBroadcast.AudienceMatchesFunnel` | app/routers/admin/broadcast.py:225-231 | vip=True selects exactly the users the funnel treats as VIP, vip=False exactly the others, and None selects everyone. |
| `AdminBroadcast.InAudience` | app/routers/admin/broadcast.py:244-284 | The segment WHERE clause for one user. |
| `AdminBroadcast.AudienceSet` | app/routers/admin/broadcast.py:244-284 | The users the segment selects. |
| `AdminBroadcast.NoAccessWithoutDepositIsEmpty` | app/routers/admin/broadcast.py:215-223 | access_ok=False without a deposit requirement selects nobody. |
| `AdminBroadcast.UnregisteredAudienceIsSentToRegistration` | app/routers/admin/broadcast.py:209-210 | registered=False selects users the funnel sends to registration once past subscription. |
| `AdminBroadcast.CountAudience` | app/routers/admin/broadcast.py:202-241 | The count never exceeds the number of users. |
| `AdminBroadcast.AudienceRowsFacts` | app/routers/admin/broadcast.py:244-284 | The audience ids of the rows read so far are exactly the listed audience, each once, as many as the set holds. |
| `AdminBroadcast.ListAudience` | app/routers/admin/broadcast.py:244-284 | Distinct ids, exactly the audience, and as many as _count_audience counts. |
| `AdminBroadcast.CountTrue` | app/routers/admin/broadcast.py:538-548 | The number of successful sends is at most the number of ids. |
| `AdminBroadcast.CountTrueAppend` | app/routers/admin/broadcast.py:535-548 | Counts over consecutive chunks add up. |
| `AdminBroadcast.CountTrueDistinct` | app/routers/admin/broadcast.py:535-548 | Over distinct ids, the ok counter is the number of audience members whose send succeeds. |
| `AdminBroadcast.SendInBatches` | app/routers/admin/broadcast.py:531-552 | The batch loop sends to every id once: sent == len(ids), and ok counts exactly the ids the delivery reports True for. |
| `AdminBroadcast.StartBroadcast` | app/routers/admin/broadcast.py:504-556 | Stops for a non-admin, an empty text or an empty audience. Otherwise sent == total > 0, ok counts exactly the successful sends, and ok ≤ total. |
| `AdminBroadcast.InputButton` | app/routers/admin/broadcast.py:429-439 | Asks again exactly when there is no "\|". An accepted button has a non-empty text without "\|" and an http(s) URL. |
| `AdminBroadcast.InputButtonAt` | app/routers/admin/broadcast.py:428-435 | When the stripped input is "x\|y" with no "\|" in x, the button is read from the stripped x and y. A blank text or a link that is not http(s) is refused. |
| `AdminBroadcast.InputButtonParts` | app/routers/admin/broadcast.py:428-435 | For any input "a\|b" with no "\|" in a, whatever its spacing, the result is BadButton when strip(a) is empty or strip(b) is not an http(s) link. Otherwise it is the button (strip(a), strip(b)). |
| `Text.StripAroundBar` | app/routers/admin/broadcast.py:428-432 | strip() of "a\|b" is lstrip(a), then "\|", then rstrip(b). Stripping those halves again gives strip(a) and strip(b). |
| `AdminBroadcast.ButtonReadBack` | app/routers/admin/broadcast.py:429-439 | "text\|url" is stored as exactly that text and URL. |
| `AdminPostbacks.FilterOf` | app/routers/admin/postbacks.py:127-131 | "reg" and "dep" map to their filters. Anything else means all. |
| `AdminPostbacks.NewestFirst` | app/routers/admin/postbacks.py:91-95 | Exactly the rows the filter keeps. |
| `AdminPostbacks.NewestFirstAbove` | app/routers/admin/postbacks.py:91 | Filtering keeps every id above a bound. |
| `AdminPostbacks.NewestFirstDecreasing` | app/routers/admin/postbacks.py:91 | Rows come in strictly decreasing id order. |
| `AdminPostbacks.LoadItems` | app/routers/admin/postbacks.py:89-97 | At most 7 rows, each kept by the filter. |
| `AdminPostbacks.PageHolds` | app/routers/admin/postbacks.py:96 | Every filtered row appears on the page of its index, at its position. |
| `AdminPostbacks.PagesTile` | app/routers/admin/postbacks.py:96 | Two consecutive pages are the consecutive slice of the filtered rows. |
| `AdminPostbacks.ShortPageIsLast` | app/routers/admin/postbacks.py:96 | After a short page, the next page is empty. |
| `AdminPostbacks.NextState` | app/routers/admin/postbacks.py:142-146 | Offset + 7, with the filter kept. |
| `AdminPostbacks.PrevState` | app/routers/admin/postbacks.py:136-139 | max(offset − 7, 0), with the filter kept. |
| `AdminPostbacks.PrevUndoesNext` | app/routers/admin/postbacks.py:136-146 | Back right after forward restores the state. |
| `AdminPostbacks.PbPanel.constructor` | app/routers/admin/postbacks.py:29 | No admin has a state yet. |
| `AdminPostbacks.PbPanel.OpenList` | app/routers/admin/postbacks.py:120-123 | Resets only this admin's state to all/0, and shows its first page. |
| `AdminPostbacks.PbPanel.SetFilter` | app/routers/admin/postbacks.py:126-131 | Sets only this admin's filter and resets the offset to 0. |
| `AdminPostbacks.PbPanel.NavPrev` | app/routers/admin/postbacks.py:135-139 | Only this admin's state moves back one page, never below 0. |
| `AdminPostbacks.PbPanel.NavNext` | app/routers/admin/postbacks.py:142-146 | Only this admin's state moves forward one page. |
| `AdminPostbacks.PbPanel.Refresh` | app/routers/admin/postbacks.py:149-151 | Shows the current page and leaves the state as it was (creating the default). |
| `AdminPostbacks.SafeUid` | app/routers/admin/postbacks.py:73-74 | "-" exactly when tg_id is absent or 0. |
| `AdminPostbacks.SafeUidReadBack` | app/routers/admin/postbacks.py:73-74 | The shown uid reads back as the stored tg_id. |
| `AdminPostbacks.SafeAmount` | app/routers/admin/postbacks.py:65-70 | "$" and the amount when it is truthy, otherwise "-". |
| `AdminPostbacks.SafeTs` | app/routers/admin/postbacks.py:53-62 | "-" exactly when the row has no ts. A zero ts is printed. |
| `AdminPostbacks.SafeTsReadBack` | app/routers/admin/postbacks.py:53-62 | The printed time reads back as the row's ts, zero included. |
| `AdminPostbacks.CfgSecret` | app/routers/admin/postbacks.py:162-166 | The configured secret, or the placeholder. Never empty. |
| `AdminPostbacks.CfgSecretPasses` | app/routers/admin/postbacks.py:169-195 | Every URL the setup screen prints passes the secret gate, for a secret that query decoding gives back unchanged (QuerySafe). |
| `AdminPostbacks.NormalEvent` | app/web/postbacks.py:76-77 | A known, trimmed, lower-case event normalises to itself. |
| `AdminPostbacks.EventNameNormal` | app/routers/admin/postbacks.py:176-192 | The printed events are accepted unchanged. |
| `AdminPostbacks.CfgUrlAccepted` | app/routers/admin/postbacks.py:169-195 | Each printed URL is accepted by the postback endpoint as its own payload, for a QuerySafe secret. |
| `AdminPostbacks.CfgUrlTrader` | app/routers/admin/postbacks.py:177-193 | Each printed URL carries the trader-id macro into the payload. |
| `AdminUsers.Offset` | app/routers/admin/users.py:128 | max(0, (page − 1)·10). |
| `AdminUsers.UsersPage` | app/routers/admin/users.py:127-132 | At most 10 users, the consecutive slice at the offset (newest first). Empty exactly past the end. |
| `AdminUsers.EveryUserHasAPage` | app/routers/admin/users.py:127-132 | Every user appears on page i/10 + 1, at position i mod 10. |
| `AdminUsers.Paginate` | app/routers/admin/users.py:179-184 | Stays on the page, or steps back one when it is empty and page > 1. |
| `AdminUsers.NextOnLastPageStays` | app/routers/admin/users.py:182-184 | "Forward" on the last page shows the same page again. |
| `AdminUsers.FarPastTheEndStaysEmpty` | app/routers/admin/users.py:182-184 | Two or more pages past the end, the single step back still finds nothing. |
| `AdminUsers.LStripChar` | app/routers/admin/users.py:138 | lstrip("-"): drops exactly the leading run of "-". |
| `AdminUsers.FindRest` | app/routers/admin/users.py:142-156 | After the id lookup, in order: a click id finds its owner, then a trader id its holder, then an "@" name a stored user with a truthy resolved id. Nothing is found exactly when none of these applies. It never raises. |
| `AdminUsers.DoubleMinusFacts` | app/routers/admin/users.py:138-139 | "--digits" passes the digit test but is not an integer. |
| `AdminUsers.FindUserByQueryAsWritten` | app/routers/admin/users.py:135-156 | The search as written. A digit query raises when it is not an integer, or when its integer is outside the signed 64-bit range the database binds. DoubleMinusRaises, DoubleMinusDigit and HugeIdRaises show it raising. |
| `AdminUsers.HugeIdRaises` | app/routers/admin/users.py:138-139 | As written, a query that is an integer outside the signed 64-bit range raises, whatever the other identifiers would find. |
| `AdminUsers.DoubleMinusRaises` | app/routers/admin/users.py:138-139 | As written, any "--digits" query raises out of the search. |
| `AdminUsers.DoubleMinusDigit` | app/routers/admin/users.py:138-139 | Two minus signs before one digit (such as "--5") raise. |
| `AdminUsers.FindUserByQuery` | app/routers/admin/users.py:135-156 | Corrected search: never raises. A stored numeric id is found first. Otherwise the click id, trader id and "@" name lookups run in that order. |
| `AdminUsers.SearchAgreesUnlessRaised` | app/routers/admin/users.py:135-156 | Wherever the original does not raise, the corrected search gives the same answer. |
| `AdminUsers.SearchByShownId` | app/routers/admin/users.py:138-141 | Searching for a user's id (negative ids too) finds that user. |
| `AdminUsers.SearchByClickId` | app/routers/admin/users.py:142-144 | Searching for a user's click id finds that user, unless it is another stored user's id. |
| `AdminUsers.EntryOf` | app/routers/admin/users.py:99-103 | The crown ⇔ has_vip or deposit ≥ VIP threshold. Dollars are shown only for a positive deposit, truncated. The language is upper-cased, or "-". |
| `AdminUsers.EntryText` | app/routers/admin/users.py:98-103 | The id, the language label, the whole dollars and the crown, joined as the button text. |
| `AdminUsers.Entries` | app/routers/admin/users.py:98-104 | One button per user, in order. |
| `AdminUsers.Pairs` | app/routers/admin/users.py:105-108 | ⌈n/2⌉ rows. |
| `AdminUsers.PairsFlatten` | app/routers/admin/users.py:97-108 | The rows read back the buttons in order. |
| `AdminUsers.PairsRowSizes` | app/routers/admin/users.py:105-108 | Every row has one or two buttons. |
| `AdminUsers.PairsAppend` | app/routers/admin/users.py:105-108 | Pairing after an even prefix continues the prefix's rows. |
| `AdminUsers.PairsStep` | app/routers/admin/users.py:105-106 | Two more buttons add one row of exactly them. |
| `AdminUsers.PairsLast` | app/routers/admin/users.py:107-108 | An odd last button gets a row of its own. |
| `AdminUsers.NavRowButtons` | app/routers/admin/users.py:110-115 | "Back" appears ⇔ page > 1. "Forward" is always last. |
| `AdminUsers.NavRow` | app/routers/admin/users.py:110-115 | Back after page 1, the page label and Forward. NavRowButtons states its buttons. |
| `AdminUsers.KbUsersList` | app/routers/admin/users.py:94-118 | Search, the paired entries, the navigation row, then the menu button. |
| `AdminUsers.PairsCount` | app/routers/admin/users.py:97-108 | n buttons make ceil(n / 2) rows. |
| `AdminUsers.PairUp` | app/routers/admin/users.py:97-108 | The buf loop produces exactly the pairs. |
| `AdminUsers.KeyboardListsThePage` | app/routers/admin/users.py:94-108 | The keyboard lists every user of the page once, in order. |
| `AdminUsers.OpenDataReadBack` | app/routers/admin/users.py:251-252 | The entry's callback data reads back its user id and page. |
| `AdminUsers.OpenTarget` | app/routers/admin/users.py:250-252 | Four ":"-parts with the last two read by int(). OpenDataReadBack reads it back. |
| `AdminUsers.CountersOf` | app/routers/admin/users.py:59-82 | Access equals total when no deposit is required. Every count is at most the total. CountersMatchAudience ties the registered, access, VIP and subscribed counts to the broadcast audience. |
| `AdminUsers.CountersMatchAudience` | app/routers/admin/users.py:63-82 | The registered, access, VIP and subscribed counts equal the sizes of the broadcast audiences with only that filter set. |
| `AdminUsers.SearchDesk.constructor` | app/routers/admin/users.py:195 | Nobody is waiting for a search. |
| `AdminUsers.SearchDesk.Prompt` | app/routers/admin/users.py:197-199 | Adds the admin to the pending set. |
| `AdminUsers.SearchDesk.Catch` | app/routers/admin/users.py:206-213 | Ignores users not pending. Otherwise removes the user first and then runs the corrected search, which gives what the search as written gives wherever that does not raise. |
| `AdminUsers.CatchTwice` | app/routers/admin/users.py:206-213 | Each prompt serves exactly one query. |
| `AdminSettings.Assign` | app/routers/admin/settings.py:139-147 | Thresholds are numbers after "," → ".". The channel is an int. Other keys take the text. A failed conversion assigns nothing. |
| `AdminSettings.TextKeyReadBack` | app/routers/admin/settings.py:146-147 | A text key stores exactly the text, and the flags, thresholds and channel are kept. |
| `AdminSettings.ThresholdReadBack` | app/routers/admin/settings.py:141-142 | A whole number typed as a threshold is stored as that amount. |
| `AdminSettings.CommaIsPoint` | app/routers/admin/settings.py:143 | A threshold typed with a decimal comma ("1,5") is stored as the number it spells with a point (1.5). |
| `AdminSettings.ChannelReadBack` | app/routers/admin/settings.py:143-144 | An integer typed as the channel id is stored. |
| `AdminSettings.WithSubToggled` | app/routers/admin/settings.py:80-81 | Negates REQUIRE_SUBSCRIPTION only. |
| `AdminSettings.WithDepToggled` | app/routers/admin/settings.py:86-87 | Negates REQUIRE_DEPOSIT only. |
| `AdminSettings.TogglesAreInvolutions` | app/routers/admin/settings.py:80-89 | Pressing a toggle twice restores the settings. |
| `AdminSettings.SettingsPanel.constructor` | app/routers/admin/settings.py:18 | No pending keys. |
| `AdminSettings.SettingsPanel.ToggleSub` | app/routers/admin/settings.py:79-83 | Applies WithSubToggled and keeps the pending map. |
| `AdminSettings.SettingsPanel.ToggleDep` | app/routers/admin/settings.py:85-89 | Applies WithDepToggled and keeps the pending map. |
| `AdminSettings.SettingsPanel.Ask` | app/routers/admin/settings.py:93-94 | Records the key for this admin, overwriting any previous one. |
| `AdminSettings.SettingsPanel.SaveValue` | app/routers/admin/settings.py:134-151 | The key is always popped. Without one nothing changes. Otherwise Assign is applied on success, and a failure changes nothing and answers with an error. |
| `AdminSettings.FailedValueIsNotRetried` | app/routers/admin/settings.py:136-151 | After a failed value the next message is not taken as a value. |
| `AdminStats.ChosenLangUsers` | app/routers/admin/stats.py:100-102 | At most the total. |
| `AdminStats.RegisteredUsers` | app/routers/admin/stats.py:105-107 | At most the total. |
| `AdminStats.AccessUsers` | app/routers/admin/stats.py:110-117 | Equals the total when no deposit is required. Never more than the total. |
| `AdminStats.VipUsers` | app/routers/admin/stats.py:120-127 | At most the total. |
| `AdminStats.AccessCountIsGate` | app/routers/admin/stats.py:110-117 | Equals the number of users the funnel's access gate lets through. |
| `AdminStats.VipCountIsFunnel` | app/routers/admin/stats.py:120-127 | Equals the number of users the funnel treats as VIP. |
| `AdminStats.StatsMatchUsersScreen` | app/routers/admin/stats.py:104-127 | The registered, access and VIP counts equal the users screen's counters. |
| `AdminStats.VipByAmountHasAccess` | app/routers/admin/stats.py:110-127 | With VIP ≥ access threshold, VIP-by-amount users are counted as having access. |
| `AdminStats.DepositSum` | app/routers/admin/stats.py:130-136 | An empty table sums to 0. |
| `AdminStats.DepositSumCovers` | app/routers/admin/stats.py:130-132 | With no negative deposits, every user's deposit is part of the sum. |
| `AdminStats.DepositSumNonNegative` | app/routers/admin/stats.py:130-132 | With no negative deposits, the sum is not negative. |
| `AdminStats.SinceTs` | app/routers/admin/stats.py:93 | `days` days of seconds before now. |
| `AdminStats.PbCount` | app/routers/admin/stats.py:139-158 | At most the number of rows. Zero exactly when no row has a ts ≥ since and an event the counter takes. |
| `AdminStats.PbDepositSum` | app/routers/admin/stats.py:160-171 | 0 when no deposit is in the window. |
| `AdminStats.RegistrationsAndDepositsWithinTotal` | app/routers/admin/stats.py:139-158 | pb_reg + pb_dep_cnt ≤ pb_total. |
| `AdminStats.WiderWindowCountsMore` | app/routers/admin/stats.py:141 | An earlier since never counts fewer postbacks. |
| `AdminStats.MoreDaysCountMore` | app/routers/admin/stats.py:139-143 | The 30-day range counts at least what the 7-day range counts. |
| `AdminStats.AuditRowsNeverCounted` | app/routers/admin/stats.py:139-171 | A row written by the postback handler (no ts) changes no count and no sum. |
| `AdminStats.HandlerOnlyTableShowsNothing` | app/routers/admin/stats.py:139-171 | A table filled only by the handler shows zero postbacks and a zero sum. |
| `AdminStats.RangeReadBack` | app/routers/admin/stats.py:222-226 | "astats:range:N" reads back N. |
| `AdminStats.RangeDays` | app/routers/admin/stats.py:222-226 | The part after the second ":" through int(), else 7. RangeReadBack and RangeFallsBack state it. |
| `AdminStats.RangeFallsBack` | app/routers/admin/stats.py:222-226 | A suffix that is not an integer gives 7 days. |

## Left out

- Telegram rendering is not modelled: keyboards other than the users list, images, the
  photo-to-text fallback, message deletion in the screens' senders, and the admin main
  menu. Only the decision-to-screen mapping and the last_bot_message_id write are kept:
  the modelled senders (`CmdStart`, `MenuGet`, `PushNextScreen`) record the id that the
  `delivered` parameter says was sent. They record it on the user, except where
  "## Findings" says the code records it elsewhere: `MenuGetAsWritten` records the
  open steps' menu under the bot's id. The language handlers `on_go_lang` and
  `on_language_pick` (app/main.py:231-259) are not part of this model; they only delete a
  message, clear that id and re-render, while the language upsert itself is
  `GetOrCreateUser`.
- The aiohttp server lifecycle and the postback card sent to a log channel are network
  I/O.
- Concurrency is not modelled: the broadcast's `asyncio.gather` and pacing sleeps, and
  the unlocked read-modify-write of deposit_total_usd. Each handler is one atomic step.
- Floats are `real`, so rounding is not modelled. Python's `int()` and `float()` grammars
  are modelled as a subset. Surrounding whitespace is stripped (the `str.isspace` set),
  then come an optional sign and ASCII digits, with an optional fraction for floats.
  Underscores, exponents, "inf"/"nan" and non-ASCII digits are not accepted by the model.
- `str.isdigit` is modelled on ASCII digits only. A query of superscript or other
  non-ASCII digits is treated as not a number.
- `str.strip()` and `split()` use the whitespace set of `str.isspace` (`Text.IsSpace`).
- `Text.ToLower` and `Text.ToUpper`: only ASCII letters change case, whereas Python's
  `lower()` and `upper()` fold every Unicode letter. A postback event spelled with a
  non-ASCII letter that Python lowers to ASCII (the Kelvin sign to "k") is therefore
  rejected by the model where Python would accept it.
- `:.2f` and `int()` display formatting is not modelled. Amount formatting is the
  `money` parameter, and Python's float repr is the `showFloat` parameter.
- `json.loads` in admin_ids is an abstract result (`JsonIds`).
- `urlparse`/`urlencode` are modelled as a URL record whose query is a map.
- CfgUrlAccepted: `_cfg_text` pastes POSTBACK_HTTP_SECRET into the
  URL without encoding it, and the receiver decodes the query. A secret containing "&",
  "#", "+", "%" or whitespace therefore arrives cut or changed, and the printed URL is
  answered 403. The model does not decode queries, so both lemmas require a secret that
  decoding leaves unchanged (`QuerySafe`) and promise nothing for the others.
- CfgSecretPasses: the same gap as CfgUrlAccepted, for the secret gate alone.
- Checks.PushNextScreen: the open_vip and open_regular steps send the main menu through
  the corrected `MenuChat`. As written, that send raises (see "## Findings"), so those
  steps record nothing, which is the model's `delivered == None` case. In
  `_auto_push_ui` the error is swallowed. In the "check:sub" button it propagates out of
  the handler. PostbackWeb.AutoPushUi, HandleAccepted, Respond, HandlePostback and
  Checks.CheckSubscriptionButton inherit this, because they push through PushNextScreen.
- `secrets.token_urlsafe` is an arbitrary `token`.
- Pydantic settings loading is not modelled. `Config.Defaults` holds the declared
  defaults.
- `sub_channel_id` is not a separate member. The field is declared `int | None` and
  every writer stores an int, so its conversion cannot fail and the model reads
  `subChannelId` directly.
- ORM mechanics (sessions, flush, refresh, the identity map) are not modelled. What they
  decide is modelled where it matters: `menu_get` decides on the record as first loaded,
  and a unique-constraint failure at commit is an explicit `UniqueViolation` error that
  leaves the users unchanged.
- The 500 answer on a failed apply: `HandlePostback` answers 500 when the apply raises
  on the unique index, where the description of the endpoint says it always answers 200.
  The model follows the code.
- The order of the users table (`created_at`, and the order the audience query walks)
  is a parameter: `newest` for the users list, and `rows` with the `TableOrder`
  predicate for the audience.
- `@username` resolution is the `resolve` parameter.
- Language files and built-in texts are abstract maps (`Catalog`).
- Message ids of sent messages are the `delivered` parameter.
- `AdminStats.DepositSum` sums over the users in table order, as a `real`. It does not
  model float summation order.
- `AdminUsers.SearchDesk.Catch`: runs the corrected search `FindUserByQuery`. The source
  runs the search as written. That search raises on a query like "--5", or on an integer
  outside the signed 64-bit range, after the admin was already removed from the pending
  set. That run is `FindUserByQueryAsWritten` (see
  "## Findings"), and `Catch` agrees with it on every query that does not raise.
- `AdminUsers.FindUserByQuery`: a `resolve` that raises is modelled as "not found",
  which matches the source's `except` around resolution.
- Which `F.text` handler receives a message (the users search and the settings input
  both listen to every text) is dispatch order in the library. Each is modelled as if
  it received the message.
- The broadcast wizard's text, media and preview stages only store data in the
  conversation state, and are not modelled beyond the button input.

## Findings

| source | as written | input that shows it | evidently intended | confidence | as-written member | corrected member |
|---|---|---|---|---|---|---|
| app/routers/checks.py:346-354 | The pushed main menu is sent through a bare object without `.message`, and the menu sender reads `.message` for anything that is not a Message, so it raises and the menu is never delivered | A user whose decision is open_vip or open_regular when `push_next_screen` runs | Send the menu to the user's chat | not executed | `Checks.MenuChatAsWritten` (`Checks.PushedMenuNeverDelivered`) | `Checks.MenuChat` |
| app/routers/admin/broadcast.py:325 | `cycle_filter` reads the attribute "access", which Segment does not have (it is access_ok), so that button always raises | Pressing the "access" filter button in the broadcast wizard | Cycle access_ok like the other filters | not executed | `AdminBroadcast.CycledAsWritten` (`AdminBroadcast.AccessButtonRaises`) | `AdminBroadcast.Cycled` |
| app/routers/admin/users.py:138-139 | The digit test strips every leading "-", but `int()` accepts one sign, and the call is outside any try | The search query "--5" | A query that is not an integer falls through to the other lookups | not executed | `AdminUsers.FindUserByQueryAsWritten` (`AdminUsers.DoubleMinusDigit`) | `AdminUsers.FindUserByQuery` |
| app/routers/admin/users.py:139 | Any string of digits goes to `session.get`, which raises when the integer does not fit the 64-bit id column, and the call is outside any try | The search query "99999999999999999999" | A number no user can have falls through to the other lookups | not executed | `AdminUsers.FindUserByQueryAsWritten` (`AdminUsers.HugeIdRaises`) | `AdminUsers.FindUserByQuery` |
| app/main.py:316-322 | The open steps draw the main menu from `call.message`, whose author is the bot, so the window helper records the menu id under the bot's id and creates a user row for the bot that the admin counters and broadcasts then see | A menu click by a user whose decision is open_vip or open_regular | Record the menu message on the user who clicked | not executed | `MainApp.MenuGetAsWritten` (`MainApp.MenuGetAsWrittenMissesUser`) | `MainApp.MenuGet` |

/** Postback ingestion (app/services/postbacks.py): every partner event is audited, then
    matched to a user and applied to the funnel fields. */
module PostbackService {
  import opened Wrappers
  import opened Text
  import opened UserModel
  import opened PostbackModel
  import opened Config
  import opened Store

  /** The payload dict apply_postback reads. */
  datatype Payload = Payload(
    event: Option<string>,
    tgId: Option<int>,
    traderId: Option<string>,
    clickId: Option<string>,
    amountUsd: Option<real>,
    ts: Option<int>,
    externalId: Option<string>,
    rawText: Option<string>)

  datatype ApplyResult = ApplyResult(
    id: int,
    event: string,
    tgId: Option<int>,
    traderId: Option<string>,
    clickId: Option<string>,
    amountUsd: real,
    totalAfter: real,
    isRegistered: bool,
    becameVip: bool)

  predicate IsDepositKind(e: string) {
    e == "deposit_first" || e == "deposit_repeat" || e == "deposit"
  }

  /** `(payload.get("event") or "").lower()` */
  function EventOf(p: Payload): string { ToLower(p.event.GetOr("")) }

  /** `float(payload.get("amount_usd") or 0.0)` */
  function AmountOf(p: Payload): real { p.amountUsd.GetOr(0.0) }

  /** The audit row written for a payload: no ts and no hash are ever stored. */
  function AuditRow(p: Payload, id: int): (row: Postback)
    ensures row.id == id && row.event == EventOf(p) && row.tgId == p.tgId
    ensures row.amountUsd == Some(AmountOf(p)) && row.ts == None && row.hash == None
    ensures row.externalId == p.externalId
    ensures TruthyText(p.rawText) ==> row.rawText == p.rawText
    ensures !TruthyText(p.rawText) ==> row.rawText == Some("")
  {
    Postback(id, EventOf(p), p.tgId, p.externalId, Some(AmountOf(p)), None, Some(p.rawText.GetOr("")), None)
  }

  /** The record holding trader id t, if any (unique by the index). */
  function TraderOwner(users: map<int, User>, t: string): (r: Option<int>)
    requires UniqueTraderIds(users)
    ensures r.Some? ==> r.value in users && users[r.value].partnerTraderId == Some(t)
    ensures r.None? ==> forall k :: k in users ==> users[k].partnerTraderId != Some(t)
  {
    if exists k :: k in users && users[k].partnerTraderId == Some(t) then
      var k :| k in users && users[k].partnerTraderId == Some(t);
      Some(k)
    else None
  }

  /** The record holding click id c, if any (unique by the index). */
  function ClickOwner(users: map<int, User>, c: string): (r: Option<int>)
    requires UniqueClickIds(users)
    ensures r.Some? ==> r.value in users && users[r.value].clickId == Some(c)
    ensures r.None? ==> forall k :: k in users ==> users[k].clickId != Some(c)
  {
    if exists k :: k in users && users[k].clickId == Some(c) then
      var k :| k in users && users[k].clickId == Some(c);
      Some(k)
    else None
  }

  /** A truthy tg id naming an existing record. */
  predicate TgHit(users: map<int, User>, tgId: Option<int>) {
    TruthyInt(tgId) && tgId.value in users
  }

  /** A truthy trader id held by a record with a truthy id. */
  predicate TraderHit(users: map<int, User>, traderId: Option<string>) {
    TruthyText(traderId) && exists k :: k in users && k != 0 && users[k].partnerTraderId == traderId
  }

  /** A truthy click id held by a record with a truthy id. */
  predicate ClickHit(users: map<int, User>, clickId: Option<string>) {
    TruthyText(clickId) && exists k :: k in users && k != 0 && users[k].clickId == clickId
  }

  /** _find_user_for_postback_ids: tg id first, then trader id, then click id; falsy
      identifiers are skipped and the first hit wins. */
  function FindUserForPostbackIds(users: map<int, User>, tgId: Option<int>, traderId: Option<string>,
                                  clickId: Option<string>): (r: Option<int>)
    requires Constraints(users)
    ensures r.Some? ==> r.value in users && r.value != 0
    ensures TgHit(users, tgId) ==> r == tgId
    ensures !TgHit(users, tgId) && TraderHit(users, traderId) ==>
      r.Some? && users[r.value].partnerTraderId == traderId
    ensures !TgHit(users, tgId) && !TraderHit(users, traderId) && ClickHit(users, clickId) ==>
      r.Some? && users[r.value].clickId == clickId
    ensures r.None? <==> !TgHit(users, tgId) && !TraderHit(users, traderId) && !ClickHit(users, clickId)
  {
    if TruthyInt(tgId) && tgId.value in users then Some(users[tgId.value].id)
    else
      var byTrader := if TruthyText(traderId) then TraderOwner(users, traderId.value) else None;
      if byTrader.Some? && byTrader.value != 0 then byTrader
      else
        var byClick := if TruthyText(clickId) then ClickOwner(users, clickId.value) else None;
        if byClick.Some? && byClick.value != 0 then byClick
        else None
  }

  /** First write wins: an identifier is bound only when the event carries one and the
      record has none. */
  function Bind(current: Option<string>, incoming: Option<string>): (r: Option<string>)
    ensures TruthyText(current) ==> r == current
    ensures !TruthyText(current) && TruthyText(incoming) ==> r == incoming
    ensures !TruthyText(current) && !TruthyText(incoming) ==> r == current
  {
    if TruthyText(incoming) && !TruthyText(current) then incoming else current
  }

  /** The registration mutation. */
  function Register(u: User, traderId: Option<string>, clickId: Option<string>): User {
    u.(isRegistered := true,
       partnerTraderId := Bind(u.partnerTraderId, traderId),
       clickId := Bind(u.clickId, clickId))
  }

  /** The deposit mutation, with the became_vip edge. */
  function DepositInto(u: User, traderId: Option<string>, amount: real, vipThreshold: real): (User, bool) {
    var total := if amount > 0.0 then u.depositTotalUsd + amount else u.depositTotalUsd;
    var became := total >= vipThreshold && !u.hasVip;
    (u.(depositTotalUsd := total,
        partnerTraderId := Bind(u.partnerTraderId, traderId),
        hasVip := u.hasVip || became),
     became)
  }

  /** The event's effect on the matched record and the became_vip flag. */
  function ApplyEvent(u: User, event: string, traderId: Option<string>, clickId: Option<string>,
                      amount: real, vipThreshold: real): (r: (User, bool))
    ensures r.0.id == u.id && r.0.lang == u.lang && r.0.refCode == u.refCode
    ensures r.0.isSubscribed == u.isSubscribed && r.0.lastBotMessageId == u.lastBotMessageId
    ensures r.0.shownRegularAccessOnce == u.shownRegularAccessOnce && r.0.shownVipAccessOnce == u.shownVipAccessOnce
    ensures r.0.isRegistered == (u.isRegistered || event == "registration")
    ensures r.0.clickId == (if event == "registration" then Bind(u.clickId, clickId) else u.clickId)
    ensures r.0.partnerTraderId ==
      (if event == "registration" || IsDepositKind(event) then Bind(u.partnerTraderId, traderId) else u.partnerTraderId)
    ensures r.0.depositTotalUsd == u.depositTotalUsd + (if IsDepositKind(event) && amount > 0.0 then amount else 0.0)
    ensures r.1 <==> IsDepositKind(event) && !u.hasVip && r.0.depositTotalUsd >= vipThreshold
    ensures r.0.hasVip <==> u.hasVip || r.1
  {
    if event == "registration" then (Register(u, traderId, clickId), false)
    else if IsDepositKind(event) then DepositInto(u, traderId, amount, vipThreshold)
    else (u, false)
  }

  /** The record the event applies to: the matched one, else a fresh record for a truthy
      tg id, else none. */
  function Target(users: map<int, User>, p: Payload): (r: Option<User>)
    requires Constraints(users)
    ensures r.Some? ==> r.value.id != 0 && (r.value.id in users ==> r.value == users[r.value.id])
    ensures r.None? <==> FindUserForPostbackIds(users, p.tgId, p.traderId, p.clickId).None? && !TruthyInt(p.tgId)
  {
    var uid := FindUserForPostbackIds(users, p.tgId, p.traderId, p.clickId);
    if uid.Some? then Some(users[uid.value])
    else if TruthyInt(p.tgId) then
      // the source fetches the id again before creating; the lookup above already
      // missed it, so the fetch never finds a record
      Some(NewUser(p.tgId.value))
    else None
  }

  datatype Outcome = Outcome(result: Result<ApplyResult, StoreError>, users: map<int, User>)

  /** What apply_postback returns and leaves in the users table, given the audit id. */
  function ApplyOutcome(users: map<int, User>, p: Payload, vipThreshold: real, pbId: int): Outcome
    requires Constraints(users)
  {
    var event := EventOf(p);
    var amount := AmountOf(p);
    match Target(users, p)
      case None =>
        Outcome(Ok(ApplyResult(pbId, event, p.tgId,
                               if TruthyText(p.traderId) then p.traderId else None,
                               if TruthyText(p.clickId) then p.clickId else None,
                               amount, 0.0, false, false)),
                users)
      case Some(u) =>
        var (v, became) := ApplyEvent(u, event, p.traderId, p.clickId, amount, vipThreshold);
        if !Storable(users, v) then Outcome(Err(UniqueViolation), users)
        else Outcome(Ok(ApplyResult(pbId, event, Some(v.id), v.partnerTraderId, v.clickId, amount,
                                    v.depositTotalUsd, v.isRegistered, became)),
                     users[v.id := v])
  }

  /** Step 3 of apply_postback: the field-by-field update of the target record. */
  method MutateUser(u: User, event: string, traderId: Option<string>, clickId: Option<string>,
                    amount: real, vipThreshold: real) returns (v: User, becameVip: bool)
    ensures (v, becameVip) == ApplyEvent(u, event, traderId, clickId, amount, vipThreshold)
  {
    v := u;
    becameVip := false;
    if event == "registration" {
      v := RegisterFields(v, traderId, clickId);
      assert !IsDepositKind(event);
    }
    if IsDepositKind(event) {
      v, becameVip := DepositFields(v, traderId, amount, vipThreshold);
    }
  }

  /** The registration branch of the update, one field at a time. */
  method RegisterFields(u: User, traderId: Option<string>, clickId: Option<string>) returns (v: User)
    ensures v == Register(u, traderId, clickId)
  {
    v := u.(isRegistered := true);
    if TruthyText(traderId) && !TruthyText(v.partnerTraderId) {
      v := v.(partnerTraderId := traderId);
    }
    if TruthyText(clickId) && !TruthyText(v.clickId) {
      v := v.(clickId := clickId);
    }
  }

  /** The deposit branch of the update, one field at a time. */
  method DepositFields(u: User, traderId: Option<string>, amount: real, vipThreshold: real)
    returns (v: User, becameVip: bool)
    ensures (v, becameVip) == DepositInto(u, traderId, amount, vipThreshold)
  {
    v := u;
    becameVip := false;
    if amount > 0.0 {
      v := v.(depositTotalUsd := v.depositTotalUsd + amount);
    }
    if TruthyText(traderId) && !TruthyText(v.partnerTraderId) {
      v := v.(partnerTraderId := traderId);
    }
    if v.depositTotalUsd >= vipThreshold && !v.hasVip {
      v := v.(hasVip := true);
      becameVip := true;
    }
  }

  /** apply_postback as one atomic step: the audit row is committed first and survives a
      failed user commit (a trader or click id already bound to another record). */
  method ApplyPostback(db: Db, p: Payload, s: Settings) returns (r: Result<ApplyResult, StoreError>)
    requires db.Valid()
    modifies db
    ensures db.Valid()
    ensures db.postbacks == old(db.postbacks) + [AuditRow(p, old(db.nextPostbackId))]
    ensures r == ApplyOutcome(old(db.users), p, s.vipThresholdUsd, old(db.nextPostbackId)).result
    ensures db.users == ApplyOutcome(old(db.users), p, s.vipThresholdUsd, old(db.nextPostbackId)).users
  {
    var event := ToLower(p.event.GetOr(""));
    var amount := p.amountUsd.GetOr(0.0);
    var pbId := db.Append(AuditRow(p, 0));
    assert AuditRow(p, 0).(id := pbId) == AuditRow(p, pbId);

    var found := Target(db.users, p);
    if found.None? {
      return Ok(ApplyResult(pbId, event, p.tgId,
                            if TruthyText(p.traderId) then p.traderId else None,
                            if TruthyText(p.clickId) then p.clickId else None,
                            amount, 0.0, false, false));
    }
    var u, becameVip := MutateUser(found.value, event, p.traderId, p.clickId, amount, s.vipThresholdUsd);
    if !Storable(db.users, u) {
      return Err(UniqueViolation);
    }
    db.Put(u);
    return Ok(ApplyResult(pbId, event, Some(u.id), u.partnerTraderId, u.clickId, amount,
                          u.depositTotalUsd, u.isRegistered, becameVip));
  }

  /** recompute_user_from_postbacks: get-or-create; an existing record is returned as is. */
  method RecomputeUserFromPostbacks(db: Db, tgId: int) returns (u: User)
    requires db.Valid()
    modifies db
    ensures db.Valid()
    ensures tgId in old(db.users) ==> u == old(db.users)[tgId] && db.users == old(db.users)
    ensures tgId !in old(db.users) ==> u == NewUser(tgId) && db.users == old(db.users)[tgId := u]
    ensures db.postbacks == old(db.postbacks)
  {
    u := db.GetOrCreate(tgId);
  }

  // ---- properties of the specification ----

  /** With nothing to match and no tg id, no record changes and the result carries the
      neutral values. */
  lemma UnmatchedChangesNothing(users: map<int, User>, p: Payload, vip: real, pbId: int)
    requires Constraints(users)
    requires !TruthyInt(p.tgId) && !TraderHit(users, p.traderId) && !ClickHit(users, p.clickId)
    ensures ApplyOutcome(users, p, vip, pbId).users == users
    ensures var r := ApplyOutcome(users, p, vip, pbId).result;
      r.Ok? && r.value.totalAfter == 0.0 && !r.value.isRegistered && !r.value.becameVip
      && r.value.tgId == p.tgId
  {
  }

  /** A successful match echoes the stored record after the mutation, not the event. */
  lemma MatchedEchoesStoredRecord(users: map<int, User>, p: Payload, vip: real, pbId: int)
    requires Constraints(users) && Target(users, p).Some?
    ensures var o := ApplyOutcome(users, p, vip, pbId);
      o.result.Ok? ==>
        o.result.value.tgId.Some? && var k := o.result.value.tgId.value;
        k in o.users && o.result.value.traderId == o.users[k].partnerTraderId
        && o.result.value.clickId == o.users[k].clickId
        && o.result.value.totalAfter == o.users[k].depositTotalUsd
        && o.result.value.isRegistered == o.users[k].isRegistered
  {
  }

  /** Only the target record changes; a failed commit changes nothing. */
  lemma OnlyTargetChanges(users: map<int, User>, p: Payload, vip: real, pbId: int)
    requires Constraints(users)
    ensures var o := ApplyOutcome(users, p, vip, pbId);
      (o.result.Err? ==> o.users == users)
      && (forall k :: k in users && (Target(users, p).None? || k != Target(users, p).value.id) ==>
            k in o.users && o.users[k] == users[k])
  {
  }

  /** The outcome keeps the table's constraints, so the store stays valid. */
  lemma OutcomeKeepsConstraints(users: map<int, User>, p: Payload, vip: real, pbId: int)
    requires Constraints(users)
    ensures Constraints(ApplyOutcome(users, p, vip, pbId).users)
  {
    var t := Target(users, p);
    if t.Some? {
      var (v, _) := ApplyEvent(t.value, EventOf(p), p.traderId, p.clickId, AmountOf(p), vip);
      if Storable(users, v) {
        PutKeepsConstraints(users, v);
      }
    }
  }

  /** A repeated registration is idempotent. */
  lemma RegistrationIdempotent(u: User, traderId: Option<string>, clickId: Option<string>, amount: real, vip: real)
    ensures var once := ApplyEvent(u, "registration", traderId, clickId, amount, vip).0;
      ApplyEvent(once, "registration", traderId, clickId, amount, vip) == (once, false)
  {
  }

  /** Two positive deposits add up, whichever deposit kinds carry them. */
  lemma DepositsAccumulate(u: User, e1: string, e2: string, a: real, b: real, vip: real)
    requires IsDepositKind(e1) && IsDepositKind(e2) && a > 0.0 && b > 0.0
    ensures var once := ApplyEvent(u, e1, None, None, a, vip).0;
      ApplyEvent(once, e2, None, None, b, vip).0.depositTotalUsd == u.depositTotalUsd + a + b
  {
  }

  /** became_vip is an edge: it fires on the deposit that reaches the threshold, and never
      again afterwards. */
  lemma BecameVipFiresOnce(u: User, e1: string, e2: string, t1: Option<string>, t2: Option<string>,
                           a: real, b: real, vip: real)
    requires IsDepositKind(e1) && IsDepositKind(e2)
    requires !u.hasVip && u.depositTotalUsd < vip && u.depositTotalUsd + a >= vip && a > 0.0
    ensures ApplyEvent(u, e1, t1, None, a, vip).1
    ensures !ApplyEvent(ApplyEvent(u, e1, t1, None, a, vip).0, e2, t2, None, b, vip).1
  {
  }

  /** Identifiers already bound are never overwritten by any event. */
  lemma FirstWriteWins(u: User, event: string, traderId: Option<string>, clickId: Option<string>, amount: real, vip: real)
    ensures TruthyText(u.partnerTraderId) ==>
      ApplyEvent(u, event, traderId, clickId, amount, vip).0.partnerTraderId == u.partnerTraderId
    ensures TruthyText(u.clickId) ==>
      ApplyEvent(u, event, traderId, clickId, amount, vip).0.clickId == u.clickId
  {
  }
}

/** The HTTP postback receiver (app/web/postbacks.py): a partner calls it with query or
    form parameters; it checks the shared secret, normalises the event, picks parameter
    aliases, applies the postback and pushes the user's next screen. */
module PostbackWeb {
  import opened Wrappers
  import opened Text
  import opened UserModel
  import opened Config
  import opened Store
  import opened PostbackService
  import opened Tracking
  import opened Checks
  import opened Access

  datatype HttpMethod = Get | Post

  /** The request as the handler reads it; `form` is None when the method is not POST
      or reading the body raised. */
  datatype Request = Request(verb: HttpMethod, query: map<string, string>, form: Option<map<string, string>>)

  datatype Response = Response(status: int, text: string)

  /** The merged parameters: form fields fill only the keys the query lacks. */
  function Params(req: Request): map<string, string> {
    if req.verb == Post && req.form.Some? then req.form.value + req.query else req.query
  }

  /** `params = dict(request.query)` then `params.setdefault(k, v)` for each form field. */
  method BuildParams(req: Request) returns (params: map<string, string>)
    ensures params == Params(req)
  {
    params := req.query;
    if req.verb == Post && req.form.Some? {
      params := SetDefaults(params, req.form.value);
    }
  }

  /** `base.setdefault(k, v)` for every field of extra: the values already in base win. */
  method SetDefaults(base: map<string, string>, extra: map<string, string>) returns (r: map<string, string>)
    ensures r == extra + base
  {
    r := base;
    var todo := extra.Keys;
    while todo != {}
      invariant todo <= extra.Keys
      invariant forall k :: k in r <==> k in base || (k in extra && k !in todo)
      invariant forall k :: k in r ==> r[k] == (if k in base then base[k] else extra[k])
      decreases |todo|
    {
      var k :| k in todo;
      if k !in r {
        r := r[k := extra[k]];
      }
      todo := todo - {k};
    }
    MergedMap(r, base, extra);
  }

  /** A map with the keys of both and the values of base where base has them is extra + base. */
  lemma MergedMap(r: map<string, string>, base: map<string, string>, extra: map<string, string>)
    requires forall k :: k in r <==> k in base || k in extra
    requires forall k :: k in r ==> r[k] == (if k in base then base[k] else extra[k])
    ensures r == extra + base
  {
    assert r.Keys == (extra + base).Keys;
  }

  function Lookup(params: map<string, string>, key: string): Option<string> {
    if key in params then Some(params[key]) else None
  }

  /** `params.get(a) or params.get(b) or ...`: the first non-empty value (callers treat
      an all-empty chain like a missing one). */
  function FirstTruthy(params: map<string, string>, keys: seq<string>): (r: Option<string>)
    ensures r.Some? ==> r.value != "" && r.value in params.Values
    ensures keys != [] && TruthyText(Lookup(params, keys[0])) ==> r == Lookup(params, keys[0])
    ensures keys != [] && !TruthyText(Lookup(params, keys[0])) ==> r == FirstTruthy(params, keys[1..])
    ensures keys == [] ==> r.None?
  {
    if keys == [] then None
    else if TruthyText(Lookup(params, keys[0])) then Lookup(params, keys[0])
    else FirstTruthy(params, keys[1..])
  }

  /** A chain none of whose keys holds a non-empty value yields nothing. */
  lemma {:induction false} FirstTruthyNone(params: map<string, string>, keys: seq<string>)
    requires forall i :: 0 <= i < |keys| ==> !TruthyText(Lookup(params, keys[i]))
    ensures FirstTruthy(params, keys).None?
  {
    if keys != [] {
      FirstTruthyNone(params, keys[1..]);
    }
  }

  /** _to_int: None stays None; otherwise `int()` of the stripped text, None on failure. */
  function ToInt(x: Option<string>): (r: Option<int>)
    ensures x.None? ==> r.None?
  {
    match x
      case None => None
      case Some(t) => ParseInt(t)
  }

  /** _to_float: None stays None; a decimal comma is read as a point. */
  function ToFloat(x: Option<string>): (r: Option<real>)
    ensures x.None? ==> r.None?
  {
    match x
      case None => None
      case Some(t) => ParseDecimal(ReplaceChar(t, ',', '.'))
  }

  /** The printed form of an integer reads back as that integer. */
  lemma ToIntReadsShown(n: int)
    ensures ToInt(Some(ShowInt(n))) == Some(n)
  {
    ParseShowInt(n);
  }

  /** A whole amount reads back as that amount. */
  lemma ToFloatReadsShown(n: int)
    ensures ToFloat(Some(ShowInt(n))) == Some(n as real)
  {
    var t := ShowInt(n);
    assert ReplaceChar(t, ',', '.') == t by {
      assert forall i :: 0 <= i < |t| ==> t[i] != ',' by {
        forall i | 0 <= i < |t| ensures t[i] != ',' {
          if n < 0 && i == 0 { assert t[0] == '-'; } else if n < 0 { assert t[1..][i - 1] == t[i]; assert IsDigit(t[i]); } else { assert IsDigit(t[i]); }
        }
      }
    }
    ParseDecimalOfInt(n);
  }

  predicate KnownEvent(e: string) {
    e == "registration" || e == "deposit_first" || e == "deposit_repeat" || e == "deposit"
  }

  /** The event normalisation: stripped and lower-cased; the four known kinds pass, any
      other text mentioning "deposit" becomes "deposit", anything else is refused. */
  function NormalizeEvent(raw: string): (r: Option<string>)
    ensures r.Some? ==> KnownEvent(r.value)
    ensures KnownEvent(ToLower(Strip(raw))) ==> r == Some(ToLower(Strip(raw)))
    ensures !KnownEvent(ToLower(Strip(raw))) ==>
      r == (if Contains(ToLower(Strip(raw)), "deposit") then Some("deposit") else None)
  {
    var e := ToLower(Strip(raw));
    if KnownEvent(e) then Some(e)
    else if Contains(e, "deposit") then Some("deposit")
    else None
  }

  /** `(x or "").strip() or None` */
  function StripOrNone(x: Option<string>): (r: Option<string>)
    ensures r.Some? ==> x.Some? && r.value != "" && r.value == Strip(x.value)
    ensures x.Some? && Strip(x.value) != "" ==> r == Some(Strip(x.value))
  {
    var t := Strip(x.GetOr(""));
    if t == "" then None else Some(t)
  }

  function ShowOptInt(x: Option<int>): string { if x.Some? then ShowInt(x.value) else "None" }
  function ShowOptText(x: Option<string>): string { if x.Some? then x.value else "None" }

  /** The raw_text line stored with the audit row; `showFloat` is Python's float repr. */
  function RawLine(event: string, tgId: Option<int>, traderId: Option<string>, clickId: Option<string>,
                   amount: Option<real>, ts: Option<int>, showFloat: real -> string): string
  {
    "event=" + event + "; tg=" + ShowOptInt(tgId) + "; trader=" + ShowOptText(traderId)
    + "; click=" + ShowOptText(clickId) + "; amount=" + (if amount.Some? then showFloat(amount.value) else "None")
    + "; ts=" + ShowOptInt(ts)
  }

  datatype Parsed = Forbidden | BadEvent | Accepted(payload: Payload)

  /** The secret gate: an empty configured secret admits everything; otherwise the
      stripped query parameter must equal it (form fields are not consulted). */
  predicate SecretRejects(req: Request, secret: Option<string>) {
    var expected := Strip(secret.GetOr(""));
    expected != "" && Strip(Lookup(req.query, "secret").GetOr("")) != expected
  }

  /** The validation and payload construction of _handle_postback. */
  function ParsePostback(req: Request, secret: Option<string>, showFloat: real -> string): (r: Parsed)
    ensures r == Forbidden <==> SecretRejects(req, secret)
    ensures r == BadEvent <==> !SecretRejects(req, secret) && NormalizeEvent(Lookup(Params(req), "event").GetOr("")).None?
    ensures r.Accepted? ==> r.payload.event.Some? && KnownEvent(r.payload.event.value)
  {
    if SecretRejects(req, secret) then Forbidden
    else
      match NormalizeEvent(Lookup(Params(req), "event").GetOr(""))
        case None => BadEvent
        case Some(event) => Accepted(PayloadOf(Params(req), event, showFloat))
  }

  /** The payload built from the merged parameters and the normalised event. */
  function PayloadOf(params: map<string, string>, event: string, showFloat: real -> string): Payload {
    var traderId := StripOrNone(FirstTruthy(params, ["trader_id", "trader", "account"]));
    var clickId := StripOrNone(Lookup(params, "click_id"));
    var tgId := ToInt(FirstTruthy(params, ["tg_id", "user", "user_id"]));
    var amount := ToFloat(FirstTruthy(params, ["sumdep", "amount"]));
    var ts := ToInt(Lookup(params, "ts"));
    Payload(Some(event), tgId, traderId, clickId, amount, ts, None,
            Some(RawLine(event, tgId, traderId, clickId, amount, ts, showFloat)))
  }

  /** A query value always beats a form field of the same name. */
  lemma QueryWinsOverForm(req: Request, key: string)
    requires key in req.query
    ensures Lookup(Params(req), key) == Some(req.query[key])
  {
  }

  /** An empty configured secret disables the gate. */
  lemma EmptySecretAdmits(req: Request, secret: Option<string>)
    requires Strip(secret.GetOr("")) == ""
    ensures !SecretRejects(req, secret)
  {
  }

  /** The users after the next screen was pushed to the stored user `k`: only k's record
      differs, and it is the record the decided step's screen leaves, or the record as it
      was when the registration screen could not store a click id. */
  predicate PushedUsers(before: map<int, User>, after: map<int, User>, k: int, s: Settings, delivered: Option<int>) {
    k in before && k in after && after == before[k := after[k]]
    && var u := before[k];
       var step := DecideNextStep(u, s).step;
       (step == Registration && !TruthyText(u.clickId) && after[k] == u)
       || PushedRecord(u, after[k], step, delivered)
  }

  /** After a postback's push the pushed user's next decision is the one pushed, with a
      one-shot window settled into its open step: a later push never repeats the window. */
  lemma PushedUserSettles(before: map<int, User>, after: map<int, User>, k: int, s: Settings, delivered: Option<int>)
    requires PushedUsers(before, after, k, s, delivered)
    ensures DecideNextStep(after[k], s).step == Settled(DecideNextStep(before[k], s).step)
  {
    var u := before[k];
    if !PushedRecord(u, after[k], DecideNextStep(u, s).step, delivered) {
      assert after[k] == u;
    } else {
      PushSettles(u, after[k], s, delivered);
    }
  }

  /** _auto_push_ui: for an existing user, recompute (a get) and push the next screen;
      any failure of the push is swallowed. */
  method AutoPushUi(db: Db, tgId: int, s: Settings, refUrl: Url, token: string, delivered: Option<int>)
    requires db.Valid()
    modifies db
    ensures db.Valid()
    ensures db.postbacks == old(db.postbacks)
    ensures tgId !in old(db.users) ==> db.users == old(db.users)
    ensures tgId in old(db.users) ==> PushedUsers(old(db.users), db.users, tgId, s, delivered)
  {
    if tgId !in db.users {
      return;
    }
    var _ := RecomputeUserFromPostbacks(db, tgId);
    var _ := PushNextScreen(db, tgId, s, refUrl, token, delivered);
  }

  /** The parsing half of _handle_postback, with the parameters merged in place. */
  method ParseRequest(req: Request, secret: Option<string>, showFloat: real -> string) returns (r: Parsed)
    ensures r == ParsePostback(req, secret, showFloat)
  {
    if SecretRejects(req, secret) {
      return Forbidden;
    }
    var params := BuildParams(req);
    var event := NormalizeEvent(Lookup(params, "event").GetOr(""));
    if event.None? {
      return BadEvent;
    }
    return Accepted(PayloadOf(params, event.value, showFloat));
  }

  /** The users after an applied postback and its push: those the application left when
      the result names no truthy tg id, else those with that user's next screen pushed. */
  predicate Pushed(o: Outcome, users: map<int, User>, s: Settings, delivered: Option<int>)
    requires o.result.Ok?
  {
    var tg := o.result.value.tgId;
    if TruthyInt(tg) then PushedUsers(o.users, users, tg.value, s, delivered) else users == o.users
  }

  /** The accepted half of _handle_postback: apply once, then push for a truthy tg id. */
  method HandleAccepted(db: Db, payload: Payload, s: Settings, refUrl: Url, token: string, delivered: Option<int>)
    returns (resp: Response)
    requires db.Valid()
    modifies db
    ensures db.Valid()
    ensures var o := ApplyOutcome(old(db.users), payload, s.vipThresholdUsd, old(db.nextPostbackId));
      db.postbacks == old(db.postbacks) + [AuditRow(payload, old(db.nextPostbackId))]
      && (o.result.Err? ==> resp.status == 500 && db.users == old(db.users))
      && (o.result.Ok? ==> resp == Response(200, "ok") && Pushed(o, db.users, s, delivered))
  {
    var res := ApplyPostback(db, payload, s);
    if res.Err? {
      return Response(500, "internal server error");
    }
    if TruthyInt(res.value.tgId) {
      MatchedEchoesStoredRecord(old(db.users), payload, s.vipThresholdUsd, old(db.nextPostbackId));
      AutoPushUi(db, res.value.tgId.value, s, refUrl, token, delivered);
    }
    return Response(200, "ok");
  }

  /** The answer to a parsed request: 403 and 400 leave the database untouched, an
      accepted payload goes to HandleAccepted. */
  method Respond(db: Db, parsed: Parsed, s: Settings, refUrl: Url, token: string, delivered: Option<int>)
    returns (resp: Response)
    requires db.Valid()
    modifies db
    ensures db.Valid()
    ensures !parsed.Accepted? ==> db.users == old(db.users) && db.postbacks == old(db.postbacks)
    ensures parsed == Forbidden ==> resp == Response(403, "forbidden")
    ensures parsed == BadEvent ==> resp == Response(400, "bad request: event")
    ensures parsed.Accepted? ==>
      var o := ApplyOutcome(old(db.users), parsed.payload, s.vipThresholdUsd, old(db.nextPostbackId));
      db.postbacks == old(db.postbacks) + [AuditRow(parsed.payload, old(db.nextPostbackId))]
      && (o.result.Err? ==> resp.status == 500 && db.users == old(db.users))
      && (o.result.Ok? ==> resp == Response(200, "ok") && Pushed(o, db.users, s, delivered))
  {
    if parsed == Forbidden {
      return Response(403, "forbidden");
    }
    if parsed == BadEvent {
      return Response(400, "bad request: event");
    }
    resp := HandleAccepted(db, parsed.payload, s, refUrl, token, delivered);
  }

  /** _handle_postback. 403 and 400 leave the database untouched; an accepted request is
      applied exactly once (one audit row) and answered "ok", except that a failed user
      commit escapes the handler (500). The push runs only for a truthy result tg id. */
  method HandlePostback(db: Db, req: Request, s: Settings, showFloat: real -> string,
                        refUrl: Url, token: string, delivered: Option<int>) returns (resp: Response)
    requires db.Valid()
    modifies db
    ensures db.Valid()
    ensures var parsed := ParsePostback(req, s.postbackHttpSecret, showFloat);
      (!parsed.Accepted? ==> db.users == old(db.users) && db.postbacks == old(db.postbacks))
      && (parsed == Forbidden ==> resp == Response(403, "forbidden"))
      && (parsed == BadEvent ==> resp == Response(400, "bad request: event"))
      && (parsed.Accepted? ==>
            var o := ApplyOutcome(old(db.users), parsed.payload, s.vipThresholdUsd, old(db.nextPostbackId));
            db.postbacks == old(db.postbacks) + [AuditRow(parsed.payload, old(db.nextPostbackId))]
            && (o.result.Err? ==> resp.status == 500 && db.users == old(db.users))
            && (o.result.Ok? ==> resp == Response(200, "ok") && Pushed(o, db.users, s, delivered)))
  {
    var parsed := ParseRequest(req, s.postbackHttpSecret, showFloat);
    resp := Respond(db, parsed, s, refUrl, token, delivered);
  }
}

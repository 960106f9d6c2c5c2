/** Click-id tracking (app/services/tracking.py): every user gets one click id, passed to
    the partner in the referral link and echoed back in postbacks. */
module Tracking {
  import opened Wrappers
  import opened Text
  import opened UserModel
  import opened Store

  /** _gen_click_id: `<tg id>-<token>`; the random token is a parameter. */
  function GenClickId(tgId: int, token: string): (c: string)
    ensures c == ShowInt(tgId) + "-" + token
    ensures TruthyText(Some(c))
  {
    ShowInt(tgId) + "-" + token
  }

  /** The user id a click id was generated for: the text before its first '-'. */
  function ClickIdOwner(c: string): Option<int> {
    match Find(c, '-')
      case None => None
      case Some(k) => ParseInt(c[..k])
  }

  /** For a non-negative id, a generated click id names its user, whatever the token. */
  lemma {:induction false} GeneratedClickIdNamesUser(n: int, token: string)
    requires n >= 0
    ensures ClickIdOwner(GenClickId(n, token)) == Some(n)
  {
    var s := ShowInt(n);
    var c := GenClickId(n, token);
    assert '-' !in s by {
      forall i | 0 <= i < |s| ensures s[i] != '-' { assert IsDigit(s[i]); }
    }
    assert c[..|s|] == s && c[|s|] == '-';
    assert forall i :: 0 <= i < |s| ==> c[i] == s[i];
    var k := Find(c, '-').value;
    assert k == |s|;
    ParseShowInt(n);
  }

  /** So two generated click ids for different users never coincide. */
  lemma GeneratedClickIdsDistinct(a: int, b: int, ta: string, tb: string)
    requires a >= 0 && b >= 0 && a != b
    ensures GenClickId(a, ta) != GenClickId(b, tb)
  {
    GeneratedClickIdNamesUser(a, ta);
    GeneratedClickIdNamesUser(b, tb);
  }

  /** ensure_click_id: an existing click id is returned without a write; otherwise one is
      generated and committed (creating the user first). A generated id another record
      already holds makes the commit fail, and nothing is written. */
  method EnsureClickId(db: Db, tgId: int, token: string) returns (r: Result<string, StoreError>)
    requires db.Valid()
    modifies db
    ensures db.Valid()
    ensures db.postbacks == old(db.postbacks)
    ensures var u := StoredOrNew(old(db.users), tgId);
      if TruthyText(u.clickId) then
        r == Ok(u.clickId.value) && db.users == old(db.users)
      else if ClickFree(old(db.users), tgId, GenClickId(tgId, token)) then
        r == Ok(GenClickId(tgId, token))
        && db.users == old(db.users)[tgId := u.(clickId := Some(GenClickId(tgId, token)))]
      else
        r == Err(UniqueViolation) && db.users == old(db.users)
    ensures r.Ok? ==> tgId in db.users && db.users[tgId].clickId == Some(r.value) && r.value != []
  {
    var u := StoredOrNew(db.users, tgId);
    if TruthyText(u.clickId) {
      return Ok(u.clickId.value);
    }
    var c := GenClickId(tgId, token);
    if !ClickFree(db.users, tgId, c) {
      return Err(UniqueViolation);
    }
    db.Put(u.(clickId := Some(c)));
    return Ok(c);
  }

  /** A second call returns what the first one returned, and writes nothing. */
  method EnsureClickIdTwice(db: Db, tgId: int, token1: string, token2: string)
    returns (r1: Result<string, StoreError>, r2: Result<string, StoreError>)
    requires db.Valid()
    modifies db
    ensures r1.Ok? ==> r2 == r1
  {
    r1 := EnsureClickId(db, tgId, token1);
    ghost var between := db.users;
    r2 := EnsureClickId(db, tgId, token2);
    assert r1.Ok? ==> db.users == between;
  }

  /** urlparse(REF_LINK), with the query already read into a dict by parse_qsl. */
  datatype Url = Url(scheme: string, netloc: string, path: string, params: string,
                     query: map<string, string>, fragment: string)

  datatype RefLink = NoLink | Link(url: Url)

  /** build_ref_link_with_click: no link without REF_LINK; otherwise the referral URL with
      its click_id parameter set or replaced and every other part kept. `parsed` is the
      parsed REF_LINK. */
  function BuildRefLinkWithClick(refLink: string, parsed: Url, clickId: string): (r: RefLink)
    ensures r == NoLink <==> refLink == ""
    ensures r.Link? ==> "click_id" in r.url.query && r.url.query["click_id"] == clickId
    ensures r.Link? ==> forall k :: k != "click_id" ==>
      (k in r.url.query <==> k in parsed.query) && (k in parsed.query ==> r.url.query[k] == parsed.query[k])
    ensures r.Link? ==> r.url.(query := parsed.query) == parsed
  {
    if refLink == "" then NoLink
    else Link(parsed.(query := parsed.query["click_id" := clickId]))
  }

  /** Building the link again with the click id it already carries changes nothing. */
  lemma RefLinkStable(refLink: string, parsed: Url, clickId: string)
    requires refLink != ""
    ensures BuildRefLinkWithClick(refLink, BuildRefLinkWithClick(refLink, parsed, clickId).url, clickId)
            == BuildRefLinkWithClick(refLink, parsed, clickId)
  {
    var once := BuildRefLinkWithClick(refLink, parsed, clickId).url;
    assert once.query["click_id" := clickId] == once.query;
  }
}

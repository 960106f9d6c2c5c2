/** Runtime settings (app/config.py) and the admin-id helpers built on them. */
module Config {
  import opened Wrappers
  import opened Text

  /** The settings the core reads. BOT_TOKEN, DATABASE_URL, POSTBACK_CHANNEL_ID,
      LOG_CHANNEL_ID and the HTTP host/port only configure I/O and are not kept. */
  datatype Settings = Settings(
    adminId: int,
    adminIdsRaw: Option<string>,
    accessThresholdUsd: real,
    vipThresholdUsd: real,
    requireSubscription: bool,
    requireDeposit: bool,
    subChannelId: Option<int>,
    refLink: string,
    miniappLinkRegular: string,
    miniappLinkVip: string,
    supportUrl: string,
    subChannelsUrl: string,
    postbackHttpSecret: Option<string>)

  /** The declared defaults. */
  function Defaults(): (s: Settings)
    ensures s.accessThresholdUsd == 100.0 && s.vipThresholdUsd == 300.0
    ensures s.requireSubscription && s.requireDeposit
    ensures s.adminId == 0 && s.adminIdsRaw == None && s.subChannelId == None
    ensures s.refLink == "" && s.postbackHttpSecret == None
  {
    Settings(0, None, 100.0, 300.0, true, true, None, "",
             "https://example.com/regular", "https://example.com/vip",
             "https://t.me/", "https://t.me/", None)
  }

  /** What `json.loads` makes of the stripped ADMIN_IDS text: not JSON at all, some JSON
      value that is not a list, or a list with `int(x)` of each element (None where
      `int` raises). The JSON decoder itself is not modelled; the caller supplies it. */
  datatype JsonIds = NotJson | NotAList | JsonList(items: seq<Option<int>>)

  /** The exception `int(p.strip())` raises out of admin_ids on a bad CSV part. */
  datatype ConfigError = InvalidAdminIds

  predicate AllConvert(items: seq<Option<int>>) {
    forall i :: 0 <= i < |items| ==> items[i].Some?
  }

  function Values(items: seq<Option<int>>): (r: seq<int>)
    requires AllConvert(items)
    ensures |r| == |items| && forall i :: 0 <= i < |items| ==> r[i] == items[i].value
  {
    if items == [] then [] else Values(items[..|items| - 1]) + [items[|items| - 1].value]
  }

  /** `ids.extend(int(x) for x in parsed)` appends element by element, so a failing
      element leaves the ones before it in the list. */
  function ConvertedPrefix(items: seq<Option<int>>): seq<int> {
    if items == [] || items[0].None? then [] else [items[0].value] + ConvertedPrefix(items[1..])
  }

  lemma {:induction false} ConvertedPrefixUpTo(items: seq<Option<int>>, i: nat)
    requires i <= |items| && AllConvert(items[..i]) && (i < |items| ==> items[i].None?)
    ensures ConvertedPrefix(items) == Values(items[..i])
    decreases i
  {
    if i == 0 {
    } else {
      assert items[1..][..i - 1] == items[..i][1..];
      assert AllConvert(items[1..][..i - 1]);
      ConvertedPrefixUpTo(items[1..], i - 1);
      assert Values(items[..i]) == [items[0].value] + Values(items[1..][..i - 1]);
    }
  }

  /** The CSV fallback: ';' counts as ',', blank parts are skipped. */
  function CsvParts(raw: string): (parts: seq<string>)
    ensures forall i :: 0 <= i < |parts| ==> Strip(parts[i]) != [] && ',' !in parts[i]
  {
    var ps := Split(ReplaceChar(raw, ';', ','), ',');
    var parts := NonBlank(ps);
    assert forall i :: 0 <= i < |parts| ==> parts[i] in ps && Strip(parts[i]) != [];
    parts
  }

  function NonBlank(ps: seq<string>): (r: seq<string>)
    ensures forall x :: x in r <==> x in ps && Strip(x) != []
  {
    if ps == [] then [] else if Strip(ps[0]) != [] then [ps[0]] + NonBlank(ps[1..]) else NonBlank(ps[1..])
  }

  /** A conversion applied to every part in turn; None as soon as one fails. */
  function ConvertAll(parts: seq<string>, convert: string -> Option<int>): Option<seq<int>>
  {
    if parts == [] then Some([])
    else
      var init, last := parts[..|parts| - 1], parts[|parts| - 1];
      match ConvertAll(init, convert)
        case None => None
        case Some(vs) =>
          match convert(last)
            case None => None
            case Some(v) => Some(vs + [v])
  }

  /** `int(p.strip())` for every part; None as soon as one raises. */
  function ParseAll(parts: seq<string>): Option<seq<int>>
  {
    ConvertAll(parts, ParseInt)
  }

  /** The ids ADMIN_IDS contributes: a JSON list whose elements all convert, otherwise the
      CSV reading of the text (after whatever the JSON elements added before failing). */
  function FromRaw(raw: string, json: JsonIds): Result<seq<int>, ConfigError> {
    if raw == [] then Ok([])
    else if json.JsonList? && AllConvert(json.items) then Ok(Values(json.items))
    else
      var prefix := if json.JsonList? then ConvertedPrefix(json.items) else [];
      match ParseAll(CsvParts(raw))
        case None => Err(InvalidAdminIds)
        case Some(vs) => Ok(prefix + vs)
  }

  /** The `ids` list admin_ids collects before de-duplication, or the error it raises. */
  function CollectedIds(s: Settings, json: JsonIds): Result<seq<int>, ConfigError> {
    match FromRaw(Strip(s.adminIdsRaw.GetOr("")), json)
      case Err(e) => Err(e)
      case Ok(ids) => Ok(if s.adminId > 0 then ids + [s.adminId] else ids)
  }

  /** The set of administrators: the positive collected ids. */
  function AdminIdSet(s: Settings, json: JsonIds): (r: Result<set<int>, ConfigError>)
    ensures r.Ok? <==> CollectedIds(s, json).Ok?
    ensures r.Ok? ==> forall x :: x in r.value <==> x in CollectedIds(s, json).value && x > 0
    ensures r.Ok? && s.adminId > 0 ==> s.adminId in r.value
  {
    match CollectedIds(s, json)
      case Err(e) => Err(e)
      case Ok(ids) => Ok(set x | x in ids && x > 0)
  }

  predicate Increasing(xs: seq<int>) {
    forall i, j :: 0 <= i < j < |xs| ==> xs[i] < xs[j]
  }

  function InsertSorted(xs: seq<int>, x: int): (r: seq<int>)
    requires Increasing(xs) && x !in xs
    ensures Increasing(r) && |r| == |xs| + 1
    ensures forall y :: y in r <==> y in xs || y == x
  {
    if xs == [] then [x]
    else if x < xs[0] then [x] + xs
    else
      var rest := InsertSorted(xs[1..], x);
      assert forall j :: 0 <= j < |rest| ==> xs[0] < rest[j] by {
        forall j | 0 <= j < |rest|
          ensures xs[0] < rest[j]
        {
          assert rest[j] in rest;
        }
      }
      [xs[0]] + rest
  }

  /** `ids.extend(int(x) for x in parsed)`: the converted values, and whether some
      element raised (which sends the text to the CSV reading). */
  method ExtendFromJson(items: seq<Option<int>>) returns (ids: seq<int>, failed: bool)
    ensures failed <==> !AllConvert(items)
    ensures failed ==> ids == ConvertedPrefix(items)
    ensures !failed ==> ids == Values(items)
  {
    ids := [];
    failed := false;
    var i := 0;
    while i < |items|
      invariant 0 <= i <= |items|
      invariant AllConvert(items[..i]) && ids == Values(items[..i])
    {
      if items[i].None? {
        ConvertedPrefixUpTo(items, i);
        return ids, true;
      }
      assert items[..i + 1] == items[..i] + [items[i]];
      ids := ids + [items[i].value];
      i := i + 1;
    }
    assert items[..i] == items;
  }

  /** `ids.extend(int(p.strip()) for p in parts)`, where a failure raises out. */
  method ExtendFromCsv(parts: seq<string>) returns (r: Option<seq<int>>)
    ensures r == ParseAll(parts)
  {
    var ids: seq<int> := [];
    var j := 0;
    while j < |parts|
      invariant 0 <= j <= |parts|
      invariant ConvertAll(parts[..j], ParseInt) == Some(ids)
    {
      ConvertAllStep(parts, j, ParseInt);
      var v := ParseInt(parts[j]);
      if v.None? {
        ConvertAllPrefixFails(parts, j + 1, ParseInt);
        return None;
      }
      ids := ids + [v.value];
      j := j + 1;
    }
    assert parts[..j] == parts;
    return Some(ids);
  }

  /** The JSON-or-CSV reading of the stripped ADMIN_IDS text. */
  method ReadRaw(raw: string, json: JsonIds) returns (r: Result<seq<int>, ConfigError>)
    ensures r == FromRaw(raw, json)
  {
    if raw == [] {
      return Ok([]);
    }
    var prefix: seq<int> := [];
    if json.JsonList? {
      var failed;
      prefix, failed := ExtendFromJson(json.items);
      if !failed {
        return Ok(prefix);
      }
    }
    var csv := ExtendFromCsv(CsvParts(raw));
    if csv.None? {
      return Err(InvalidAdminIds);
    }
    return Ok(prefix + csv.value);
  }

  /** `sorted({i for i in ids if i > 0})`. */
  method SortedPositive(ids: seq<int>) returns (uniq: seq<int>)
    ensures Increasing(uniq)
    ensures forall x :: x in uniq <==> x in ids && x > 0
  {
    uniq := [];
    var k := 0;
    while k < |ids|
      invariant 0 <= k <= |ids|
      invariant Increasing(uniq)
      invariant forall x :: x in uniq <==> x in ids[..k] && x > 0
    {
      assert ids[..k + 1] == ids[..k] + [ids[k]];
      if ids[k] > 0 && ids[k] !in uniq {
        uniq := InsertSorted(uniq, ids[k]);
      }
      k := k + 1;
    }
    assert ids[..k] == ids;
  }

  /** admin_ids(): the administrators as a sorted list without duplicates or
      non-positive ids; a CSV part `int` cannot read raises out. */
  method AdminIds(s: Settings, json: JsonIds) returns (r: Result<seq<int>, ConfigError>)
    ensures r.Err? <==> CollectedIds(s, json).Err?
    ensures r.Ok? ==> Increasing(r.value)
    ensures r.Ok? ==> forall x :: x in r.value <==> x in CollectedIds(s, json).value && x > 0
  {
    var fromRaw := ReadRaw(Strip(s.adminIdsRaw.GetOr("")), json);
    if fromRaw.Err? {
      return Err(fromRaw.error);
    }
    var ids := fromRaw.value;
    if s.adminId > 0 {
      ids := ids + [s.adminId];
    }
    var uniq := SortedPositive(ids);
    return Ok(uniq);
  }

  /** Once a prefix of the parts fails to parse, the whole list fails. */
  /** ConvertAll on one more part: the earlier parts' values, then this part's. */
  lemma ConvertAllStep(parts: seq<string>, j: nat, convert: string -> Option<int>)
    requires j < |parts|
    ensures ConvertAll(parts[..j + 1], convert) ==
      match ConvertAll(parts[..j], convert)
        case None => None
        case Some(vs) => (match convert(parts[j]) case None => None case Some(v) => Some(vs + [v]))
  {
    var p := parts[..j + 1];
    assert p[..|p| - 1] == parts[..j];
    assert p[|p| - 1] == parts[j];
  }

  /** A successful ConvertAll has one value per part. */
  lemma {:induction false} ConvertAllLength(parts: seq<string>, convert: string -> Option<int>)
    requires ConvertAll(parts, convert).Some?
    ensures |ConvertAll(parts, convert).value| == |parts|
    decreases |parts|
  {
    if parts != [] {
      ConvertAllLength(parts[..|parts| - 1], convert);
    }
  }

  /** The i-th value of a successful ConvertAll is the i-th part's. */
  lemma {:induction false} ConvertAllValueAt(parts: seq<string>, i: nat, convert: string -> Option<int>)
    requires i < |parts| && ConvertAll(parts, convert).Some?
    ensures |ConvertAll(parts, convert).value| == |parts|
    ensures convert(parts[i]) == Some(ConvertAll(parts, convert).value[i])
    decreases |parts|
  {
    ConvertAllLength(parts, convert);
    var init, last := parts[..|parts| - 1], parts[|parts| - 1];
    ConvertAllLength(init, convert);
    var all, vs := ConvertAll(parts, convert).value, ConvertAll(init, convert).value;
    assert all == vs + [convert(last).value];
    if i < |init| {
      ConvertAllValueAt(init, i, convert);
      assert init[i] == parts[i] && all[i] == vs[i];
    }
  }

  /** A successful ParseAll holds each part's int() value, in place. */
  lemma ParseAllValues(parts: seq<string>)
    requires ParseAll(parts).Some?
    ensures var vs := ParseAll(parts).value;
      |vs| == |parts| && forall i :: 0 <= i < |parts| ==> ParseInt(parts[i]) == Some(vs[i])
  {
    ConvertAllLength(parts, ParseInt);
    forall i | 0 <= i < |parts|
      ensures ParseInt(parts[i]) == Some(ParseAll(parts).value[i])
    {
      ConvertAllValueAt(parts, i, ParseInt);
    }
  }

  /** When every part converts, ConvertAll succeeds. */
  lemma {:induction false} ConvertAllSucceeds(parts: seq<string>, convert: string -> Option<int>)
    requires forall i :: 0 <= i < |parts| ==> convert(parts[i]).Some?
    ensures ConvertAll(parts, convert).Some?
    decreases |parts|
  {
    if parts != [] {
      var init := parts[..|parts| - 1];
      assert forall i :: 0 <= i < |init| ==> init[i] == parts[i];
      ConvertAllSucceeds(init, convert);
    }
  }

  /** When every part goes through int(), ParseAll succeeds. */
  lemma ParseAllSucceeds(parts: seq<string>)
    requires forall i :: 0 <= i < |parts| ==> ParseInt(parts[i]).Some?
    ensures ParseAll(parts).Some?
  {
    ConvertAllSucceeds(parts, ParseInt);
  }

  /** A failure in a prefix makes the whole ConvertAll fail. */
  lemma {:induction false} ConvertAllPrefixFails(parts: seq<string>, n: nat, convert: string -> Option<int>)
    requires n <= |parts| && ConvertAll(parts[..n], convert).None?
    ensures ConvertAll(parts, convert).None?
    decreases |parts|
  {
    if n < |parts| {
      var init := parts[..|parts| - 1];
      assert init[..n] == parts[..n];
      ConvertAllPrefixFails(init, n, convert);
    } else {
      assert parts[..n] == parts;
    }
  }

  /** One part that int() rejects makes the whole ParseAll fail. */
  lemma ParseAllFailsAt(parts: seq<string>, i: nat)
    requires i < |parts| && ParseInt(parts[i]).None?
    ensures ParseAll(parts).None?
  {
    ConvertAllStep(parts, i, ParseInt);
    ConvertAllPrefixFails(parts, i + 1, ParseInt);
  }

  /** The argument of is_admin: a number, or text that `int()` may or may not read. */
  datatype Uid = IntUid(n: int) | TextUid(t: string)

  function UidValue(uid: Uid): Option<int> {
    match uid
      case IntUid(n) => Some(n)
      case TextUid(t) => ParseInt(t)
  }

  /** is_admin(uid): false for an id `int()` cannot read, otherwise membership in
      admin_ids(), whose error is not caught. */
  function IsAdmin(uid: Uid, s: Settings, json: JsonIds): (r: Result<bool, ConfigError>)
    ensures UidValue(uid).None? ==> r == Ok(false)
    ensures UidValue(uid).Some? ==> (r.Err? <==> CollectedIds(s, json).Err?)
    ensures r == Ok(true) ==> UidValue(uid).Some? && UidValue(uid).value > 0
    ensures UidValue(uid) == Some(s.adminId) && s.adminId > 0 && CollectedIds(s, json).Ok? ==> r == Ok(true)
    ensures UidValue(uid).Some? && CollectedIds(s, json).Ok? ==>
      r == Ok(UidValue(uid).value > 0 && UidValue(uid).value in CollectedIds(s, json).value)
  {
    match UidValue(uid)
      case None => Ok(false)
      case Some(v) =>
        match AdminIdSet(s, json)
          case Err(e) => Err(e)
          case Ok(ids) => Ok(v in ids)
  }

  /** A positive id listed in a CSV-form ADMIN_IDS whose parts all read is an
      administrator, and one missing from both settings is not. */
  lemma CsvListedIsAdmin(n: int, s: Settings, json: JsonIds, vs: seq<int>)
    requires !json.JsonList? && Strip(s.adminIdsRaw.GetOr("")) != ""
    requires ParseAll(CsvParts(Strip(s.adminIdsRaw.GetOr("")))) == Some(vs)
    ensures IsAdmin(IntUid(n), s, json) == Ok(n > 0 && (n in vs || n == s.adminId))
  {
    var raw := Strip(s.adminIdsRaw.GetOr(""));
    assert FromRaw(raw, json) == Ok([] + vs);
    assert [] + vs == vs;
    var ids := if s.adminId > 0 then vs + [s.adminId] else vs;
    assert CollectedIds(s, json) == Ok(ids);
    assert n in ids <==> n in vs || (s.adminId > 0 && n == s.adminId);
  }

  /** The text form of a numeric id is recognised like the number itself. */
  lemma IsAdminTextForm(n: int, s: Settings, json: JsonIds)
    ensures IsAdmin(TextUid(ShowInt(n)), s, json) == IsAdmin(IntUid(n), s, json)
  {
    ParseShowInt(n);
  }
}

/** The admin broadcast wizard (app/routers/admin/broadcast.py): the audience segment
    the admin edits button by button, the audience it selects, the optional link
    button, and the batched send with its counters. */
module AdminBroadcast {
  import opened Wrappers
  import opened Text
  import opened UserModel
  import opened Config
  import opened Access

  /** The four tri-state filter buttons ("bc:cycle:<key>"). */
  datatype FilterKey = KeyRegistered | KeyAccess | KeyVip | KeySubs

  /** The value of a Segment: the languages (empty means all) and four tri-state filters
      (None means any). */
  datatype SegmentValue = SegmentValue(langs: set<string>, registered: Option<bool>, accessOk: Option<bool>,
                                       vip: Option<bool>, subscribed: Option<bool>)

  /** A language chip: the code's membership flips, every other code stays. */
  function Toggled(langs: set<string>, code: string): (r: set<string>)
    ensures code in r <==> code !in langs
    ensures r - {code} == langs - {code}
  {
    if code in langs then langs - {code} else langs + {code}
  }

  lemma ToggleTwiceRestores(langs: set<string>, code: string)
    ensures Toggled(Toggled(langs, code), code) == langs
  {
  }

  /** None -> True -> False -> None. */
  function NextTri(v: Option<bool>): (r: Option<bool>)
    ensures r != v
    ensures v == None <==> r == Some(true)
    ensures v == Some(true) <==> r == Some(false)
  {
    match v
      case None => Some(true)
      case Some(b) => if b then Some(false) else None
  }

  lemma NextTriCycle(v: Option<bool>)
    ensures NextTri(NextTri(NextTri(v))) == v
  {
  }

  function FieldOf(v: SegmentValue, key: FilterKey): Option<bool> {
    match key
      case KeyRegistered => v.registered
      case KeyAccess => v.accessOk
      case KeyVip => v.vip
      case KeySubs => v.subscribed
  }

  /** The evidently intended cycle_filter: the pressed filter moves one step, nothing else
      changes. */
  function Cycled(v: SegmentValue, key: FilterKey): (r: SegmentValue)
    ensures FieldOf(r, key) == NextTri(FieldOf(v, key))
    ensures r.langs == v.langs
    ensures forall other :: other != key ==> FieldOf(r, other) == FieldOf(v, other)
  {
    match key
      case KeyRegistered => v.(registered := NextTri(v.registered))
      case KeyAccess => v.(accessOk := NextTri(v.accessOk))
      case KeyVip => v.(vip := NextTri(v.vip))
      case KeySubs => v.(subscribed := NextTri(v.subscribed))
  }

  /** Three presses of the same filter button restore the segment. */
  lemma {:induction false} CycleThriceRestores(v: SegmentValue, key: FilterKey)
    ensures Cycled(Cycled(Cycled(v, key), key), key) == v
  {
    NextTriCycle(FieldOf(v, key));
  }

  /** cycle_filter as written: the current value is read by attribute name, and the
      access button's name ("access") is not an attribute of Segment (it is access_ok),
      so that press raises before anything is assigned. None stands for the raise. */
  function CycledAsWritten(v: SegmentValue, key: FilterKey): (r: Option<SegmentValue>)
    ensures key != KeyAccess ==> r == Some(Cycled(v, key))
  {
    match key
      case KeyRegistered => Some(v.(registered := NextTri(v.registered)))
      case KeyAccess => None
      case KeyVip => Some(v.(vip := NextTri(v.vip)))
      case KeySubs => Some(v.(subscribed := NextTri(v.subscribed)))
  }

  /** The access filter can never be set through its button as written, while the
      corrected cycle moves it from "any" to "yes". */
  lemma AccessButtonRaises(v: SegmentValue)
    requires v.accessOk == None
    ensures CycledAsWritten(v, KeyAccess) == None
    ensures Cycled(v, KeyAccess).accessOk == Some(true)
  {
  }

  /** The Segment held in the wizard's state and mutated by the buttons. */
  class Segment {
    var langs: set<string>
    var registered: Option<bool>
    var accessOk: Option<bool>
    var vip: Option<bool>
    var subscribed: Option<bool>

    constructor ()
      ensures Value() == SegmentValue({}, None, None, None, None)
    {
      langs := {};
      registered := None;
      accessOk := None;
      vip := None;
      subscribed := None;
    }

    function Value(): SegmentValue
      reads this
    {
      SegmentValue(langs, registered, accessOk, vip, subscribed)
    }

    /** toggle_lang */
    method ToggleLang(code: string)
      modifies this
      ensures Value() == old(Value()).(langs := Toggled(old(langs), code))
    {
      if code in langs {
        langs := langs - {code};
      } else {
        langs := langs + {code};
      }
    }

    /** cycle_filter as the handler runs it: `raised` for the access button, which
        changes nothing; any other button moves its own filter one step. */
    method CycleFilter(key: FilterKey) returns (raised: bool)
      modifies this
      ensures raised <==> key == KeyAccess
      ensures raised ==> Value() == old(Value())
      ensures !raised ==> Value() == Cycled(old(Value()), key)
      ensures CycledAsWritten(old(Value()), key) == (if raised then None else Some(Value()))
    {
      if key == KeyAccess {
        return true;
      }
      var curr := FieldOf(Value(), key);
      var nxt := if curr == None then Some(true) else if curr == Some(true) then Some(false) else None;
      match key {
        case KeySubs => subscribed := nxt;
        case KeyRegistered => registered := nxt;
        case KeyVip => vip := nxt;
      }
      return false;
    }
  }

  /** The WHERE clause of _count_audience/_list_audience for one user. Columns that are
      NOT NULL make the "or IS NULL" alternatives vacuous; a NULL lang is in no list. */
  predicate InAudience(v: SegmentValue, u: User, s: Settings) {
    (v.langs != {} ==> u.lang.Some? && u.lang.value in v.langs)
    && (v.registered == Some(true) ==> u.isRegistered)
    && (v.registered == Some(false) ==> !u.isRegistered)
    && (v.accessOk == Some(true) && s.requireDeposit ==> u.depositTotalUsd >= s.accessThresholdUsd)
    && (v.accessOk == Some(false) ==> s.requireDeposit && u.depositTotalUsd < s.accessThresholdUsd)
    && (v.vip == Some(true) ==> u.depositTotalUsd >= s.vipThresholdUsd || u.hasVip)
    && (v.vip == Some(false) ==> u.depositTotalUsd < s.vipThresholdUsd && !u.hasVip)
    && (v.subscribed == Some(true) ==> u.isSubscribed == Some(true))
    && (v.subscribed == Some(false) ==> u.isSubscribed != Some(true))
  }

  /** The audience filters agree with the funnel: the VIP filter selects exactly the
      users the decision engine treats as VIP, "not registered" exactly those it sends to
      registration once past the subscription gate, and "no access" without a deposit
      requirement selects nobody. */
  lemma AudienceMatchesFunnel(v: SegmentValue, u: User, s: Settings)
    requires v.langs == {} && v.registered == None && v.accessOk == None && v.subscribed == None
    ensures v.vip == Some(true) ==> (InAudience(v, u, s) <==> VipQualified(u, s))
    ensures v.vip == Some(false) ==> (InAudience(v, u, s) <==> !VipQualified(u, s))
    ensures v.vip == None ==> InAudience(v, u, s)
  {
  }

  lemma NoAccessWithoutDepositIsEmpty(v: SegmentValue, u: User, s: Settings)
    requires v.accessOk == Some(false) && !s.requireDeposit
    ensures !InAudience(v, u, s)
  {
  }

  lemma UnregisteredAudienceIsSentToRegistration(v: SegmentValue, u: User, s: Settings)
    requires v.registered == Some(false) && InAudience(v, u, s) && !NeedsSubscription(u, s)
    ensures DecideNextStep(u, s).step == Registration
  {
  }

  function AudienceSet(v: SegmentValue, users: map<int, User>, s: Settings): set<int> {
    set k | k in users && InAudience(v, users[k], s)
  }

  /** _count_audience */
  function CountAudience(v: SegmentValue, users: map<int, User>, s: Settings): (n: nat)
    ensures n <= |users|
  {
    CardinalitySubset(AudienceSet(v, users, s), users.Keys);
    |AudienceSet(v, users, s)|
  }

  lemma CardinalitySubset(a: set<int>, b: set<int>)
    requires a <= b
    ensures |a| <= |b|
  {
    assert b == a + (b - a);
  }

  /** Sets with the same members are equal. */
  lemma SameSet(a: set<int>, b: set<int>)
    requires forall k :: k in a <==> k in b
    ensures a == b
  {
    forall k | k in a ensures k in b { }
    forall k | k in b ensures k in a { }
  }

  /** `rows` lists every user id once, in the table's order (the order the query walks). */
  ghost predicate TableOrder(users: map<int, User>, rows: seq<int>) {
    (forall k :: k in rows <==> k in users)
    && forall i, j :: 0 <= i < j < |rows| ==> rows[i] != rows[j]
  }

  /** The audience members among the rows read so far. */
  function Listed(v: SegmentValue, users: map<int, User>, s: Settings, read: seq<int>): set<int>
    requires forall k :: k in read ==> k in users
  {
    set k | k in read && InAudience(v, users[k], s)
  }

  /** The audience ids among the rows read, in the order read. */
  function AudienceRows(v: SegmentValue, users: map<int, User>, s: Settings, read: seq<int>): seq<int>
    requires forall k :: k in read ==> k in users
  {
    if read == [] then []
    else
      var init, k := read[..|read| - 1], read[|read| - 1];
      assert forall x :: x in init ==> x in read;
      AudienceRows(v, users, s, init) + (if InAudience(v, users[k], s) then [k] else [])
  }

  /** _list_audience: the ids the query returns, in the table's order. */
  method ListAudience(v: SegmentValue, users: map<int, User>, s: Settings, rows: seq<int>) returns (ids: seq<int>)
    requires TableOrder(users, rows)
    ensures forall i, j :: 0 <= i < j < |ids| ==> ids[i] != ids[j]
    ensures forall k :: k in ids <==> k in AudienceSet(v, users, s)
    ensures |ids| == CountAudience(v, users, s)
  {
    ids := [];
    var i := 0;
    while i < |rows|
      invariant 0 <= i <= |rows|
      invariant ids == AudienceRows(v, users, s, rows[..i])
    {
      var k := rows[i];
      assert rows[..i + 1][..i] == rows[..i];
      if InAudience(v, users[k], s) {
        ids := ids + [k];
      }
      i := i + 1;
    }
    assert rows[..i] == rows;
    AudienceRowsFacts(v, users, s, rows, |rows|);
    SameSet(Listed(v, users, s, rows), AudienceSet(v, users, s));
  }

  /** The audience rows of a prefix are its listed set, once each. */
  lemma {:induction false} AudienceRowsFacts(v: SegmentValue, users: map<int, User>, s: Settings, rows: seq<int>, n: nat)
    requires TableOrder(users, rows) && n <= |rows|
    ensures var r := AudienceRows(v, users, s, rows[..n]);
      (forall x :: x in r <==> x in Listed(v, users, s, rows[..n]))
      && (forall p, q :: 0 <= p < q < |r| ==> r[p] != r[q])
      && |r| == |Listed(v, users, s, rows[..n])|
  {
    if n > 0 {
      var k := rows[n - 1];
      AudienceRowsFacts(v, users, s, rows, n - 1);
      ListedStep(v, users, s, rows, n - 1);
      assert rows[..n][..n - 1] == rows[..n - 1];
      var before := AudienceRows(v, users, s, rows[..n - 1]);
      if InAudience(v, users[k], s) {
        DistinctAppend(before, k);
      }
    }
  }

  /** Appending an id not yet listed keeps the list free of repeats. */
  lemma DistinctAppend(ids: seq<int>, k: int)
    requires forall p, q :: 0 <= p < q < |ids| ==> ids[p] != ids[q]
    requires k !in ids
    ensures forall p, q :: 0 <= p < q < |ids + [k]| ==> (ids + [k])[p] != (ids + [k])[q]
  {
  }

  /** Reading one more row adds its id to the listed set exactly when it is in the
      audience, and that id was not listed before. */
  lemma ListedStep(v: SegmentValue, users: map<int, User>, s: Settings, rows: seq<int>, i: nat)
    requires TableOrder(users, rows) && i < |rows|
    ensures rows[i] !in Listed(v, users, s, rows[..i])
    ensures Listed(v, users, s, rows[..i + 1]) ==
      if InAudience(v, users[rows[i]], s) then Listed(v, users, s, rows[..i]) + {rows[i]}
      else Listed(v, users, s, rows[..i])
  {
    var k := rows[i];
    assert rows[..i + 1] == rows[..i] + [k];
    assert k !in rows[..i];
    if InAudience(v, users[k], s) {
      SameSet(Listed(v, users, s, rows[..i + 1]), Listed(v, users, s, rows[..i]) + {k});
    } else {
      SameSet(Listed(v, users, s, rows[..i + 1]), Listed(v, users, s, rows[..i]));
    }
  }

  /** How many of `ids` the oracle reports delivered (`sum(1 for r in results if r is
      True)`). */
  function CountTrue(ids: seq<int>, deliver: int -> bool): (n: nat)
    ensures n <= |ids|
  {
    if ids == [] then 0
    else CountTrue(ids[..|ids| - 1], deliver) + (if deliver(ids[|ids| - 1]) then 1 else 0)
  }

  lemma {:induction false} CountTrueAppend(a: seq<int>, b: seq<int>, deliver: int -> bool)
    ensures CountTrue(a + b, deliver) == CountTrue(a, deliver) + CountTrue(b, deliver)
    decreases |b|
  {
    if b != [] {
      var b' := b[..|b| - 1];
      assert (a + b)[..|a + b| - 1] == a + b';
      CountTrueAppend(a, b', deliver);
    } else {
      assert a + b == a;
    }
  }

  /** Over distinct ids the count is the number of audience members reached. */
  lemma {:induction false} CountTrueDistinct(ids: seq<int>, deliver: int -> bool)
    requires forall i, j :: 0 <= i < j < |ids| ==> ids[i] != ids[j]
    ensures CountTrue(ids, deliver) == |set k | k in ids && deliver(k)|
  {
    if ids != [] {
      var init := ids[..|ids| - 1];
      var last := ids[|ids| - 1];
      CountTrueDistinct(init, deliver);
      assert last !in init;
      var before := set k | k in init && deliver(k);
      assert ids == init + [last];
      if deliver(last) {
        SameSet((set k | k in ids && deliver(k)), before + {last});
      } else {
        SameSet((set k | k in ids && deliver(k)), before);
      }
    }
  }

  const Batch: nat := 25

  datatype BroadcastOutcome =
    | NotAdmin
    | NoText
    | EmptyAudience
    | Finished(total: nat, sent: nat, ok: nat)

  function Min(a: int, b: int): int { if a <= b then a else b }

  /** start_broadcast: only the configured admin, only with a text, only to a non-empty
      audience; the ids go out in chunks of 25 and the counters add up each chunk.
      `deliver` says whether sending to an id succeeds (every failure is caught). */
  method StartBroadcast(callerId: int, s: Settings, v: SegmentValue, text: Option<string>,
                        users: map<int, User>, rows: seq<int>, deliver: int -> bool) returns (out: BroadcastOutcome)
    requires TableOrder(users, rows)
    ensures callerId != s.adminId <==> out == NotAdmin
    ensures callerId == s.adminId && !TruthyText(text) <==> out == NoText
    ensures out == EmptyAudience <==> callerId == s.adminId && TruthyText(text) && CountAudience(v, users, s) == 0
    ensures out.Finished? ==>
      out.total == CountAudience(v, users, s) && out.total > 0
      && out.sent == out.total
      && out.ok == |set k | k in AudienceSet(v, users, s) && deliver(k)|
      && out.ok <= out.total
  {
    if callerId != s.adminId {
      return NotAdmin;
    }
    if !TruthyText(text) {
      return NoText;
    }
    var ids := ListAudience(v, users, s, rows);
    var total := |ids|;
    if total == 0 {
      return EmptyAudience;
    }
    var sent, ok := SendInBatches(ids, deliver);
    CountTrueDistinct(ids, deliver);
    SameSet((set k | k in ids && deliver(k)), set k | k in AudienceSet(v, users, s) && deliver(k));
    return Finished(total, sent, ok);
  }

  /** The send loop: chunks of 25, each adding its size to `sent` and its successes to `ok`. */
  method SendInBatches(ids: seq<int>, deliver: int -> bool) returns (sent: nat, ok: nat)
    ensures sent == |ids|
    ensures ok == CountTrue(ids, deliver)
  {
    var total := |ids|;
    sent, ok := 0, 0;
    var i := 0;
    while i < total
      invariant 0 <= i && sent == Min(i, total)
      invariant ok == CountTrue(ids[..sent], deliver)
      decreases total - i
    {
      var chunk := ids[i..Min(i + Batch, total)];
      CountTrueAppend(ids[..sent], chunk, deliver);
      assert ids[..sent] + chunk == ids[..Min(i + Batch, total)];
      ok := ok + CountTrue(chunk, deliver);
      sent := sent + |chunk|;
      i := i + Batch;
    }
    assert ids[..sent] == ids;
  }

  datatype ButtonInput = NeedsPipe | BadButton | LinkButton(text: string, url: string)

  predicate IsHttpUrl(u: string) {
    StartsWith(u, "http://") || StartsWith(u, "https://")
  }

  /** input_button: "Text | URL", split at the first "|", both halves stripped; the text
      must be non-empty and the URL must start with http:// or https://. */
  function InputButton(raw: Option<string>): (r: ButtonInput)
    ensures r == NeedsPipe <==> '|' !in Strip(raw.GetOr(""))
    ensures r.LinkButton? ==> r.text != "" && '|' !in r.text && IsHttpUrl(r.url)
  {
    var t := Strip(raw.GetOr(""));
    match Find(t, '|')
      case None => NeedsPipe
      case Some(k) =>
        var text := Strip(t[..k]);
        var url := Strip(t[k + 1..]);
        StripInside(t[..k], '|');
        if text == "" || !IsHttpUrl(url) then BadButton else LinkButton(text, url)
  }

  /** A button typed as "text|url" from an already-trimmed text and link is stored as
      exactly that text and link. */
  lemma ButtonReadBack(text: string, url: string)
    requires text != "" && '|' !in text && IsHttpUrl(url)
    requires Strip(text) == text && Strip(url) == url
    ensures InputButton(Some(text + "|" + url)) == LinkButton(text, url)
  {
    var t := text + "|" + url;
    assert |url| >= 7;
    assert !IsSpace(text[0]) && !IsSpace(url[|url| - 1]);
    assert t[0] == text[0] && t[|t| - 1] == url[|url| - 1];
    StripNoSpaceEnds(t);
    FindAfter(text, url, '|');
    assert t[..|text|] == text;
    assert t[|text| + 1..] == url;
  }

  /** The halves of "x|y" around its bar. */
  lemma BarHalves(x: string, y: string)
    ensures (x + "|" + y)[..|x|] == x && (x + "|" + y)[|x| + 1..] == y
  {
  }

  /** When the stripped input is "x|y" with no bar in x, the button is read from x and y. */
  lemma InputButtonAt(raw: string, x: string, y: string)
    requires Strip(raw) == x + "|" + y && '|' !in x
    ensures InputButton(Some(raw)) ==
      if Strip(x) == "" || !IsHttpUrl(Strip(y)) then BadButton else LinkButton(Strip(x), Strip(y))
  {
    FindAfter(x, y, '|');
    BarHalves(x, y);
  }

  /** A button typed as "text|url" in any spacing: the halves around the first "|" are
      stripped, and the input is refused when the text is blank or the link is not http(s). */
  lemma InputButtonParts(a: string, b: string)
    requires '|' !in a
    ensures InputButton(Some(a + "|" + b)) ==
      if Strip(a) == "" || !IsHttpUrl(Strip(b)) then BadButton else LinkButton(Strip(a), Strip(b))
  {
    StripAroundBar(a, b);
    var a1 := LStrip(a);
    assert '|' !in a1 by {
      assert a1 == a[|a| - |a1|..];
    }
    InputButtonAt(a + "|" + b, a1, RStrip(b));
  }

  /** Stripping keeps a character out. */
  lemma {:induction false} StripInside(s: string, c: char)
    requires c !in s
    ensures c !in Strip(s)
    decreases |s|
  {
    if s != [] && IsSpace(s[0]) {
      assert s == [s[0]] + s[1..];
      StripInside(s[1..], c);
    } else if s != [] && IsSpace(s[|s| - 1]) {
      assert s == s[..|s| - 1] + [s[|s| - 1]];
      StripInside(s[..|s| - 1], c);
    }
  }
}

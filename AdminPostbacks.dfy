/** The admin's postback browser (app/routers/admin/postbacks.py): a per-admin filter and
    offset, pages of seven audit rows newest first, and the postback URL templates. */
module AdminPostbacks {
  import opened Wrappers
  import opened Text
  import opened UserModel
  import opened PostbackModel
  import opened PostbackWeb

  datatype PbFilter = All | Reg | Dep

  /** PBState: the filter and the offset of one admin's list. */
  datatype PbState = PbState(flt: PbFilter, offset: int)

  const Page: nat := 7

  const Initial: PbState := PbState(All, 0)

  /** set_filter: "reg" and "dep" select those filters, anything else means "all". */
  function FilterOf(kind: string): (f: PbFilter)
    ensures f == Reg <==> kind == "reg"
    ensures f == Dep <==> kind == "dep"
  {
    if kind == "reg" then Reg else if kind == "dep" then Dep else All
  }

  /** The event condition _load_items adds to the query. */
  predicate Shows(flt: PbFilter, pb: Postback) {
    match flt
      case All => true
      case Reg => pb.event == "registration"
      case Dep => pb.event == "deposit_first" || pb.event == "deposit_repeat" || pb.event == "deposit"
  }

  /** The rows the filter keeps, ordered by descending id (`rows` is the table in
      insertion order). */
  function NewestFirst(rows: seq<Postback>, flt: PbFilter): (r: seq<Postback>)
    ensures |r| <= |rows|
    ensures forall pb :: pb in r <==> pb in rows && Shows(flt, pb)
  {
    if rows == [] then []
    else if Shows(flt, rows[0]) then NewestFirst(rows[1..], flt) + [rows[0]]
    else NewestFirst(rows[1..], flt)
  }

  /** Filtering and reordering keep every id above a lower bound. */
  lemma {:induction false} NewestFirstAbove(rows: seq<Postback>, flt: PbFilter, lo: int)
    requires forall i :: 0 <= i < |rows| ==> rows[i].id > lo
    ensures forall i :: 0 <= i < |NewestFirst(rows, flt)| ==> NewestFirst(rows, flt)[i].id > lo
  {
    if rows != [] {
      NewestFirstAbove(rows[1..], flt, lo);
      var rest := NewestFirst(rows[1..], flt);
      if Shows(flt, rows[0]) {
        var r := rest + [rows[0]];
        assert NewestFirst(rows, flt) == r;
        forall i | 0 <= i < |r|
          ensures r[i].id > lo
        {
          if i < |rest| {
            assert r[i] == rest[i];
          } else {
            assert r[i] == rows[0];
          }
        }
      }
    }
  }

  /** With autoincrement ids the list really is newest first: ids strictly decrease. */
  lemma {:induction false} NewestFirstDecreasing(rows: seq<Postback>, flt: PbFilter)
    requires IdsIncreasing(rows)
    ensures forall i, j :: 0 <= i < j < |NewestFirst(rows, flt)| ==>
      NewestFirst(rows, flt)[i].id > NewestFirst(rows, flt)[j].id
  {
    if rows != [] {
      var tail := rows[1..];
      assert forall i :: 0 <= i < |tail| ==> tail[i] == rows[i + 1];
      NewestFirstDecreasing(tail, flt);
      NewestFirstAbove(tail, flt, rows[0].id);
      var rest := NewestFirst(tail, flt);
      if Shows(flt, rows[0]) {
        var r := rest + [rows[0]];
        assert NewestFirst(rows, flt) == r;
        assert forall i :: 0 <= i < |rest| ==> r[i] == rest[i];
        assert r[|rest|] == rows[0];
      }
    }
  }

  function OffsetOf(st: PbState): nat {
    if st.offset > 0 then st.offset else 0
  }

  /** The items from position o on, at most size of them. */
  function Window<T>(all: seq<T>, o: nat, size: nat): (r: seq<T>)
    ensures |r| <= size
    ensures forall x :: x in r ==> x in all
  {
    if o >= |all| then [] else all[o..if o + size <= |all| then o + size else |all|]
  }

  /** _load_items: filter, newest first, skip max(offset, 0), take seven. */
  function LoadItems(rows: seq<Postback>, st: PbState): (r: seq<Postback>)
    ensures |r| <= Page
    ensures forall pb :: pb in r ==> pb in rows && Shows(st.flt, pb)
  {
    Window(NewestFirst(rows, st.flt), OffsetOf(st), Page)
  }

  /** Position i lies in the window starting at i rounded down to a multiple of size. */
  lemma WindowAt<T>(all: seq<T>, size: nat, i: nat)
    requires i < |all| && size > 0
    ensures var page := Window(all, (i / size) * size, size);
      i % size < |page| && page[i % size] == all[i]
  {
    var o, r := (i / size) * size, i % size;
    assert o + r == i && 0 <= r < size;
  }

  /** Every event the filter keeps is on the page whose offset is its position rounded
      down to a multiple of seven, at its place within that page. */
  lemma PageHolds(rows: seq<Postback>, flt: PbFilter, i: nat)
    requires i < |NewestFirst(rows, flt)|
    ensures var page := LoadItems(rows, PbState(flt, (i / Page) * Page));
      i % Page < |page| && page[i % Page] == NewestFirst(rows, flt)[i]
  {
    WindowAt(NewestFirst(rows, flt), Page, i);
  }

  /** Two neighbouring windows of one size make the window of twice that size. */
  lemma WindowsJoin<T>(all: seq<T>, o: nat, size: nat)
    ensures Window(all, o, size) + Window(all, o + size, size) == Window(all, o, 2 * size)
  {
    if o < |all| && o + size < |all| {
      var hi := if o + 2 * size <= |all| then o + 2 * size else |all|;
      assert all[o..o + size] + all[o + size..hi] == all[o..hi];
    }
  }

  /** Two neighbouring pages continue each other: together they are the next fourteen
      events after the offset. */
  lemma PagesTile(rows: seq<Postback>, flt: PbFilter, o: nat)
    ensures var all := NewestFirst(rows, flt);
      LoadItems(rows, PbState(flt, o)) + LoadItems(rows, PbState(flt, o + Page))
      == if o >= |all| then [] else all[o..if o + 2 * Page <= |all| then o + 2 * Page else |all|]
  {
    WindowsJoin(NewestFirst(rows, flt), o, Page);
  }

  /** A short page is the last one: the next page is empty. */
  lemma ShortPageIsLast(rows: seq<Postback>, st: PbState)
    requires st.offset >= 0 && |LoadItems(rows, st)| < Page
    ensures LoadItems(rows, st.(offset := st.offset + Page)) == []
  {
  }

  /** nav_next and nav_prev on one state. */
  function NextState(st: PbState): (r: PbState)
    ensures r.flt == st.flt && r.offset == st.offset + Page
  {
    st.(offset := st.offset + Page)
  }

  function PrevState(st: PbState): (r: PbState)
    ensures r.flt == st.flt && r.offset >= 0
    ensures st.offset >= Page ==> r.offset == st.offset - Page
    ensures st.offset < Page ==> r.offset == 0
  {
    st.(offset := if st.offset - Page > 0 then st.offset - Page else 0)
  }

  /** "Prev" undoes "Next". */
  lemma PrevUndoesNext(st: PbState)
    requires st.offset >= 0
    ensures PrevState(NextState(st)) == st
  {
  }

  /** `_state.setdefault(admin, PBState())` read without storing. */
  function StateOf(states: map<int, PbState>, admin: int): PbState {
    if admin in states then states[admin] else Initial
  }

  /** The module-level `_state` dict: one list state per admin. */
  class PbPanel {
    var states: map<int, PbState>

    /** Offsets only ever move by whole pages from zero. */
    ghost predicate Valid()
      reads this
    {
      forall a :: a in states ==> states[a].offset >= 0 && states[a].offset % Page == 0
    }

    constructor()
      ensures Valid() && states == map[]
    {
      states := map[];
    }

    /** open_list: reset this admin's state, then render. */
    method OpenList(admin: int, rows: seq<Postback>) returns (items: seq<Postback>)
      requires Valid()
      modifies this
      ensures Valid()
      ensures states == old(states)[admin := Initial]
      ensures items == LoadItems(rows, Initial)
    {
      states := states[admin := Initial];
      items := LoadItems(rows, states[admin]);
    }

    /** set_filter: the chosen filter from the first page. */
    method SetFilter(admin: int, kind: string, rows: seq<Postback>) returns (items: seq<Postback>)
      requires Valid()
      modifies this
      ensures Valid()
      ensures states == old(states)[admin := PbState(FilterOf(kind), 0)]
      ensures items == LoadItems(rows, states[admin])
    {
      var st := StateOf(states, admin);
      states := states[admin := st.(flt := FilterOf(kind), offset := 0)];
      items := LoadItems(rows, states[admin]);
    }

    /** nav_prev: back one page, never below zero. */
    method NavPrev(admin: int, rows: seq<Postback>) returns (items: seq<Postback>)
      requires Valid()
      modifies this
      ensures Valid()
      ensures states == old(states)[admin := PrevState(StateOf(old(states), admin))]
      ensures items == LoadItems(rows, states[admin])
    {
      var st := StateOf(states, admin);
      var o := st.offset - Page;
      if o < 0 {
        o := 0;
      }
      states := states[admin := st.(offset := o)];
      items := LoadItems(rows, states[admin]);
    }

    /** nav_next: forward one page (even past the end, which shows an empty list). */
    method NavNext(admin: int, rows: seq<Postback>) returns (items: seq<Postback>)
      requires Valid()
      modifies this
      ensures Valid()
      ensures states == old(states)[admin := NextState(StateOf(old(states), admin))]
      ensures items == LoadItems(rows, states[admin])
    {
      var st := StateOf(states, admin);
      states := states[admin := st.(offset := st.offset + Page)];
      items := LoadItems(rows, states[admin]);
    }

    /** refresh: render again; only the setdefault can change the state. */
    method Refresh(admin: int, rows: seq<Postback>) returns (items: seq<Postback>)
      requires Valid()
      modifies this
      ensures Valid()
      ensures states == old(states)[admin := StateOf(old(states), admin)]
      ensures items == LoadItems(rows, StateOf(old(states), admin))
    {
      var st := StateOf(states, admin);
      states := states[admin := st];
      items := LoadItems(rows, st);
    }
  }

  /** _safe_uid: the row's tg_id when it is truthy, else "-". */
  function SafeUid(pb: Postback): (r: string)
    ensures r == "-" <==> pb.tgId.None? || pb.tgId.value == 0
  {
    if pb.tgId.Some? && pb.tgId.value != 0 then ShowInt(pb.tgId.value) else "-"
  }

  /** The uid column reads back as the row's tg_id. */
  lemma SafeUidReadBack(pb: Postback)
    requires SafeUid(pb) != "-"
    ensures ParseInt(SafeUid(pb)) == pb.tgId
  {
    ParseShowInt(pb.tgId.value);
  }

  /** _safe_amount: "$" and two decimals (`money`) for a truthy amount_usd; a missing or
      zero amount makes float(None) fail, which prints "-". */
  function SafeAmount(pb: Postback, money: real -> string): (r: string)
    ensures pb.amountUsd.Some? && pb.amountUsd.value != 0.0 ==> r == "$" + money(pb.amountUsd.value)
    ensures pb.amountUsd.None? || pb.amountUsd.value == 0.0 ==> r == "-"
  {
    if pb.amountUsd.Some? && pb.amountUsd.value != 0.0 then "$" + money(pb.amountUsd.value) else "-"
  }

  /** _safe_ts: the table has none of the created_* columns, so the `or` chain ends on ts
      itself, which is printed whenever it is present (a zero ts prints "0"). */
  function SafeTs(pb: Postback): (r: string)
    ensures r == "-" <==> pb.ts.None?
  {
    if pb.ts.Some? then ShowInt(pb.ts.value) else "-"
  }

  /** The time column reads back as the row's ts, zero included. */
  lemma SafeTsReadBack(pb: Postback)
    requires pb.ts.Some?
    ensures ParseInt(SafeTs(pb)) == pb.ts
  {
    ParseShowInt(pb.ts.value);
  }

  /** The secret written into the URL templates. */
  function CfgSecret(secret: Option<string>): (r: string)
    ensures r != ""
    ensures TruthyText(secret) ==> r == secret.value
  {
    if secret.Some? && secret.value != "" then secret.value else "YOUR_SECRET"
  }

  /** The three templates _cfg_text shows. */
  datatype CfgKind = RegistrationUrl | FirstDepositUrl | RepeatDepositUrl

  function EventName(k: CfgKind): string {
    match k
      case RegistrationUrl => "registration"
      case FirstDepositUrl => "deposit_first"
      case RepeatDepositUrl => "deposit_repeat"
  }

  /** The query of one template's URL, macros left as written. */
  function CfgQuery(secret: Option<string>, k: CfgKind): map<string, string> {
    if k == RegistrationUrl then
      map["secret" := CfgSecret(secret), "event" := EventName(k),
          "trader_id" := "{trader_id}", "click_id" := "{click_id}"]
    else
      map["secret" := CfgSecret(secret), "event" := EventName(k),
          "trader_id" := "{trader_id}", "sumdep" := "{amount}"]
  }

  /** A secret that query decoding gives back unchanged when it is pasted into a URL
      without encoding: no separator, no escape, no '+' and no whitespace. */
  predicate QuerySafe(t: string) {
    forall i :: 0 <= i < |t| ==> t[i] !in "&#+%" && !IsSpace(t[i])
  }

  /** The secret in the templates passes the receiver's gate. */
  lemma CfgSecretPasses(secret: Option<string>, k: CfgKind)
    requires secret.Some? ==> QuerySafe(secret.value)
    ensures !SecretRejects(Request(Get, CfgQuery(secret, k), None), secret)
  {
    assert Lookup(CfgQuery(secret, k), "secret") == Some(CfgSecret(secret));
    if Strip(secret.GetOr("")) != "" {
      assert TruthyText(secret);
    }
  }

  /** An event name already stripped and in lower case normalises to itself. */
  lemma NormalEvent(e: string)
    requires KnownEvent(e) && Strip(e) == e && ToLower(e) == e
    ensures NormalizeEvent(e) == Some(e)
  {
  }

  /** Each template's event name normalises to itself. */
  lemma EventNameNormal(k: CfgKind)
    ensures NormalizeEvent(EventName(k)) == Some(EventName(k))
  {
    var e := EventName(k);
    StripNoSpaceEnds(e);
    ToLowerKeeps(e);
    NormalEvent(e);
  }

  /** The URLs shown to the admin, for a secret that survives the unencoded paste, pass
      the receiver's secret gate and are accepted as the event they are for. */
  lemma CfgUrlAccepted(secret: Option<string>, k: CfgKind, showFloat: real -> string)
    requires secret.Some? ==> QuerySafe(secret.value)
    ensures ParsePostback(Request(Get, CfgQuery(secret, k), None), secret, showFloat)
      == Accepted(PayloadOf(CfgQuery(secret, k), EventName(k), showFloat))
  {
    var q := CfgQuery(secret, k);
    assert Params(Request(Get, q, None)) == q;
    CfgSecretPasses(secret, k);
    assert Lookup(q, "event") == Some(EventName(k));
    EventNameNormal(k);
  }

  /** The accepted payload names the partner's trader macro as the trader id. */
  lemma CfgUrlTrader(secret: Option<string>, k: CfgKind, showFloat: real -> string)
    ensures PayloadOf(CfgQuery(secret, k), EventName(k), showFloat).traderId == Some("{trader_id}")
  {
    assert FirstTruthy(CfgQuery(secret, k), ["trader_id", "trader", "account"]) == Some("{trader_id}");
    StripNoSpaceEnds("{trader_id}");
  }
}

/** The admin's user browser (app/routers/admin/users.py): pages of ten users newest
    first, the list keyboard, the header counters, and the one-shot search. */
module AdminUsers {
  import opened Wrappers
  import opened Text
  import opened UserModel
  import opened Config
  import opened Access
  import opened PostbackService
  import opened AdminBroadcast

  const PerPage: nat := 10

  /** `max(0, (page - 1) * per_page)` */
  function Offset(page: int): (o: nat)
    ensures page >= 1 ==> o == (page - 1) * PerPage
    ensures page < 1 ==> o == 0
  {
    if (page - 1) * PerPage > 0 then (page - 1) * PerPage else 0
  }

  /** _get_users_page: `newest` is the table ordered by created_at descending; the page
      is the run of at most ten rows from the offset on. */
  function UsersPage(newest: seq<User>, page: int): (r: seq<User>)
    ensures |r| <= PerPage
    ensures Offset(page) < |newest| <==> r != []
    ensures forall i :: 0 <= i < |r| ==> Offset(page) + i < |newest| && r[i] == newest[Offset(page) + i]
    ensures Offset(page) + PerPage <= |newest| ==> |r| == PerPage
  {
    var o := Offset(page);
    if o >= |newest| then [] else newest[o..if o + PerPage <= |newest| then o + PerPage else |newest|]
  }

  /** Every user is listed: row i is on page i / 10 + 1 at position i % 10. */
  lemma EveryUserHasAPage(newest: seq<User>, i: nat)
    requires i < |newest|
    ensures var page := UsersPage(newest, i / PerPage + 1);
      i % PerPage < |page| && page[i % PerPage] == newest[i]
  {
  }

  /** paginate: the page shown and its rows; an empty page after the first steps back
      once. */
  function Paginate(newest: seq<User>, page: int): (r: (int, seq<User>))
    ensures r.1 == UsersPage(newest, r.0)
    ensures r.0 == page || (r.0 == page - 1 && page > 1 && UsersPage(newest, page) == [])
    ensures UsersPage(newest, page) != [] || page <= 1 ==> r.0 == page
  {
    var rows := UsersPage(newest, page);
    if rows == [] && page > 1 then (page - 1, UsersPage(newest, page - 1)) else (page, rows)
  }

  /** "Next" on the last page lands back on the last page. */
  lemma NextOnLastPageStays(newest: seq<User>, page: int)
    requires page >= 1 && newest != []
    requires UsersPage(newest, page) != [] && Offset(page) + PerPage >= |newest|
    ensures Paginate(newest, page + 1) == (page, UsersPage(newest, page))
  {
  }

  /** The step back is a single page: past the end by two pages or more, the list shown
      is still empty. */
  lemma FarPastTheEndStaysEmpty(newest: seq<User>, page: int)
    requires page >= 2 && (page - 2) * PerPage >= |newest|
    ensures Paginate(newest, page).1 == []
  {
  }

  /** The outcome of _find_user_by_query: a user id, nothing, or the ValueError that
      int() raises out of the handler. */
  datatype Search = FoundUser(id: int) | NothingFound | Raised

  /** `q.lstrip("-").isdigit()` for ASCII digits. */
  predicate DigitTest(q: string) {
    var t := LStripChar(q, '-');
    t != [] && AllDigits(t)
  }

  /** str.lstrip(c): drop every leading c. */
  function LStripChar(s: string, c: char): (r: string)
    ensures |r| <= |s| && r == s[|s| - |r|..]
    ensures r != [] ==> r[0] != c
    ensures forall i :: 0 <= i < |s| - |r| ==> s[i] == c
  {
    if s != [] && s[0] == c then LStripChar(s[1..], c) else s
  }

  /** An "@" name that get_chat resolves to a truthy id of a stored user. */
  predicate NamedUser(users: map<int, User>, q: string, resolve: string -> Option<int>) {
    StartsWith(q, "@") && resolve(q).Some? && resolve(q).value != 0 && resolve(q).value in users
  }

  /** The lookups after the tg-id attempt: click id, then trader id, then an "@" name
      through `resolve` (get_chat; None when it raises or finds no chat), whose id is
      looked up once more. */
  function FindRest(users: map<int, User>, q: string, resolve: string -> Option<int>): (r: Search)
    requires Constraints(users)
    ensures r != Raised
    ensures ClickOwner(users, q).Some? ==> r == FoundUser(ClickOwner(users, q).value)
    ensures ClickOwner(users, q).None? && TraderOwner(users, q).Some? ==> r == FoundUser(TraderOwner(users, q).value)
    ensures ClickOwner(users, q).None? && TraderOwner(users, q).None? && NamedUser(users, q, resolve)
      ==> r == FoundUser(resolve(q).value)
    ensures r == NothingFound <==>
      ClickOwner(users, q).None? && TraderOwner(users, q).None? && !NamedUser(users, q, resolve)
    ensures r.FoundUser? ==> r.id in users
  {
    match ClickOwner(users, q)
      case Some(k) => FoundUser(k)
      case None =>
        match TraderOwner(users, q)
          case Some(k) => FoundUser(k)
          case None =>
            if NamedUser(users, q, resolve) then FoundUser(resolve(q).value)
            else NothingFound
  }

  /** The values a 64-bit signed INTEGER column parameter can carry. */
  predicate InInt64(n: int) {
    -0x8000_0000_0000_0000 <= n < 0x8000_0000_0000_0000
  }

  /** _find_user_by_query as written: a query passing the digit test goes to int(),
      which raises for more than one leading "-", and then to session.get, whose
      database driver raises when binding an id outside the 64-bit range. */
  function FindUserByQueryAsWritten(users: map<int, User>, query: string, resolve: string -> Option<int>): (r: Search)
    requires Constraints(users)
  {
    var q := Strip(query);
    if DigitTest(q) then
      match ParseInt(q)
        case None => Raised
        case Some(n) =>
          if !InInt64(n) then Raised
          else if n in users then FoundUser(n) else FindRest(users, q, resolve)
    else FindRest(users, q, resolve)
  }

  /** A shown id needs no stripping and passes the digit test. */
  lemma ShownIdIsDigits(id: int)
    ensures Strip(ShowInt(id)) == ShowInt(id) && DigitTest(ShowInt(id))
  {
    var q := ShowInt(id);
    StripNoSpaceEnds(q);
    if id < 0 {
      assert q == [q[0]] + q[1..];
      assert LStripChar(q, '-') == LStripChar(q[1..], '-');
      assert q[1..] != [] && q[1..][0] != '-';
    }
  }

  /** An id typed beyond the 64-bit range, such as "99999999999999999999", makes the
      written search raise, whatever the other identifiers would have found. */
  lemma HugeIdRaises(users: map<int, User>, id: int, resolve: string -> Option<int>)
    requires Constraints(users) && !InInt64(id)
    ensures FindUserByQueryAsWritten(users, ShowInt(id), resolve) == Raised
  {
    ShownIdIsDigits(id);
    ParseShowInt(id);
  }

  /** Two minus signs and then digits pass the digit test, and int() rejects them. */
  lemma DoubleMinusFacts(q: string)
    requires |q| >= 3 && q[0] == '-' && q[1] == '-' && AllDigits(q[2..])
    ensures DigitTest(q) && ParseInt(q).None?
  {
    DoubleMinusStrips(q);
    DoubleMinusNoInt(q);
  }

  lemma DoubleMinusStrips(q: string)
    requires |q| >= 3 && q[0] == '-' && q[1] == '-' && AllDigits(q[2..])
    ensures LStripChar(q, '-') == q[2..]
  {
    var digits := q[2..];
    assert digits[0] != '-' by { assert digits[0] == q[2] && IsDigit(digits[0]); }
    assert LStripChar(digits, '-') == digits;
    var rest := q[1..];
    assert rest[0] == '-' && rest[1..] == digits;
    assert LStripChar(rest, '-') == digits;
  }

  lemma DoubleMinusNoInt(q: string)
    requires |q| >= 3 && q[0] == '-' && q[1] == '-' && AllDigits(q[2..])
    ensures ParseInt(q).None?
  {
    assert !IsSpace(q[0]) && IsDigit(q[|q| - 1]);
    StripNoSpaceEnds(q);
    assert SplitSign(q).1 == q[1..];
    assert !IsDigit(q[1..][0]);
  }

  /** A query like "--5" passes the digit test and makes the written search raise. */
  lemma DoubleMinusRaises(users: map<int, User>, query: string, resolve: string -> Option<int>)
    requires Constraints(users)
    requires var q := Strip(query); |q| >= 3 && q[0] == '-' && q[1] == '-' && AllDigits(q[2..])
    ensures FindUserByQueryAsWritten(users, query, resolve) == Raised
  {
    DoubleMinusFacts(Strip(query));
  }

  /** "--5", or two minus signs before any one digit, is such a query. */
  lemma DoubleMinusDigit(users: map<int, User>, d: char, resolve: string -> Option<int>)
    requires Constraints(users) && IsDigit(d)
    ensures FindUserByQueryAsWritten(users, ['-', '-', d], resolve) == Raised
  {
    var q := ['-', '-', d];
    assert !IsSpace(q[0]) && !IsSpace(q[2]);
    StripNoSpaceEnds(q);
    assert q[2..] == [d];
    DoubleMinusRaises(users, q, resolve);
  }

  /** The evidently intended search: the tg-id attempt only for text int() accepts,
      anything else falls through to the other identifiers. */
  function FindUserByQuery(users: map<int, User>, query: string, resolve: string -> Option<int>): (r: Search)
    requires Constraints(users)
    ensures r != Raised
    ensures r.FoundUser? ==> r.id in users
    ensures ParseInt(Strip(query)).Some? && ParseInt(Strip(query)).value in users && DigitTest(Strip(query))
      ==> r == FoundUser(ParseInt(Strip(query)).value)
    ensures !(ParseInt(Strip(query)).Some? && ParseInt(Strip(query)).value in users && DigitTest(Strip(query)))
      ==> r == FindRest(users, Strip(query), resolve)
  {
    var q := Strip(query);
    if DigitTest(q) && ParseInt(q).Some? && ParseInt(q).value in users then FoundUser(ParseInt(q).value)
    else FindRest(users, q, resolve)
  }

  /** The two agree wherever the written search does not raise. */
  lemma SearchAgreesUnlessRaised(users: map<int, User>, query: string, resolve: string -> Option<int>)
    requires Constraints(users)
    requires FindUserByQueryAsWritten(users, query, resolve) != Raised
    ensures FindUserByQuery(users, query, resolve) == FindUserByQueryAsWritten(users, query, resolve)
  {
    var q := Strip(query);
    if DigitTest(q) {
      assert ParseInt(q).Some?;
    }
  }

  /** Searching for a user's tg id, as the card shows it, finds that user. */
  lemma SearchByShownId(users: map<int, User>, id: int, resolve: string -> Option<int>)
    requires Constraints(users) && id in users
    ensures FindUserByQuery(users, ShowInt(id), resolve) == FoundUser(id)
  {
    ShownIdIsDigits(id);
    ParseShowInt(id);
  }

  /** A click id held by exactly one user finds that user, unless the text also names a
      user by tg id. */
  lemma SearchByClickId(users: map<int, User>, k: int, resolve: string -> Option<int>)
    requires Constraints(users) && k in users && users[k].clickId.Some?
    requires var c := users[k].clickId.value;
      Strip(c) == c && !(DigitTest(c) && ParseInt(c).Some? && ParseInt(c).value in users)
    ensures FindUserByQuery(users, users[k].clickId.value, resolve) == FoundUser(k)
  {
    var c := users[k].clickId.value;
    assert ClickOwner(users, c).Some?;
  }

  /** One inline button. */
  datatype Button = Button(text: string, data: string)

  const SearchButton := Button("\U{1F50D} Поиск", "users:search")
  const MenuButton := Button("\U{1F3E0} В меню", "admin:back")

  /** The parts of one list entry: the id, the upper-cased language or "-", the whole
      dollars when the deposit is positive, and the crown. */
  datatype Entry = Entry(id: int, langLabel: string, dollars: Option<int>, crown: bool)

  function EntryOf(u: User, s: Settings): (e: Entry)
    ensures e.id == u.id
    ensures e.crown <==> VipQualified(u, s)
    ensures e.dollars.Some? <==> u.depositTotalUsd > 0.0
    ensures e.dollars.Some? ==> 0 <= e.dollars.value && e.dollars.value as real <= u.depositTotalUsd < e.dollars.value as real + 1.0
    ensures TruthyText(u.lang) ==> e.langLabel == ToUpper(u.lang.value)
    ensures !TruthyText(u.lang) ==> e.langLabel == "-"
  {
    Entry(u.id,
          if TruthyText(u.lang) then ToUpper(u.lang.value) else "-",
          if u.depositTotalUsd > 0.0 then Some(u.depositTotalUsd.Floor) else None,
          u.hasVip || u.depositTotalUsd >= s.vipThresholdUsd)
  }

  function EntryText(e: Entry): string {
    ShowInt(e.id) + " • " + e.langLabel
    + (if e.dollars.Some? then " • $" + ShowInt(e.dollars.value) else "")
    + (if e.crown then " \U{1F451}" else "")
  }

  /** "users:open:<id>:<page>" */
  function OpenData(id: int, page: int): string {
    Join(["users", "open", ShowInt(id), ShowInt(page)], ':')
  }

  function EntryButton(u: User, page: int, s: Settings): Button {
    Button(EntryText(EntryOf(u, s)), OpenData(u.id, page))
  }

  /** The entry buttons, one per user, in list order. */
  function Entries(users: seq<User>, page: int, s: Settings): (r: seq<Button>)
    ensures |r| == |users|
    ensures forall i :: 0 <= i < |users| ==> r[i] == EntryButton(users[i], page, s)
  {
    if users == [] then [] else [EntryButton(users[0], page, s)] + Entries(users[1..], page, s)
  }

  /** Rows of two, the last one possibly single. */
  function Pairs(bs: seq<Button>): seq<seq<Button>>
  {
    if |bs| <= 2 then (if bs == [] then [] else [bs]) else [bs[..2]] + Pairs(bs[2..])
  }

  /** Pairing n buttons makes n / 2 rows, rounded up. */
  lemma {:induction false} PairsCount(bs: seq<Button>)
    ensures |Pairs(bs)| == (|bs| + 1) / 2
    decreases |bs|
  {
    if |bs| > 2 {
      PairsCount(bs[2..]);
    }
  }

  function Flatten(rows: seq<seq<Button>>): seq<Button> {
    if rows == [] then [] else rows[0] + Flatten(rows[1..])
  }

  /** The rows hold the buttons, in order. */
  lemma {:induction false} PairsFlatten(bs: seq<Button>)
    ensures Flatten(Pairs(bs)) == bs
    decreases |bs|
  {
    if |bs| > 2 {
      PairsFlatten(bs[2..]);
      assert Pairs(bs) == [bs[..2]] + Pairs(bs[2..]);
      assert (Pairs(bs))[1..] == Pairs(bs[2..]);
      assert bs == bs[..2] + bs[2..];
    } else if bs != [] {
      assert Flatten([bs]) == bs + Flatten([]);
    }
  }

  /** Every row holds one or two buttons. */
  lemma {:induction false} PairsRowSizes(bs: seq<Button>)
    ensures forall i :: 0 <= i < |Pairs(bs)| ==> 1 <= |Pairs(bs)[i]| <= 2
    decreases |bs|
  {
    if |bs| > 2 {
      PairsRowSizes(bs[2..]);
      assert Pairs(bs) == [bs[..2]] + Pairs(bs[2..]);
    }
  }

  /** An even run of buttons fills whole rows. */
  lemma {:induction false} PairsAppend(a: seq<Button>, b: seq<Button>)
    requires |a| % 2 == 0
    ensures Pairs(a + b) == Pairs(a) + Pairs(b)
    decreases |a|
  {
    var ab := a + b;
    if a == [] {
      assert ab == b;
    } else if b == [] {
      assert ab == a;
    } else {
      assert ab[..2] == a[..2];
      assert ab[2..] == a[2..] + b;
      assert Pairs(ab) == [a[..2]] + Pairs(a[2..] + b);
      PairsAppend(a[2..], b);
      if |a| == 2 {
        assert a[..2] == a && a[2..] == [];
      } else {
        assert Pairs(a) == [a[..2]] + Pairs(a[2..]);
      }
    }
  }

  /** Two more buttons after an even run make one more row. */
  lemma PairsStep(bs: seq<Button>, j: nat)
    requires j % 2 == 0 && j + 2 <= |bs|
    ensures Pairs(bs[..j + 2]) == Pairs(bs[..j]) + [bs[j..j + 2]]
  {
    PairsAppend(bs[..j], bs[j..j + 2]);
    assert bs[..j] + bs[j..j + 2] == bs[..j + 2];
  }

  /** One last button after an even run makes a single-button row. */
  lemma PairsLast(bs: seq<Button>, j: nat)
    requires j % 2 == 0 && j + 1 == |bs|
    ensures Pairs(bs) == Pairs(bs[..j]) + [bs[j..]]
  {
    PairsAppend(bs[..j], bs[j..]);
    assert bs[..j] + bs[j..] == bs;
  }

  function BackButton(page: int): Button { Button("⬅️ Назад", "users:page:" + ShowInt(page - 1)) }
  function PageButton(page: int): Button { Button("Стр. " + ShowInt(page), "users:noop") }
  function ForwardButton(page: int): Button { Button("Вперёд ➡️", "users:page:" + ShowInt(page + 1)) }

  /** The navigation row: "back" only after the first page, the page label, and
      "forward" always. */
  function NavRow(page: int): (r: seq<Button>)
  {
    (if page > 1 then [BackButton(page)] else []) + [PageButton(page), ForwardButton(page)]
  }

  /** "Back" is offered exactly after the first page, "forward" always, last. */
  lemma NavRowButtons(page: int)
    ensures BackButton(page) in NavRow(page) <==> page > 1
    ensures NavRow(page)[|NavRow(page)| - 1] == ForwardButton(page)
  {
    var b := BackButton(page);
    assert b.text[0] != PageButton(page).text[0];
    assert b.text[0] != ForwardButton(page).text[0];
  }

  /** _kb_users_list: the search row, the entries two per row, navigation, and the way
      back to the menu. */
  method KbUsersList(users: seq<User>, page: int, s: Settings) returns (kb: seq<seq<Button>>)
    ensures kb == [[SearchButton]] + Pairs(Entries(users, page, s)) + [NavRow(page), [MenuButton]]
  {
    var entries := Entries(users, page, s);
    var rows := PairUp(entries);
    kb := [[SearchButton]] + rows + [NavRow(page)] + [[MenuButton]];
  }

  /** The `buf` loop of _kb_users_list: buttons gathered two at a time into rows. */
  method PairUp(entries: seq<Button>) returns (rows: seq<seq<Button>>)
    ensures rows == Pairs(entries)
  {
    rows := [];
    var buf: seq<Button> := [];
    var i := 0;
    while i < |entries|
      invariant 0 <= i <= |entries|
      invariant |buf| <= 1 && 2 * |rows| + |buf| == i
      invariant buf == entries[2 * |rows|..i]
      invariant rows == Pairs(entries[..2 * |rows|])
    {
      buf := buf + [entries[i]];
      if |buf| == 2 {
        var j := 2 * |rows|;
        PairsStep(entries, j);
        assert buf == entries[j..j + 2];
        rows := rows + [buf];
        buf := [];
      }
      i := i + 1;
    }
    if buf != [] {
      PairsLast(entries, 2 * |rows|);
      assert buf == entries[2 * |rows|..];
      rows := rows + [buf];
    } else {
      assert entries[..2 * |rows|] == entries;
    }
  }

  /** The entry buttons of the keyboard are exactly the page's users, in order. */
  lemma KeyboardListsThePage(users: seq<User>, page: int, s: Settings)
    ensures Flatten(Pairs(Entries(users, page, s))) == Entries(users, page, s)
  {
    PairsFlatten(Entries(users, page, s));
  }

  /** open_user_card's reading of the callback data: four ":"-parts, the last two
      through int(). */
  function OpenTarget(data: string): (r: Option<(int, int)>) {
    var parts := Split(data, ':');
    if |parts| != 4 then None
    else match (ParseInt(parts[2]), ParseInt(parts[3]))
      case (Some(uid), Some(page)) => Some((uid, page))
      case _ => None
  }

  /** A list button opens the card of its own user and remembers its page. */
  lemma OpenDataReadBack(id: int, page: int)
    ensures OpenTarget(OpenData(id, page)) == Some((id, page))
  {
    ShowIntHasNo(id, ':');
    ShowIntHasNo(page, ':');
    var parts := ["users", "open", ShowInt(id), ShowInt(page)];
    assert ':' !in parts[0] && ':' !in parts[1];
    JoinSplit(parts, ':');
    ParseShowInt(id);
    ParseShowInt(page);
  }

  /** _get_counters (without the deposit sum). */
  datatype Counters = Counters(total: nat, registered: nat, accessOk: nat, vip: nat, subscribed: nat)

  function CountersOf(users: map<int, User>, s: Settings): (c: Counters)
    ensures c.total == |users|
    ensures !s.requireDeposit ==> c.accessOk == c.total
    ensures c.registered <= c.total && c.accessOk <= c.total && c.vip <= c.total && c.subscribed <= c.total
  {
    var reg := set k | k in users && users[k].isRegistered;
    var acc := set k | k in users && users[k].depositTotalUsd >= s.accessThresholdUsd;
    var vip := set k | k in users && (users[k].hasVip || users[k].depositTotalUsd >= s.vipThresholdUsd);
    var sub := set k | k in users && users[k].isSubscribed == Some(true);
    CardinalitySubset(reg, users.Keys);
    CardinalitySubset(acc, users.Keys);
    CardinalitySubset(vip, users.Keys);
    CardinalitySubset(sub, users.Keys);
    Counters(|users|, |reg|, if s.requireDeposit then |acc| else |users|, |vip|, |sub|)
  }

  /** The header counts the same users the broadcast filters select: "access", "VIP",
      "registered" and "subscribed", each alone. */
  lemma CountersMatchAudience(users: map<int, User>, s: Settings)
    ensures CountersOf(users, s).accessOk == CountAudience(SegmentValue({}, None, Some(true), None, None), users, s)
    ensures CountersOf(users, s).vip == CountAudience(SegmentValue({}, None, None, Some(true), None), users, s)
    ensures CountersOf(users, s).registered == CountAudience(SegmentValue({}, Some(true), None, None, None), users, s)
    ensures CountersOf(users, s).subscribed == CountAudience(SegmentValue({}, None, None, None, Some(true)), users, s)
  {
    var accessOnly := SegmentValue({}, None, Some(true), None, None);
    var vipOnly := SegmentValue({}, None, None, Some(true), None);
    var regOnly := SegmentValue({}, Some(true), None, None, None);
    var acc := set k | k in users && users[k].depositTotalUsd >= s.accessThresholdUsd;
    var vip := set k | k in users && (users[k].hasVip || users[k].depositTotalUsd >= s.vipThresholdUsd);
    var reg := set k | k in users && users[k].isRegistered;
    if s.requireDeposit {
      SameSet(AudienceSet(accessOnly, users, s), acc);
    } else {
      SameSet(AudienceSet(accessOnly, users, s), users.Keys);
    }
    SameSet(AudienceSet(vipOnly, users, s), vip);
    SameSet(AudienceSet(regOnly, users, s), reg);
    var subOnly := SegmentValue({}, None, None, None, Some(true));
    var sub := set k | k in users && users[k].isSubscribed == Some(true);
    SameSet(AudienceSet(subOnly, users, s), sub);
  }

  /** The `_pending_search` set: admins who were asked for a query. */
  class SearchDesk {
    var pending: set<int>

    constructor()
      ensures pending == {}
    {
      pending := {};
    }

    /** search_prompt */
    method Prompt(admin: int)
      modifies this
      ensures pending == old(pending) + {admin}
    {
      pending := pending + {admin};
    }

    /** search_catcher: a message from someone not asked is ignored (None); otherwise the
        prompt is used up before the lookup runs. */
    method Catch(from: int, text: Option<string>, users: map<int, User>, resolve: string -> Option<int>)
      returns (r: Option<Search>)
      requires Constraints(users)
      modifies this
      ensures from !in old(pending) ==> r.None? && pending == old(pending)
      ensures from in old(pending) ==>
        pending == old(pending) - {from} && r == Some(FindUserByQuery(users, Strip(text.GetOr("")), resolve))
      ensures var q := Strip(text.GetOr(""));
        from in old(pending) && FindUserByQueryAsWritten(users, q, resolve) != Raised
        ==> r == Some(FindUserByQueryAsWritten(users, q, resolve))
    {
      if from !in pending {
        return None;
      }
      pending := pending - {from};
      var q := Strip(text.GetOr(""));
      r := Some(FindUserByQuery(users, q, resolve));
      if FindUserByQueryAsWritten(users, q, resolve) != Raised {
        SearchAgreesUnlessRaised(users, q, resolve);
      }
    }
  }

  /** Each prompt serves one query: a second message after a catch is ignored. */
  method CatchTwice(desk: SearchDesk, from: int, a: Option<string>, b: Option<string>,
                    users: map<int, User>, resolve: string -> Option<int>)
    returns (first: Option<Search>, second: Option<Search>)
    requires Constraints(users) && from in desk.pending
    modifies desk
    ensures first.Some? && second.None?
    ensures from !in desk.pending
  {
    first := desk.Catch(from, a, users, resolve);
    second := desk.Catch(from, b, users, resolve);
  }
}

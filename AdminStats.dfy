/** The admin statistics page (app/routers/admin/stats.py): user counts over the `users`
    table, postback counts and the deposit sum over a time window of the `postbacks`
    table, and the window length read from the range button. The clock is the parameter
    `now` (whole seconds). */
module AdminStats {
  import opened Wrappers
  import opened Text
  import opened UserModel
  import opened PostbackModel
  import opened Config
  import opened Access
  import opened PostbackService
  import opened AdminBroadcast
  import opened AdminUsers

  const DaySeconds: int := 86400
  const DefaultDays: int := 7
  const RangePrefix: string := "astats:range:"

  /* ---------- users ---------- */

  function TotalUsers(users: map<int, User>): nat { |users| }

  /** Users with a language chosen (`lang IS NOT NULL`, an empty string counts). */
  function ChosenLangUsers(users: map<int, User>): (n: nat)
    ensures n <= TotalUsers(users)
  {
    var chosen := set k | k in users && users[k].lang.Some?;
    CardinalitySubset(chosen, users.Keys);
    |chosen|
  }

  function RegisteredUsers(users: map<int, User>): (n: nat)
    ensures n <= TotalUsers(users)
  {
    var reg := set k | k in users && users[k].isRegistered;
    CardinalitySubset(reg, users.Keys);
    |reg|
  }

  /** The deposit query when deposits are required, everyone otherwise. */
  function AccessUsers(users: map<int, User>, s: Settings): (n: nat)
    ensures n <= TotalUsers(users)
    ensures !s.requireDeposit ==> n == TotalUsers(users)
  {
    if s.requireDeposit then
      var acc := set k | k in users && users[k].depositTotalUsd >= s.accessThresholdUsd;
      CardinalitySubset(acc, users.Keys);
      |acc|
    else
      |users|
  }

  /** Deposit up to the VIP threshold, or the sticky flag. */
  function VipUsers(users: map<int, User>, s: Settings): (n: nat)
    ensures n <= TotalUsers(users)
  {
    var vip := set k | k in users && (users[k].depositTotalUsd >= s.vipThresholdUsd || users[k].hasVip);
    CardinalitySubset(vip, users.Keys);
    |vip|
  }

  /** The access count is the number of users the access gate lets through. */
  lemma AccessCountIsGate(users: map<int, User>, s: Settings)
    ensures AccessUsers(users, s) == |set k | k in users && HasRegularAccess(users[k], s)|
  {
    var gate := set k | k in users && HasRegularAccess(users[k], s);
    if s.requireDeposit {
      SameSet(gate, set k | k in users && users[k].depositTotalUsd >= s.accessThresholdUsd);
    } else {
      SameSet(gate, users.Keys);
    }
  }

  /** The VIP count is the number of users the VIP branch of the funnel opens for. */
  lemma VipCountIsFunnel(users: map<int, User>, s: Settings)
    ensures VipUsers(users, s) == |set k | k in users && VipQualified(users[k], s)|
  {
    SameSet(set k | k in users && VipQualified(users[k], s),
            set k | k in users && (users[k].depositTotalUsd >= s.vipThresholdUsd || users[k].hasVip));
  }

  /** The stats page and the users screen's header count the same users. */
  lemma StatsMatchUsersScreen(users: map<int, User>, s: Settings)
    ensures RegisteredUsers(users) == CountersOf(users, s).registered
    ensures AccessUsers(users, s) == CountersOf(users, s).accessOk
    ensures VipUsers(users, s) == CountersOf(users, s).vip
  {
    SameSet(set k | k in users && (users[k].hasVip || users[k].depositTotalUsd >= s.vipThresholdUsd),
            set k | k in users && (users[k].depositTotalUsd >= s.vipThresholdUsd || users[k].hasVip));
  }

  /** With the VIP threshold at or above the access threshold, everyone VIP by amount is
      also counted as having access. */
  lemma VipByAmountHasAccess(users: map<int, User>, s: Settings)
    requires s.accessThresholdUsd <= s.vipThresholdUsd
    ensures |set k | k in users && users[k].depositTotalUsd >= s.vipThresholdUsd| <= AccessUsers(users, s)
  {
    var byAmount := set k | k in users && users[k].depositTotalUsd >= s.vipThresholdUsd;
    if s.requireDeposit {
      CardinalitySubset(byAmount, set k | k in users && users[k].depositTotalUsd >= s.accessThresholdUsd);
    } else {
      CardinalitySubset(byAmount, users.Keys);
    }
  }

  /** The sum of deposit_total_usd over the table, walked in `rows` order; an empty table
      sums to 0 (the coalesce). */
  function DepositSum(users: map<int, User>, rows: seq<int>): (r: real)
    requires forall i :: 0 <= i < |rows| ==> rows[i] in users
    ensures rows == [] ==> r == 0.0
  {
    if rows == [] then 0.0 else DepositSum(users, rows[..|rows| - 1]) + users[rows[|rows| - 1]].depositTotalUsd
  }

  /** Nobody's deposit is negative, so neither is the sum, and each user's deposit is part of it. */
  lemma {:induction false} DepositSumCovers(users: map<int, User>, rows: seq<int>, i: nat)
    requires forall j :: 0 <= j < |rows| ==> rows[j] in users
    requires forall k :: k in users ==> users[k].depositTotalUsd >= 0.0
    requires i < |rows|
    ensures DepositSum(users, rows) >= users[rows[i]].depositTotalUsd
    decreases |rows|
  {
    var init := rows[..|rows| - 1];
    DepositSumNonNegative(users, init);
    if i < |rows| - 1 {
      DepositSumCovers(users, init, i);
    }
  }

  lemma {:induction false} DepositSumNonNegative(users: map<int, User>, rows: seq<int>)
    requires forall j :: 0 <= j < |rows| ==> rows[j] in users
    requires forall k :: k in users ==> users[k].depositTotalUsd >= 0.0
    ensures DepositSum(users, rows) >= 0.0
    decreases |rows|
  {
    if rows != [] {
      DepositSumNonNegative(users, rows[..|rows| - 1]);
    }
  }

  /* ---------- postbacks ---------- */

  /** since_ts: `days` days before now. */
  function SinceTs(now: int, days: int): (since: int)
    ensures days >= 0 ==> since <= now
    ensures since + days * DaySeconds == now
  {
    now - days * DaySeconds
  }

  /** The window filter: a stored ts at or after since (rows without ts never count). */
  predicate InWindow(p: Postback, since: int) {
    p.ts.Some? && p.ts.value >= since
  }

  /** Which postbacks a counter takes: all, registrations, or the three deposit kinds. */
  datatype EventFilter = AnyEvent | RegistrationEvent | DepositEvent

  predicate Takes(f: EventFilter, event: string) {
    match f
      case AnyEvent => true
      case RegistrationEvent => event == "registration"
      case DepositEvent => IsDepositKind(event)
  }

  /** count(*) of the postbacks in the window that the filter takes. */
  function PbCount(rows: seq<Postback>, since: int, f: EventFilter): (n: nat)
    ensures n <= |rows|
    ensures n == 0 <==> forall i :: 0 <= i < |rows| ==> !(InWindow(rows[i], since) && Takes(f, rows[i].event))
  {
    if rows == [] then 0
    else
      var last := rows[|rows| - 1];
      PbCount(rows[..|rows| - 1], since, f) + (if InWindow(last, since) && Takes(f, last.event) then 1 else 0)
  }

  /** coalesce(sum(amount_usd), 0) over the deposits in the window; NULL amounts add nothing. */
  function PbDepositSum(rows: seq<Postback>, since: int): (r: real)
    ensures PbCount(rows, since, DepositEvent) == 0 ==> r == 0.0
  {
    if rows == [] then 0.0
    else
      var last := rows[|rows| - 1];
      PbDepositSum(rows[..|rows| - 1], since)
        + (if InWindow(last, since) && IsDepositKind(last.event) then last.amountUsd.GetOr(0.0) else 0.0)
  }

  /** Registrations and deposits are disjoint parts of all events in the window. */
  lemma {:induction false} RegistrationsAndDepositsWithinTotal(rows: seq<Postback>, since: int)
    ensures PbCount(rows, since, RegistrationEvent) + PbCount(rows, since, DepositEvent)
      <= PbCount(rows, since, AnyEvent)
  {
    if rows != [] {
      RegistrationsAndDepositsWithinTotal(rows[..|rows| - 1], since);
    }
  }

  /** A wider window counts at least as many postbacks. */
  lemma {:induction false} WiderWindowCountsMore(rows: seq<Postback>, since1: int, since2: int, f: EventFilter)
    requires since1 <= since2
    ensures PbCount(rows, since2, f) <= PbCount(rows, since1, f)
  {
    if rows != [] {
      WiderWindowCountsMore(rows[..|rows| - 1], since1, since2, f);
    }
  }

  /** The 30-day button counts at least what the 7-day button counts. */
  lemma MoreDaysCountMore(rows: seq<Postback>, now: int, days1: int, days2: int, f: EventFilter)
    requires days1 <= days2
    ensures PbCount(rows, SinceTs(now, days1), f) <= PbCount(rows, SinceTs(now, days2), f)
  {
    WiderWindowCountsMore(rows, SinceTs(now, days2), SinceTs(now, days1), f);
  }

  /** The rows the postback handler writes carry no ts, so they never enter the counts or
      the sum. */
  lemma AuditRowsNeverCounted(rows: seq<Postback>, p: Payload, id: int, since: int, f: EventFilter)
    ensures PbCount(rows + [AuditRow(p, id)], since, f) == PbCount(rows, since, f)
    ensures PbDepositSum(rows + [AuditRow(p, id)], since) == PbDepositSum(rows, since)
  {
    assert (rows + [AuditRow(p, id)])[..|rows|] == rows;
  }

  /** Corollary: a table filled only by the postback handler shows zero postbacks. */
  lemma {:induction false} HandlerOnlyTableShowsNothing(rows: seq<Postback>, since: int, f: EventFilter)
    requires forall i :: 0 <= i < |rows| ==> rows[i].ts == None
    ensures PbCount(rows, since, f) == 0
    ensures PbDepositSum(rows, since) == 0.0
  {
  }

  /* ---------- range button ---------- */

  /** range_stats: the part after the second ':' as an int, 7 when it is not one. */
  function RangeDays(data: string): (days: int)
    requires |data| >= |RangePrefix| && data[..|RangePrefix|] == RangePrefix
  {
    match ParseInt(data[|RangePrefix|..])
      case Some(n) => n
      case None => DefaultDays
  }

  /** The range buttons' data reads back as their day count. */
  lemma RangeReadBack(n: int)
    ensures RangeDays(RangePrefix + ShowInt(n)) == n
  {
    var data := RangePrefix + ShowInt(n);
    assert data[..|RangePrefix|] == RangePrefix;
    assert data[|RangePrefix|..] == ShowInt(n);
    ParseShowInt(n);
  }

  /** A suffix that is not a number falls back to a week. */
  lemma RangeFallsBack(suffix: string)
    requires ParseInt(suffix).None?
    ensures RangeDays(RangePrefix + suffix) == DefaultDays
  {
    var data := RangePrefix + suffix;
    assert data[|RangePrefix|..] == suffix;
  }
}

/** The access funnel (app/services/users.py): which screen a user sees next, given
    their record and the current settings. */
module Access {
  import opened Wrappers
  import opened UserModel
  import opened Config

  datatype Step = Subscription | Registration | Deposit | AccessOkOnce | VipOnce | OpenRegular | OpenVip

  datatype AccessDecision = AccessDecision(step: Step, vip: bool, needAmount: real, haveAmount: real)

  function Plain(step: Step): AccessDecision { AccessDecision(step, false, 0.0, 0.0) }
  function Vip(step: Step): AccessDecision { AccessDecision(step, true, 0.0, 0.0) }

  function MaxReal(a: real, b: real): real { if a >= b then a else b }

  /** _has_regular_access: deposited up to the access threshold, or deposits not required. */
  predicate HasRegularAccess(u: User, s: Settings) {
    u.depositTotalUsd >= s.accessThresholdUsd || !s.requireDeposit
  }

  /** _has_vip_access: deposited up to the VIP threshold. */
  predicate HasVipAccess(u: User, s: Settings) {
    u.depositTotalUsd >= s.vipThresholdUsd
  }

  /** The subscription gate is closed: required and not confirmed (None counts as no). */
  predicate NeedsSubscription(u: User, s: Settings) {
    s.requireSubscription && u.isSubscribed != Some(true)
  }

  /** Both gates passed. */
  predicate PastGates(u: User, s: Settings) {
    !NeedsSubscription(u, s) && u.isRegistered
  }

  /** VIP by amount or by the sticky flag. */
  predicate VipQualified(u: User, s: Settings) {
    HasVipAccess(u, s) || u.hasVip
  }

  /** decide_next_step: subscription, then registration, then deposit; VIP before regular;
      each one-shot window until its latch is set, the open step afterwards. */
  function DecideNextStep(u: User, s: Settings): (r: AccessDecision)
    ensures r.step == Subscription <==> NeedsSubscription(u, s)
    ensures r.step == Registration <==> !NeedsSubscription(u, s) && !u.isRegistered
    ensures r.step == VipOnce <==> PastGates(u, s) && VipQualified(u, s) && !u.shownVipAccessOnce
    ensures r.step == OpenVip <==> PastGates(u, s) && VipQualified(u, s) && u.shownVipAccessOnce
    ensures r.step == AccessOkOnce <==>
      PastGates(u, s) && !VipQualified(u, s) && HasRegularAccess(u, s) && !u.shownRegularAccessOnce
    ensures r.step == OpenRegular <==>
      PastGates(u, s) && !VipQualified(u, s) && HasRegularAccess(u, s) && u.shownRegularAccessOnce
    ensures r.step == Deposit <==> PastGates(u, s) && !VipQualified(u, s) && !HasRegularAccess(u, s)
    ensures r.step == Deposit ==> s.requireDeposit
    ensures r.vip <==> r.step in {VipOnce, OpenVip}
    ensures r.step == Deposit ==>
      r.needAmount == s.accessThresholdUsd - u.depositTotalUsd && r.needAmount > 0.0
      && r.haveAmount == u.depositTotalUsd
    ensures r.step != Deposit ==> r.needAmount == 0.0 && r.haveAmount == 0.0
  {
    if s.requireSubscription && !(u.isSubscribed == Some(true)) then Plain(Subscription)
    else if !u.isRegistered then Plain(Registration)
    else if s.requireDeposit then
      var total := u.depositTotalUsd;
      if total >= s.vipThresholdUsd || u.hasVip then
        if !u.shownVipAccessOnce then Vip(VipOnce) else Vip(OpenVip)
      else if total >= s.accessThresholdUsd then
        if !u.shownRegularAccessOnce then Plain(AccessOkOnce) else Plain(OpenRegular)
      else
        var need := MaxReal(s.accessThresholdUsd - total, 0.0);
        AccessDecision(Deposit, false, need, total)
    else if HasVipAccess(u, s) || u.hasVip then
      if !u.shownVipAccessOnce then Vip(VipOnce) else Vip(OpenVip)
    else if !u.shownRegularAccessOnce then Plain(AccessOkOnce)
    else Plain(OpenRegular)
  }

  /** mark_regular_once_shown: sets the regular one-shot latch and nothing else. */
  function MarkRegularOnceShown(u: User): (r: User)
    ensures r.shownRegularAccessOnce
    ensures r.(shownRegularAccessOnce := u.shownRegularAccessOnce) == u
  {
    u.(shownRegularAccessOnce := true)
  }

  /** mark_vip_once_shown: sets the VIP one-shot latch and nothing else. */
  function MarkVipOnceShown(u: User): (r: User)
    ensures r.shownVipAccessOnce
    ensures r.(shownVipAccessOnce := u.shownVipAccessOnce) == u
  {
    u.(shownVipAccessOnce := true)
  }

  /** Setting the VIP latch turns a pending "vip_once" into "open_vip" and changes no
      other decision: the VIP window is shown at most once. */
  lemma MarkVipSettles(u: User, s: Settings)
    ensures DecideNextStep(MarkVipOnceShown(u), s) ==
      (if DecideNextStep(u, s).step == VipOnce then Vip(OpenVip) else DecideNextStep(u, s))
  {
  }

  /** Setting the regular latch turns a pending "access_ok_once" into "open_regular" and
      changes no other decision. */
  lemma MarkRegularSettles(u: User, s: Settings)
    ensures DecideNextStep(MarkRegularOnceShown(u), s) ==
      (if DecideNextStep(u, s).step == AccessOkOnce then Plain(OpenRegular) else DecideNextStep(u, s))
  {
  }

  /** A freshly created record is always stopped at the first gate. */
  lemma FreshUserGated(id: int, s: Settings)
    ensures DecideNextStep(NewUser(id), s).step == (if s.requireSubscription then Subscription else Registration)
  {
  }

  /** How far along the funnel a step is. */
  function Rank(step: Step): nat {
    match step
      case Subscription => 0
      case Registration => 1
      case Deposit => 2
      case AccessOkOnce => 3
      case OpenRegular => 3
      case VipOnce => 4
      case OpenVip => 4
  }

  /** More money (and a VIP flag that is never cleared) never moves a user back down
      the funnel. */
  lemma DepositMonotone(u: User, total: real, hasVip: bool, s: Settings)
    requires total >= u.depositTotalUsd && (u.hasVip ==> hasVip)
    ensures Rank(DecideNextStep(u.(depositTotalUsd := total, hasVip := hasVip), s).step)
            >= Rank(DecideNextStep(u, s).step)
  {
  }
}

/** The admin settings screen (app/routers/admin/settings.py): the two requirement
    toggles, the per-admin "waiting for a value" map, and saving the typed value into the
    live settings. */
module AdminSettings {
  import opened Wrappers
  import opened Text
  import opened Config

  /** The settings an admin can type a new value for. */
  datatype SettingKey =
    | SubChannelId
    | AccessThreshold
    | VipThreshold
    | RefLinkKey
    | MiniappRegular
    | MiniappVip
    | SupportUrlKey
    | SubChannelsUrlKey

  /** The reply to a typed value: none at all (no pending key), "saved", or the error
      message of a failed conversion. */
  datatype SaveReply = NotAsked | Saved | ConversionFailed

  /** float(raw.replace(",", ".")) */
  function ThresholdOf(raw: string): Option<real> {
    ParseDecimal(ReplaceChar(raw, ',', '.'))
  }

  /** The setattr a typed value makes, or None where the conversion raises. */
  function Assign(s: Settings, key: SettingKey, raw: string): (r: Option<Settings>)
    ensures key == AccessThreshold ==>
      r == (if ThresholdOf(raw).Some? then Some(s.(accessThresholdUsd := ThresholdOf(raw).value)) else None)
    ensures key == VipThreshold ==>
      r == (if ThresholdOf(raw).Some? then Some(s.(vipThresholdUsd := ThresholdOf(raw).value)) else None)
    ensures key == SubChannelId ==>
      r == (if ParseInt(raw).Some? then Some(s.(subChannelId := ParseInt(raw))) else None)
    ensures key !in {AccessThreshold, VipThreshold, SubChannelId} ==> r.Some?
  {
    match key
      case AccessThreshold =>
        (match ThresholdOf(raw)
          case Some(v) => Some(s.(accessThresholdUsd := v))
          case None => None)
      case VipThreshold =>
        (match ThresholdOf(raw)
          case Some(v) => Some(s.(vipThresholdUsd := v))
          case None => None)
      case SubChannelId =>
        (match ParseInt(raw)
          case Some(n) => Some(s.(subChannelId := Some(n)))
          case None => None)
      case RefLinkKey => Some(s.(refLink := raw))
      case MiniappRegular => Some(s.(miniappLinkRegular := raw))
      case MiniappVip => Some(s.(miniappLinkVip := raw))
      case SupportUrlKey => Some(s.(supportUrl := raw))
      case SubChannelsUrlKey => Some(s.(subChannelsUrl := raw))
  }

  /** The value a text key holds. */
  function TextOf(s: Settings, key: SettingKey): string
    requires key !in {AccessThreshold, VipThreshold, SubChannelId}
  {
    match key
      case RefLinkKey => s.refLink
      case MiniappRegular => s.miniappLinkRegular
      case MiniappVip => s.miniappLinkVip
      case SupportUrlKey => s.supportUrl
      case SubChannelsUrlKey => s.subChannelsUrl
  }

  /** A text setting reads back what was typed, and the flags, thresholds and channel
      stay as they were. */
  lemma TextKeyReadBack(s: Settings, key: SettingKey, raw: string)
    requires key !in {AccessThreshold, VipThreshold, SubChannelId}
    ensures var t := Assign(s, key, raw).value;
      TextOf(t, key) == raw
      && t.requireSubscription == s.requireSubscription && t.requireDeposit == s.requireDeposit
      && t.accessThresholdUsd == s.accessThresholdUsd && t.vipThresholdUsd == s.vipThresholdUsd
      && t.subChannelId == s.subChannelId
  {
  }

  /** A whole number of dollars typed as a threshold is stored as that amount. */
  lemma ThresholdReadBack(s: Settings, n: int)
    ensures Assign(s, AccessThreshold, ShowInt(n)) == Some(s.(accessThresholdUsd := n as real))
    ensures Assign(s, VipThreshold, ShowInt(n)) == Some(s.(vipThresholdUsd := n as real))
  {
    var t := ShowInt(n);
    ShowIntHasNo(n, ',');
    assert ReplaceChar(t, ',', '.') == t;
    ParseDecimalOfInt(n);
  }

  /** A decimal comma is read as a point: "1,5" is stored as 1.5, like "1.5". */
  lemma CommaIsPoint(whole: string, frac: string)
    requires AllDigits(whole) && AllDigits(frac) && |whole| + |frac| >= 1
    ensures ThresholdOf(whole + "," + frac) == Some(DigitsValue(whole) as real + FractionValue(frac))
    ensures ThresholdOf(whole + "." + frac) == Some(DigitsValue(whole) as real + FractionValue(frac))
  {
    var dotted := whole + "." + frac;
    assert ReplaceChar(whole + "," + frac, ',', '.') == dotted;
    assert ReplaceChar(dotted, ',', '.') == dotted;
    ParseDecimalOfParts(whole, frac);
  }

  /** A channel id typed as a number is stored as that id. */
  lemma ChannelReadBack(s: Settings, n: int)
    ensures Assign(s, SubChannelId, ShowInt(n)) == Some(s.(subChannelId := Some(n)))
  {
    ParseShowInt(n);
  }

  function WithSubToggled(s: Settings): (t: Settings)
    ensures t.requireSubscription == !s.requireSubscription
    ensures t.(requireSubscription := s.requireSubscription) == s
  {
    s.(requireSubscription := !s.requireSubscription)
  }

  function WithDepToggled(s: Settings): (t: Settings)
    ensures t.requireDeposit == !s.requireDeposit
    ensures t.(requireDeposit := s.requireDeposit) == s
  {
    s.(requireDeposit := !s.requireDeposit)
  }

  /** Pressing a toggle twice restores the settings. */
  lemma TogglesAreInvolutions(s: Settings)
    ensures WithSubToggled(WithSubToggled(s)) == s
    ensures WithDepToggled(WithDepToggled(s)) == s
  {
  }

  /** The live settings object and `_pending`. */
  class SettingsPanel {
    var settings: Settings
    var pending: map<int, SettingKey>

    constructor(s: Settings)
      ensures settings == s && pending == map[]
    {
      settings := s;
      pending := map[];
    }

    /** toggle_sub */
    method ToggleSub()
      modifies this
      ensures settings == WithSubToggled(old(settings)) && pending == old(pending)
    {
      settings := settings.(requireSubscription := !settings.requireSubscription);
    }

    /** toggle_dep */
    method ToggleDep()
      modifies this
      ensures settings == WithDepToggled(old(settings)) && pending == old(pending)
    {
      settings := settings.(requireDeposit := !settings.requireDeposit);
    }

    /** _ask: the admin's next message is for this key, whatever was asked before. */
    method Ask(admin: int, key: SettingKey)
      modifies this
      ensures pending == old(pending)[admin := key] && settings == old(settings)
    {
      pending := pending[admin := key];
    }

    /** save_value: the key is popped first; without one nothing happens; a failed
        conversion leaves the settings as they were. */
    method SaveValue(admin: int, text: Option<string>) returns (reply: SaveReply)
      modifies this
      ensures pending == old(pending) - {admin}
      ensures admin !in old(pending) ==> reply == NotAsked && settings == old(settings)
      ensures admin in old(pending) ==>
        var r := Assign(old(settings), old(pending)[admin], Strip(text.GetOr("")));
        (r.Some? ==> reply == Saved && settings == r.value)
        && (r.None? ==> reply == ConversionFailed && settings == old(settings))
    {
      if admin !in pending {
        return NotAsked;
      }
      var key := pending[admin];
      pending := pending - {admin};
      var raw := Strip(text.GetOr(""));
      match Assign(settings, key, raw) {
        case Some(t) =>
          settings := t;
          reply := Saved;
        case None =>
          reply := ConversionFailed;
      }
    }
  }

  /** A failed value uses up the question: the next message is not taken as a value. */
  method FailedValueIsNotRetried(panel: SettingsPanel, admin: int, bad: Option<string>, next: Option<string>)
    returns (first: SaveReply, second: SaveReply)
    requires admin in panel.pending
    modifies panel
    ensures second == NotAsked
    ensures first == ConversionFailed ==> panel.settings == old(panel.settings)
  {
    first := panel.SaveValue(admin, bad);
    second := panel.SaveValue(admin, next);
  }
}

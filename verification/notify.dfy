/** The decision part of `send_email_notification` in utils.py: the guards that return
    before any mail is built, and the address list handed to the transport. The SMTP
    session itself is an opaque success flag. */
module Notify {
  import opened Common
  import opened Config

  /** The `recipients` argument: a single address string or a list of addresses. */
  datatype Recipients = OneAddress(address: string) | AddressList(addresses: seq<string>)

  /** Python falsiness of `recipients`: the empty string or the empty list. */
  predicate NoAddresses(r: Recipients) {
    match r
    case OneAddress(a) => a == ""
    case AddressList(l) => l == []
  }

  /** A single string becomes a one-element list; a list is used as given. */
  function Normalise(r: Recipients): seq<string> {
    match r
    case OneAddress(a) => [a]
    case AddressList(l) => l
  }

  /** Where a send attempt stops. `SenderUnpackError` is the exception raised when the
      default sender is `None` and cannot be unpacked into name and address. */
  datatype Step =
    | MailDisabled
    | ConfigIncomplete
    | NoRecipients
    | Transmit(to: seq<string>)
    | SenderUnpackError

  /** Sender address, password and server are all set. */
  predicate MailConfigured(s: Settings) {
    && s.defaultSender.Some?
    && s.defaultSender.value.address != ""
    && Truthy(s.mailPassword)
    && s.mailServer != ""
  }

  /** The guards in the order utils.py runs them, including the unpacking of the default
      sender before the incomplete-configuration guard. */
  function PlanSendAsWritten(s: Settings, r: Recipients): (st: Step)
    ensures st == SenderUnpackError <==> s.mailEnabled && s.defaultSender.None?
    ensures st != SenderUnpackError ==> st == PlanSend(s, r)
  {
    if !s.mailEnabled then MailDisabled
    else if s.defaultSender.None? then SenderUnpackError
    else if s.defaultSender.value.address == "" || !Truthy(s.mailPassword) || s.mailServer == "" then ConfigIncomplete
    else if NoAddresses(r) then NoRecipients
    else Transmit(Normalise(r))
  }

  /** The guards as evidently intended: a missing default sender counts as an incomplete
      configuration, so every guard ends in a `False` return and never in an exception. */
  function PlanSend(s: Settings, r: Recipients): (st: Step)
    ensures !st.SenderUnpackError?
    ensures !s.mailEnabled ==> st == MailDisabled
    ensures s.mailEnabled && !MailConfigured(s) ==> st == ConfigIncomplete
    ensures s.mailEnabled && MailConfigured(s) && NoAddresses(r) ==> st == NoRecipients
    ensures st.Transmit? <==> s.mailEnabled && MailConfigured(s) && !NoAddresses(r)
    ensures st.Transmit? ==> st.to == Normalise(r) && |st.to| > 0
  {
    if !s.mailEnabled then MailDisabled
    else if !MailConfigured(s) then ConfigIncomplete
    else if NoAddresses(r) then NoRecipients
    else Transmit(Normalise(r))
  }

  /** `send_email_notification`: true only when every guard passed and the transport
      (`delivered`) reported success. */
  function SendEmailNotification(s: Settings, r: Recipients, delivered: bool): (sent: bool)
    ensures sent ==> s.mailEnabled && MailConfigured(s) && !NoAddresses(r)
    ensures !s.mailEnabled || !MailConfigured(s) || NoAddresses(r) ==> !sent
    ensures s.mailEnabled && MailConfigured(s) && !NoAddresses(r) ==> sent == delivered
  {
    PlanSend(s, r).Transmit? && delivered
  }

  /** A single non-empty address is sent to as a one-element list, and a list is passed
      on unchanged, once mail is on and configured. */
  lemma SingleAddressIsNormalised(s: Settings, a: string, l: seq<string>)
    requires s.mailEnabled && MailConfigured(s)
    ensures a != "" ==> PlanSend(s, OneAddress(a)) == Transmit([a])
    ensures a == "" ==> PlanSend(s, OneAddress(a)) == NoRecipients
    ensures l != [] ==> PlanSend(s, AddressList(l)) == Transmit(l)
  {
  }

  /** The two guard orders agree whenever a default sender exists or mail is off. */
  lemma AsWrittenAgreesWithSender(s: Settings, r: Recipients)
    requires !s.mailEnabled || s.defaultSender.Some?
    ensures PlanSendAsWritten(s, r) == PlanSend(s, r)
  {
  }

  /** Mail is on by default, and the default sender is `None` when `MAIL_USERNAME` is
      unset; a development deployment passes `get_config`, yet sending raises instead of
      returning `False` at the incomplete-configuration guard. */
  lemma SenderUnpackCrash(env: Environment, to: Recipients)
    requires env.flaskEnv == Some("development")
    requires env.mailEnabled.None? && env.mailUsername.None?
    ensures GetConfig(env) == Success(DevelopmentConfig)
    ensures SettingsOf(DevelopmentConfig, env).mailEnabled
    ensures PlanSendAsWritten(SettingsOf(DevelopmentConfig, env), to) == SenderUnpackError
    ensures PlanSend(SettingsOf(DevelopmentConfig, env), to) == ConfigIncomplete
  {
    FlagParsing("True");
    assert Text.ToLower("development") == "development";
  }
}

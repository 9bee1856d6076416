/**
 * What a scanner does with a finished result list: send it when it is not
 * empty, always send (with a fixed text when empty), send only when the
 * alert throttle allows, or only print it. Message bodies are reduced to the
 * header choice and the rows; the table layout of `to_string` is not modelled.
 */
module Dispatch {
  import opened RecentWindow
  import opened Throttle

  datatype Policy =
      /** `if not screener_df.empty: send_telegram_message(...)`. */
    | SendIfAny
      /** Send in every run; the body is `noneText` when there are no rows. */
    | AlwaysSend(noneText: string)
      /** Send only when there are rows and two hours have passed since the last alert; then record the time. */
    | SendThrottled
      /** Results are printed and written to CSV only. */
    | PrintOnly

  /** One Telegram message: which result list it reports, its header, and the rows in its table. */
  datatype Alert = Alert(channel: nat, text: string, rows: seq<Row>)

  /** The alerts of one result list and the alert-throttle timestamp afterwards. */
  datatype Sent = Sent(alerts: seq<Alert>, lastSent: StoredTime)

  function DispatchOne(policy: Policy, channel: nat, header: string, rows: seq<Row>, lastSent: StoredTime, now: int): (s: Sent)
    ensures |s.alerts| <= 1
    ensures forall a :: a in s.alerts ==> a.channel == channel && a.rows == rows
    ensures s.lastSent != lastSent ==> policy.SendThrottled? && s.lastSent == At(now) && |s.alerts| == 1
  {
    match policy
    case SendIfAny =>
      Sent(if rows != [] then [Alert(channel, header, rows)] else [], lastSent)
    case AlwaysSend(noneText) =>
      Sent([if rows != [] then Alert(channel, header, rows) else Alert(channel, noneText, rows)], lastSent)
    case SendThrottled =>
      if rows != [] && CooledDown(lastSent, now, TwoHours) then Sent([Alert(channel, header, rows)], At(now))
      else Sent([], lastSent)
    case PrintOnly =>
      Sent([], lastSent)
  }

  /** Send-if-non-empty: a message goes out exactly when there is something to report. */
  lemma SendIfAnyExactly(channel: nat, header: string, rows: seq<Row>, lastSent: StoredTime, now: int)
    ensures var s := DispatchOne(SendIfAny, channel, header, rows, lastSent, now);
      (|s.alerts| == 1 <==> rows != []) && s.lastSent == lastSent
  {
  }

  /** Always-send: exactly one message per run; with no rows it carries the fixed "no signals" text. */
  lemma AlwaysSendExactlyOne(noneText: string, channel: nat, header: string, rows: seq<Row>, lastSent: StoredTime, now: int)
    ensures var s := DispatchOne(AlwaysSend(noneText), channel, header, rows, lastSent, now);
      |s.alerts| == 1 && s.alerts[0].text == (if rows == [] then noneText else header)
  {
  }

  /**
   * Throttled sending: the message and the timestamp update happen together,
   * exactly when there are rows and the throttle is open; otherwise nothing
   * is sent and the stored time is untouched.
   */
  lemma ThrottledExactly(channel: nat, header: string, rows: seq<Row>, lastSent: StoredTime, now: int)
    ensures var s := DispatchOne(SendThrottled, channel, header, rows, lastSent, now);
      && (|s.alerts| == 1 <==> rows != [] && CooledDown(lastSent, now, TwoHours))
      && (s.lastSent == if |s.alerts| == 1 then At(now) else lastSent)
  {
  }

  /** Print-only scanners never send. */
  lemma PrintOnlyNeverSends(channel: nat, header: string, rows: seq<Row>, lastSent: StoredTime, now: int)
    ensures DispatchOne(PrintOnly, channel, header, rows, lastSent, now) == Sent([], lastSent)
  {
  }
}

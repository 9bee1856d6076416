/**
 * The two persisted timestamps that throttle the scanners: the time of the
 * last Telegram alert (a file, `telegram_time.txt`) and the time of the last
 * run (the `LAST_RUN_TIME` config variable). Times are absolute microseconds.
 */
module Throttle {
  import opened Bars

  /** What the store holds: nothing at all, an empty value, or a timestamp. */
  datatype StoredTime = Missing | Blank | At(t: int)

  /** Both scanners wait two hours. */
  const TwoHours: int := 2 * Hour

  /**
   * `can_send_telegram_message`: allowed when nothing is stored or the stored
   * value is empty, otherwise exactly when at least `cooldown` has elapsed.
   */
  predicate CooledDown(stored: StoredTime, now: int, cooldown: int)
    ensures !CooledDown(stored, now, cooldown) ==> stored.At? && stored.t > now - cooldown
    ensures stored.At? ==> (CooledDown(stored, now, cooldown) <==> now >= stored.t + cooldown)
  {
    match stored
    case Missing => true
    case Blank => true
    case At(last) => now - last >= cooldown
  }

  /** Example: with a 2h cooldown after a send at T, T+90min is refused and T+121min allowed. */
  lemma CooldownExample(t: int)
    ensures !CooledDown(At(t), t + 90 * Minute, TwoHours)
    ensures CooledDown(At(t), t + 121 * Minute, TwoHours)
    ensures CooledDown(At(t), t + TwoHours, TwoHours)
  {
  }

  /**
   * The persisted scan state. `lastSent` is written by
   * `update_telegram_send_time`; `lastRun` by `can_run_now`.
   */
  class ScanState {
    var lastSent: StoredTime
    var lastRun: StoredTime

    constructor(sent: StoredTime, run: StoredTime)
      ensures lastSent == sent && lastRun == run
    {
      lastSent := sent;
      lastRun := run;
    }

    /** `can_send_telegram_message` with its default two hours. */
    predicate CanSend(now: int)
      reads this
    {
      CooledDown(lastSent, now, TwoHours)
    }

    /** `update_telegram_send_time`: record `now` as the last send. */
    method UpdateSendTime(now: int)
      modifies this
      ensures lastSent == At(now) && lastRun == old(lastRun)
      ensures forall later :: CanSend(later) <==> later >= now + TwoHours
    {
      lastSent := At(now);
    }

    /**
     * `can_run_now`: refuse, recording nothing, when less than two hours have
     * passed since the recorded run; otherwise record `now` and allow.
     */
    method CanRunNow(now: int) returns (ok: bool)
      modifies this
      ensures ok <==> CooledDown(old(lastRun), now, TwoHours)
      ensures lastRun == (if ok then At(now) else old(lastRun))
      ensures lastSent == old(lastSent)
    {
      if lastRun.At? && now - lastRun.t < TwoHours {
        return false;
      }
      lastRun := At(now);
      ok := true;
    }
  }
}

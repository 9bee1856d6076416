/**
 * One invocation of a scanner: the run throttle (when the script has one),
 * then the market-hours gate, then the scan, then the alerts. The persisted
 * timestamps live in a `ScanState` object that the run updates in place.
 */
module Runner {
  import opened MarketClock
  import opened Strategies
  import opened RecentWindow
  import opened Throttle
  import opened Dispatch
  import opened Scanner

  /** Whether the script's gate lets this invocation proceed. */
  predicate GateOpen(gate: Gate, weekday: int, clock: ClockTime) {
    match gate
    case Ungated => true
    case MarketHours(s) => IsOpen(s, weekday, clock)
  }

  /** The alerts for result lists `0..n-1`, in list order, and the alert timestamp afterwards. */
  function DispatchUpTo(cfg: Config, lists: seq<seq<Row>>, lastSent: StoredTime, now: int, n: nat): (s: Sent)
    requires n <= |cfg.channels| == |lists|
    ensures |s.alerts| <= n
    ensures forall a :: a in s.alerts ==> a.channel < n && a.rows == lists[a.channel]
    ensures s.lastSent != lastSent ==> s.lastSent == At(now)
  {
    if n == 0 then Sent([], lastSent)
    else
      var prev := DispatchUpTo(cfg, lists, lastSent, now, n - 1);
      var ch := cfg.channels[n - 1];
      var one := DispatchOne(ch.policy, n - 1, ch.header, lists[n - 1], prev.lastSent, now);
      Sent(prev.alerts + one.alerts, one.lastSent)
  }

  /** Send each result list according to its policy, in list order. */
  method DispatchAlerts(cfg: Config, lists: seq<seq<Row>>, state: ScanState, now: int) returns (alerts: seq<Alert>)
    requires |cfg.channels| == |lists|
    modifies state
    ensures Sent(alerts, state.lastSent) == DispatchUpTo(cfg, lists, old(state.lastSent), now, |lists|)
    ensures state.lastRun == old(state.lastRun)
  {
    alerts := [];
    var c := 0;
    while c < |lists|
      invariant 0 <= c <= |lists|
      invariant Sent(alerts, state.lastSent) == DispatchUpTo(cfg, lists, old(state.lastSent), now, c)
      invariant state.lastRun == old(state.lastRun)
    {
      var ch := cfg.channels[c];
      var rows := lists[c];
      match ch.policy {
        case SendIfAny =>
          if rows != [] {
            alerts := alerts + [Alert(c, ch.header, rows)];
          }
        case AlwaysSend(noneText) =>
          if rows != [] {
            alerts := alerts + [Alert(c, ch.header, rows)];
          } else {
            alerts := alerts + [Alert(c, noneText, rows)];
          }
        case SendThrottled =>
          if rows != [] && state.CanSend(now) {
            alerts := alerts + [Alert(c, ch.header, rows)];
            state.UpdateSendTime(now);
          }
        case PrintOnly =>
      }
      c := c + 1;
    }
  }

  /** How an invocation ends. */
  datatype RunOutcome =
      /** The run throttle refused: less than two hours since the last run. */
    | NotDue
      /** The market-hours gate refused; nothing was fetched or sent. */
    | Closed
      /** A ticker's unguarded compute step raised; nothing was sent. */
    | Aborted
      /** The scan finished with these result lists and sent these alerts. */
    | Finished(lists: seq<seq<Row>>, alerts: seq<Alert>)

  /** An invocation's outcome and the persisted timestamps it leaves. */
  datatype Transition = Transition(outcome: RunOutcome, lastSent: StoredTime, lastRun: StoredTime)

  /** The effect of one invocation, given the stored timestamps before it. */
  function RunSpec(cfg: Config, nm: Numerics, lastSent: StoredTime, lastRun: StoredTime,
                   weekday: int, clock: ClockTime, now: int, ls: seq<Listing>): (t: Transition)
    requires ValidConfig(cfg)
    ensures t.lastSent != lastSent ==> t.outcome.Finished? && t.lastSent == At(now)
    ensures t.lastRun != lastRun ==> cfg.runThrottle && t.lastRun == At(now)
    ensures t.outcome.Finished? || t.outcome.Aborted? ==> GateOpen(cfg.gate, weekday, clock)
    ensures t.outcome.NotDue? <==> cfg.runThrottle && !CooledDown(lastRun, now, TwoHours)
  {
    if cfg.runThrottle && !CooledDown(lastRun, now, TwoHours) then Transition(NotDue, lastSent, lastRun)
    else
      var ran := if cfg.runThrottle then At(now) else lastRun;
      if !GateOpen(cfg.gate, weekday, clock) then Transition(Closed, lastSent, ran)
      else
        match Collected(cfg, nm, ls)
        case Crashed => Transition(Aborted, lastSent, ran)
        case Results(lists) =>
          var sent := DispatchUpTo(cfg, lists, lastSent, now, |lists|);
          Transition(Finished(lists, sent.alerts), sent.lastSent, ran)
  }

  /**
   * `main()`: the run throttle is consulted (and updated) first, then the
   * market gate, then the tickers are scanned and the results dispatched.
   */
  method Run(cfg: Config, nm: Numerics, state: ScanState, weekday: int, clock: ClockTime, now: int, ls: seq<Listing>)
    returns (outcome: RunOutcome)
    requires ValidConfig(cfg)
    modifies state
    ensures Transition(outcome, state.lastSent, state.lastRun)
         == RunSpec(cfg, nm, old(state.lastSent), old(state.lastRun), weekday, clock, now, ls)
  {
    if cfg.runThrottle {
      var ok := state.CanRunNow(now);
      if !ok {
        return NotDue;
      }
    }
    if !GateOpen(cfg.gate, weekday, clock) {
      return Closed;
    }
    var crashed, lists := Scan(cfg, nm, ls);
    if crashed {
      return Aborted;
    }
    var alerts := DispatchAlerts(cfg, lists, state, now);
    outcome := Finished(lists, alerts);
  }

  /**
   * With the market closed nothing is fetched or sent and the alert
   * timestamp is untouched; only a due run throttle records the run.
   */
  lemma ClosedMarketDoesNothing(cfg: Config, nm: Numerics, lastSent: StoredTime, lastRun: StoredTime,
                                weekday: int, clock: ClockTime, now: int, ls: seq<Listing>)
    requires ValidConfig(cfg) && !GateOpen(cfg.gate, weekday, clock)
    ensures var t := RunSpec(cfg, nm, lastSent, lastRun, weekday, clock, now, ls);
      && (t.outcome.NotDue? || t.outcome.Closed?)
      && t.lastSent == lastSent
      && (t.lastRun != lastRun ==> cfg.runThrottle && t.lastRun == At(now))
  {
  }

  /**
   * The run throttle is checked before the market gate: a due invocation
   * records its time even when the market then turns out to be closed.
   */
  lemma ClosedRunStillConsumesSlot(cfg: Config, nm: Numerics, lastSent: StoredTime, lastRun: StoredTime,
                                   weekday: int, clock: ClockTime, now: int, ls: seq<Listing>)
    requires ValidConfig(cfg) && cfg.runThrottle && CooledDown(lastRun, now, TwoHours)
    ensures RunSpec(cfg, nm, lastSent, lastRun, weekday, clock, now, ls).lastRun == At(now)
  {
  }

  /** A run that is not due changes nothing at all. */
  lemma NotDueChangesNothing(cfg: Config, nm: Numerics, lastSent: StoredTime, lastRun: StoredTime,
                             weekday: int, clock: ClockTime, now: int, ls: seq<Listing>)
    requires ValidConfig(cfg) && cfg.runThrottle && !CooledDown(lastRun, now, TwoHours)
    ensures RunSpec(cfg, nm, lastSent, lastRun, weekday, clock, now, ls) == Transition(NotDue, lastSent, lastRun)
  {
  }

  /** An ungated, unthrottled scanner always scans, whatever the clock says. */
  lemma UngatedAlwaysScans(cfg: Config, nm: Numerics, lastSent: StoredTime, lastRun: StoredTime,
                           weekday: int, clock: ClockTime, now: int, ls: seq<Listing>)
    requires ValidConfig(cfg) && cfg.gate.Ungated? && !cfg.runThrottle
    ensures var o := RunSpec(cfg, nm, lastSent, lastRun, weekday, clock, now, ls).outcome;
      o.Finished? || o.Aborted?
  {
  }

  /**
   * A scanner with a single send-if-any list sends one message exactly when
   * that list is not empty, and never touches the alert timestamp.
   */
  lemma SingleSendIfAnyExactly(cfg: Config, nm: Numerics, lastSent: StoredTime, lastRun: StoredTime,
                               weekday: int, clock: ClockTime, now: int, ls: seq<Listing>)
    requires ValidConfig(cfg) && |cfg.channels| == 1 && cfg.channels[0].policy.SendIfAny?
    ensures var t := RunSpec(cfg, nm, lastSent, lastRun, weekday, clock, now, ls);
      && t.lastSent == lastSent
      && (t.outcome.Finished? ==> (|t.outcome.alerts| == 1 <==> t.outcome.lists[0] != []))
  {
    var t := RunSpec(cfg, nm, lastSent, lastRun, weekday, clock, now, ls);
    if t.outcome.Finished? {
      var lists := t.outcome.lists;
      assert DispatchUpTo(cfg, lists, lastSent, now, 0) == Sent([], lastSent);
    }
  }

  /** When every list is sent unconditionally, each list yields exactly one alert, in list order. */
  lemma {:induction false} AlwaysSendOnePerList(cfg: Config, lists: seq<seq<Row>>, lastSent: StoredTime, now: int, n: nat)
    requires n <= |cfg.channels| == |lists|
    requires forall c :: 0 <= c < |cfg.channels| ==> cfg.channels[c].policy.AlwaysSend?
    ensures var s := DispatchUpTo(cfg, lists, lastSent, now, n);
      |s.alerts| == n && (forall c :: 0 <= c < n ==> s.alerts[c].channel == c) && s.lastSent == lastSent
  {
    if n > 0 {
      AlwaysSendOnePerList(cfg, lists, lastSent, now, n - 1);
    }
  }

  /** When no list is sent under the alert throttle, the alert timestamp never changes. */
  lemma {:induction false} UnthrottledKeepsSendTime(cfg: Config, lists: seq<seq<Row>>, lastSent: StoredTime, now: int, n: nat)
    requires n <= |cfg.channels| == |lists|
    requires forall c :: 0 <= c < |cfg.channels| ==> !cfg.channels[c].policy.SendThrottled?
    ensures DispatchUpTo(cfg, lists, lastSent, now, n).lastSent == lastSent
  {
    if n > 0 {
      UnthrottledKeepsSendTime(cfg, lists, lastSent, now, n - 1);
    }
  }

  /**
   * For a scanner with a single throttled list: after an invocation that
   * sent an alert, any invocation less than two hours later sends none.
   */
  lemma ThrottledRunsSpaced(cfg: Config, nm: Numerics, lastSent: StoredTime, lastRun: StoredTime,
                            weekday: int, clock: ClockTime, now: int, ls: seq<Listing>,
                            weekday2: int, clock2: ClockTime, now2: int, ls2: seq<Listing>)
    requires ValidConfig(cfg) && |cfg.channels| == 1 && cfg.channels[0].policy.SendThrottled?
    requires var t := RunSpec(cfg, nm, lastSent, lastRun, weekday, clock, now, ls);
      t.outcome.Finished? && t.outcome.alerts != []
    requires now <= now2 < now + TwoHours
    ensures var t := RunSpec(cfg, nm, lastSent, lastRun, weekday, clock, now, ls);
      var o := RunSpec(cfg, nm, t.lastSent, t.lastRun, weekday2, clock2, now2, ls2).outcome;
      t.lastSent == At(now) && (o.Finished? ==> o.alerts == [])
  {
    ThrottledSendRecords(cfg, nm, lastSent, lastRun, weekday, clock, now, ls);
    var t := RunSpec(cfg, nm, lastSent, lastRun, weekday, clock, now, ls);
    ThrottledTooSoon(cfg, nm, now, t.lastRun, weekday2, clock2, now2, ls2);
  }

  /** With a single throttled list, a run that sent an alert recorded the time of the run. */
  lemma ThrottledSendRecords(cfg: Config, nm: Numerics, lastSent: StoredTime, lastRun: StoredTime,
                             weekday: int, clock: ClockTime, now: int, ls: seq<Listing>)
    requires ValidConfig(cfg) && |cfg.channels| == 1 && cfg.channels[0].policy.SendThrottled?
    requires var t := RunSpec(cfg, nm, lastSent, lastRun, weekday, clock, now, ls);
      t.outcome.Finished? && t.outcome.alerts != []
    ensures RunSpec(cfg, nm, lastSent, lastRun, weekday, clock, now, ls).lastSent == At(now)
  {
    var t := RunSpec(cfg, nm, lastSent, lastRun, weekday, clock, now, ls);
    assert DispatchUpTo(cfg, t.outcome.lists, lastSent, now, 0) == Sent([], lastSent);
  }

  /** With a single throttled list, a run less than two hours after the last alert sends nothing. */
  lemma ThrottledTooSoon(cfg: Config, nm: Numerics, sentAt: int, lastRun: StoredTime,
                         weekday: int, clock: ClockTime, now: int, ls: seq<Listing>)
    requires ValidConfig(cfg) && |cfg.channels| == 1 && cfg.channels[0].policy.SendThrottled?
    requires sentAt <= now < sentAt + TwoHours
    ensures var o := RunSpec(cfg, nm, At(sentAt), lastRun, weekday, clock, now, ls).outcome;
      o.Finished? ==> o.alerts == []
  {
    var t := RunSpec(cfg, nm, At(sentAt), lastRun, weekday, clock, now, ls);
    if t.outcome.Finished? {
      assert DispatchUpTo(cfg, t.outcome.lists, At(sentAt), now, 0) == Sent([], At(sentAt));
      assert !CooledDown(At(sentAt), now, TwoHours);
    }
  }
}

/** What is sent, in numbers: which values the thresholds let through, what the end of a
    period sends, and when the timers of the next one are due. */
module ReportOutcomes {
  import opened CommonTypes
  import opened ReportSemantics
  import opened ReportRuns

  /** Unless the minimum period still runs, a value is reported exactly if it differs from
      the last one and no threshold is set, or it is above gt, below lt, or beyond the step. */
  lemma ValueIsReportedExactlyWhen(h: Handler, v: real)
    requires h.Has(Pmin) ==> h.pminExceeded
    ensures var s := h.settings;
      var free := !h.Has(Gt) && !h.Has(Lt) && !h.Has(St);
      var beyond := (h.Has(Gt) && v > s.gt) || (h.Has(Lt) && v < s.lt) || (h.Has(St) && (v >= s.high || v <= s.low));
      var h1 := SetValue(h, v);
      && h1.last == v
      && h1.sent == if v != h.last && (free || beyond)
                    then h.sent + [Notification(h.ids, (h.number + 1) % 0x1_0000, false, h.now)]
                    else h.sent
  {
    ThresholdsInNumbers(h.settings, v);
    hide HandleTimers, ThresholdAllows;
    TimersKeepTheRest(Send(h.(current := v, pminExceeded := false, pmaxExceeded := false, notify := false), false).(pmaxTimer := Stopped));
  }

  /** Of two values written in a row, the second is reported exactly if it differs from the
      first and, with thresholds, is above gt, below lt, or lies at least st from the first. */
  lemma SecondValueIsReportedExactlyWhen(h: Handler, u: real, v: real)
    requires !h.Has(Pmin) && u != h.last
    ensures var s := h.settings;
      var free := !h.Has(Gt) && !h.Has(Lt) && !h.Has(St);
      var beyond := (h.Has(Gt) && v > s.gt) || (h.Has(Lt) && v < s.lt) || (h.Has(St) && (v >= u + s.st || v <= u - s.st));
      var h1 := SetValue(h, u);
      var h2 := SetValue(h1, v);
      |h2.sent| == |h1.sent| + if v != u && (free || beyond) then 1 else 0
  {
    hide SetValue;
    ValueIsReportedExactlyWhen(h, u);
    ValueMovesSteps(h, u);
    ValueIsReportedExactlyWhen(SetValue(h, u), v);
  }

  lemma ValueMovesSteps(h: Handler, u: real)
    requires u != h.last
    ensures SetValue(h, u).settings == h.settings.(high := u + h.settings.st, low := u - h.settings.st)
  {
    hide Report, ThresholdAllows;
    ReportKeepsSettings(h.(current := u, notify := true));
  }

  /** The end of the maximum period sends a notification exactly if the minimum period is
      over or there is none; unless a change was due, it names the whole object. */
  lemma MaximumPeriodIsReportedExactlyWhen(h: Handler)
    ensures var h1 := PmaxExpired(h);
      && h1.pmaxExceeded == !(h.notify && h.current != h.last && (h.pminExceeded || !h.Has(Pmin)))
      && h1.sent == if h.pminExceeded || !h.Has(Pmin)
                    then h.sent + [Notification(h.ids, (h.number + 1) % 0x1_0000, !(h.notify && h.current != h.last), h.now)]
                    else h.sent
  {
    hide HandleTimers;
    var h1 := h.(pmaxExceeded := true);
    TimersKeepTheRest(Send(h1.(pminExceeded := false, pmaxExceeded := false, notify := false), false).(pmaxTimer := Stopped));
    TimersKeepTheRest(Send(h1, true));
  }

  /** The end of the minimum period sends one exactly if a report is due, or there is no
      maximum period, and there is a change or the maximum period was exceeded before. */
  lemma MinimumPeriodIsReportedExactlyWhen(h: Handler)
    ensures var h1 := PminExpired(h);
      var change := h.notify && h.current != h.last;
      h1.sent == if change || (h.pmaxExceeded && (h.notify || (h.settings.pmin > 0 && !h.Has(Pmax))))
                 then h.sent + [Notification(h.ids, (h.number + 1) % 0x1_0000, !change, h.now)]
                 else h.sent
  {
    hide HandleTimers;
    var h1 := h.(pminExceeded := true);
    TimersKeepTheRest(Send(h1.(pminExceeded := false, pmaxExceeded := false, notify := false), false).(pmaxTimer := Stopped));
    TimersKeepTheRest(Send(h1, true));
    TimersKeepTheRest(h1);
  }

  /** The timers as a period starts: each due its number of seconds from now. */
  predicate PeriodStarts(h: Handler) {
    && (h.Has(Pmax) && 0 < h.settings.pmax < 0x8000_0000 ==> h.pmaxTimer == Running(h.now + 1000 * h.settings.pmax))
    && (h.Has(Pmin) && 0 <= h.settings.pmin < 0x8000_0000 && h.settings.pmin != h.settings.pmax ==>
          h.pminTimer == Running(h.now + 1000 * h.settings.pmin) && !h.pminExceeded)
    && (h.Has(Pmin) && h.settings.pmin == h.settings.pmax ==> h.pminExceeded)
  }

  lemma TimersStartPeriod(h: Handler)
    ensures PeriodStarts(HandleTimers(h))
  {
  }

  lemma ReportStartsPeriod(h: Handler)
    ensures PeriodStarts(Report(h))
  {
    hide HandleTimers;
    TimersStartPeriod(Send(h.(pminExceeded := false, pmaxExceeded := false, notify := false), false).(pmaxTimer := Stopped));
    TimersStartPeriod(Send(h, true));
    TimersStartPeriod(h);
  }

  lemma ScheduledReportStartsPeriod(h: Handler)
    requires |ScheduleReport(h).sent| > |h.sent|
    ensures PeriodStarts(ScheduleReport(h))
  {
    hide Report, PeriodStarts;
    ReportStartsPeriod(h.(notify := true));
  }

  /** Whatever is sent, and whenever an observation starts, the next period starts: the
      timers are due pmin and pmax seconds later. */
  lemma NotificationStartsPeriod(h: Handler, t: Timed)
    requires |Step(h, t).sent| > |h.sent| || t.event == Observed(true)
    ensures PeriodStarts(Step(h, t))
  {
    hide Report, ScheduleReport, HandleTimers, PeriodStarts, ThresholdAllows, SetUnderObservation;
    var h1 := h.(now := t.at);
    match t.event
    case ValueSet(v) =>
      ScheduledValueStartsPeriod(h1, v);
    case Triggered(id) => ScheduledReportStartsPeriod(h1.(ids := AddOnce(h.ids, id), current := 0.0, last := 1.0));
    case PminTimerExpires => ReportStartsPeriod(h1.(pminTimer := Stopped, pminExceeded := true));
    case PmaxTimerExpires => ReportStartsPeriod(h1.(pmaxTimer := Stopped, pmaxExceeded := true));
    case Observed(on) =>
      ObservationSendsNothing(h1, on);
      ObservationStarts(h1);
    case AttributesWritten(accepted, settings) => ObservationSendsNothing(h1.(settings := settings), true);
  }

  lemma ObservationStarts(h: Handler)
    ensures PeriodStarts(SetUnderObservation(h, true))
  {
    TimersStartPeriod(StopTimers(h.(observed := true)));
    hide PeriodStarts, HandleTimers;
  }

  lemma ScheduledValueStartsPeriod(h: Handler, v: real)
    requires |SetValue(h, v).sent| > |h.sent|
    ensures PeriodStarts(SetValue(h, v))
  {
    hide ScheduleReport, ThresholdAllows;
    ScheduledReportStartsPeriod(h.(current := v));
    var h2 := ScheduleReport(h.(current := v));
    assert PeriodStarts(h2) == PeriodStarts(h2.(settings := Steps(h2.settings, v)));
  }

  // ---------------------------------------------------------------- whole effects

  /** The timer of a period of so many seconds, if there is to be one. */
  function TimerFor(seconds: int, started: bool, now: nat, otherwise: Timer): Timer {
    if started && 0 <= seconds then Running(now + 1000 * seconds) else otherwise
  }

  /** The periods are int32_t, and the minimum period is not negative. */
  predicate Ordinary(s: Settings) { 0 <= s.pmin < 0x8000_0000 && s.pmax < 0x8000_0000 }

  /** All that a report changes: what is sent, what is no longer due, and the timers. */
  lemma ReportEffect(h: Handler)
    requires Ordinary(h.settings)
    ensures var s := h.settings;
      var change := h.notify && h.current != h.last;
      var sends := change || h.pmaxExceeded;
      var next: uint16 := (h.number + 1) % 0x1_0000;
      Report(h) == h.(
        sent := if sends then h.sent + [Notification(h.ids, next, !change, h.now)] else h.sent,
        number := if sends then next else h.number,
        ids := if sends then [] else h.ids,
        notify := h.notify && !change,
        last := h.current,
        pmaxExceeded := h.pmaxExceeded && !change,
        pmaxTimer := TimerFor(s.pmax, h.Has(Pmax) && s.pmax > 0, h.now, if change then Stopped else h.pmaxTimer),
        pminExceeded := if h.Has(Pmin) then s.pmin == s.pmax else h.pminExceeded && !change,
        pminTimer := TimerFor(s.pmin, h.Has(Pmin) && s.pmin != s.pmax, h.now, h.pminTimer))
  {
    hide HandleTimers;
    TimersEffect(h);
    TimersEffect(Send(h, true));
    TimersEffect(Send(h.(pminExceeded := false, pmaxExceeded := false, notify := false), false).(pmaxTimer := Stopped));
  }

  lemma TimersEffect(h: Handler)
    requires Ordinary(h.settings)
    ensures var s := h.settings;
      HandleTimers(h) == h.(
        pmaxTimer := TimerFor(s.pmax, h.Has(Pmax) && s.pmax > 0, h.now, h.pmaxTimer),
        pminExceeded := if h.Has(Pmin) then s.pmin == s.pmax else h.pminExceeded,
        pminTimer := TimerFor(s.pmin, h.Has(Pmin) && s.pmin != s.pmax, h.now, h.pminTimer))
  {
  }

  /** Observation switched on restarts the timers; switched off, it forgets the attributes,
      the pending ids and the last value. */
  lemma ObservationEffect(h: Handler)
    ensures SetUnderObservation(h, false) == h.(
      observed := false, settings := Settings({}, 1, -1, 0.0, 0.0, 0.0, 0.0, 0.0), last := -1.0, ids := [],
      pminExceeded := false, pmaxExceeded := false, pminTimer := Stopped, pmaxTimer := Stopped)
    ensures Ordinary(h.settings) ==>
      var s := h.settings;
      SetUnderObservation(h, true) == h.(
        observed := true, pmaxExceeded := false, pminExceeded := h.Has(Pmin) && s.pmin == s.pmax,
        pmaxTimer := TimerFor(s.pmax, h.Has(Pmax) && s.pmax > 0, h.now, Stopped),
        pminTimer := TimerFor(s.pmin, h.Has(Pmin) && s.pmin != s.pmax, h.now, Stopped))
  {
    if Ordinary(h.settings) {
      TimersEffect(StopTimers(h.(observed := true)));
      hide HandleTimers;
    }
  }

  /** A new handler is one without attributes that was never observed and sent nothing. */
  lemma NewHandler(h: Handler)
    requires h.sent == [] && h.number == 0 && h.current == 0.0 && !h.notify && h.now == 0
    ensures SetUnderObservation(h, false) == INITIAL
  {
    hide HandleTimers;
  }

  /** A refused query forgets the same, but leaves the timers running; an accepted one
      restarts an observation that is on. */
  lemma QueryEffect(h: Handler, settings: Settings)
    ensures WriteAttributes(h, false, settings) == h.(
      settings := Settings({}, 1, -1, 0.0, 0.0, 0.0, 0.0, 0.0), last := -1.0, ids := [],
      pminExceeded := false, pmaxExceeded := false)
    ensures WriteAttributes(h, true, settings) ==
            if h.observed then SetUnderObservation(h.(settings := settings), true) else h.(settings := settings)
  {
    hide HandleTimers;
  }

  /** A trigger during the minimum period waits for its end. */
  lemma TriggerWaits(h: Handler, id: uint16)
    requires h.Has(Pmin) && !h.pminExceeded
    ensures Trigger(h, id) ==
            h.(ids := if id in h.ids then h.ids else h.ids + [id], current := 0.0, last := 1.0, notify := true)
  {
    hide Report;
  }

  /** A value that is held back ends the minimum period and cancels what was due. */
  lemma HeldBackEffect(h: Handler, v: real)
    requires v != h.last && !LetThrough(h.settings, v)
    ensures var s := h.settings;
      SetValue(h, v) == h.(current := v, last := v, notify := false, pminTimer := Stopped, pminExceeded := true,
                           settings := s.(high := v + s.st, low := v - s.st))
  {
    ThresholdsInNumbers(h.settings, v);
    hide Report, ThresholdAllows;
  }
}

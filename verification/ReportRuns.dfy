/** Properties of the notification scheduler over whole runs: valid attributes,
    numbering, no lost or repeated instance ids, and minimum spacing in time. */
module ReportRuns {
  import opened CommonTypes
  import opened ReportSemantics

  datatype Event =
    | ValueSet(value: real)
    | Triggered(id: uint16)
    | PminTimerExpires
    | PmaxTimerExpires
    | Observed(on: bool)
    | AttributesWritten(accepted: bool, settings: Settings)

  /** Something that happens at a moment of the millisecond clock. */
  datatype Timed = Timed(at: nat, event: Event)

  /** Time does not run backwards, and a timer expires only after it was started
      and not before its deadline. */
  predicate Possible(h: Handler, t: Timed) {
    && h.now <= t.at
    && (t.event.PminTimerExpires? ==> h.pminTimer.Running? && h.pminTimer.deadline <= t.at)
    && (t.event.PmaxTimerExpires? ==> h.pmaxTimer.Running? && h.pmaxTimer.deadline <= t.at)
  }

  function Step(h: Handler, t: Timed): Handler {
    var h1 := h.(now := t.at);
    match t.event
    case ValueSet(v) => SetValue(h1, v)
    case Triggered(id) => Trigger(h1, id)
    case PminTimerExpires => PminExpired(h1.(pminTimer := Stopped))
    case PmaxTimerExpires => PmaxExpired(h1.(pmaxTimer := Stopped))
    case Observed(on) => SetUnderObservation(h1, on)
    case AttributesWritten(accepted, settings) => WriteAttributes(h1, accepted, settings)
  }

  /** The state after the first n events. */
  function After(h: Handler, events: seq<Timed>, n: nat): Handler
    requires n <= |events|
  {
    if n == 0 then h else Step(After(h, events, n - 1), events[n - 1])
  }

  predicate PossibleRun(h: Handler, events: seq<Timed>) {
    forall n :: 0 <= n < |events| ==> Possible(After(h, events, n), events[n])
  }

  // ---------------------------------------------------------- valid attributes

  /** The outcome of some query, on a node of some kind. */
  ghost predicate FromQuery(h: Handler, accepted: bool, settings: Settings) {
    exists query, base, kind, atof :: ParseQuery(h.settings, h.current, query, base, kind, atof) == (accepted, settings)
  }

  /** Whatever the query says, the settings are consistent afterwards: a rejected
      query of any number of options ends in the defaults. */
  lemma QueryLeavesValidSettings(h: Handler, accepted: bool, settings: Settings)
    requires FromQuery(h, accepted, settings)
    ensures ValidSettings(WriteAttributes(h, accepted, settings).settings)
    ensures !accepted ==> WriteAttributes(h, accepted, settings).settings == DEFAULTS
  {
    hide SetAttribute, SetAttributes, Options, HandleTimers, ThroughFloat;
    TimersKeepTheRest(StopTimers(h.(settings := settings, observed := true)));
  }

  lemma NearestIsExact(m: nat)
    ensures Nearest(m) == m <==> m % Spacing(m) == 0
    ensures m <= 0x100_0000 ==> m % Spacing(m) == 0
  {
    var u := Spacing(m);
    var q, r := m / u, m % u;
    assert m == q * u + r;
    assert (q + 1) * u == q * u + u;
    if m == 0x100_0000 {
      assert u == 2 * Spacing(0x80_0000) == 2;
    }
  }

  /** A query with several options of which one is refused puts the settings back exactly
      if both periods are floats; every period up to 2^24 is one. */
  lemma SettingsAreRestoredExactlyWhen(s: Settings, current: real, query: seq<byte>, base: BaseType, kind: DataType, atof: ToReal)
    requires AMP in query && !SetAttributes(s, current, Options(query, MAX_OPTIONS), base, kind, atof).0
    ensures ParseQuery(s, current, query, base, kind, atof) == (false, s) <==> IsFloat(s.pmin) && IsFloat(s.pmax)
    ensures -0x100_0000 <= s.pmin <= 0x100_0000 ==> IsFloat(s.pmin)
    ensures -0x100_0000 <= s.pmax <= 0x100_0000 ==> IsFloat(s.pmax)
  {
    hide SetAttributes, Options, Nearest, Spacing;
    NearestIsExact(if s.pmin < 0 then -s.pmin else s.pmin);
    NearestIsExact(if s.pmax < 0 then -s.pmax else s.pmax);
  }

  /** What sending and starting timers leave alone. */
  lemma TimersKeepTheRest(h: Handler)
    ensures var r := HandleTimers(h);
            h == r.(pminExceeded := h.pminExceeded, pminTimer := h.pminTimer, pmaxTimer := h.pmaxTimer)
  {
  }

  lemma ReportKeepsSettings(h: Handler)
    ensures Report(h).settings == h.settings && Report(h).now == h.now && Report(h).observed == h.observed
  {
    hide HandleTimers;
    TimersKeepTheRest(Send(h.(pminExceeded := false, pmaxExceeded := false, notify := false), false).(pmaxTimer := Stopped));
    TimersKeepTheRest(Send(h, true));
    TimersKeepTheRest(h);
  }

  lemma StepKeepsSettingsValid(h: Handler, t: Timed)
    requires ValidSettings(h.settings)
    requires t.event.AttributesWritten? ==> FromQuery(h, t.event.accepted, t.event.settings)
    ensures ValidSettings(Step(h, t).settings)
  {
    hide Report, HandleTimers, FromQuery;
    var h1 := h.(now := t.at);
    match t.event
    case ValueSet(v) => ReportKeepsSettings(h1.(current := v, notify := true));
    case Triggered(id) => ReportKeepsSettings(h1.(ids := AddOnce(h.ids, id), current := 0.0, last := 1.0, notify := true));
    case PminTimerExpires => ReportKeepsSettings(h1.(pminTimer := Stopped, pminExceeded := true));
    case PmaxTimerExpires => ReportKeepsSettings(h1.(pmaxTimer := Stopped, pmaxExceeded := true));
    case Observed(on) => TimersKeepTheRest(StopTimers(h1.(observed := on)));
    case AttributesWritten(accepted, settings) =>
      QueryLeavesValidSettings(h, accepted, settings);
      TimersKeepTheRest(StopTimers(h1.(settings := settings, observed := true)));
      TimersKeepTheRest(StopTimers(h.(settings := settings, observed := true)));
  }

  /** In every state a handler reaches, the settings are consistent. */
  lemma {:induction false} SettingsStayValid(events: seq<Timed>, n: nat)
    requires n <= |events|
    requires forall k :: 0 <= k < |events| && events[k].event.AttributesWritten? ==>
               FromQuery(After(INITIAL, events, k), events[k].event.accepted, events[k].event.settings)
    ensures ValidSettings(After(INITIAL, events, n).settings)
  {
    hide Step, FromQuery;
    if n > 0 {
      SettingsStayValid(events, n - 1);
      StepKeepsSettingsValid(After(INITIAL, events, n - 1), events[n - 1]);
    }
  }

  // ----------------------------------------------------------------- numbering

  predicate Numbered(h: Handler) {
    && h.number == |h.sent| % 0x1_0000
    && forall k :: 0 <= k < |h.sent| ==> h.sent[k].number == (k + 1) % 0x1_0000
  }

  /** From h to h1 nothing was sent, or this one notification. */
  predicate Sends(h: Handler, h1: Handler, n: Notification) {
    && h1.sent == h.sent + [n]
    && n.number == h1.number == (h.number + 1) % 0x1_0000
    && n.at == h1.now
  }

  predicate SendsNothing(h: Handler, h1: Handler) { h1.sent == h.sent && h1.number == h.number }

  predicate SendsAtMostOne(h: Handler, h1: Handler) {
    SendsNothing(h, h1) || (|h1.sent| == |h.sent| + 1 && Sends(h, h1, h1.sent[|h.sent|]))
  }

  lemma ReportSends(h: Handler)
    ensures SendsAtMostOne(h, Report(h)) && Report(h).now == h.now
  {
    hide HandleTimers;
    TimersKeepTheRest(Send(h.(pminExceeded := false, pmaxExceeded := false, notify := false), false).(pmaxTimer := Stopped));
    TimersKeepTheRest(Send(h, true));
    TimersKeepTheRest(h);
  }

  lemma SetValueSends(h: Handler, v: real)
    ensures SendsAtMostOne(h, SetValue(h, v)) && SetValue(h, v).now == h.now
  {
    hide Report;
    ReportSends(h.(current := v, notify := true));
  }

  lemma ObservationSendsNothing(h: Handler, on: bool)
    ensures SendsNothing(h, SetUnderObservation(h, on)) && SetUnderObservation(h, on).now == h.now
  {
    hide HandleTimers;
    TimersKeepTheRest(StopTimers(h.(observed := on)));
  }

  /** Each step sends at most one notification, at the step's own time. */
  lemma StepSendsAtMostOne(h: Handler, t: Timed)
    ensures SendsAtMostOne(h, Step(h, t)) && Step(h, t).now == t.at
  {
    hide SetValue, Report, SetUnderObservation;
    var h1 := h.(now := t.at);
    match t.event
    case ValueSet(v) => SetValueSends(h1, v);
    case Triggered(id) => ReportSends(h1.(ids := AddOnce(h.ids, id), current := 0.0, last := 1.0, notify := true));
    case PminTimerExpires => ReportSends(h1.(pminTimer := Stopped, pminExceeded := true));
    case PmaxTimerExpires => ReportSends(h1.(pmaxTimer := Stopped, pmaxExceeded := true));
    case Observed(on) => ObservationSendsNothing(h1, on);
    case AttributesWritten(_, settings) => ObservationSendsNothing(h1.(settings := settings), true);
  }

  lemma SendsKeepsNumbered(h: Handler, h1: Handler)
    requires Numbered(h) && SendsAtMostOne(h, h1)
    ensures Numbered(h1)
  {
    CountModulo(|h.sent|);
    if |h1.sent| == |h.sent| + 1 {
      assert Sends(h, h1, h1.sent[|h.sent|]);
      forall k | 0 <= k < |h1.sent| ensures h1.sent[k].number == (k + 1) % 0x1_0000 {
        assert k < |h.sent| ==> h1.sent[k] == h.sent[k];
      }
    } else {
      assert h1.sent == h.sent;
    }
  }

  lemma CountModulo(n: nat)
    ensures (n % 0x1_0000 + 1) % 0x1_0000 == (n + 1) % 0x1_0000
  {
  }

  /** The k-th notification ever sent carries the number k modulo 65536. */
  lemma {:induction false} NotificationsAreNumbered(events: seq<Timed>, n: nat)
    requires n <= |events|
    ensures Numbered(After(INITIAL, events, n))
  {
    hide Step;
    if n > 0 {
      NotificationsAreNumbered(events, n - 1);
      var before := After(INITIAL, events, n - 1);
      StepSendsAtMostOne(before, events[n - 1]);
      SendsKeepsNumbered(before, After(INITIAL, events, n));
    }
  }

  // ------------------------------------------------------------- instance ids

  /** Driven by triggers and timers: no value is ever set directly. */
  predicate TriggerDriven(events: seq<Timed>) { forall k :: 0 <= k < |events| ==> !events[k].event.ValueSet? }

  predicate Distinct(ids: seq<uint16>) { forall j, k :: 0 <= j < k < |ids| ==> ids[j] != ids[k] }

  /** The event puts the handler back to its defaults. */
  predicate Resets(h: Handler, t: Timed) {
    match t.event
    case Observed(on) => !on
    case AttributesWritten(accepted, _) => !accepted
    case _ => false
  }

  function WithTrigger(ids: seq<uint16>, e: Event): seq<uint16> {
    if e.Triggered? then AddOnce(ids, e.id) else ids
  }

  /** What should be pending after n events, by what was observed of them: the ids
      triggered since the last notification or reset, each once, in order. */
  function TriggeredSince(h: Handler, events: seq<Timed>, n: nat): seq<uint16>
    requires n <= |events|
  {
    if n == 0 then []
    else
      var before, now := After(h, events, n - 1), After(h, events, n);
      if |now.sent| > |before.sent| || Resets(before, events[n - 1]) then []
      else WithTrigger(TriggeredSince(h, events, n - 1), events[n - 1].event)
  }

  /** Pending ids are distinct and will be sent as soon as sending is allowed. */
  predicate PendingWillBeSent(h: Handler) {
    Distinct(h.ids) && (h.ids != [] ==> h.notify && h.current != h.last)
  }

  /** From h to h1: what was pending, with the event's own id, either still is or
      is exactly what the one notification carries. */
  predicate Carries(pending: seq<uint16>, h: Handler, h1: Handler) {
    && (|h1.sent| == |h.sent| ==> h1.ids == pending)
    && (|h1.sent| > |h.sent| ==>
          && h1.ids == [] && h1.sent[|h.sent|].ids == pending
          && (h1.sent[|h.sent|].sendObject ==> pending == []))
  }

  lemma ReportCarries(h: Handler)
    requires PendingWillBeSent(h)
    ensures PendingWillBeSent(Report(h)) && Carries(h.ids, h, Report(h))
  {
  }

  lemma AddOnceDistinct(ids: seq<uint16>, id: uint16)
    requires Distinct(ids)
    ensures Distinct(AddOnce(ids, id)) && id in AddOnce(ids, id)
  {
  }

  lemma ObservationKeepsPending(h: Handler, on: bool)
    requires PendingWillBeSent(h)
    ensures PendingWillBeSent(SetUnderObservation(h, on))
    ensures SetUnderObservation(h, on).ids == if on then h.ids else []
  {
    hide HandleTimers;
    TimersKeepTheRest(StopTimers(h.(observed := on)));
  }

  lemma StepKeepsPending(h: Handler, t: Timed)
    requires PendingWillBeSent(h) && !t.event.ValueSet?
    ensures PendingWillBeSent(Step(h, t))
    ensures Carries(if Resets(h, t) then [] else WithTrigger(h.ids, t.event), h, Step(h, t))
    ensures Resets(h, t) ==> Step(h, t).sent == h.sent
  {
    hide SetValue, Report, SetUnderObservation;
    var h1 := h.(now := t.at);
    match t.event
    case Triggered(id) =>
      AddOnceDistinct(h.ids, id);
      ReportCarries(h1.(ids := AddOnce(h.ids, id), current := 0.0, last := 1.0, notify := true));
    case PminTimerExpires => ReportCarries(h1.(pminTimer := Stopped, pminExceeded := true));
    case PmaxTimerExpires => ReportCarries(h1.(pmaxTimer := Stopped, pmaxExceeded := true));
    case Observed(on) =>
      ObservationKeepsPending(h1, on);
      ObservationSendsNothing(h1, on);
    case AttributesWritten(accepted, settings) =>
      ObservationKeepsPending(h1.(settings := settings), true);
      ObservationSendsNothing(h1.(settings := settings), true);
  }

  /** No id is lost or repeated.  Along any run of triggers, timers, observation
      switches and attribute writes the pending ids are exactly those triggered
      since the last notification or reset; every notification carries exactly the
      ids that were pending, and one sent because of the maximum period none. */
  lemma {:induction false} NoLostIds(events: seq<Timed>, n: nat)
    requires n <= |events| && TriggerDriven(events)
    ensures var h := After(INITIAL, events, n);
            PendingWillBeSent(h) && h.ids == TriggeredSince(INITIAL, events, n)
    ensures n > 0 ==>
              var before, now := After(INITIAL, events, n - 1), After(INITIAL, events, n);
              |now.sent| > |before.sent| ==>
                var sent := now.sent[|before.sent|];
                && sent.ids == WithTrigger(TriggeredSince(INITIAL, events, n - 1), events[n - 1].event)
                && (sent.sendObject ==> sent.ids == [])
  {
    hide Step;
    if n > 0 {
      NoLostIds(events, n - 1);
      var before := After(INITIAL, events, n - 1);
      StepKeepsPending(before, events[n - 1]);
      StepSendsAtMostOne(before, events[n - 1]);
    }
  }

  /** With values set directly the guarantee fails: a trigger waiting for the
      minimum period is not sent when that period ends, if the value 1 was written
      in between. */
  lemma ValueCanHideTrigger(h: Handler, id: uint16)
    requires h.settings.attributes == {Pmin} && h.settings.pmin != h.settings.pmax && !h.pminExceeded && h.pminTimer.Running?
    requires !h.pmaxExceeded
    ensures var t := h.now + h.pminTimer.deadline;
            var events := [Timed(h.now, Triggered(id)), Timed(h.now, ValueSet(1.0)), Timed(t, PminTimerExpires)];
            PossibleRun(h, events) && After(h, events, 3).sent == h.sent && id in After(h, events, 3).ids
  {
    var t := h.now + h.pminTimer.deadline;
    var events := [Timed(h.now, Triggered(id)), Timed(h.now, ValueSet(1.0)), Timed(t, PminTimerExpires)];
    var h1 := Step(h, events[0]);
    var h2 := Step(h1, events[1]);
    assert After(h, events, 1) == h1;
    assert After(h, events, 2) == h2;
    assert id in h1.ids && h1.current == 0.0 && h1.last == 1.0 && h1.notify;
    assert h2 == h1.(current := 1.0);
    assert h2.pminTimer == h.pminTimer;
    assert After(h, events, 3) == PminExpired(h2.(now := t, pminTimer := Stopped));
  }

  /** The thresholds let a value through: none is set, or it is above gt, below lt, or a
      step away from the value before. */
  predicate LetThrough(s: Settings, v: real) {
    || (Gt !in s.attributes && Lt !in s.attributes && St !in s.attributes)
    || (Gt in s.attributes && v > s.gt)
    || (Lt in s.attributes && v < s.lt)
    || (St in s.attributes && (v >= s.high || v <= s.low))
  }

  lemma ThresholdsInNumbers(s: Settings, v: real)
    ensures ThresholdAllows(s, v) <==> LetThrough(s, v)
  {
  }

  /** The end of the minimum period reports what is pending after the value v was written
      during it: the value differs from the last one and the thresholds let it through, or
      the maximum period was exceeded before and the timer's own guard lets the report
      through although there is no change. */
  predicate ReportedAfter(h: Handler, v: real) {
    || (v != h.last && LetThrough(h.settings, v))
    || (h.pmaxExceeded && ((v == h.last && h.notify) || (h.settings.pmin > 0 && !h.Has(Pmax))))
  }

  /** Exactly when, in any state with the minimum period running, whatever happened before. */
  lemma PendingIsSentExactlyWhen(h: Handler, v: real)
    requires h.Has(Pmin) && !h.pminExceeded
    ensures var h1 := SetValue(h, v);
            var h2 := PminExpired(h1);
            && h1.sent == h.sent && h1.ids == h.ids
            && (ReportedAfter(h, v) ==>
                  && |h2.sent| == |h.sent| + 1 && h2.sent[|h.sent|].ids == h.ids && h2.ids == []
                  && (h2.sent[|h.sent|].sendObject <==> v == h.last || !LetThrough(h.settings, v)))
            && (!ReportedAfter(h, v) ==> h2.sent == h.sent && h2.ids == h.ids)
  {
    ThresholdsInNumbers(h.settings, v);
    hide HandleTimers, ThresholdAllows, LetThrough;
    var h1 := SetValue(h, v).(pminExceeded := true);
    TimersKeepTheRest(Send(h1.(pminExceeded := false, pmaxExceeded := false, notify := false), false).(pmaxTimer := Stopped));
    TimersKeepTheRest(Send(h1, true));
    TimersKeepTheRest(h1);
  }

  // ------------------------------------------------------------------- spacing

  /** A minimum period is configured and not defeated by an equal maximum. */
  predicate Spaced(s: Settings) { Pmin in s.attributes && s.pmin != s.pmax }

  /** The events that leave the attributes alone and do not carry a value that the
      thresholds hold back. */
  predicate Steady(h: Handler, t: Timed) {
    match t.event
    case ValueSet(v) => LetThrough(h.settings, v)
    case Observed(on) => on
    case AttributesWritten(_, _) => false
    case _ => true
  }

  predicate SteadyRun(h: Handler, events: seq<Timed>) {
    forall n :: 0 <= n < |events| ==> Steady(After(h, events, n), events[n])
  }

  /** When the next notification may be sent at the earliest. */
  function Earliest(h: Handler): int {
    if h.sent == [] then 0 else h.sent[|h.sent| - 1].at + Interval(h.settings.pmin)
  }

  /** The last notification lies back far enough, or the period still runs. */
  predicate PeriodKept(h: Handler) {
    && (h.sent != [] ==> h.sent[|h.sent| - 1].at <= h.now)
    && (h.pminExceeded ==> Earliest(h) <= h.now)
    && (h.pminTimer.Running? ==> Earliest(h) <= h.pminTimer.deadline)
  }

  /** From h to h1 the settings that matter stay, the period is kept, and only
      when it is over is anything sent. */
  predicate KeepsPeriod(h: Handler, over: bool, h1: Handler) {
    && h1.settings.attributes == h.settings.attributes
    && h1.settings.pmin == h.settings.pmin && h1.settings.pmax == h.settings.pmax
    && PeriodKept(h1) && SendsAtMostOne(h, h1)
    && (h1.sent != h.sent ==> over && Earliest(h) <= h1.now && !h1.pminExceeded)
    && (h1.pminExceeded ==> over)
  }

  lemma ReportKeepsPeriod(h: Handler)
    requires Spaced(h.settings) && Earliest(h) <= h.now
    ensures KeepsPeriod(h, true, Report(h))
  {
  }

  lemma SetValueKeepsPeriod(h: Handler, v: real)
    requires Spaced(h.settings) && PeriodKept(h) && LetThrough(h.settings, v)
    ensures KeepsPeriod(h, h.pminExceeded, SetValue(h, v))
  {
    hide Report;
    var h1 := h.(current := v);
    if h.pminExceeded {
      ReportKeepsPeriod(h1.(notify := true));
    }
  }

  lemma TriggerKeepsPeriod(h: Handler, id: uint16)
    requires Spaced(h.settings) && PeriodKept(h)
    ensures KeepsPeriod(h, h.pminExceeded, Trigger(h, id))
  {
    hide Report;
    if h.pminExceeded {
      ReportKeepsPeriod(h.(ids := AddOnce(h.ids, id), current := 0.0, last := 1.0, notify := true));
    }
  }

  lemma PminKeepsPeriod(h: Handler)
    requires Spaced(h.settings) && Earliest(h) <= h.now && h.pminTimer == Stopped
    requires h.sent != [] ==> h.sent[|h.sent| - 1].at <= h.now
    ensures KeepsPeriod(h, true, PminExpired(h))
  {
    hide Report;
    ReportKeepsPeriod(h.(pminExceeded := true));
  }

  lemma PmaxKeepsPeriod(h: Handler)
    requires Spaced(h.settings) && PeriodKept(h)
    ensures KeepsPeriod(h, h.pminExceeded, PmaxExpired(h))
  {
    hide Report;
    if h.pminExceeded {
      ReportKeepsPeriod(h.(pmaxExceeded := true));
    }
  }

  lemma ObservedKeepsPeriod(h: Handler)
    requires Spaced(h.settings) && PeriodKept(h)
    ensures KeepsPeriod(h, false, SetUnderObservation(h, true))
  {
  }

  lemma StepKeepsPeriod(h: Handler, t: Timed)
    requires Spaced(h.settings) && PeriodKept(h) && Possible(h, t) && Steady(h, t)
    ensures KeepsPeriod(h, h.pminExceeded || t.event.PminTimerExpires?, Step(h, t))
  {
    hide SetValue, Trigger, PminExpired, PmaxExpired, SetUnderObservation, WriteAttributes;
    var h1 := h.(now := t.at);
    match t.event
    case ValueSet(v) => SetValueKeepsPeriod(h1, v);
    case Triggered(id) => TriggerKeepsPeriod(h1, id);
    case PminTimerExpires => PminKeepsPeriod(h1.(pminTimer := Stopped));
    case PmaxTimerExpires => PmaxKeepsPeriod(h1.(pmaxTimer := Stopped));
    case Observed(on) => ObservedKeepsPeriod(h1);
    case AttributesWritten(_, _) =>
  }

  /** All notifications after the first `from` keep the distance to the one before. */
  predicate AllSpaced(sent: seq<Notification>, from: nat, gap: nat) {
    forall k :: 0 < k < |sent| && from <= k ==> sent[k].at >= sent[k - 1].at + gap
  }

  lemma OneMoreSpaced(h: Handler, over: bool, h1: Handler, from: nat)
    requires KeepsPeriod(h, over, h1)
    requires AllSpaced(h.sent, from, Interval(h.settings.pmin)) && from <= |h.sent|
    ensures AllSpaced(h1.sent, from, Interval(h.settings.pmin)) && h.sent <= h1.sent
  {
  }

  lemma IntervalIsMilliseconds(seconds: int)
    ensures 0 <= seconds < 0x8000_0000 ==> Interval(seconds) == 1000 * seconds
  {
  }

  /** Minimum spacing: along any run that leaves the attributes alone, with a
      minimum period that differs from the maximum, two consecutive notifications,
      of whatever cause, are at least the minimum period apart. */
  lemma {:induction false} NotificationsAreSpaced(h: Handler, events: seq<Timed>, n: nat)
    requires Spaced(h.settings) && PeriodKept(h) && n <= |events|
    requires PossibleRun(h, events) && SteadyRun(h, events)
    ensures var h1 := After(h, events, n);
            && h1.settings.attributes == h.settings.attributes
            && h1.settings.pmin == h.settings.pmin && h1.settings.pmax == h.settings.pmax
            && PeriodKept(h1) && h.sent <= h1.sent
            && AllSpaced(h1.sent, |h.sent|, Interval(h.settings.pmin))
            && (0 <= h.settings.pmin < 0x8000_0000 ==> AllSpaced(h1.sent, |h.sent|, 1000 * h.settings.pmin))
  {
    IntervalIsMilliseconds(h.settings.pmin);
    hide Step, Interval;
    if n > 0 {
      NotificationsAreSpaced(h, events, n - 1);
      var before, t := After(h, events, n - 1), events[n - 1];
      StepKeepsPeriod(before, t);
      OneMoreSpaced(before, before.pminExceeded || t.event.PminTimerExpires?, After(h, events, n), |h.sent|);
    }
  }

  predicate SentInThePast(h: Handler) {
    h.sent != [] ==> h.sent[|h.sent| - 1].at <= h.now
  }

  lemma {:induction false} SendingIsInThePast(events: seq<Timed>, n: nat)
    requires n <= |events| && PossibleRun(INITIAL, events)
    ensures SentInThePast(After(INITIAL, events, n))
  {
    hide Step;
    if n > 0 {
      SendingIsInThePast(events, n - 1);
      var before := After(INITIAL, events, n - 1);
      assert Possible(before, events[n - 1]);
      StepSendsAtMostOne(before, events[n - 1]);
    }
  }

  lemma RestartKeepsPeriod(h: Handler)
    requires SentInThePast(h)
    ensures var h1 := SetUnderObservation(h, true);
            h1.settings == h.settings && (Spaced(h.settings) ==> PeriodKept(h1) && !h1.pminExceeded)
  {
  }

  /** Wherever an observation (re)starts in a run, the spacing theorem applies from
      there on. */
  lemma ObservationStartsPeriod(events: seq<Timed>, n: nat)
    requires 0 < n <= |events| && PossibleRun(INITIAL, events)
    requires events[n - 1].event == Observed(true) && Spaced(After(INITIAL, events, n).settings)
    ensures PeriodKept(After(INITIAL, events, n)) && !After(INITIAL, events, n).pminExceeded
  {
    hide SetValue, Trigger, PminExpired, PmaxExpired, WriteAttributes, SetUnderObservation;
    var before := After(INITIAL, events, n - 1);
    SendingIsInThePast(events, n - 1);
    assert Possible(before, events[n - 1]);
    RestartKeepsPeriod(before.(now := events[n - 1].at));
    assert After(INITIAL, events, n) == SetUnderObservation(before.(now := events[n - 1].at), true);
  }

  /** While the period has not been exceeded and its timer does not expire, nothing
      is sent: so between two consecutive notifications the timer does expire. */
  lemma {:induction false} NoExpiryNoNotification(h: Handler, events: seq<Timed>, n: nat)
    requires Spaced(h.settings) && PeriodKept(h) && n <= |events| && !h.pminExceeded
    requires PossibleRun(h, events) && SteadyRun(h, events)
    requires forall k :: 0 <= k < n ==> !events[k].event.PminTimerExpires?
    ensures After(h, events, n).sent == h.sent && !After(h, events, n).pminExceeded
  {
    hide Step;
    if n > 0 {
      NoExpiryNoNotification(h, events, n - 1);
      NotificationsAreSpaced(h, events, n - 1);
      StepKeepsPeriod(After(h, events, n - 1), events[n - 1]);
    }
  }

  lemma ExpiryBetweenNotifications(h: Handler, t: Timed, events: seq<Timed>, n: nat)
    requires Spaced(h.settings) && PeriodKept(h) && Possible(h, t) && Steady(h, t) && n <= |events|
    requires |Step(h, t).sent| > |h.sent|
    requires PossibleRun(Step(h, t), events) && SteadyRun(Step(h, t), events)
    requires After(Step(h, t), events, n).sent != Step(h, t).sent
    ensures exists k :: 0 <= k < n && events[k].event.PminTimerExpires?
  {
    StepKeepsPeriod(h, t);
    StepSendsAtMostOne(h, t);
    if forall k :: 0 <= k < n ==> !events[k].event.PminTimerExpires? {
      NoExpiryNoNotification(Step(h, t), events, n);
    }
  }

  /** A trigger that is reported at once, and leaves the next one free to be. */
  lemma TriggerIsImmediate(h: Handler, id: uint16)
    requires !Spaced(h.settings) && (h.Has(Pmin) ==> h.pminExceeded)
    ensures var h1 := Trigger(h, id);
            && Sends(h, h1, h1.sent[|h1.sent| - 1]) && h1.now == h.now
            && h1.settings == h.settings && (h.Has(Pmin) ==> h1.pminExceeded)
  {
  }

  /** Without a minimum period, or with one equal to the maximum and exceeded as
      handle_timers leaves it, two triggers are two notifications at one moment. */
  lemma UnspacedTriggersAreImmediate(h: Handler, a: uint16, b: uint16)
    requires !Spaced(h.settings) && (h.Has(Pmin) ==> h.pminExceeded)
    ensures var events := [Timed(h.now, Triggered(a)), Timed(h.now, Triggered(b))];
            var sent := After(h, events, 2).sent;
            |sent| == |h.sent| + 2 && sent[|h.sent|].at == sent[|h.sent| + 1].at
  {
    hide Trigger;
    var events := [Timed(h.now, Triggered(a)), Timed(h.now, Triggered(b))];
    TriggerIsImmediate(h, a);
    var h1 := Trigger(h, a);
    assert After(h, events, 1) == h1 by { assert h.(now := h.now) == h; }
    TriggerIsImmediate(h1, b);
    assert After(h, events, 2) == Trigger(h1, b) by { assert h1.(now := h.now) == h1; }
  }

  /** A value the thresholds hold back ends the period, so the trigger after it is
      reported at once. */
  lemma HeldBackThenTriggered(h: Handler, v: real, id: uint16)
    requires h.Has(Pmin) && HasThresholds(h.settings) && !h.Has(St)
    requires !LetThrough(h.settings, v) && v != h.last
    ensures var h1 := Trigger(SetValue(h, v), id);
            && Sends(h, h1, h1.sent[|h1.sent| - 1]) && h1.now == h.now && h1.last == 0.0
            && h1.settings == Steps(h.settings, v)
  {
  }

  /** Exactly when a trigger after a value is reported at once, with a minimum period
      configured: if the thresholds hold the changed value back, or the value is not changed
      and the period was over already. */
  lemma TriggerAfterValueIsImmediateExactlyWhen(h: Handler, v: real, id: uint16)
    requires Spaced(h.settings)
    ensures var h1 := SetValue(h, v);
            |Trigger(h1, id).sent| > |h1.sent| <==>
            if v == h.last then h.pminExceeded else !LetThrough(h.settings, v)
  {
    ThresholdsInNumbers(h.settings, v);
    hide ThresholdAllows, LetThrough;
    assert !HasThresholds(h.settings) ==> ThresholdAllows(h.settings, v) by { NoThresholds(h.settings, v); }
  }

  lemma NoThresholds(s: Settings, v: real)
    ensures !HasThresholds(s) ==> ThresholdAllows(s, v)
  {
  }

  /** Alternated with triggers, values the thresholds hold back defeat the spacing. */
  lemma HeldBackValueEndsPeriod(h: Handler, v: real, a: uint16, b: uint16)
    requires h.Has(Pmin) && HasThresholds(h.settings) && !h.Has(St)
    requires !LetThrough(h.settings, v) && v != h.last && v != 0.0
    ensures var events := [Timed(h.now, ValueSet(v)), Timed(h.now, Triggered(a)),
                           Timed(h.now, ValueSet(v)), Timed(h.now, Triggered(b))];
            var sent := After(h, events, 4).sent;
            |sent| == |h.sent| + 2 && sent[|h.sent|].at == sent[|h.sent| + 1].at
  {
    hide Trigger, SetValue;
    var events := [Timed(h.now, ValueSet(v)), Timed(h.now, Triggered(a)),
                   Timed(h.now, ValueSet(v)), Timed(h.now, Triggered(b))];
    HeldBackThenTriggered(h, v, a);
    TwoSteps(h, events, 0, v, a);
    var h2 := Trigger(SetValue(h, v), a);
    HeldBackThenTriggered(h2, v, b);
    TwoSteps(h, events, 2, v, b);
  }

  lemma TwoSteps(h: Handler, events: seq<Timed>, n: nat, v: real, id: uint16)
    requires n + 2 <= |events|
    requires events[n] == Timed(After(h, events, n).now, ValueSet(v))
    requires events[n + 1] == Timed(After(h, events, n).now, Triggered(id))
    ensures After(h, events, n + 2) == Trigger(SetValue(After(h, events, n), v), id)
  {
    hide Trigger, Report;
    var h0 := After(h, events, n);
    assert h0.(now := h0.now) == h0;
    assert After(h, events, n + 1) == SetValue(h0, v);
    SetValueKeepsTime(h0, v);
    var h1 := SetValue(h0, v);
    assert h1.(now := h0.now) == h1;
  }

  lemma SetValueKeepsTime(h: Handler, v: real)
    ensures SetValue(h, v).now == h.now
  {
    hide Report;
    ReportKeepsSettings(h.(current := v, notify := true));
  }
}

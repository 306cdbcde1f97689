/** M2MReportHandler: the notification scheduler with its fields updated in place,
    each method proved against the function of ReportSemantics. */
module ReportHandler {
  import opened CommonTypes
  import opened ReportSemantics
  import CText

  class M2MReportHandler {
    const atof: ToReal
    // _attribute_state, _pmin, _pmax, _gt, _lt, _st and the two steps.
    var settings: Settings
    var isUnderObservation: bool
    var notify: bool
    var pminExceeded: bool
    var pmaxExceeded: bool
    var observationNumber: uint16
    var currentValue: real
    var lastValue: real
    var changedInstanceIds: seq<uint16>
    var pminTimer: Timer
    var pmaxTimer: Timer
    // The environment: the clock, and what the observer has been told.
    var now: nat
    var sent: seq<Notification>

    constructor (atof: ToReal)
      ensures View() == INITIAL && this.atof == atof
    {
      this.atof := atof;
      isUnderObservation, notify, pminExceeded, pmaxExceeded := false, false, false, false;
      observationNumber, changedInstanceIds := 0, [];
      pminTimer, pmaxTimer := Stopped, Stopped;
      settings := DEFAULTS;
      currentValue, lastValue := 0.0, -1.0;
      now, sent := 0, [];
    }

    ghost function View(): Handler
      reads this
    {
      Handler(settings, isUnderObservation, notify, pminExceeded, pmaxExceeded, observationNumber, currentValue, lastValue,
              changedInstanceIds, pminTimer, pmaxTimer, now, sent)
    }

    method SetUnderObservation(observed: bool)
      modifies this
      ensures View() == ReportSemantics.SetUnderObservation(old(View()), observed)
    {
      isUnderObservation := observed;
      StopTimers();
      if observed {
        HandleTimers();
      } else {
        SetDefaultValues();
      }
    }

    method SetValue(value: real)
      modifies this
      ensures View() == ReportSemantics.SetValue(old(View()), value)
    {
      hide ReportSemantics.ScheduleReport, ThresholdAllows;
      currentValue := value;
      if currentValue != lastValue {
        var allowed := CheckThresholdValues();
        if allowed {
          ScheduleKeepsValue(View());
          ScheduleReport();
        } else {
          HoldBackValue();
        }
        settings := settings.(high := currentValue + settings.st, low := currentValue - settings.st);
      }
    }

    method HoldBackValue()
      modifies this
      ensures View() == HoldBack(old(View()))
    {
      notify := false;
      lastValue := currentValue;
      if Lt in settings.attributes || Gt in settings.attributes || St in settings.attributes {
        pminTimer := Stopped;
        pminExceeded := true;
      }
    }

    method SetNotificationTrigger(objInstanceId: uint16)
      modifies this
      ensures View() == Trigger(old(View()), objInstanceId)
    {
      hide ReportSemantics.ScheduleReport;
      var found := false;
      var it := 0;
      while it < |changedInstanceIds|
        invariant 0 <= it <= |changedInstanceIds|
        invariant !found && objInstanceId !in changedInstanceIds[..it]
      {
        if changedInstanceIds[it] == objInstanceId {
          found := true;
          break;
        }
        it := it + 1;
      }
      if !found {
        changedInstanceIds := changedInstanceIds + [objInstanceId];
      }
      currentValue := 0.0;
      lastValue := 1.0;
      ScheduleReport();
    }

    method ParseNotificationAttribute(query: seq<byte>, base: BaseType, kind: DataType) returns (success: bool)
      modifies this
      ensures View() == old(View()).(settings := settings)
      ensures (success, settings) == ParseQuery(old(settings), currentValue, query, base, kind, atof)
    {
      hide SetAttribute, SetAttributes, Options, ValidSettings, Restored;
      if AMP in query {
        success := SetAllOrRestore(query, base, kind);
      } else {
        success := SetNotificationAttribute(query, base, kind);
      }
      if success {
        success := CheckAttributeValidity();
      }
    }

    /** Several options; a refused one puts the settings back, the periods through floats. */
    method SetAllOrRestore(query: seq<byte>, base: BaseType, kind: DataType) returns (success: bool)
      modifies this
      ensures View() == old(View()).(settings := settings)
      ensures var set_ := SetAttributes(old(settings), currentValue, Options(query, MAX_OPTIONS), base, kind, atof);
        success == set_.0 && settings == if success then set_.1 else Restored(old(settings))
    {
      hide SetAttributes, Options, ThroughFloat;
      var pmin, pmax := ThroughFloat(settings.pmin), ThroughFloat(settings.pmax);
      var before := settings;
      var options := SplitQuery(query);
      success := SetEach(options, base, kind);
      if !success {
        settings := before.(pmin := pmin, pmax := pmax);
      }
    }

    /** The scan for separators: five slots at most. */
    method SplitQuery(query: seq<byte>) returns (options: seq<seq<byte>>)
      ensures options == Options(query, MAX_OPTIONS)
    {
      hide Before, After, Cut;
      options := [];
      var rest := query;
      while AMP in rest && |options| < MAX_OPTIONS
        invariant |options| <= MAX_OPTIONS
        invariant options + Options(rest, MAX_OPTIONS - |options|) == Options(query, MAX_OPTIONS)
      {
        options := options + [Cut(Before(rest, AMP))];
        rest := After(rest, AMP);
      }
      if |options| < MAX_OPTIONS && rest != [] {
        options := options + [Cut(rest)];
      }
    }

    method SetEach(options: seq<seq<byte>>, base: BaseType, kind: DataType) returns (success: bool)
      modifies this
      ensures View() == old(View()).(settings := settings)
      ensures (success, settings) == SetAttributes(old(settings), currentValue, options, base, kind, atof)
    {
      hide SetAttribute;
      success := true;
      var option := 0;
      while option < |options|
        invariant 0 <= option <= |options| && success
        invariant View() == old(View()).(settings := settings)
        invariant SetAttributes(settings, currentValue, options[option..], base, kind, atof)
               == SetAttributes(old(settings), currentValue, options, base, kind, atof)
      {
        assert options[option..][0] == options[option] && options[option..][1..] == options[option + 1..];
        success := SetNotificationAttribute(options[option], base, kind);
        if !success {
          break;
        }
        option := option + 1;
      }
    }

    method SetNotificationAttribute(option: seq<byte>, base: BaseType, kind: DataType) returns (success: bool)
      modifies this
      ensures View() == old(View()).(settings := settings)
      ensures (success, settings) == SetAttribute(old(settings), currentValue, option, base, kind, atof)
    {
      hide SetNamed, Before, After;
      success := false;
      var name := Before(option, EQUAL);
      var value := After(option, EQUAL);
      if value != [] {
        success := SetAttributeByName(name, value, base);
        if kind != INTEGER && kind != FLOAT && (Gt in settings.attributes || Lt in settings.attributes || St in settings.attributes) {
          success := false;
        }
      }
    }

    /** The comparisons of the name with each attribute's. */
    method SetAttributeByName(name: seq<byte>, value: seq<byte>, base: BaseType) returns (success: bool)
      modifies this
      ensures View() == old(View()).(settings := settings)
      ensures (success, settings) == SetNamed(old(settings), currentValue, name, value, base, atof)
    {
      hide CText.ParseInteger, AsInt32;
      success := true;
      var s := settings;
      if name == PMIN {
        s := s.(pmin := AsInt32(CText.ParseInteger(value)), attributes := s.attributes + {Pmin});
      } else if name == PMAX {
        s := s.(pmax := AsInt32(CText.ParseInteger(value)), attributes := s.attributes + {Pmax});
      } else if name == GT && base == Resource {
        s := s.(gt := atof(value), attributes := s.attributes + {Gt});
      } else if name == LT && base == Resource {
        s := s.(lt := atof(value), attributes := s.attributes + {Lt});
      } else if (name == ST || name == STP) && base == Resource {
        var step := atof(value);
        s := s.(st := step, high := currentValue + step, low := currentValue - step,
                              attributes := s.attributes + {St});
      } else {
        success := false;
      }
      settings := s;
    }

    method TimerExpiredPmin()
      modifies this
      ensures View() == PminExpired(old(View()))
    {
      pminExceeded := true;
      if notify || (settings.pmin > 0 && Pmax !in settings.attributes) {
        Report();
      }
    }

    method TimerExpiredPmax()
      modifies this
      ensures View() == PmaxExpired(old(View()))
    {
      pmaxExceeded := true;
      if pminExceeded || Pmin !in settings.attributes {
        Report();
      }
    }

    method ScheduleReport()
      modifies this
      ensures View() == ReportSemantics.ScheduleReport(old(View()))
    {
      notify := true;
      if Pmin !in settings.attributes || pminExceeded {
        Report();
      }
    }

    method Report()
      modifies this
      ensures View() == ReportSemantics.Report(old(View()))
    {
      hide ReportSemantics.HandleTimers;
      if currentValue != lastValue && notify {
        pminExceeded := false;
        pmaxExceeded := false;
        notify := false;
        ObservationToBeSent(false);
        pmaxTimer := Stopped;
      } else if pmaxExceeded {
        ObservationToBeSent(true);
      }
      HandleTimers();
      lastValue := currentValue;
    }

    /** Count, tell the observer, forget the ids. */
    method ObservationToBeSent(sendObject: bool)
      modifies this
      ensures View() == Send(old(View()), sendObject)
    {
      observationNumber := (observationNumber + 1) % 0x1_0000;
      sent := sent + [Notification(changedInstanceIds, observationNumber, sendObject, now)];
      changedInstanceIds := [];
    }

    method HandleTimers()
      modifies this
      ensures View() == ReportSemantics.HandleTimers(old(View()))
    {
      if Pmin in settings.attributes {
        if settings.pmin == settings.pmax {
          pminExceeded := true;
        } else {
          pminExceeded := false;
          pminTimer := Running(now + Interval(settings.pmin));
        }
      }
      if Pmax in settings.attributes {
        if settings.pmax > 0 {
          pmaxTimer := Running(now + Interval(settings.pmax));
        }
      }
    }

    method CheckAttributeValidity() returns (success: bool)
      ensures success <==> ValidSettings(settings)
    {
      success := true;
      if Pmax in settings.attributes && settings.pmax >= -1 && settings.pmin > settings.pmax {
        success := false;
      }
      var low := settings.lt + 2.0 * settings.st;
      if Gt in settings.attributes && low >= settings.gt {
        success := false;
      }
    }

    method StopTimers()
      modifies this
      ensures View() == ReportSemantics.StopTimers(old(View()))
    {
      pminExceeded := false;
      pminTimer := Stopped;
      pmaxExceeded := false;
      pmaxTimer := Stopped;
    }

    method SetDefaultValues()
      modifies this
      ensures View() == SetDefaults(old(View()))
    {
      settings := DEFAULTS;
      pminExceeded := false;
      pmaxExceeded := false;
      lastValue := -1.0;
      changedInstanceIds := [];
    }

    method CheckThresholdValues() returns (canSend: bool)
      ensures canSend <==> ThresholdAllows(settings, currentValue)
    {
      if St in settings.attributes {
        if currentValue >= settings.high || currentValue <= settings.low {
          canSend := true;
        } else if Lt in settings.attributes || Gt in settings.attributes {
          canSend := CheckGtLtParams();
        } else {
          canSend := false;
        }
      } else {
        canSend := CheckGtLtParams();
      }
    }

    method CheckGtLtParams() returns (canSend: bool)
      ensures canSend <==> GtLtAllows(settings, currentValue)
    {
      if {Lt, Gt} <= settings.attributes {
        canSend := currentValue > settings.gt || currentValue < settings.lt;
      } else if Lt in settings.attributes && Gt !in settings.attributes {
        canSend := currentValue < settings.lt;
      } else if Gt in settings.attributes && Lt !in settings.attributes {
        canSend := currentValue > settings.gt;
      } else {
        canSend := true;
      }
    }

    /** M2MBase::handle_observation_attribute and its overrides. */
    method HandleObservationAttribute(query: seq<byte>, base: BaseType, kind: DataType) returns (success: bool)
      modifies this
      ensures (success, View()) == ReportSemantics.HandleObservationAttribute(old(View()), query, base, kind, atof)
    {
      hide ParseQuery;
      success := ParseNotificationAttribute(query, base, kind);
      if success {
        if isUnderObservation {
          SetUnderObservation(true);
        }
      } else {
        SetDefaultValues();
      }
    }
  }
}

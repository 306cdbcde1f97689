/** When a reconnection comes to nothing: the retry timer has fired, the attempt it made is
    over, and still the client counts as reconnecting. */
module ClientStuck {
  import opened ClientSemantics
  import opened ClientRuns
  import opened Optional

  /** No attempt is under way: the client is idle, or holds an endpoint name that is too
      long to bootstrap with. */
  predicate AtRest(cfg: Config, s: Client) {
    s.current == Idle || (s.current == BootstrapAddressResolved && !cfg.nameFits)
  }

  /** Reconnecting, the retry timer spent, and at rest. */
  predicate Stuck(cfg: Config, s: Client) { AtRest(cfg, s) && s.reconnecting && s.retryTimerExpired }

  /** The event ends the attempt under way, or meets none, without ending the reconnection:
      a refusal that is not to be retried, an unregistration, or a message, a registration
      or a bootstrap that could not be sent or set up.  Other answers of the server, errors
      that are retried and errors that are given up on all leave the state or the
      reconnection. */
  predicate EndsAttempt(cfg: Config, e: Event, s: Client) {
    match e
    case BootstrapRequest(security) =>
      if security.None? || s.current != Idle then AtRest(cfg, s)
      else s.security.None? && security.value != Security(BootstrapServer, true)
    case RegisterRequest(security) =>
      if security.None? || s.current !in {Idle, Bootstrapped, Registered, Waiting} then AtRest(cfg, s)
      else s.security.None? && !(security.value == Security(M2MServer, true) && Answer(s.tape))
    case UpdateRequest(_, _, _) | QueueSleepTimer => AtRest(cfg, s)
    case UnregisterRequest =>
      if s.current in {Registered, UpdateRegistration, Waiting} then !Answer(s.tape) else AtRest(cfg, s)
    case MessageReady => s.current == Idle || !Answer(s.tape)
    case RegistrationError(_, retry) => !retry
    case ClientUnregistered => true
    case SocketError(code, retry) => AtRest(cfg, s) && ErrorOf(code) == ERROR_NONE && !Retried(cfg, retry, s)
    case AddressReady(BootstrapServer) => !cfg.nameFits || !Answer(s.tape)
    case AddressReady(M2MServer) => !Answer(s.tape) && (s.reconnection == WithUpdate ==> !Answer(Later(s.tape)))
    case _ => false
  }

  /** Exactly when an event leaves the client stuck, over every state, event and answer: the
      client is reconnecting, and either the retry timer fires while there is no security
      object, or it has fired before and the event ends the attempt. */
  lemma GetsStuckExactlyWhen(cfg: Config, e: Event, s: Client)
    requires cfg.Valid() && Quiet(s.tape)
    ensures Stuck(cfg, Handle(cfg, e, s)) <==>
              && s.reconnecting
              && if e.RetryTimer? then s.security.None? else s.retryTimerExpired && EndsAttempt(cfg, e, s)
  {
    hide Consistent, BackedOff, Attempts, Handle, Returned, Retried;
    match e {
      case BootstrapRequest(security) => BootstrapFate(cfg, security, s);
      case RegisterRequest(security) => RegisterFate(cfg, security, s);
      case UpdateRequest(_, _, _) => UpdateFate(cfg, e, s);
      case UnregisterRequest =>
        UnregisterOutcome(cfg, s);
        QuietReturns(cfg, SendUnregister, s.(current := Waiting));
      case MessageReady =>
        MessageOutcome(cfg, s);
        QuietReturns(cfg, SendData, s.(current := Waiting));
      case SocketError(code, retry) => SocketErrorFate(cfg, code, retry, s);
      case RegistrationError(code, retry) => RegistrationErrorFate(cfg, code, retry, s);
      case AddressReady(server) => AddressFate(cfg, server, s);
      case RetryTimer => RetryFate(cfg, s);
      case DataAvailable =>
        ReceivedDataOutcome(cfg, s);
        QuietReturns(cfg, ProcessData, s.(current := Waiting));
      case ClientRegistered => AnswerRegisters(cfg, s, false);
      case RegistrationWasUpdated => AnswerRegisters(cfg, s, true);
      case BootstrapError => FlowFate(cfg, e, s);
      case BootstrapFlowTimer => FlowFate(cfg, e, s);
      case RegistrationFlowTimer => FlowFate(cfg, e, s);
      case _ => OtherFate(cfg, e, s);
    }
  }

  predicate SameRetries(s: Client, r: Client) {
    r.reconnecting == s.reconnecting && r.retryTimerExpired == s.retryTimerExpired
  }

  lemma LookupFate(cfg: Config, server: ServerType, s: Client)
    requires cfg.Valid() && Quiet(s.tape)
    ensures var r := Connect(cfg, server, s); SameRetries(s, r) && r.current == s.current
  {
    hide Consistent, BackedOff, Attempts, Connect, Returned;
    LookupReturns(cfg, server, s);
    FlowTimerKeepsTape(cfg, server, s, s.tape);
    QuietReturns(cfg, Resolve(server), StartFlowTimer(cfg, server, s));
  }

  lemma BootstrapFate(cfg: Config, security: Option<Security>, s: Client)
    requires cfg.Valid() && Quiet(s.tape)
    ensures var r := Handle(cfg, BootstrapRequest(security), s);
      && SameRetries(s, r)
      && (AtRest(cfg, r) <==> EndsAttempt(cfg, BootstrapRequest(security), s))
  {
    hide Consistent, BackedOff, Attempts, Connect, GiveUp, Go;
    if security.Some? && s.current == Idle {
      RequestLeads(cfg, ToBootstrap, security, s);
      hide Handle;
      var t := s.(current := Bootstrap, bootstrapped := false);
      if s.security.Some? {
        LookupFate(cfg, BootstrapServer, Emit(cfg, SocketBound, Emit(cfg, ListeningStopped, t)));
      } else {
        LookupFate(cfg, BootstrapServer, t.(security := security));
        GiveUpStops(cfg, INVALID_PARAMETERS, t.(security := security));
      }
    }
  }

  lemma RegisterFate(cfg: Config, security: Option<Security>, s: Client)
    requires cfg.Valid() && Quiet(s.tape)
    ensures var r := Handle(cfg, RegisterRequest(security), s);
      && SameRetries(s, r)
      && (AtRest(cfg, r) <==> EndsAttempt(cfg, RegisterRequest(security), s))
  {
    hide Consistent, BackedOff, Attempts, Go, EnterRegister;
    if security.Some? && s.current in {Idle, Bootstrapped, Registered, Waiting} {
      RequestLeads(cfg, ToRegister, security, s);
      hide Handle;
      EnterRegisterFate(cfg, RegisterData(security), s.(current := Register));
    }
  }

  lemma EnterRegisterFate(cfg: Config, data: EventData, s: Client)
    requires cfg.Valid() && Quiet(s.tape) && s.current == Register && Deliverable(Register, data)
    ensures var r := EnterRegister(cfg, data, s);
      var security := if data.NoData? || s.security.Some? then s.security else data.security;
      && SameRetries(s, r)
      && (AtRest(cfg, r) <==> s.security.None? && !(security == Some(Security(M2MServer, true)) && Answer(s.tape)))
  {
    hide Consistent, BackedOff, Attempts, Call, Connect, RegisterFirst, Returned;
    if s.security.Some? {
      var t := s.(log := Then(s.log, ListeningStopped));
      CallReturns(cfg, CreateNsdlList, t);
      QuietReturns(cfg, CreateNsdlList, t);
      var u := if data.NoData? then t else Call(cfg, CreateNsdlList, t).1;
      LookupFate(cfg, M2MServer, u.(log := Then(u.log, SocketBound)));
    } else {
      RegisterFirstFate(cfg, if data.NoData? then s else s.(security := data.security));
    }
  }

  lemma RegisterFirstFate(cfg: Config, s: Client)
    requires cfg.Valid() && Quiet(s.tape) && s.current == Register
    ensures var r := RegisterFirst(cfg, s);
      && SameRetries(s, r)
      && r.current == if s.security == Some(Security(M2MServer, true)) && Answer(s.tape) then Register else Idle
  {
    hide Consistent, BackedOff, Attempts, Call, Connect, GiveUp, Returned;
    CallReturns(cfg, CreateNsdlList, s);
    QuietReturns(cfg, CreateNsdlList, s);
    var t := Returned(cfg, CreateNsdlList, s);
    LookupFate(cfg, M2MServer, t);
    GiveUpStops(cfg, INVALID_PARAMETERS, s);
    GiveUpStops(cfg, INVALID_PARAMETERS, t);
  }

  lemma RegisterNowFate(cfg: Config, s: Client)
    requires cfg.Valid() && Quiet(s.tape)
    ensures var r := RegisterNow(cfg, s); SameRetries(s, r) && r.current == if Answer(s.tape) then s.current else Idle
  {
    hide Consistent, BackedOff, Attempts, RegisterNow, Returned;
    RegisterNowRegisters(cfg, s);
    QuietReturns(cfg, SendRegister, s);
  }

  lemma EnterUpdateFate(cfg: Config, data: EventData, s: Client)
    requires cfg.Valid() && Quiet(s.tape) && s.current == UpdateRegistration && Deliverable(UpdateRegistration, data)
    ensures var r := EnterUpdateRegistration(cfg, data, s);
      && SameRetries(s, r)
      && (data.NoData? && s.reconnection == WithUpdate ==>
            r.current == if Answer(s.tape) || Answer(Later(s.tape)) then UpdateRegistration else Idle)
  {
    hide Consistent, BackedOff, Attempts, Call, RegisterNow;
    var call := SendUpdate(if data.UpdateData? then data.lifetime else 0);
    QuietCallCounts(cfg, CreateNsdlList, s, call);
    var t := if data.UpdateData? && data.hasObjects then Call(cfg, CreateNsdlList, s).1 else s;
    QuietCallCounts(cfg, call, t, call);
    RegisterNowFate(cfg, Call(cfg, call, t).1.(reconnection := FullRegistration));
  }

  lemma UpdateFate(cfg: Config, e: Event, s: Client)
    requires cfg.Valid() && Quiet(s.tape) && e.UpdateRequest?
    ensures var r := Handle(cfg, e, s);
      SameRetries(s, r) && (s.reconnecting ==> r.current == s.current)
  {
    hide Consistent, BackedOff, Attempts, Handle, EnterRegister, EnterUpdateRegistration;
    if s.reconnecting {
      UpdatesWaitForReconnection(cfg, s, e);
    } else {
      UpdateLeads(cfg, s, e);
      var data := UpdateData(e.security, e.lifetime, e.hasObjects);
      var short := 0 < e.lifetime < MINIMUM_REGISTRATION_TIME;
      var t := s.(reconnection := WithUpdate,
                  log := if short then Then(s.log, ErrorReported(INVALID_PARAMETERS)) else s.log);
      if s.current == Idle {
        EnterRegisterFate(cfg, data, t.(current := Register));
      } else if s.current in {Registered, Waiting} {
        EnterUpdateFate(cfg, data, t.(current := UpdateRegistration));
      }
    }
  }

  lemma AddressFate(cfg: Config, server: ServerType, s: Client)
    requires cfg.Valid() && Quiet(s.tape)
    ensures var r := Handle(cfg, AddressReady(server), s);
      && SameRetries(s, r)
      && (AtRest(cfg, r) <==> EndsAttempt(cfg, AddressReady(server), s))
  {
    hide Consistent, BackedOff, Attempts, Handle, Quiet;
    if server == BootstrapServer {
      BootstrapAddressFate(cfg, s);
    } else {
      ServerAddressFate(cfg, s);
    }
  }

  lemma ServerAddressFate(cfg: Config, s: Client)
    requires cfg.Valid() && Quiet(s.tape)
    ensures var r := Handle(cfg, AddressReady(M2MServer), s);
      && SameRetries(s, r)
      && (AtRest(cfg, r) <==> !Answer(s.tape) && (s.reconnection == WithUpdate ==> !Answer(Later(s.tape))))
  {
    hide Consistent, BackedOff, Attempts, Handle, EnterUpdateRegistration, RegisterNow, Quiet;
    AddressLeads(cfg, s);
    var t := s.(current := RegisterAddressResolved, log := Then(Then(s.log, ListeningStarted), ServerAddressSet));
    if s.reconnection == WithUpdate {
      EnterUpdateFate(cfg, NoData, t.(current := UpdateRegistration));
    } else {
      RegisterNowFate(cfg, t);
    }
  }

  lemma BootstrapAddressFate(cfg: Config, s: Client)
    requires cfg.Valid() && Quiet(s.tape)
    ensures var r := Handle(cfg, AddressReady(BootstrapServer), s);
      SameRetries(s, r) && (AtRest(cfg, r) <==> !cfg.nameFits || !Answer(s.tape))
  {
    hide Consistent, BackedOff, Attempts, Handle, Returned;
    BootstrapAddressOutcome(cfg, s);
    QuietReturns(cfg, CreateBootstrapResource,
                 s.(current := BootstrapAddressResolved, log := Then(s.log, ListeningStarted)));
  }

  lemma RetryFate(cfg: Config, s: Client)
    requires cfg.Valid() && Quiet(s.tape)
    ensures Stuck(cfg, Handle(cfg, RetryTimer, s)) <==> s.reconnecting && s.security.None?
  {
    hide Consistent, BackedOff, Attempts, Handle, Returned, StartFlowTimer;
    if s.security.Some? {
      RetryLooksUpAgain(cfg, s);
      var server := if s.bootstrapped then M2MServer else BootstrapServer;
      var t := s.(retryTimerExpired := true, current := if s.bootstrapped then Register else Bootstrap,
                  log := Then(Then(s.log, ListeningStopped), SocketBound));
      FlowTimerKeeps(cfg, server, t);
      QuietReturns(cfg, Resolve(server), StartFlowTimer(cfg, server, t));
    } else {
      RetryGoesIdle(cfg, s);
    }
  }

  lemma FlowTimerKeeps(cfg: Config, server: ServerType, s: Client)
    requires cfg.Valid()
    ensures StartFlowTimer(cfg, server, s) == s.(log := StartFlowTimer(cfg, server, s).log)
  {
    hide Consistent, BackedOff, Attempts;
  }

  /** When the retry timer fires, a client without a security object falls back to Idle
      with an error and starts no timer. */
  lemma RetryGoesIdle(cfg: Config, s: Client)
    requires cfg.Valid() && s.security.None?
    ensures Handle(cfg, RetryTimer, s) ==
            Stopped(INVALID_PARAMETERS,
                    s.(retryTimerExpired := true, bootstrapped := s.bootstrapped))
  {
    hide Consistent, BackedOff, Attempts, GiveUp;
    RetryTimerLeads(cfg, s);
    var t := s.(retryTimerExpired := true, current := if s.bootstrapped then Register else Bootstrap);
    hide Handle, Go;
    GiveUpStops(cfg, INVALID_PARAMETERS, t);
    if s.bootstrapped {
      assert EnterRegister(cfg, NoData, t) == RegisterFirst(cfg, t) == GiveUp(cfg, INVALID_PARAMETERS, t);
    }
  }

  lemma SocketErrorFate(cfg: Config, code: nat, retry: bool, s: Client)
    requires cfg.Valid()
    ensures Stuck(cfg, Handle(cfg, SocketError(code, retry), s)) <==>
              && s.reconnecting && s.retryTimerExpired
              && AtRest(cfg, s) && ErrorOf(code) == ERROR_NONE && !Retried(cfg, retry, s)
    ensures s.reconnecting && s.retryTimerExpired && retry && ErrorOf(code) != ERROR_NONE ==>
              !Stuck(cfg, Handle(cfg, SocketError(code, retry), s))
  {
    hide Consistent, BackedOff, Attempts, Retry, Fail, Go;
    assert Handle(cfg, SocketError(code, retry), s) == HandleSocketError(cfg, code, retry, s);
    hide Handle;
    RetryOrFailFate(cfg, ErrorOf(code), s.(reconnection := WithUpdate));
    FailFate(cfg, ErrorOf(code), s.(reconnection := WithUpdate));
    hide RetryOrFail;
  }

  lemma RetryOrFailFate(cfg: Config, error: nat, s: Client)
    requires cfg.Valid() && s.reconnection == WithUpdate
    ensures var r := RetryOrFail(cfg, error, s);
      if cfg.loop || s.retryCount < cfg.count then !r.retryTimerExpired
      else if error != ERROR_NONE then !r.reconnecting
      else SameRetries(s, r) && r.current == s.current
  {
    hide Consistent, BackedOff, Attempts, Retry, Fail, Go;
    RetryArms(cfg, s.(retryCount := s.retryCount + 1));
    RetryArms(cfg, Report(cfg, error, s.(retryCount := 1)));
    FailFate(cfg, error, Emit(cfg, RetryTimerStopped, Emit(cfg, ListeningStopped, s)));
  }

  lemma FailFate(cfg: Config, error: nat, s: Client)
    requires cfg.Valid()
    ensures if error == ERROR_NONE then Fail(cfg, error, s) == s else !Fail(cfg, error, s).reconnecting
  {
    hide Fail;
  }

  lemma RegistrationErrorFate(cfg: Config, code: nat, retry: bool, s: Client)
    requires cfg.Valid()
    ensures !retry ==> Handle(cfg, RegistrationError(code, retry), s) == Stopped(code, s)
    ensures Stuck(cfg, Handle(cfg, RegistrationError(code, retry), s)) <==>
              s.reconnecting && s.retryTimerExpired && !retry
  {
    hide Consistent, BackedOff, Attempts, HandleSocketError;
    var r := HandleSocketError(cfg, SOCKET_SEND_ERROR, true, s);
    assert Handle(cfg, RegistrationError(code, retry), s) == HandleRegistrationError(cfg, code, retry, s);
    if retry {
      assert Handle(cfg, SocketError(SOCKET_SEND_ERROR, true), s) == r;
      hide Handle;
      SocketErrorFate(cfg, SOCKET_SEND_ERROR, true, s);
    } else {
      hide Handle;
      assert Go(cfg, Idle, NoData, s) == s.(current := Idle, log := Then(s.log, NsdlTimersStopped));
    }
  }

  lemma FlowFate(cfg: Config, e: Event, s: Client)
    requires cfg.Valid() && (e.BootstrapError? || e.BootstrapFlowTimer? || e.RegistrationFlowTimer?)
    ensures !Stuck(cfg, Handle(cfg, e, s))
  {
    hide Consistent, BackedOff, Attempts, HandleSocketError, StopFlowTimer;
    if e.RegistrationFlowTimer? {
      assert Handle(cfg, e, s) == Handle(cfg, RegistrationError(TIMEOUT, true), s);
      hide Handle;
      RegistrationErrorFate(cfg, TIMEOUT, true, s);
    } else {
      var t := StopFlowTimer(cfg, s.(bootstrapped := false));
      assert Handle(cfg, e, s) == HandleBootstrapError(cfg, s) == HandleSocketError(cfg, BOOTSTRAP_FAILED, true, t);
      assert Handle(cfg, SocketError(BOOTSTRAP_FAILED, true), t) == HandleSocketError(cfg, BOOTSTRAP_FAILED, true, t);
      hide Handle;
      SocketErrorFate(cfg, BOOTSTRAP_FAILED, true, t);
    }
  }

  lemma OtherFate(cfg: Config, e: Event, s: Client)
    requires cfg.Valid()
    requires e.ClientUnregistered? || e.BootstrapIsDone? || e.BootstrapMustWait? || e.DataProcessed? || e.DataSent?
             || e.QueueSleepTimer?
    ensures Stuck(cfg, Handle(cfg, e, s)) <==>
              s.reconnecting && s.retryTimerExpired && EndsAttempt(cfg, e, s)
  {
    hide Consistent, BackedOff, Attempts;
    match e
    case ClientUnregistered =>
      var t := s.(current := Unregistered);
      assert Go(cfg, Unregistered, NoData, s) == Go(cfg, Idle, NoData, t);
    case DataSent =>
      assert Handle(cfg, e, s) == HandleDataSent(cfg, s);
      hide Handle, HandleBootstrapDone;
      DataSentFate(cfg, s);
    case DataProcessed =>
      assert Go(cfg, CoapDataProcessed, NoData, s) == s.(current := Waiting);
    case _ =>
  }

  lemma DataSentFate(cfg: Config, s: Client)
    requires cfg.Valid()
    ensures var r := HandleDataSent(cfg, s); r.current == Waiting || !r.reconnecting
  {
    hide Consistent, BackedOff, Attempts, HandleBootstrapDone;
    var t := if cfg.queueMode && cfg.sleepHandler
             then Emit(cfg, SleepTimerStarted(cfg.count * cfg.interval * 1000), Emit(cfg, SleepTimerStopped, s))
             else s;
    assert Go(cfg, CoapDataSent, NoData, t) == t.(current := Waiting);
  }

  /** Exactly when the server's answer to an attempt leaves the client reconnecting with no
      new retry: if it refuses and is not to be asked again. */
  lemma AnswerLeavesReconnectingExactlyWhen(cfg: Config, e: Event, s: Client)
    requires cfg.Valid() && Sound(cfg, s) && s.reconnecting && s.retryTimerExpired
    requires e.ClientRegistered? || e.RegistrationWasUpdated? || e.RegistrationError?
    ensures var r := Handle(cfg, e, s);
      r.reconnecting && Starts(r.log) == Starts(s.log) <==> e.RegistrationError? && !e.retry
  {
    hide Consistent, BackedOff, Attempts, Starts, HandleSocketError;
    if e.RegistrationError? {
      if e.retry {
        assert Handle(cfg, e, s) == HandleRegistrationError(cfg, e.code, true, s);
        hide Handle;
        SocketErrorOutcome(cfg, SOCKET_SEND_ERROR, true, s);
      } else {
        hide Handle;
        RegistrationErrorFate(cfg, e.code, false, s);
        StartsStep(s.log, NsdlTimersStopped);
        StartsStep(Then(s.log, NsdlTimersStopped), ErrorReported(e.code));
      }
    } else {
      hide Handle;
      AnswerRegisters(cfg, s, e.RegistrationWasUpdated?);
    }
  }

  // ----------------------------------------------------------- reaching that state

  /** After a bootstrap: its security object is given up with the last message, so a
      connection that fails before the next registration is stuck once the timer fires. */
  lemma FailureAfterBootstrapGetsStuck(cfg: Config, s: Client, security: Option<Security>, code: nat)
    requires cfg.Valid()
    ensures var s1 := Handle(cfg, BootstrapMustWait(security), s);
      var s2 := Handle(cfg, DataSent, s1);
      var s3 := Handle(cfg, SocketError(code, true), s2);
      s3.security.None? && Stuck(cfg, Handle(cfg, RetryTimer, s3))
  {
    hide Consistent, BackedOff, Attempts, Handle;
    BootstrapEndsWithTheLastMessage(cfg, s, security);
    var s2 := Handle(cfg, DataSent, Handle(cfg, BootstrapMustWait(security), s));
    FailureArms(cfg, s2, code);
    RetryGoesIdle(cfg, Handle(cfg, SocketError(code, true), s2));
  }

  /** A connection that fails before the first request. */
  lemma FailureBeforeRequestsGetsStuck(cfg: Config, code: nat, tape: seq<Reaction>)
    requires cfg.Valid()
    ensures var s := Handle(cfg, SocketError(code, true), Initial(tape));
      s.security.None? && Stuck(cfg, Handle(cfg, RetryTimer, s))
  {
    hide Consistent, BackedOff, Attempts, Handle;
    FailureArms(cfg, Initial(tape), code);
    RetryGoesIdle(cfg, Handle(cfg, SocketError(code, true), Initial(tape)));
  }

  /** A registered client with a security object whose connection fails, and whose update or
      registration the server then refuses for good: the attempt that `ReconnectionCompletes`
      follows to its end, with another answer. */
  lemma RefusalGetsStuck(cfg: Config, s: Client, code: nat, refusal: nat)
    requires cfg.Valid() && Retried(cfg, true, s) && s.security.Some? && s.bootstrapped
    requires Quiet(s.tape) && (Answer(Later(s.tape)) || Answer(Later(Later(s.tape))))
    ensures
      var s1 := Handle(cfg, SocketError(code, true), s);
      var s2 := Handle(cfg, RetryTimer, s1);
      var s3 := Handle(cfg, AddressReady(M2MServer), s2);
      var s4 := Handle(cfg, RegistrationError(refusal, false), s3);
      && s3.current == UpdateRegistration
      && Stuck(cfg, s4) && s4.security == s.security
      && s4.log == Then(Then(s3.log, NsdlTimersStopped), ErrorReported(refusal))
  {
    hide Consistent, BackedOff, Attempts, Handle;
    ReconnectionCompletes(cfg, s, code);
    var s1 := Handle(cfg, SocketError(code, true), s);
    var s2 := Handle(cfg, RetryTimer, s1);
    FailureArms(cfg, s, code);
    RetryKeeps(cfg, s1);
    AddressKeeps(cfg, s2);
    RegistrationErrorFate(cfg, refusal, false, Handle(cfg, AddressReady(M2MServer), s2));
  }

  lemma RetryKeeps(cfg: Config, s: Client)
    requires cfg.Valid() && Quiet(s.tape) && s.security.Some?
    ensures var r := Handle(cfg, RetryTimer, s);
      r.retryTimerExpired && r.security == s.security && Quiet(r.tape)
  {
    hide Consistent, BackedOff, Attempts, Handle, Returned, StartFlowTimer;
    RetryLooksUpAgain(cfg, s);
    var server := if s.bootstrapped then M2MServer else BootstrapServer;
    var t := s.(retryTimerExpired := true, current := if s.bootstrapped then Register else Bootstrap,
                log := Then(Then(s.log, ListeningStopped), SocketBound));
    FlowTimerKeeps(cfg, server, t);
    QuietReturns(cfg, Resolve(server), StartFlowTimer(cfg, server, t));
  }

  lemma AddressKeeps(cfg: Config, s: Client)
    requires cfg.Valid() && Quiet(s.tape)
    ensures var r := Handle(cfg, AddressReady(M2MServer), s); SameRetries(s, r) && r.security == s.security
  {
    hide Consistent, BackedOff, Attempts, Handle, Returned;
    AddressReadyOutcome(cfg, s);
    var h := Then(Then(s.log, ListeningStarted), ServerAddressSet);
    var u := s.(current := UpdateRegistration, log := h);
    QuietReturns(cfg, SendUpdate(0), u);
    QuietReturns(cfg, SendRegister, Returned(cfg, SendUpdate(0), u).(reconnection := FullRegistration));
    QuietReturns(cfg, SendRegister, s.(current := RegisterAddressResolved, log := h));
  }

  // ----------------------------------------------------------- staying there

  /** What the application and the sleep timer can do without a registration or bootstrap
      request, and a retry timer that finds no security object. */
  predicate BringsNothing(s: Client, e: Event) {
    match e
    case UpdateRequest(_, _, _) | UnregisterRequest | QueueSleepTimer => true
    case MessageReady => s.current == Idle
    case RetryTimer => s.current == Idle && s.security.None?
    case BootstrapRequest(security) => security.None?
    case RegisterRequest(security) => security.None?
    case _ => false
  }

  predicate DoesNothing(e: Event) {
    e.MessageReady? || (e.UpdateRequest? && !(0 < e.lifetime < MINIMUM_REGISTRATION_TIME))
  }

  lemma StuckAfterOne(cfg: Config, s: Client, e: Event)
    requires cfg.Valid() && Stuck(cfg, s) && BringsNothing(s, e)
    ensures var r := Handle(cfg, e, s);
      && Stuck(cfg, r) && r.current == s.current && r.security == s.security
      && r.tape == s.tape && Starts(r.log) == Starts(s.log)
      && (DoesNothing(e) ==> r == s)
  {
    hide Consistent, BackedOff, Attempts, Starts;
    if e.RetryTimer? {
      RetryGoesIdle(cfg, s);
      hide Handle;
      StartsStep(s.log, NsdlTimersStopped);
      StartsStep(Then(s.log, NsdlTimersStopped), ErrorReported(INVALID_PARAMETERS));
    } else {
      hide Go;
      StartsStep(s.log, ErrorReported(INVALID_PARAMETERS));
      StartsStep(s.log, ErrorReported(NOT_ALLOWED));
      StartsStep(s.log, SleepHandlerCalled);
    }
  }

  /** A stuck client, with or without a security object, stays stuck, calls no library and
      starts no retry timer, through any run of such events.  Updates with a valid lifetime
      and messages to send do nothing at all. */
  lemma {:induction false} StuckStays(cfg: Config, events: seq<Event>, s: Client)
    requires cfg.Valid() && Stuck(cfg, s) && forall e | e in events :: BringsNothing(s, e)
    ensures var r := Run(cfg, events, s);
      && Stuck(cfg, r) && r.current == s.current && r.security == s.security
      && r.tape == s.tape && Starts(r.log) == Starts(s.log)
      && ((forall e | e in events :: DoesNothing(e)) ==> r == s)
    decreases |events|
  {
    hide Consistent, BackedOff, Attempts, Starts, Handle, Stuck;
    if events != [] {
      StuckAfterOne(cfg, s, events[0]);
      var r := Handle(cfg, events[0], s);
      forall e | e in events[1..] ensures BringsNothing(r, e) {
        assert BringsNothing(s, e);
      }
      StuckStays(cfg, events[1..], Handle(cfg, events[0], s));
    }
  }

  /** What gets it going again: with a TCP binding the timer of the flow that was begun, as
      long as attempts are left. */
  lemma FlowTimerRetries(cfg: Config, s: Client)
    requires cfg.Valid() && Sound(cfg, s) && Stuck(cfg, s) && (cfg.loop || s.retryCount < cfg.count)
    ensures var r := Handle(cfg, RegistrationFlowTimer, s);
      Starts(r.log) == Starts(s.log) + 1 && r.reconnecting && !r.retryTimerExpired && r.reconnection == FullRegistration
  {
    hide Consistent, BackedOff, Attempts, Starts, HandleSocketError;
    SocketErrorOutcome(cfg, SOCKET_SEND_ERROR, true, s);
    assert Handle(cfg, RegistrationFlowTimer, s) == HandleRegistrationError(cfg, TIMEOUT, true, s);
    hide Handle;
  }
}

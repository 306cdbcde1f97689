/** The whole effect of each event on the client, output by output: what the application
    hears, which timers run, and where the client rests. */
module ClientEvents {
  import opened ClientSemantics
  import opened ClientRuns
  import opened Optional

  /** The flow timer is stopped, if there is one. */
  function FlowTimerEnds(cfg: Config, h: History): History { if cfg.flowTimer then Then(h, FlowTimerStopped) else h }

  /** A flow, a lookup and all that follows, has eight times the delay of the first retry. */
  lemma FlowTimerIsRestarted(cfg: Config, server: ServerType, s: Client)
    requires cfg.Valid()
    ensures StartFlowTimer(cfg, server, s) ==
            if cfg.flowTimer
            then s.(log := Then(Then(s.log, FlowTimerStopped), FlowTimerStarted(server, 8 * 1000 * cfg.interval * cfg.count)))
            else s
  {
    hide Consistent, BackedOff, Attempts;
    assert cfg.count * cfg.interval * 8 * 1000 == 8 * 1000 * cfg.interval * cfg.count;
  }

  // ------------------------------------------------------------------- announced

  /** Every success the server confirms is announced to the application as what it is, as
      the last output of the event; it clears the counters of the retries, unless it is
      that of an unregistration. */
  lemma SuccessIsAnnounced(cfg: Config, s: Client)
    requires cfg.Valid()
    ensures var done := s.(retryCount := 0, reconnecting := false, reconnection := NoReconnection);
      var h := FlowTimerEnds(cfg, s.log);
      && Handle(cfg, ClientRegistered, s) == done.(current := Registered, log := Then(h, ObjectRegistered))
      && Handle(cfg, RegistrationWasUpdated, s) == done.(current := Registered, log := Then(s.log, RegistrationUpdated))
      && Handle(cfg, BootstrapIsDone, s) == done.(current := Bootstrapped, bootstrapped := true, log := Then(h, BootstrapDone))
      && Handle(cfg, ClientUnregistered, s) ==
         s.(current := Idle, log := Then(Then(s.log, NsdlTimersStopped), ObjectUnregistered))
  {
    RegistrationIsAnnounced(cfg, s);
    BootstrapIsAnnounced(cfg, s);
    UnregistrationIsAnnounced(cfg, s);
    hide Handle, HandleBootstrapDone;
  }

  lemma UnregistrationIsAnnounced(cfg: Config, s: Client)
    requires cfg.Valid()
    ensures Handle(cfg, ClientUnregistered, s) ==
            s.(current := Idle, log := Then(Then(s.log, NsdlTimersStopped), ObjectUnregistered))
  {
    hide Consistent, BackedOff, Attempts;
    assert Handle(cfg, ClientUnregistered, s) == Emit(cfg, ObjectUnregistered, Go(cfg, Unregistered, NoData, s));
    hide Handle;
    assert Go(cfg, Unregistered, NoData, s) == Go(cfg, Idle, NoData, s.(current := Unregistered));
  }

  lemma RegistrationIsAnnounced(cfg: Config, s: Client)
    requires cfg.Valid()
    ensures var done := s.(current := Registered, retryCount := 0, reconnecting := false, reconnection := NoReconnection);
      && Handle(cfg, ClientRegistered, s) == done.(log := Then(FlowTimerEnds(cfg, s.log), ObjectRegistered))
      && Handle(cfg, RegistrationWasUpdated, s) == done.(log := Then(s.log, RegistrationUpdated))
  {
    hide Consistent, BackedOff, Attempts;
    assert Handle(cfg, ClientRegistered, s) == HandleRegistered(cfg, ObjectRegistered, s);
    assert Handle(cfg, RegistrationWasUpdated, s) == HandleRegistered(cfg, RegistrationUpdated, s);
    hide Handle;
  }

  lemma BootstrapIsAnnounced(cfg: Config, s: Client)
    requires cfg.Valid()
    ensures HandleBootstrapDone(cfg, s) ==
            s.(current := Bootstrapped, bootstrapped := true, retryCount := 0, reconnecting := false,
               reconnection := NoReconnection, log := Then(FlowTimerEnds(cfg, s.log), BootstrapDone))
    ensures Handle(cfg, BootstrapIsDone, s) == HandleBootstrapDone(cfg, s)
  {
    hide Consistent, BackedOff, Attempts;
  }

  // --------------------------------------------------------------------- failures

  /** The client as it waits for the retry timer, which has the given time to run. */
  function WaitingToRetry(s: Client, h: History, count: int, ms: int): Client {
    s.(current := Idle, reconnecting := true, retryTimerExpired := false, retryCount := count,
       log := Then(Then(Then(h, NsdlTimersStopped), ListeningStopped), RetryTimerStarted(ms)))
  }

  /** The client after its last attempt, told of the error. */
  function GivenUp(s: Client, h: History, code: nat): Client {
    s.(current := Idle, reconnecting := false, retryCount := 0, reconnection := NoReconnection,
       log := Then(Then(Then(Then(h, ListeningStopped), RetryTimerStopped), ErrorReported(code)), NsdlTimersStopped))
  }

  /** A failed connection, output by output. */
  lemma SocketErrorEffect(cfg: Config, code: nat, retry: bool, s: Client)
    requires cfg.Valid()
    ensures var t := s.(reconnection := WithUpdate);
      var h := Then(Then(s.log, ListeningStopped), RetryTimerStopped);
      var unit := 1000 * cfg.interval * cfg.count;
      Handle(cfg, SocketError(code, retry), s) ==
      if !cfg.loop && s.reconnecting && !s.retryTimerExpired then t
      else if retry && s.retryCount < cfg.count then WaitingToRetry(t, s.log, s.retryCount + 1, unit * (s.retryCount + 1))
      else if retry && cfg.loop then WaitingToRetry(t, Then(s.log, ErrorReported(NameOf(code))), 1, unit)
      else if NameOf(code) == 0 then (if retry then t.(log := h) else t)
      else GivenUp(t, if retry then h else s.log, NameOf(code))
  {
    hide Consistent, BackedOff, Attempts, RetryOrFail, Fail;
    var t := s.(reconnection := WithUpdate);
    assert Handle(cfg, SocketError(code, retry), s) == HandleSocketError(cfg, code, retry, s);
    hide Handle;
    assert ErrorOf(code) == NameOf(code);
    FailGivesUp(cfg, NameOf(code), t);
    RetryOrFailEffect(cfg, NameOf(code), t);
    hide ErrorOf, NameOf, WaitingToRetry, GivenUp;
  }

  lemma RetryOrFailEffect(cfg: Config, error: nat, s: Client)
    requires cfg.Valid() && s.reconnection == WithUpdate
    ensures var h := Then(Then(s.log, ListeningStopped), RetryTimerStopped);
      var unit := 1000 * cfg.interval * cfg.count;
      RetryOrFail(cfg, error, s) ==
      if s.retryCount < cfg.count then WaitingToRetry(s, s.log, s.retryCount + 1, unit * (s.retryCount + 1))
      else if cfg.loop then WaitingToRetry(s, Then(s.log, ErrorReported(error)), 1, unit)
      else if error == 0 then s.(log := h)
      else GivenUp(s, h, error)
  {
    hide Consistent, BackedOff, Attempts, Retry, Fail, Go;
    if s.retryCount < cfg.count {
      RetryWaits(cfg, s.(retryCount := s.retryCount + 1));
    } else if cfg.loop {
      RetryWaits(cfg, s.(retryCount := 1, log := Then(s.log, ErrorReported(error))));
      assert 1000 * cfg.interval * cfg.count * 1 == 1000 * cfg.interval * cfg.count;
    } else {
      FailGivesUp(cfg, error, s.(log := Then(Then(s.log, ListeningStopped), RetryTimerStopped)));
      hide GivenUp;
    }
  }

  lemma RetryWaits(cfg: Config, s: Client)
    requires cfg.Valid()
    ensures Retry(cfg, s) == WaitingToRetry(s, s.log, s.retryCount, 1000 * cfg.interval * cfg.count * s.retryCount)
  {
    hide Consistent, BackedOff, Attempts, Retry, Go;
    RetryArms(cfg, s);
    assert cfg.interval * cfg.count * s.retryCount * 1000 == 1000 * cfg.interval * cfg.count * s.retryCount;
  }

  lemma FailGivesUp(cfg: Config, error: nat, s: Client)
    requires cfg.Valid()
    ensures Fail(cfg, error, s) == if error == 0 then s else GivenUp(s, s.log, error)
  {
    hide Consistent, BackedOff, Attempts;
  }

  /** A refused registration that is final is told to the application. */
  lemma FinalRefusalEffect(cfg: Config, code: nat, s: Client)
    requires cfg.Valid()
    ensures Handle(cfg, RegistrationError(code, false), s) ==
            s.(current := Idle, log := Then(Then(s.log, NsdlTimersStopped), ErrorReported(code)))
  {
    hide Consistent, BackedOff, Attempts, HandleSocketError;
    assert Handle(cfg, RegistrationError(code, false), s) == HandleRegistrationError(cfg, code, false, s);
    hide Handle;
    var t := Go(cfg, Idle, NoData, s);
    assert t == s.(current := Idle, log := Then(s.log, NsdlTimersStopped));
    assert HandleRegistrationError(cfg, code, false, s) == t.(log := Then(t.log, ErrorReported(code))) by {
      hide Go;
    }
  }

  /** One that is not final is a failure to send, after which a full registration is due; a
      registration flow that takes too long is the same. */
  lemma RefusalIsFailure(cfg: Config, code: nat, s: Client)
    requires cfg.Valid()
    ensures Handle(cfg, RegistrationError(code, true), s) ==
            Handle(cfg, SocketError(3, true), s).(reconnection := FullRegistration)
    ensures Handle(cfg, RegistrationFlowTimer, s) == Handle(cfg, RegistrationError(code, true), s)
  {
    hide Consistent, BackedOff, Attempts, HandleSocketError, Go;
    assert Handle(cfg, RegistrationError(code, true), s) == HandleRegistrationError(cfg, code, true, s);
    assert Handle(cfg, RegistrationFlowTimer, s) == HandleRegistrationError(cfg, TIMEOUT, true, s);
  }

  /** A failed or late bootstrap is a failure to receive, and the client is no longer
      bootstrapped. */
  lemma BootstrapFailureIsFailure(cfg: Config, s: Client)
    requires cfg.Valid()
    ensures Handle(cfg, BootstrapError, s) ==
            Handle(cfg, SocketError(2, true), s.(bootstrapped := false, log := FlowTimerEnds(cfg, s.log)))
    ensures Handle(cfg, BootstrapFlowTimer, s) == Handle(cfg, BootstrapError, s)
  {
    hide Consistent, BackedOff, Attempts, HandleSocketError;
  }

  // --------------------------------------------------------- messages and requests

  /** A message that has gone out: in queue mode the sleep timer restarts, if there is a
      handler for it; the last message of a bootstrap ends that, any other ends in Waiting. */
  lemma DataSentEffect(cfg: Config, s: Client)
    requires cfg.Valid()
    ensures var h :=
        if cfg.queueMode && cfg.sleepHandler
        then Then(Then(s.log, SleepTimerStopped), SleepTimerStarted(1000 * cfg.interval * cfg.count)) else s.log;
      Handle(cfg, DataSent, s) ==
      if s.current != BootstrapWait then s.(current := Waiting, log := h)
      else s.(current := Bootstrapped, bootstrapped := true, security := None,
              retryCount := 0, reconnecting := false, reconnection := NoReconnection,
              log := Then(FlowTimerEnds(cfg, h), BootstrapDone))
  {
    hide Consistent, BackedOff, Attempts, HandleBootstrapDone;
    assert Handle(cfg, DataSent, s) == HandleDataSent(cfg, s);
    hide Handle;
    var h := if cfg.queueMode && cfg.sleepHandler
             then Then(Then(s.log, SleepTimerStopped), SleepTimerStarted(1000 * cfg.interval * cfg.count)) else s.log;
    assert cfg.count * cfg.interval * 1000 == 1000 * cfg.interval * cfg.count;
    var t := s.(log := h);
    BootstrapIsAnnounced(cfg, t.(security := None));
    assert Go(cfg, CoapDataSent, NoData, t) == Go(cfg, Waiting, NoData, t.(current := CoapDataSent)) == t.(current := Waiting);
  }

  /** Processed data leaves nothing but Waiting behind. */
  lemma ProcessedLeadsToWaiting(cfg: Config, s: Client)
    requires cfg.Valid()
    ensures Handle(cfg, DataProcessed, s) == s.(current := Waiting)
  {
    hide Consistent, BackedOff, Attempts;
    assert Handle(cfg, DataProcessed, s) == Go(cfg, CoapDataProcessed, NoData, s);
    hide Handle;
    assert Go(cfg, CoapDataProcessed, NoData, s) == Go(cfg, Waiting, NoData, s.(current := CoapDataProcessed));
  }

  /** A bootstrap whose last message is still to go out keeps the security object it brought. */
  lemma WaitKeepsSecurity(cfg: Config, s: Client, security: Option<Security>)
    requires cfg.Valid()
    ensures Handle(cfg, BootstrapMustWait(security), s) == s.(current := BootstrapWait, security := security)
  {
    hide Consistent, BackedOff, Attempts;
    var t := s.(security := security);
    assert Handle(cfg, BootstrapMustWait(security), s) == Go(cfg, BootstrapWait, NoData, t);
    hide Handle;
  }

  /** The sleep timer calls the handler, if there is one, and does nothing else. */
  lemma SleepTimerCallsHandler(cfg: Config, s: Client)
    requires cfg.Valid()
    ensures Handle(cfg, QueueSleepTimer, s) == if cfg.sleepHandler then s.(log := Then(s.log, SleepHandlerCalled)) else s
  {
    hide Consistent, BackedOff, Attempts, Go;
  }

  /** Requests that come to nothing: without a security object, or in a state that does not
      allow them. */
  lemma RequestIsRefused(cfg: Config, s: Client, security: Option<Security>)
    requires cfg.Valid()
    ensures var invalid, early := s.(log := Then(s.log, ErrorReported(3))), s.(log := Then(s.log, ErrorReported(10)));
      && (security.None? ==> Handle(cfg, BootstrapRequest(security), s) == Handle(cfg, RegisterRequest(security), s) == invalid)
      && (security.Some? && s.current != Idle ==> Handle(cfg, BootstrapRequest(security), s) == early)
      && (security.Some? && s.current !in {Idle, Bootstrapped, Registered, Waiting} ==>
            Handle(cfg, RegisterRequest(security), s) == early)
  {
    hide Consistent, BackedOff, Attempts;
    assert Handle(cfg, BootstrapRequest(security), s) == RequestWith(cfg, ToBootstrap, security, s);
    assert Handle(cfg, RegisterRequest(security), s) == RequestWith(cfg, ToRegister, security, s);
    hide Handle, Go;
  }

  /** A client that has a security object already looks its server up with that one, whatever
      object the request brings. */
  lemma RequestLooksUpAgain(cfg: Config, s: Client, security: Option<Security>)
    requires cfg.Valid() && security.Some? && s.security.Some?
    ensures s.current == Idle ==>
              Handle(cfg, BootstrapRequest(security), s) ==
              Returned(cfg, Resolve(BootstrapServer),
                       LookingUpAgain(cfg, BootstrapServer, s.(current := Bootstrap, bootstrapped := false)))
    ensures s.current in {Idle, Bootstrapped, Registered, Waiting} ==>
              Handle(cfg, RegisterRequest(security), s) ==
              var t := s.(current := Register, log := Then(s.log, ListeningStopped));
              var u := Returned(cfg, CreateNsdlList, t);
              Returned(cfg, Resolve(M2MServer), StartFlowTimer(cfg, M2MServer, u.(log := Then(u.log, SocketBound))))
  {
    hide Consistent, BackedOff, Attempts, Connect, Call;
    RequestLeads(cfg, ToBootstrap, security, s);
    RequestLeads(cfg, ToRegister, security, s);
    hide Handle, Go, Returned, StartFlowTimer;
    LookupReturns(cfg, BootstrapServer,
                  s.(current := Bootstrap, bootstrapped := false, log := Then(Then(s.log, ListeningStopped), SocketBound)));
    var t := s.(current := Register, log := Then(s.log, ListeningStopped));
    CallReturns(cfg, CreateNsdlList, t);
    var u := Returned(cfg, CreateNsdlList, t);
    LookupReturns(cfg, M2MServer, u.(log := Then(u.log, SocketBound)));
  }

  /** What the application hears when a call into the library fails: 4, that it is not
      registered, if it cannot be unregistered; 7 if what was received cannot be parsed; 6,
      the network, if a message cannot be sent, unless the client is reconnecting by then. */
  lemma FailedCallIsReported(cfg: Config, s: Client)
    requires cfg.Valid() && Quiet(s.tape) && !Answer(s.tape)
    ensures s.current in {Registered, UpdateRegistration, Waiting} ==>
              Handle(cfg, UnregisterRequest, s).log ==
              Then(Then(Then(s.log, Called(SendUnregister)), NsdlTimersStopped), ErrorReported(4))
    ensures Handle(cfg, DataAvailable, s).log == Then(Then(s.log, Called(ProcessData)), ErrorReported(7))
    ensures s.current != Idle ==>
              var h := Then(Then(s.log, Called(SendData)), NsdlTimersStopped);
              Handle(cfg, MessageReady, s).log == if s.reconnecting then h else Then(h, ErrorReported(6))
  {
    hide Consistent, BackedOff, Attempts;
    UnregisterOutcome(cfg, s);
    ReceivedDataOutcome(cfg, s);
    MessageOutcome(cfg, s);
    hide Handle, Returned;
    QuietReturns(cfg, SendUnregister, s.(current := Waiting));
    QuietReturns(cfg, ProcessData, s.(current := Waiting));
    QuietReturns(cfg, SendData, s.(current := Waiting));
  }

  /** A lifetime from 1 to 59 seconds is reported as invalid, 3; no other is. */
  lemma LifetimeIsCheckedExactlyWhen(cfg: Config, s: Client, update: Event)
    requires cfg.Valid() && update.UpdateRequest? && s.reconnecting
    ensures Handle(cfg, update, s) == if 1 <= update.lifetime <= 59 then s.(log := Then(s.log, ErrorReported(3))) else s
  {
    UpdatesWaitForReconnection(cfg, s, update);
    hide Handle, Consistent;
  }

  /** A client that never had to bootstrap registers when the retry timer fires. */
  lemma NewClientRegisters(cfg: Config, tape: seq<Reaction>)
    requires cfg.Valid()
    ensures Handle(cfg, RetryTimer, Initial(tape)).bootstrapped
    ensures Handle(cfg, RetryTimer, Initial(tape)).log == Then(Then(Nothing, NsdlTimersStopped), ErrorReported(3))
    ensures var s := Initial(tape);
      s.current == Idle && !s.reconnecting && s.retryCount == 0 && s.reconnection == NoReconnection && s.security == None
  {
    hide Consistent, BackedOff, Attempts;
    RetryTimerLeads(cfg, Initial(tape));
    hide Handle, EnterBootstrap;
    GiveUpStops(cfg, INVALID_PARAMETERS, Initial(tape).(retryTimerExpired := true, current := Register));
    hide GiveUp;
  }
}

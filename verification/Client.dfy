/** M2MInterfaceImpl: the client with its fields updated in place and its re-entrant
    state engine, each method proved against the function of ClientSemantics. */
module ClientInterface {
  import opened ClientSemantics
  import opened Optional

  class M2MInterfaceImpl {
    const cfg: Config
    var eventData: EventData
    var eventGenerated: bool
    var eventIgnored: bool
    var currentState: State
    var reconnecting: bool
    var retryTimerExpired: bool
    var bootstrapped: bool
    var retryCount: int
    var reconnectionState: Reconnection
    var security: Option<Security>
    // The environment: what it has been asked, and what it will answer.
    var log: History
    var tape: seq<Reaction>

    constructor (cfg: Config, tape: seq<Reaction>)
      requires cfg.Valid()
      ensures this.cfg == cfg && Quiet() && View() == Initial(tape)
    {
      this.cfg := cfg;
      eventData, eventGenerated, eventIgnored := NoData, false, false;
      currentState := Idle;
      reconnecting, retryTimerExpired, bootstrapped := false, false, true;
      retryCount, reconnectionState := 0, NoReconnection;
      security := None;
      log, this.tape := Nothing, tape;
    }

    /** No event is waiting for the engine. */
    ghost predicate Quiet()
      reads this
    {
      cfg.Valid() && !eventGenerated && eventData == NoData && !eventIgnored
    }

    ghost function View(): Client
      reads this
    {
      Client(currentState, reconnecting, retryTimerExpired, bootstrapped, retryCount, reconnectionState, security, log, tape)
    }

    // -------------------------------------------------------------- the engine

    method InternalEvent(newState: State, data: EventData)
      requires Quiet() && Deliverable(newState, data)
      modifies this
      ensures Quiet()
      ensures View() == Go(cfg, newState, data, old(View()))
      decreases |tape|, Depth(newState) + 1, 2
    {
      hide Go, Consistent;
      eventData := data;
      eventGenerated := true;
      currentState := newState;
      var _ := StateEngine();
      GoFromAnywhere(cfg, newState, data, old(View()));
    }

    /** Nested events are used up inside the state function, so the loop never goes
        round again. */
    method StateEngine() returns (ghost rounds: nat)
      requires cfg.Valid() && eventGenerated && !eventIgnored && Deliverable(currentState, eventData)
      modifies this
      ensures rounds == 1
      ensures Quiet()
      ensures View() == Go(cfg, old(currentState), old(eventData), old(View()))
      decreases |tape|, Depth(currentState) + 1, 1
    {
      hide Go, Consistent;
      rounds := 0;
      while eventGenerated
        invariant rounds == 0 ==>
                    eventGenerated && !eventIgnored && eventData == old(eventData) && View() == old(View())
        invariant rounds > 0 ==>
                    rounds == 1 && Quiet() && View() == Go(cfg, old(currentState), old(eventData), old(View()))
        decreases eventGenerated
      {
        var data := eventData;
        eventData := NoData;
        eventGenerated := false;
        StateFunction(currentState, data);
        rounds := rounds + 1;
      }
    }

    method StateFunction(state: State, data: EventData)
      requires Quiet() && state == currentState && Deliverable(state, data)
      modifies this
      ensures Quiet()
      ensures View() == Go(cfg, state, data, old(View()))
      decreases |tape|, Depth(state) + 1, 0
    {
      hide Consistent, BackedOff, Attempts, EnterBootstrap, EnterBootstrapAddressResolved, EnterRegister,
        EnterRegisterAddressResolved, EnterUpdateRegistration, EnterUnregister, EnterCoapDataReceived;
      match state {
        case Idle => StateIdle();
        case Bootstrap => StateBootstrap(data);
        case BootstrapAddressResolved => StateBootstrapAddressResolved(data);
        case Register => StateRegister(data);
        case RegisterAddressResolved => StateRegisterAddressResolved(data);
        case Registered => StateRegistered();
        case UpdateRegistration => StateUpdateRegistration(data);
        case Unregister => StateUnregister();
        case Unregistered => InternalEvent(Idle, NoData);
        case SendingCoapData | CoapDataSent | ProcessingCoapData | CoapDataProcessed => InternalEvent(Waiting, NoData);
        case CoapDataReceived => StateCoapDataReceived();
        case BootstrapResourceCreated | BootstrapWait | Bootstrapped | Waiting =>
      }
    }

    /** Use an entry of the tape: handle what the library delivers, take its answer. */
    method CallLibrary(call: Library) returns (ok: bool)
      requires Quiet()
      modifies this
      ensures Quiet()
      ensures (ok, View()) == Call(cfg, call, old(View()))
      decreases |tape|, 0, 0
    {
      hide Consistent, Run;
      log := Then(log, Called(call));
      if tape == [] {
        return false;
      }
      var reaction := tape[0];
      tape := tape[1..];
      Deliver(reaction.events);
      ok := reaction.ok;
    }

    method Deliver(events: seq<Event>)
      requires Quiet()
      modifies this
      ensures Quiet()
      ensures View() == Run(cfg, events, old(View()))
      decreases |tape|, 20, |events|
    {
      hide Consistent, Handle;
      var i := 0;
      while i < |events|
        invariant i <= |events| && Quiet() && |tape| <= old(|tape|)
        invariant Run(cfg, events[i..], View()) == Run(cfg, events, old(View()))
      {
        assert events[i..][1..] == events[i + 1..];
        HandleEvent(events[i]);
        i := i + 1;
      }
    }

    // ------------------------------------------------------ the state functions

    method StateIdle()
      modifies this
      ensures View() == old(View()).(log := Then(old(log), NsdlTimersStopped))
      ensures eventData == old(eventData) && eventGenerated == old(eventGenerated) && eventIgnored == old(eventIgnored)
    {
      log := Then(log, NsdlTimersStopped);
    }

    method StartTimerOfFlow(server: ServerType)
      requires Quiet()
      modifies this
      ensures Quiet()
      ensures View() == StartFlowTimer(cfg, server, old(View()))
    {
      if cfg.flowTimer {
        log := Then(log, FlowTimerStopped);
        log := Then(log, FlowTimerStarted(server, cfg.count * cfg.interval * 8 * 1000));
      }
    }

    method ResolveServer(server: ServerType)
      requires Quiet()
      modifies this
      ensures Quiet()
      ensures View() == Connect(cfg, server, old(View()))
      decreases |tape|, 1, 0
    {
      hide Consistent, Call;
      StartTimerOfFlow(server);
      var _ := CallLibrary(Resolve(server));
    }

    method ToIdleWith(code: nat)
      requires Quiet()
      modifies this
      ensures Quiet()
      ensures View() == GiveUp(cfg, code, old(View()))
      decreases |tape|, 2, 0
    {
      hide Consistent;
      InternalEvent(Idle, NoData);
      log := Then(log, ErrorReported(code));
    }

    method StateBootstrap(data: EventData)
      requires Quiet() && currentState == Bootstrap && Deliverable(Bootstrap, data)
      modifies this
      ensures Quiet()
      ensures View() == EnterBootstrap(cfg, data, old(View()))
      decreases |tape|, Depth(Bootstrap), 1
    {
      hide Consistent, Connect, GiveUp;
      bootstrapped := false;
      if security == None {
        if data != NoData {
          security := data.security;
        }
        if security.Some? && security.value.server == BootstrapServer && security.value.hasAddress {
          ResolveServer(BootstrapServer);
        } else {
          ToIdleWith(INVALID_PARAMETERS);
        }
      } else {
        log := Then(Then(log, ListeningStopped), SocketBound);
        ResolveServer(BootstrapServer);
      }
    }

    method StateBootstrapAddressResolved(data: EventData)
      requires Quiet() && currentState == BootstrapAddressResolved && Deliverable(BootstrapAddressResolved, data)
      modifies this
      ensures Quiet()
      ensures View() == EnterBootstrapAddressResolved(cfg, data, old(View()))
      decreases |tape|, Depth(BootstrapAddressResolved), 1
    {
      hide Consistent, Call, Go, GiveUp;
      if data != NoData {
        log := Then(log, ListeningStarted);
        if !cfg.nameFits {
          log := Then(log, ErrorReported(INVALID_PARAMETERS));
          return;
        }
        var ok := CallLibrary(CreateBootstrapResource);
        if ok {
          InternalEvent(BootstrapResourceCreated, NoData);
        } else {
          ToIdleWith(INVALID_PARAMETERS);
        }
      }
    }

    method StateRegister(data: EventData)
      requires Quiet() && currentState == Register && Deliverable(Register, data)
      modifies this
      ensures Quiet()
      ensures View() == EnterRegister(cfg, data, old(View()))
      decreases |tape|, Depth(Register), 2
    {
      hide Consistent, Call, Connect, RegisterFirst;
      if security == None {
        if data != NoData {
          security := data.security;
        }
        RegisterForTheFirstTime();
      } else {
        log := Then(log, ListeningStopped);
        if data != NoData {
          var _ := CallLibrary(CreateNsdlList);
        }
        log := Then(log, SocketBound);
        ResolveServer(M2MServer);
      }
    }

    method RegisterForTheFirstTime()
      requires Quiet()
      modifies this
      ensures Quiet()
      ensures View() == RegisterFirst(cfg, old(View()))
      decreases |tape|, Depth(Register), 1
    {
      hide Consistent, Call, Connect, GiveUp;
      if security.Some? && security.value.server == M2MServer {
        var hasAddress := security.value.hasAddress;
        var ok := CallLibrary(CreateNsdlList);
        if ok && hasAddress {
          ResolveServer(M2MServer);
          return;
        }
      }
      ToIdleWith(INVALID_PARAMETERS);
    }

    method SendRegisterMessage()
      requires Quiet()
      modifies this
      ensures Quiet()
      ensures View() == RegisterNow(cfg, old(View()))
      decreases |tape|, 2, 1
    {
      hide Consistent, Call, GiveUp;
      var ok := CallLibrary(SendRegister);
      if !ok {
        ToIdleWith(INVALID_PARAMETERS);
      }
    }

    method StateRegisterAddressResolved(data: EventData)
      requires Quiet() && currentState == RegisterAddressResolved && Deliverable(RegisterAddressResolved, data)
      modifies this
      ensures Quiet()
      ensures View() == EnterRegisterAddressResolved(cfg, data, old(View()))
      decreases |tape|, Depth(RegisterAddressResolved), 1
    {
      hide Consistent, Go, RegisterNow;
      if data != NoData {
        log := Then(Then(log, ListeningStarted), ServerAddressSet);
        match reconnectionState {
          case NoReconnection | FullRegistration => SendRegisterMessage();
          case WithUpdate => InternalEvent(UpdateRegistration, NoData);
        }
      }
    }

    method StateRegistered()
      modifies this
      ensures View() == old(View()).(retryCount := 0, reconnecting := false, reconnection := NoReconnection)
      ensures eventData == old(eventData) && eventGenerated == old(eventGenerated) && eventIgnored == old(eventIgnored)
    {
      retryCount := 0;
      reconnecting := false;
      reconnectionState := NoReconnection;
    }

    method StateUpdateRegistration(data: EventData)
      requires Quiet() && currentState == UpdateRegistration && Deliverable(UpdateRegistration, data)
      modifies this
      ensures Quiet()
      ensures View() == EnterUpdateRegistration(cfg, data, old(View()))
      decreases |tape|, Depth(UpdateRegistration), 2
    {
      hide Consistent, Call, RegisterNow;
      var lifetime := 0;
      if data != NoData {
        if data.hasObjects {
          var _ := CallLibrary(CreateNsdlList);
        }
        lifetime := data.lifetime;
      }
      var success := CallLibrary(SendUpdate(lifetime));
      if !success {
        if reconnectionState == WithUpdate {
          reconnectionState := FullRegistration;
          SendRegisterMessage();
        }
      }
    }

    method StateUnregister()
      requires Quiet() && currentState == Unregister
      modifies this
      ensures Quiet()
      ensures View() == EnterUnregister(cfg, old(View()))
      decreases |tape|, Depth(Unregister), 1
    {
      hide Consistent, Call, Go, GiveUp;
      InternalEvent(SendingCoapData, NoData);
      var ok := CallLibrary(SendUnregister);
      if !ok {
        ToIdleWith(NOT_REGISTERED);
      }
    }

    method StateCoapDataReceived()
      requires Quiet() && currentState == CoapDataReceived
      modifies this
      ensures Quiet()
      ensures View() == EnterCoapDataReceived(cfg, old(View()))
      decreases |tape|, Depth(CoapDataReceived), 1
    {
      hide Consistent, Call, Go;
      InternalEvent(ProcessingCoapData, NoData);
      var ok := CallLibrary(ProcessData);
      if !ok {
        log := Then(log, ErrorReported(RESPONSE_PARSE_FAILED));
      }
    }

    // ------------------------------------------------------------- the requests

    /** Follow the transition map; an ignored event is only noted. */
    method ExternalEvent(request: Request, data: EventData)
      requires Quiet()
      requires forall state | Transition(request, currentState) == Some(state) :: Deliverable(state, data)
      modifies this
      ensures cfg.Valid() && !eventGenerated && eventData == NoData
      ensures eventIgnored <==> Transition(request, old(currentState)) == None
      ensures eventIgnored ==> View() == old(View())
      ensures !eventIgnored ==> View() == Go(cfg, Transition(request, old(currentState)).value, data, old(View()))
      decreases |tape|, 6, 0
    {
      hide Consistent, Go;
      match Transition(request, currentState) {
        case None => eventIgnored := true;
        case Some(state) => InternalEvent(state, data);
      }
    }

    method TryTransition(request: Request, data: EventData)
      requires Quiet()
      requires forall state | Transition(request, currentState) == Some(state) :: Deliverable(state, data)
      modifies this
      ensures Quiet()
      ensures View() == Attempt(cfg, request, data, old(View()))
      decreases |tape|, 7, 0
    {
      hide Consistent, Go;
      ExternalEvent(request, data);
      if eventIgnored {
        eventIgnored := false;
        log := Then(log, ErrorReported(NOT_ALLOWED));
      }
    }

    method BootstrapWith(security: Option<Security>)
      requires Quiet()
      modifies this
      ensures Quiet()
      ensures View() == RequestWith(cfg, ToBootstrap, security, old(View()))
      decreases |tape|, 8, 0
    {
      hide Consistent, Attempt;
      if security == None {
        log := Then(log, ErrorReported(INVALID_PARAMETERS));
        return;
      }
      TryTransition(ToBootstrap, SecurityData(security));
    }

    method RegisterObject(security: Option<Security>)
      requires Quiet()
      modifies this
      ensures Quiet()
      ensures View() == RequestWith(cfg, ToRegister, security, old(View()))
      decreases |tape|, 8, 0
    {
      hide Consistent, Attempt;
      if security == None {
        log := Then(log, ErrorReported(INVALID_PARAMETERS));
        return;
      }
      TryTransition(ToRegister, RegisterData(security));
    }

    method StartRegisterUpdate(data: EventData)
      requires Quiet() && data.UpdateData?
      modifies this
      ensures Quiet()
      ensures View() == Update(cfg, data, old(View()))
      decreases |tape|, 8, 0
    {
      hide Consistent, Attempt;
      if data.lifetime != 0 && data.lifetime < MINIMUM_REGISTRATION_TIME {
        log := Then(log, ErrorReported(INVALID_PARAMETERS));
      }
      if reconnecting {
        return;
      }
      reconnectionState := WithUpdate;
      TryTransition(ToUpdate, data);
    }

    // ------------------------------------------------------------ the callbacks

    method CoapMessageReady()
      requires Quiet()
      modifies this
      ensures Quiet()
      ensures View() == SendMessage(cfg, old(View()))
      decreases |tape|, 8, 0
    {
      hide Consistent, Call, Go;
      if currentState != Idle {
        InternalEvent(SendingCoapData, NoData);
        var ok := CallLibrary(SendData);
        if !ok {
          InternalEvent(Idle, NoData);
          if !reconnecting {
            log := Then(log, ErrorReported(NETWORK_ERROR));
          }
        }
      }
    }

    method OnClientRegistered()
      requires Quiet()
      modifies this
      ensures Quiet()
      ensures View() == HandleRegistered(cfg, ObjectRegistered, old(View()))
      decreases |tape|, 8, 0
    {
      hide Consistent;
      retryCount := 0;
      if cfg.flowTimer {
        log := Then(log, FlowTimerStopped);
      }
      InternalEvent(Registered, NoData);
      log := Then(log, ObjectRegistered);
    }

    method OnRegistrationUpdated()
      requires Quiet()
      modifies this
      ensures Quiet()
      ensures View() == HandleRegistered(cfg, RegistrationUpdated, old(View()))
      decreases |tape|, 8, 0
    {
      hide Consistent;
      InternalEvent(Registered, NoData);
      log := Then(log, RegistrationUpdated);
    }

    method OnRegistrationError(code: nat, retry: bool)
      requires Quiet()
      modifies this
      ensures Quiet()
      ensures View() == HandleRegistrationError(cfg, code, retry, old(View()))
      decreases |tape|, 9, 0
    {
      hide Consistent, Go, HandleSocketError;
      if retry {
        OnSocketError(SOCKET_SEND_ERROR, true);
        reconnectionState := FullRegistration;
      } else {
        InternalEvent(Idle, NoData);
        log := Then(log, ErrorReported(code));
      }
    }

    method OnClientUnregistered()
      requires Quiet()
      modifies this
      ensures Quiet()
      ensures View() == Handle(cfg, ClientUnregistered, old(View()))
      decreases |tape|, 8, 0
    {
      hide Consistent, Go;
      InternalEvent(Unregistered, NoData);
      log := Then(log, ObjectUnregistered);
    }

    method OnBootstrapDone()
      requires Quiet()
      modifies this
      ensures Quiet()
      ensures View() == HandleBootstrapDone(cfg, old(View()))
      decreases |tape|, 8, 0
    {
      hide Consistent, Go;
      retryCount := 0;
      reconnecting := false;
      reconnectionState := NoReconnection;
      bootstrapped := true;
      if cfg.flowTimer {
        log := Then(log, FlowTimerStopped);
      }
      InternalEvent(Bootstrapped, NoData);
      log := Then(log, BootstrapDone);
    }

    method OnBootstrapError()
      requires Quiet()
      modifies this
      ensures Quiet()
      ensures View() == HandleBootstrapError(cfg, old(View()))
      decreases |tape|, 9, 0
    {
      hide Consistent, HandleSocketError;
      bootstrapped := false;
      if cfg.flowTimer {
        log := Then(log, FlowTimerStopped);
      }
      OnSocketError(BOOTSTRAP_FAILED, true);
    }

    method OnSocketError(code: nat, retry: bool)
      requires Quiet()
      modifies this
      ensures Quiet()
      ensures View() == HandleSocketError(cfg, code, retry, old(View()))
      decreases |tape|, 8, 0
    {
      hide Consistent, RetryOrFail, Fail;
      reconnectionState := WithUpdate;
      if !cfg.loop && !retryTimerExpired && reconnecting {
        return;
      }
      if retry {
        CountAndRetry(ErrorOf(code));
      } else {
        FailWith(ErrorOf(code));
      }
    }

    method CountAndRetry(error: nat)
      requires Quiet() && reconnectionState == WithUpdate
      modifies this
      ensures Quiet()
      ensures View() == RetryOrFail(cfg, error, old(View()))
      decreases |tape|, 7, 1
    {
      hide Consistent, Retry, Fail;
      if retryCount < cfg.count {
        retryCount := retryCount + 1;
        ArmRetryTimer();
      } else if cfg.loop {
        retryCount := 1;
        log := Then(log, ErrorReported(error));
        ArmRetryTimer();
      } else {
        log := Then(Then(log, ListeningStopped), RetryTimerStopped);
        FailWith(error);
      }
    }

    method ArmRetryTimer()
      requires Quiet()
      modifies this
      ensures Quiet()
      ensures View() == Retry(cfg, old(View()))
      decreases |tape|, 7, 0
    {
      hide Consistent;
      InternalEvent(Idle, NoData);
      reconnecting := true;
      log := Then(log, ListeningStopped);
      var retryTime := cfg.interval * cfg.count * retryCount * 1000;
      retryTimerExpired := false;
      log := Then(log, RetryTimerStarted(retryTime));
    }

    method FailWith(error: nat)
      requires Quiet()
      modifies this
      ensures Quiet()
      ensures View() == Fail(cfg, error, old(View()))
      decreases |tape|, 7, 0
    {
      hide Consistent;
      if error != ERROR_NONE {
        log := Then(Then(log, ListeningStopped), RetryTimerStopped);
        retryCount := 0;
        reconnecting := false;
        reconnectionState := NoReconnection;
        log := Then(log, ErrorReported(error));
        InternalEvent(Idle, NoData);
      }
    }

    method OnDataSent()
      requires Quiet()
      modifies this
      ensures Quiet()
      ensures View() == HandleDataSent(cfg, old(View()))
      decreases |tape|, 9, 0
    {
      hide Consistent, Go, HandleBootstrapDone;
      if cfg.queueMode && cfg.sleepHandler {
        log := Then(Then(log, SleepTimerStopped), SleepTimerStarted(cfg.count * cfg.interval * 1000));
      }
      if currentState == BootstrapWait {
        security := None;
        OnBootstrapDone();
      } else {
        InternalEvent(CoapDataSent, NoData);
      }
    }

    method OnRetryTimer()
      requires Quiet()
      modifies this
      ensures Quiet()
      ensures View() == HandleRetryTimer(cfg, old(View()))
      decreases |tape|, 9, 0
    {
      hide Consistent, Go;
      retryTimerExpired := true;
      if bootstrapped {
        InternalEvent(Register, NoData);
      } else {
        InternalEvent(Bootstrap, NoData);
      }
    }

    method OnAddressReady(server: ServerType)
      requires Quiet()
      modifies this
      ensures Quiet()
      ensures View() == HandleAddress(cfg, server, old(View()))
      decreases |tape|, 8, 0
    {
      hide Consistent, Go;
      if server == BootstrapServer {
        InternalEvent(BootstrapAddressResolved, AddressData);
      } else {
        InternalEvent(RegisterAddressResolved, AddressData);
      }
    }

    /** Whatever the application, the libraries and the timers can do. */
    method HandleEvent(e: Event)
      requires Quiet()
      modifies this
      ensures Quiet()
      ensures View() == Handle(cfg, e, old(View()))
      decreases |tape|, 10, 0
    {
      hide Consistent, Go, RequestWith, Attempt, Update, SendMessage, HandleRegistered, HandleAddress, HandleRetryTimer,
        HandleRegistrationError, HandleBootstrapDone, HandleBootstrapError,
        HandleSocketError, HandleDataSent;
      match e {
        case BootstrapRequest(security) => BootstrapWith(security);
        case RegisterRequest(security) => RegisterObject(security);
        case UpdateRequest(security, lifetime, hasObjects) =>
          StartRegisterUpdate(UpdateData(security, lifetime, hasObjects));
        case UnregisterRequest => TryTransition(ToUnregister, NoData);
        case MessageReady => CoapMessageReady();
        case ClientRegistered => OnClientRegistered();
        case RegistrationWasUpdated => OnRegistrationUpdated();
        case RegistrationError(code, retry) => OnRegistrationError(code, retry);
        case ClientUnregistered => OnClientUnregistered();
        case BootstrapIsDone => OnBootstrapDone();
        case BootstrapMustWait(s) =>
          security := s;
          InternalEvent(BootstrapWait, NoData);
        case BootstrapError => OnBootstrapError();
        case DataProcessed => InternalEvent(CoapDataProcessed, NoData);
        case DataAvailable => InternalEvent(CoapDataReceived, ReceivedData);
        case SocketError(code, retry) => OnSocketError(code, retry);
        case AddressReady(server) => OnAddressReady(server);
        case DataSent => OnDataSent();
        case RetryTimer => OnRetryTimer();
        case BootstrapFlowTimer => OnBootstrapError();
        case RegistrationFlowTimer => OnRegistrationError(TIMEOUT, true);
        case QueueSleepTimer =>
          if cfg.sleepHandler {
            log := Then(log, SleepHandlerCalled);
          }
      }
    }
  }

  /** An internal event overwrites the current state before anything reads it. */
  lemma GoFromAnywhere(cfg: Config, state: State, data: EventData, s: Client)
    requires cfg.Valid() && Deliverable(state, data)
    ensures Go(cfg, state, data, s.(current := state)) == Go(cfg, state, data, s)
  {
    hide Consistent;
  }
}

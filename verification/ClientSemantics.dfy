/** What the client does on each call, callback and timer, as functions on its
    whole state.  A call into the protocol library or the socket layer may call the
    client back before it returns: what it answers, and which events it delivers
    meanwhile, come from a tape that the environment wrote in advance. */
module ClientSemantics {
  import opened Arithmetic
  import opened Optional

  datatype State =
    | Idle | Bootstrap | BootstrapAddressResolved | BootstrapResourceCreated | BootstrapWait | Bootstrapped
    | Register | RegisterAddressResolved | Registered | UpdateRegistration | Unregister | Unregistered
    | SendingCoapData | CoapDataSent | CoapDataReceived | ProcessingCoapData | CoapDataProcessed | Waiting

  datatype Reconnection = NoReconnection | WithUpdate | FullRegistration

  datatype ServerType = M2MServer | BootstrapServer

  /** A security object: the kind of server, and whether its URI names an address. */
  datatype Security = Security(server: ServerType, hasAddress: bool)

  /** What an internal event carries. */
  datatype EventData =
    | NoData
    | SecurityData(security: Option<Security>)
    | RegisterData(security: Option<Security>)
    | UpdateData(security: Option<Security>, lifetime: nat, hasObjects: bool)
    | AddressData
    | ReceivedData

  // Connection errors, and the errors reported to the application.
  const SSL_CONNECTION_ERROR := 1
  const SOCKET_READ_ERROR := 2
  const SOCKET_SEND_ERROR := 3
  const SOCKET_ABORT := 4
  const DNS_RESOLVING_ERROR := 5
  const SSL_HANDSHAKE_ERROR := 6

  const ERROR_NONE := 0
  const BOOTSTRAP_FAILED := 2
  const INVALID_PARAMETERS := 3
  const NOT_REGISTERED := 4
  const TIMEOUT := 5
  const NETWORK_ERROR := 6
  const RESPONSE_PARSE_FAILED := 7
  const NOT_ALLOWED := 10
  const SECURE_CONNECTION_FAILED := 11
  const DNS_RESOLVING_FAILED := 12

  const MINIMUM_REGISTRATION_TIME := 60

  /** Compile-time options and constructor arguments. */
  datatype Config = Config(
    loop: bool,           // MBED_CLIENT_RECONNECTION_LOOP > 0
    count: int,           // MBED_CLIENT_RECONNECTION_COUNT
    interval: int,        // MBED_CLIENT_RECONNECTION_INTERVAL
    flowTimer: bool,      // a TCP binding
    queueMode: bool,
    sleepHandler: bool,
    nameFits: bool)       // endpoint name and domain fit the path buffer
  {
    /** _retry_count is a uint8_t. */
    predicate Valid() { 1 <= count <= 255 && 1 <= interval }
  }

  datatype Library =
    | Resolve(server: ServerType) | CreateBootstrapResource | CreateNsdlList | SendRegister
    | SendUpdate(lifetime: nat) | SendUnregister | SendData | ProcessData

  datatype Output =
    | ErrorReported(code: nat)
    | ObjectRegistered | RegistrationUpdated | ObjectUnregistered | BootstrapDone
    | RetryTimerStarted(ms: int) | RetryTimerStopped
    | FlowTimerStarted(server: ServerType, ms: int) | FlowTimerStopped
    | SleepTimerStarted(ms: int) | SleepTimerStopped | SleepHandlerCalled
    | ListeningStarted | ListeningStopped | SocketBound | ServerAddressSet | NsdlTimersStopped
    | Called(call: Library)

  /** Everything the client has done to its environment, newest last. */
  datatype History = Nothing | Then(before: History, last: Output)

  /** What one call into a library does: the events it delivers, then its answer. */
  datatype Reaction = Reaction(events: seq<Event>, ok: bool)

  datatype Event =
    // the application
    | BootstrapRequest(security: Option<Security>)
    | RegisterRequest(security: Option<Security>)
    | UpdateRequest(security: Option<Security>, lifetime: nat, hasObjects: bool)
    | UnregisterRequest
    // the protocol library
    | MessageReady
    | ClientRegistered | RegistrationWasUpdated | RegistrationError(code: nat, retry: bool) | ClientUnregistered
    | BootstrapIsDone | BootstrapMustWait(security: Option<Security>) | BootstrapError
    | DataProcessed
    // the socket
    | DataAvailable | SocketError(code: nat, retry: bool) | AddressReady(server: ServerType) | DataSent
    // the timers
    | RetryTimer | BootstrapFlowTimer | RegistrationFlowTimer | QueueSleepTimer

  datatype Client = Client(
    current: State,
    reconnecting: bool,
    retryTimerExpired: bool,
    bootstrapped: bool,
    retryCount: int,
    reconnection: Reconnection,
    security: Option<Security>,
    log: History,
    tape: seq<Reaction>)

  function Initial(tape: seq<Reaction>): Client {
    Client(Idle, false, false, true, 0, NoReconnection, None, Nothing, tape)
  }

  // ----------------------------------------------------------- what is invariant

  /** A state the client may rest in. */
  predicate Settled(s: State) {
    match s
    case Unregister | Unregistered | SendingCoapData | CoapDataSent | CoapDataReceived | ProcessingCoapData
         | CoapDataProcessed => false
    case _ => true
  }

  predicate EndsRetries(o: Output) {
    o.ObjectRegistered? || o.RegistrationUpdated? || o.BootstrapDone? || o.RetryTimerStopped?
  }

  /** How often the retry timer was started since the retries last came to an end. */
  ghost function Attempts(h: History): (n: nat) {
    match h
    case Nothing => 0
    case Then(before, last) =>
      if EndsRetries(last) then 0 else if last.RetryTimerStarted? then Attempts(before) + 1 else Attempts(before)
  }

  /** The delay of the n-th attempt in a row. */
  function Delay(cfg: Config, n: nat): int
    requires cfg.Valid() && n > 0
  {
    cfg.interval * cfg.count * ((n - 1) % cfg.count + 1) * 1000
  }

  /** Every start of the retry timer had the delay of its attempt, and without the
      loop there are no more attempts in a row than configured. */
  ghost predicate BackedOff(cfg: Config, h: History)
    requires cfg.Valid()
  {
    match h
    case Nothing => true
    case Then(before, last) =>
      && BackedOff(cfg, before)
      && (last.RetryTimerStarted? ==>
            last.ms == Delay(cfg, Attempts(h)) && (!cfg.loop ==> Attempts(h) <= cfg.count))
  }

  /** The retry count is that of the last attempt.  Without the loop an unknown error
      code can stop the retry timer and leave the count at its maximum. */
  predicate CountMatches(cfg: Config, count: int, attempts: nat)
    requires cfg.Valid()
  {
    || (attempts == 0 && count == 0)
    || (attempts > 0 && count == (attempts - 1) % cfg.count + 1 && (!cfg.loop ==> attempts <= cfg.count))
    || (!cfg.loop && attempts == 0 && count == cfg.count)
  }

  ghost predicate Consistent(cfg: Config, reconnecting: bool, count: int, reconnection: Reconnection, log: History)
    requires cfg.Valid()
  {
    && 0 <= count <= cfg.count
    && (reconnecting <==> count > 0)
    && (reconnecting ==> reconnection != NoReconnection)
    && BackedOff(cfg, log)
    && CountMatches(cfg, count, Attempts(log))
  }

  ghost predicate Sound(cfg: Config, s: Client)
    requires cfg.Valid()
  {
    Consistent(cfg, s.reconnecting, s.retryCount, s.reconnection, s.log)
  }

  /** Do something to the environment. */
  function Emit(cfg: Config, o: Output, s: Client): (r: Client)
    requires cfg.Valid()
    ensures r == s.(log := Then(s.log, o))
    ensures Sound(cfg, s) && !EndsRetries(o) && !o.RetryTimerStarted? ==> Sound(cfg, r)
    ensures !o.RetryTimerStarted? ==> (BackedOff(cfg, r.log) <==> BackedOff(cfg, s.log))
    ensures EndsRetries(o) ==> Attempts(r.log) == 0
    ensures !EndsRetries(o) && !o.RetryTimerStarted? ==> Attempts(r.log) == Attempts(s.log)
  {
    s.(log := Then(s.log, o))
  }

  function Report(cfg: Config, code: nat, s: Client): Client
    requires cfg.Valid()
  {
    Emit(cfg, ErrorReported(code), s)
  }

  // ------------------------------------------------------------ library calls

  /** Call a library: what it delivers meanwhile is handled first. */
  function Call(cfg: Config, call: Library, s: Client): (r: (bool, Client))
    requires cfg.Valid()
    ensures |r.1.tape| <= |s.tape|
    ensures Sound(cfg, s) ==> Sound(cfg, r.1)
    ensures Settled(s.current) ==> Settled(r.1.current)
    decreases |s.tape|, 0, 0
  {
    hide Consistent, BackedOff, Attempts;
    var t := Emit(cfg, Called(call), s);
    if t.tape == [] then (false, t)
    else (t.tape[0].ok, Run(cfg, t.tape[0].events, t.(tape := t.tape[1..])))
  }

  /** Handle events one after another. */
  function Run(cfg: Config, events: seq<Event>, s: Client): (r: Client)
    requires cfg.Valid()
    ensures |r.tape| <= |s.tape|
    ensures Sound(cfg, s) ==> Sound(cfg, r)
    ensures Settled(s.current) ==> Settled(r.current)
    decreases |s.tape|, 20, |events|
  {
    hide Consistent, BackedOff, Attempts;
    if events == [] then s else Run(cfg, events[1..], Handle(cfg, events[0], s))
  }

  // -------------------------------------------------------- entering a state

  /** The casts the state functions make are right. */
  predicate Deliverable(state: State, data: EventData) {
    match state
    case Bootstrap => data.NoData? || data.SecurityData?
    // start_register_update hands an UpdateData to the Register state
    case Register => data.NoData? || data.RegisterData? || data.UpdateData?
    case BootstrapAddressResolved | RegisterAddressResolved => data.NoData? || data.AddressData?
    case UpdateRegistration => data.NoData? || data.UpdateData?
    case CoapDataReceived => data.ReceivedData?
    case _ => true
  }

  /** How far a state is from the states that go nowhere further. */
  function Depth(state: State): nat {
    match state
    case Idle | Waiting | Registered | Bootstrapped | BootstrapResourceCreated | BootstrapWait => 0
    case Unregister | CoapDataReceived | RegisterAddressResolved => 4
    case _ => 2
  }

  /** An internal event: make `state` current and run its state function. */
  function Go(cfg: Config, state: State, data: EventData, s: Client): (r: Client)
    requires cfg.Valid() && Deliverable(state, data)
    ensures |r.tape| <= |s.tape|
    ensures Sound(cfg, s) && state != Registered ==> Sound(cfg, r)
    ensures state == Registered ==>
              r == s.(current := Registered, retryCount := 0, reconnecting := false, reconnection := NoReconnection)
    ensures Settled(r.current)
    decreases |s.tape|, Depth(state) + 1, 0
  {
    hide Consistent, BackedOff, Attempts;
    var t := s.(current := state);
    match state
    case Idle => Emit(cfg, NsdlTimersStopped, t)
    case Bootstrap => EnterBootstrap(cfg, data, t)
    case BootstrapAddressResolved => EnterBootstrapAddressResolved(cfg, data, t)
    case Register => EnterRegister(cfg, data, t)
    case RegisterAddressResolved => EnterRegisterAddressResolved(cfg, data, t)
    case Registered => t.(retryCount := 0, reconnecting := false, reconnection := NoReconnection)
    case UpdateRegistration => EnterUpdateRegistration(cfg, data, t)
    case Unregister => EnterUnregister(cfg, t)
    case Unregistered => Go(cfg, Idle, NoData, t)
    case SendingCoapData | CoapDataSent | ProcessingCoapData | CoapDataProcessed => Go(cfg, Waiting, NoData, t)
    case CoapDataReceived => EnterCoapDataReceived(cfg, t)
    case BootstrapResourceCreated | BootstrapWait | Bootstrapped | Waiting => t
  }

  /** Restart the timer that bounds a whole bootstrap or registration flow. */
  function StartFlowTimer(cfg: Config, server: ServerType, s: Client): Client
    requires cfg.Valid()
  {
    if cfg.flowTimer
    then Emit(cfg, FlowTimerStarted(server, cfg.count * cfg.interval * 8 * 1000), Emit(cfg, FlowTimerStopped, s))
    else s
  }

  function StopFlowTimer(cfg: Config, s: Client): Client
    requires cfg.Valid()
  {
    if cfg.flowTimer then Emit(cfg, FlowTimerStopped, s) else s
  }

  function GiveUp(cfg: Config, code: nat, s: Client): (r: Client)
    requires cfg.Valid()
    ensures r == Report(cfg, code, Emit(cfg, NsdlTimersStopped, s.(current := Idle)))
    decreases |s.tape|, 2, 0
  {
    Report(cfg, code, Go(cfg, Idle, NoData, s))
  }

  /** Start the flow timer and look up the server's address. */
  function Connect(cfg: Config, server: ServerType, s: Client): (r: Client)
    requires cfg.Valid()
    ensures |r.tape| <= |s.tape|
    ensures Sound(cfg, s) ==> Sound(cfg, r)
    ensures Settled(s.current) ==> Settled(r.current)
    decreases |s.tape|, 1, 0
  {
    hide Consistent, BackedOff, Attempts;
    Call(cfg, Resolve(server), StartFlowTimer(cfg, server, s)).1
  }

  function EnterBootstrap(cfg: Config, data: EventData, s: Client): (r: Client)
    requires cfg.Valid() && s.current == Bootstrap && Deliverable(Bootstrap, data)
    ensures |r.tape| <= |s.tape|
    ensures Sound(cfg, s) ==> Sound(cfg, r)
    ensures Settled(r.current)
    decreases |s.tape|, Depth(Bootstrap), 1
  {
    hide Consistent, BackedOff, Attempts;
    var t := s.(bootstrapped := false);
    if t.security.Some? then Connect(cfg, BootstrapServer, Emit(cfg, SocketBound, Emit(cfg, ListeningStopped, t)))
    else
      var u := if data.NoData? then t else t.(security := data.security);
      if u.security.Some? && u.security.value == Security(BootstrapServer, true)
      then Connect(cfg, BootstrapServer, u)
      else GiveUp(cfg, INVALID_PARAMETERS, u)
  }

  function EnterBootstrapAddressResolved(cfg: Config, data: EventData, s: Client): (r: Client)
    requires cfg.Valid() && s.current == BootstrapAddressResolved && Deliverable(BootstrapAddressResolved, data)
    ensures |r.tape| <= |s.tape|
    ensures Sound(cfg, s) ==> Sound(cfg, r)
    ensures Settled(r.current)
    decreases |s.tape|, Depth(BootstrapAddressResolved), 1
  {
    hide Consistent, BackedOff, Attempts;
    if data.NoData? then s
    else
      var t := Emit(cfg, ListeningStarted, s);
      if !cfg.nameFits then Report(cfg, INVALID_PARAMETERS, t)
      else
        var (ok, u) := Call(cfg, CreateBootstrapResource, t);
        if ok then Go(cfg, BootstrapResourceCreated, NoData, u) else GiveUp(cfg, INVALID_PARAMETERS, u)
  }

  function EnterRegister(cfg: Config, data: EventData, s: Client): (r: Client)
    requires cfg.Valid() && s.current == Register && Deliverable(Register, data)
    ensures |r.tape| <= |s.tape|
    ensures Sound(cfg, s) ==> Sound(cfg, r)
    ensures Settled(r.current)
    decreases |s.tape|, Depth(Register), 2
  {
    hide Consistent, BackedOff, Attempts;
    if s.security.Some? then
      var t := Emit(cfg, ListeningStopped, s);
      var u := if data.NoData? then t else Call(cfg, CreateNsdlList, t).1;
      Connect(cfg, M2MServer, Emit(cfg, SocketBound, u))
    else
      RegisterFirst(cfg, if data.NoData? then s else s.(security := data.security))
  }

  /** Register with the security object the request brought, if it is good for that. */
  function RegisterFirst(cfg: Config, s: Client): (r: Client)
    requires cfg.Valid()
    ensures |r.tape| <= |s.tape|
    ensures Sound(cfg, s) ==> Sound(cfg, r)
    ensures Settled(s.current) ==> Settled(r.current)
    decreases |s.tape|, Depth(Register), 1
  {
    hide Consistent, BackedOff, Attempts;
    if s.security.Some? && s.security.value.server == M2MServer then
      var (ok, t) := Call(cfg, CreateNsdlList, s);
      if ok && s.security.value.hasAddress then Connect(cfg, M2MServer, t) else GiveUp(cfg, INVALID_PARAMETERS, t)
    else GiveUp(cfg, INVALID_PARAMETERS, s)
  }

  /** Send a registration message; if that fails, give up. */
  function RegisterNow(cfg: Config, s: Client): (r: Client)
    requires cfg.Valid()
    ensures |r.tape| <= |s.tape|
    ensures Sound(cfg, s) ==> Sound(cfg, r)
    ensures Settled(s.current) ==> Settled(r.current)
    decreases |s.tape|, 2, 1
  {
    hide Consistent, BackedOff, Attempts;
    var (ok, t) := Call(cfg, SendRegister, s);
    if ok then t else GiveUp(cfg, INVALID_PARAMETERS, t)
  }

  function EnterRegisterAddressResolved(cfg: Config, data: EventData, s: Client): (r: Client)
    requires cfg.Valid() && s.current == RegisterAddressResolved && Deliverable(RegisterAddressResolved, data)
    ensures |r.tape| <= |s.tape|
    ensures Sound(cfg, s) ==> Sound(cfg, r)
    ensures Settled(r.current)
    decreases |s.tape|, Depth(RegisterAddressResolved), 1
  {
    hide Consistent, BackedOff, Attempts;
    if data.NoData? then s
    else
      var t := Emit(cfg, ServerAddressSet, Emit(cfg, ListeningStarted, s));
      if t.reconnection == WithUpdate then Go(cfg, UpdateRegistration, NoData, t) else RegisterNow(cfg, t)
  }

  function EnterUpdateRegistration(cfg: Config, data: EventData, s: Client): (r: Client)
    requires cfg.Valid() && s.current == UpdateRegistration && Deliverable(UpdateRegistration, data)
    ensures |r.tape| <= |s.tape|
    ensures Sound(cfg, s) ==> Sound(cfg, r)
    ensures Settled(r.current)
    decreases |s.tape|, Depth(UpdateRegistration), 2
  {
    hide Consistent, BackedOff, Attempts;
    var t := if data.UpdateData? && data.hasObjects then Call(cfg, CreateNsdlList, s).1 else s;
    var (ok, u) := Call(cfg, SendUpdate(if data.UpdateData? then data.lifetime else 0), t);
    if !ok && u.reconnection == WithUpdate then RegisterNow(cfg, u.(reconnection := FullRegistration)) else u
  }

  function EnterUnregister(cfg: Config, s: Client): (r: Client)
    requires cfg.Valid() && s.current == Unregister
    ensures |r.tape| <= |s.tape|
    ensures Sound(cfg, s) ==> Sound(cfg, r)
    ensures Settled(r.current)
    decreases |s.tape|, Depth(Unregister), 1
  {
    hide Consistent, BackedOff, Attempts;
    var t := Go(cfg, SendingCoapData, NoData, s);
    var (ok, u) := Call(cfg, SendUnregister, t);
    if ok then u else GiveUp(cfg, NOT_REGISTERED, u)
  }

  function EnterCoapDataReceived(cfg: Config, s: Client): (r: Client)
    requires cfg.Valid() && s.current == CoapDataReceived
    ensures |r.tape| <= |s.tape|
    ensures Sound(cfg, s) ==> Sound(cfg, r)
    ensures Settled(r.current)
    decreases |s.tape|, Depth(CoapDataReceived), 1
  {
    hide Consistent, BackedOff, Attempts;
    var t := Go(cfg, ProcessingCoapData, NoData, s);
    var (ok, u) := Call(cfg, ProcessData, t);
    if ok then u else Report(cfg, RESPONSE_PARSE_FAILED, u)
  }

  // --------------------------------------------------------------- the events

  datatype Request = ToBootstrap | ToRegister | ToUpdate | ToUnregister

  /** The transition maps: where each request leads from each state, if anywhere. */
  function Transition(request: Request, current: State): Option<State> {
    match request
    case ToBootstrap => if current == Idle then Some(Bootstrap) else None
    case ToRegister =>
      if current in {Idle, Bootstrapped, Registered, Waiting} then Some(Register) else None
    case ToUpdate =>
      if current == Idle then Some(Register)
      else if current in {Registered, Waiting} then Some(UpdateRegistration)
      else None
    case ToUnregister =>
      if current in {Registered, UpdateRegistration, Waiting} then Some(Unregister) else None
  }

  /** An external event: follow the map, or refuse. */
  function Attempt(cfg: Config, request: Request, data: EventData, s: Client): (r: Client)
    requires cfg.Valid()
    requires forall state | Transition(request, s.current) == Some(state) :: Deliverable(state, data)
    ensures |r.tape| <= |s.tape|
    ensures Sound(cfg, s) ==> Sound(cfg, r)
    ensures Settled(s.current) ==> Settled(r.current)
    ensures Transition(request, s.current).None? ==> r == Report(cfg, NOT_ALLOWED, s)
    decreases |s.tape|, 7, 0
  {
    hide Consistent, BackedOff, Attempts;
    match Transition(request, s.current)
    case Some(state) => Go(cfg, state, data, s)
    case None => Report(cfg, NOT_ALLOWED, s)
  }

  function Update(cfg: Config, data: EventData, s: Client): (r: Client)
    requires cfg.Valid() && data.UpdateData?
    ensures |r.tape| <= |s.tape|
    ensures Sound(cfg, s) ==> Sound(cfg, r)
    ensures Settled(s.current) ==> Settled(r.current)
    decreases |s.tape|, 8, 0
  {
    hide Consistent, BackedOff, Attempts;
    // a lifetime that is too short is reported, and the update goes on
    var t := if 0 < data.lifetime < MINIMUM_REGISTRATION_TIME then Report(cfg, INVALID_PARAMETERS, s) else s;
    if t.reconnecting then t else Attempt(cfg, ToUpdate, data, t.(reconnection := WithUpdate))
  }

  function SendMessage(cfg: Config, s: Client): (r: Client)
    requires cfg.Valid()
    ensures |r.tape| <= |s.tape|
    ensures Sound(cfg, s) ==> Sound(cfg, r)
    ensures Settled(s.current) ==> Settled(r.current)
    decreases |s.tape|, 8, 0
  {
    hide Consistent, BackedOff, Attempts;
    if s.current == Idle then s
    else
      var (ok, t) := Call(cfg, SendData, Go(cfg, SendingCoapData, NoData, s));
      if ok then t
      else
        var u := Go(cfg, Idle, NoData, t);
        if u.reconnecting then u else Report(cfg, NETWORK_ERROR, u)
  }

  /** The application's name for a connection error; ERROR_NONE if there is none. */
  function ErrorOf(code: nat): nat {
    if code == SSL_CONNECTION_ERROR || code == SSL_HANDSHAKE_ERROR then SECURE_CONNECTION_FAILED
    else if code == DNS_RESOLVING_ERROR then DNS_RESOLVING_FAILED
    else if code in {SOCKET_READ_ERROR, SOCKET_SEND_ERROR, SOCKET_ABORT} then NETWORK_ERROR
    else ERROR_NONE
  }

  /** Arm the retry timer for the attempt that retryCount numbers. */
  function Retry(cfg: Config, s: Client): (r: Client)
    requires cfg.Valid()
    ensures r.tape == s.tape && r.current == Idle
    ensures
      && BackedOff(cfg, s.log) && s.reconnection != NoReconnection
      && s.retryCount == Attempts(s.log) % cfg.count + 1 && (!cfg.loop ==> Attempts(s.log) < cfg.count)
      ==> Sound(cfg, r)
    decreases |s.tape|, 7, 0
  {
    var t := Go(cfg, Idle, NoData, s).(reconnecting := true);
    var u := Emit(cfg, ListeningStopped, t).(retryTimerExpired := false);
    u.(log := Then(u.log, RetryTimerStarted(cfg.interval * cfg.count * u.retryCount * 1000)))
  }

  /** Tell the application about an error that is not retried, if it has a name. */
  function Fail(cfg: Config, error: nat, s: Client): (r: Client)
    requires cfg.Valid()
    ensures r.tape == s.tape && (r.current == s.current || r.current == Idle)
    ensures Sound(cfg, s) ==> Sound(cfg, r)
    ensures error == ERROR_NONE ==> r == s
    ensures error != ERROR_NONE && BackedOff(cfg, s.log) ==> Sound(cfg, r)
    ensures error != ERROR_NONE ==> r.current == Idle && !r.reconnecting && r.retryCount == 0 && r.reconnection == NoReconnection
    decreases |s.tape|, 7, 0
  {
    if error == ERROR_NONE then s
    else
      var t := Emit(cfg, RetryTimerStopped, Emit(cfg, ListeningStopped, s));
      var u := t.(retryCount := 0, reconnecting := false, reconnection := NoReconnection);
      Go(cfg, Idle, NoData, Report(cfg, error, u))
  }

  /** The count of an attempt follows from that of the attempt before it. */
  lemma NextCount(cfg: Config, count: int, attempts: nat)
    requires cfg.Valid()
    ensures CountMatches(cfg, count, attempts) && count < cfg.count ==>
              count == attempts % cfg.count && (!cfg.loop ==> attempts < cfg.count)
    ensures CountMatches(cfg, count, attempts) && count >= cfg.count && cfg.loop ==> attempts % cfg.count == 0
  {
    if attempts > 0 {
      ModBelow(attempts - 1, cfg.count);
      StepModulo(attempts - 1, cfg.count);
    }
  }

  function HandleSocketError(cfg: Config, code: nat, retry: bool, s: Client): (r: Client)
    requires cfg.Valid()
    ensures |r.tape| <= |s.tape|
    ensures Sound(cfg, s) ==> Sound(cfg, r)
    ensures Settled(s.current) ==> Settled(r.current)
    decreases |s.tape|, 8, 0
  {
    hide BackedOff, Attempts;
    var t := s.(reconnection := WithUpdate);
    if !cfg.loop && !t.retryTimerExpired && t.reconnecting then t
    else if !retry then Fail(cfg, ErrorOf(code), t)
    else RetryOrFail(cfg, ErrorOf(code), t)
  }

  /** Count the attempt and arm the timer; at the maximum start over, or stop trying. */
  function RetryOrFail(cfg: Config, error: nat, s: Client): (r: Client)
    requires cfg.Valid() && s.reconnection == WithUpdate
    ensures |r.tape| <= |s.tape|
    ensures Sound(cfg, s) ==> Sound(cfg, r)
    ensures Settled(s.current) ==> Settled(r.current)
    decreases |s.tape|, 7, 1
  {
    hide BackedOff, Attempts, Delay;
    NextCount(cfg, s.retryCount, Attempts(s.log));
    if s.retryCount < cfg.count then Retry(cfg, s.(retryCount := s.retryCount + 1))
    else if cfg.loop then Retry(cfg, Report(cfg, error, s.(retryCount := 1)))
    else Fail(cfg, error, Emit(cfg, RetryTimerStopped, Emit(cfg, ListeningStopped, s)))
  }

  function HandleRegistrationError(cfg: Config, code: nat, retry: bool, s: Client): (r: Client)
    requires cfg.Valid()
    ensures |r.tape| <= |s.tape|
    ensures Sound(cfg, s) ==> Sound(cfg, r)
    ensures Settled(s.current) ==> Settled(r.current)
    decreases |s.tape|, 9, 0
  {
    hide Consistent, BackedOff, Attempts;
    if retry
    then HandleSocketError(cfg, SOCKET_SEND_ERROR, true, s).(reconnection := FullRegistration)
    else Report(cfg, code, Go(cfg, Idle, NoData, s))
  }

  function HandleBootstrapError(cfg: Config, s: Client): (r: Client)
    requires cfg.Valid()
    ensures |r.tape| <= |s.tape|
    ensures Sound(cfg, s) ==> Sound(cfg, r)
    ensures Settled(s.current) ==> Settled(r.current)
    decreases |s.tape|, 9, 0
  {
    hide Consistent, BackedOff, Attempts;
    HandleSocketError(cfg, BOOTSTRAP_FAILED, true, StopFlowTimer(cfg, s.(bootstrapped := false)))
  }

  function HandleBootstrapDone(cfg: Config, s: Client): (r: Client)
    requires cfg.Valid()
    ensures |r.tape| <= |s.tape|
    ensures Sound(cfg, s) ==> Sound(cfg, r)
    ensures r.current == Bootstrapped && r.bootstrapped && r.security == s.security
    ensures !r.reconnecting && r.retryCount == 0 && r.reconnection == NoReconnection
    ensures r.log.Then? && r.log.last == BootstrapDone
    decreases |s.tape|, 8, 0
  {
    var t := s.(retryCount := 0, reconnecting := false, reconnection := NoReconnection, bootstrapped := true);
    Emit(cfg, BootstrapDone, Go(cfg, Bootstrapped, NoData, StopFlowTimer(cfg, t)))
  }

  function HandleDataSent(cfg: Config, s: Client): (r: Client)
    requires cfg.Valid()
    ensures |r.tape| <= |s.tape|
    ensures Sound(cfg, s) ==> Sound(cfg, r)
    ensures Settled(r.current)
    decreases |s.tape|, 9, 0
  {
    hide Consistent, BackedOff, Attempts;
    var t := if cfg.queueMode && cfg.sleepHandler
             then Emit(cfg, SleepTimerStarted(cfg.count * cfg.interval * 1000), Emit(cfg, SleepTimerStopped, s))
             else s;
    if t.current == BootstrapWait
    then HandleBootstrapDone(cfg, t.(security := None))
    else Go(cfg, CoapDataSent, NoData, t)
  }

  /** The server accepted a registration or an update: the retries are over. */
  function HandleRegistered(cfg: Config, told: Output, s: Client): (r: Client)
    requires cfg.Valid() && (told.ObjectRegistered? || told.RegistrationUpdated?)
    ensures |r.tape| <= |s.tape|
    ensures Sound(cfg, s) ==> Sound(cfg, r)
    ensures r.current == Registered && !r.reconnecting && r.retryCount == 0 && r.reconnection == NoReconnection
    decreases |s.tape|, 8, 0
  {
    var t := if told.ObjectRegistered? then StopFlowTimer(cfg, s.(retryCount := 0)) else s;
    Emit(cfg, told, Go(cfg, Registered, NoData, t))
  }

  /** A request that needs a security object. */
  function RequestWith(cfg: Config, request: Request, security: Option<Security>, s: Client): (r: Client)
    requires cfg.Valid() && (request.ToBootstrap? || request.ToRegister?)
    ensures |r.tape| <= |s.tape|
    ensures Sound(cfg, s) ==> Sound(cfg, r)
    ensures Settled(s.current) ==> Settled(r.current)
    decreases |s.tape|, 8, 0
  {
    if security.None? then Report(cfg, INVALID_PARAMETERS, s)
    else Attempt(cfg, request, if request.ToBootstrap? then SecurityData(security) else RegisterData(security), s)
  }

  /** The server's address is known. */
  function HandleAddress(cfg: Config, server: ServerType, s: Client): (r: Client)
    requires cfg.Valid()
    ensures |r.tape| <= |s.tape|
    ensures Sound(cfg, s) ==> Sound(cfg, r)
    ensures Settled(s.current) ==> Settled(r.current)
    decreases |s.tape|, 8, 0
  {
    Go(cfg, if server == BootstrapServer then BootstrapAddressResolved else RegisterAddressResolved, AddressData, s)
  }

  function HandleRetryTimer(cfg: Config, s: Client): (r: Client)
    requires cfg.Valid()
    ensures |r.tape| <= |s.tape|
    ensures Sound(cfg, s) ==> Sound(cfg, r)
    ensures Settled(s.current) ==> Settled(r.current)
    decreases |s.tape|, 8, 0
  {
    Go(cfg, if s.bootstrapped then Register else Bootstrap, NoData, s.(retryTimerExpired := true))
  }

  /** Whatever can happen to the client, at any time. */
  function Handle(cfg: Config, e: Event, s: Client): (r: Client)
    requires cfg.Valid()
    ensures |r.tape| <= |s.tape|
    ensures Sound(cfg, s) ==> Sound(cfg, r)
    ensures Settled(s.current) ==> Settled(r.current)
    decreases |s.tape|, 10, 0
  {
    hide Consistent, BackedOff, Attempts;
    match e
    case BootstrapRequest(security) => RequestWith(cfg, ToBootstrap, security, s)
    case RegisterRequest(security) => RequestWith(cfg, ToRegister, security, s)
    case UpdateRequest(security, lifetime, hasObjects) => Update(cfg, UpdateData(security, lifetime, hasObjects), s)
    case UnregisterRequest => Attempt(cfg, ToUnregister, NoData, s)
    case MessageReady => SendMessage(cfg, s)
    case ClientRegistered => HandleRegistered(cfg, ObjectRegistered, s)
    case RegistrationWasUpdated => HandleRegistered(cfg, RegistrationUpdated, s)
    case RegistrationError(code, retry) => HandleRegistrationError(cfg, code, retry, s)
    case ClientUnregistered => Emit(cfg, ObjectUnregistered, Go(cfg, Unregistered, NoData, s))
    case BootstrapIsDone => HandleBootstrapDone(cfg, s)
    case BootstrapMustWait(security) => Go(cfg, BootstrapWait, NoData, s.(security := security))
    case BootstrapError => HandleBootstrapError(cfg, s)
    case DataProcessed => Go(cfg, CoapDataProcessed, NoData, s)
    case DataAvailable => Go(cfg, CoapDataReceived, ReceivedData, s)
    case SocketError(code, retry) => HandleSocketError(cfg, code, retry, s)
    case AddressReady(server) => HandleAddress(cfg, server, s)
    case DataSent => HandleDataSent(cfg, s)
    case RetryTimer => HandleRetryTimer(cfg, s)
    case BootstrapFlowTimer => HandleBootstrapError(cfg, s)
    case RegistrationFlowTimer => HandleRegistrationError(cfg, TIMEOUT, true, s)
    case QueueSleepTimer => if cfg.sleepHandler then Emit(cfg, SleepHandlerCalled, s) else s
  }
}

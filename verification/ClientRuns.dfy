/** What holds of every run of the client, whatever the application, the libraries,
    the sockets and the timers do, and in whatever nesting. */
module ClientRuns {
  import opened Arithmetic
  import opened ClientSemantics
  import opened Optional

  // ------------------------------------------------------- in every reachable state

  /** After any events from the start the client rests in a settled state, it
      reconnects exactly while it counts retries, and the count is in bounds. */
  lemma EveryRunIsSound(cfg: Config, events: seq<Event>, tape: seq<Reaction>)
    requires cfg.Valid()
    ensures var s := Run(cfg, events, Initial(tape));
      && Settled(s.current)
      && (s.reconnecting <==> s.retryCount > 0)
      && (s.reconnecting ==> s.reconnection != NoReconnection)
      && 0 <= s.retryCount <= cfg.count
      && Sound(cfg, s)
  {
    assert Sound(cfg, Initial(tape));
    hide BackedOff, Attempts, Run;
  }

  /** h is the history at some moment of a run whose history became `whole`. */
  ghost predicate Moment(h: History, whole: History) {
    h == whole || (whole.Then? && Moment(h, whole.before))
  }

  lemma {:induction false} BackedOffAtEveryMoment(cfg: Config, h: History, whole: History)
    requires cfg.Valid() && BackedOff(cfg, whole) && Moment(h, whole)
    ensures BackedOff(cfg, h)
  {
    if h != whole {
      BackedOffAtEveryMoment(cfg, h, whole.before);
    }
  }

  /** Whenever the retry timer is started, by the (n+1)-th failure since the retries
      last came to an end, its delay is that of attempt n mod N, plus one.  Without
      the loop there is no attempt beyond the N-th. */
  lemma RetriesBackOff(cfg: Config, events: seq<Event>, tape: seq<Reaction>, h: History, ms: int)
    requires cfg.Valid()
    requires Moment(Then(h, RetryTimerStarted(ms)), Run(cfg, events, Initial(tape)).log)
    ensures ms == cfg.interval * cfg.count * (Attempts(h) % cfg.count + 1) * 1000
    ensures cfg.loop || Attempts(h) < cfg.count
  {
    EveryRunIsSound(cfg, events, tape);
    BackedOffAtEveryMoment(cfg, Then(h, RetryTimerStarted(ms)), Run(cfg, events, Initial(tape)).log);
    hide Run;
  }

  // --------------------------------------------------------------- socket errors

  /** How often the retry timer was ever started. */
  ghost function Starts(h: History): (n: nat) {
    match h
    case Nothing => 0
    case Then(before, last) => Starts(before) + if last.RetryTimerStarted? then 1 else 0
  }

  /** The errors the application ever heard of, oldest first. */
  ghost function Reported(h: History): (codes: seq<nat>) {
    match h
    case Nothing => []
    case Then(before, last) => if last.ErrorReported? then Reported(before) + [last.code] else Reported(before)
  }

  /** What the application hears of a failed connection: 6, the network, for a failure to
      read or send (2, 3) and an abort (4); 11, the security, for the two of SSL (1, 6); 12
      for a name that is not resolved (5); any other failure has no name, 0. */
  function NameOf(code: nat): nat {
    if code in {2, 3, 4} then 6 else if code in {1, 6} then 11 else if code == 5 then 12 else 0
  }

  /** A failure is retried if it may be and, without the loop, attempts are left and
      none is pending. */
  predicate Retried(cfg: Config, retry: bool, s: Client) {
    retry && (cfg.loop || (s.retryCount < cfg.count && (s.retryTimerExpired || !s.reconnecting)))
  }

  /** A failed connection starts the retry timer exactly once if it is retried and
      never otherwise.  A failure that is not retried ends the reconnection and is reported
      once, unless it is ignored or has no name; one that is retried is reported exactly
      when the count starts over. */
  lemma SocketErrorOutcome(cfg: Config, code: nat, retry: bool, s: Client)
    requires cfg.Valid() && Sound(cfg, s)
    ensures var r := HandleSocketError(cfg, code, retry, s);
      && Starts(r.log) == Starts(s.log) + (if Retried(cfg, retry, s) then 1 else 0)
      && (Retried(cfg, retry, s) ==>
            && r.current == Idle && r.reconnecting && r.reconnection == WithUpdate && !r.retryTimerExpired
            && r.retryCount == (if s.retryCount < cfg.count then s.retryCount + 1 else 1)
            && Reported(r.log) == Reported(s.log) + if s.retryCount < cfg.count then [] else [NameOf(code)])
      && (!Retried(cfg, retry, s) ==>
            var ignored := !cfg.loop && !s.retryTimerExpired && s.reconnecting;
            if ignored || NameOf(code) == 0
            then && r.current == s.current && r.reconnecting == s.reconnecting && r.retryCount == s.retryCount
                 && Reported(r.log) == Reported(s.log)
            else && r.current == Idle && !r.reconnecting && r.reconnection == NoReconnection && r.retryCount == 0
                 && Reported(r.log) == Reported(s.log) + [NameOf(code)])
  {
    hide BackedOff, Attempts, CountMatches, Starts, Reported, RetryOrFail, Fail;
    var t := s.(reconnection := WithUpdate);
    assert ErrorOf(code) == NameOf(code);
    if cfg.loop || s.retryTimerExpired || !s.reconnecting {
      if retry {
        RetryOrFailOutcome(cfg, ErrorOf(code), t);
      } else {
        StartsOfFail(cfg, ErrorOf(code), t);
      }
    }
  }

  lemma RetryOrFailOutcome(cfg: Config, error: nat, s: Client)
    requires cfg.Valid() && s.reconnection == WithUpdate
    ensures var r := RetryOrFail(cfg, error, s);
      if cfg.loop || s.retryCount < cfg.count then
        && Starts(r.log) == Starts(s.log) + 1
        && r.current == Idle && r.reconnecting && r.reconnection == WithUpdate && !r.retryTimerExpired
        && r.retryCount == (if s.retryCount < cfg.count then s.retryCount + 1 else 1)
        && Reported(r.log) == Reported(s.log) + if s.retryCount < cfg.count then [] else [error]
      else
        && Starts(r.log) == Starts(s.log)
        && if error == ERROR_NONE
           then && r.current == s.current && r.reconnecting == s.reconnecting && r.retryCount == s.retryCount
                && Reported(r.log) == Reported(s.log)
           else && r.current == Idle && !r.reconnecting && r.reconnection == NoReconnection && r.retryCount == 0
                && Reported(r.log) == Reported(s.log) + [error]
  {
    hide Consistent, BackedOff, Attempts, Retry, Fail, Starts, Reported;
    if s.retryCount < cfg.count {
      StartsOfRetry(cfg, s.(retryCount := s.retryCount + 1));
    } else if cfg.loop {
      var t := Report(cfg, error, s.(retryCount := 1));
      StartsStep(s.log, ErrorReported(error));
      StartsOfRetry(cfg, t);
    } else {
      var t := Emit(cfg, ListeningStopped, s);
      StartsStep(s.log, ListeningStopped);
      StartsStep(t.log, RetryTimerStopped);
      StartsOfFail(cfg, error, Emit(cfg, RetryTimerStopped, t));
    }
  }

  lemma StartsStep(h: History, o: Output)
    ensures Starts(Then(h, o)) == Starts(h) + if o.RetryTimerStarted? then 1 else 0
    ensures Reported(Then(h, o)) == Reported(h) + if o.ErrorReported? then [o.code] else []
  {
  }

  lemma RetryArms(cfg: Config, s: Client)
    requires cfg.Valid()
    ensures var h := Then(Then(s.log, NsdlTimersStopped), ListeningStopped);
      Retry(cfg, s) ==
      s.(current := Idle, reconnecting := true, retryTimerExpired := false,
         log := Then(h, RetryTimerStarted(cfg.interval * cfg.count * s.retryCount * 1000)))
  {
    hide Consistent, BackedOff, Attempts;
  }

  lemma StartsOfRetry(cfg: Config, s: Client)
    requires cfg.Valid()
    ensures var r := Retry(cfg, s);
      && Starts(r.log) == Starts(s.log) + 1 && Reported(r.log) == Reported(s.log)
      && r.current == Idle && r.reconnecting && !r.retryTimerExpired
      && r.reconnection == s.reconnection && r.retryCount == s.retryCount
  {
    hide Consistent, BackedOff, Attempts, Retry, Go, Starts, Reported;
    RetryArms(cfg, s);
    var h := Then(s.log, NsdlTimersStopped);
    StartsStep(s.log, NsdlTimersStopped);
    StartsStep(h, ListeningStopped);
    StartsStep(Then(h, ListeningStopped), RetryTimerStarted(cfg.interval * cfg.count * s.retryCount * 1000));
  }

  lemma StartsOfFail(cfg: Config, error: nat, s: Client)
    requires cfg.Valid()
    ensures var r := Fail(cfg, error, s);
      && Starts(r.log) == Starts(s.log)
      && Reported(r.log) == Reported(s.log) + (if error == ERROR_NONE then [] else [error])
      && if error == ERROR_NONE then r == s
         else r.current == Idle && !r.reconnecting && r.reconnection == NoReconnection && r.retryCount == 0
  {
    hide Consistent, BackedOff, Attempts;
    if error != ERROR_NONE {
      var a := Then(s.log, ListeningStopped);
      var b := Then(a, RetryTimerStopped);
      var c := Then(b, ErrorReported(error));
      assert Starts(c) == Starts(b) == Starts(a) == Starts(s.log);
      assert Reported(c) == Reported(a) + [error] && Reported(a) == Reported(s.log);
      assert Fail(cfg, error, s).log == Then(c, NsdlTimersStopped);
    }
  }

  // ------------------------------------------------------------- library calls

  /** What the next library call delivers, what it answers, and what is left for the
      calls after it; a call without an entry delivers nothing and fails. */
  function Delivered(tape: seq<Reaction>): seq<Event> { if tape == [] then [] else tape[0].events }
  function Answer(tape: seq<Reaction>): bool { tape != [] && tape[0].ok }
  function Later(tape: seq<Reaction>): seq<Reaction> { if tape == [] then [] else tape[1..] }

  /** The state when a library call returns: the call is made, then everything it
      delivers is handled. */
  function Returned(cfg: Config, call: Library, s: Client): Client
    requires cfg.Valid()
  {
    Run(cfg, Delivered(s.tape), s.(log := Then(s.log, Called(call)), tape := Later(s.tape)))
  }

  lemma CallReturns(cfg: Config, call: Library, s: Client)
    requires cfg.Valid()
    ensures Call(cfg, call, s) == (Answer(s.tape), Returned(cfg, call, s))
  {
    hide Consistent, BackedOff, Attempts;
    if s.tape == [] {
      var t := s.(log := Then(s.log, Called(call)), tape := []);
      assert t == s.(log := Then(s.log, Called(call)));
      assert Run(cfg, [], t) == t;
    }
  }

  lemma LookupReturns(cfg: Config, server: ServerType, s: Client)
    requires cfg.Valid()
    ensures Connect(cfg, server, s) == Returned(cfg, Resolve(server), StartFlowTimer(cfg, server, s))
  {
    hide Consistent, BackedOff, Attempts;
    CallReturns(cfg, Resolve(server), StartFlowTimer(cfg, server, s));
    hide Call, Returned, StartFlowTimer;
  }

  /** Idle, with an error reported. */
  function Stopped(code: nat, s: Client): Client {
    s.(current := Idle, log := Then(Then(s.log, NsdlTimersStopped), ErrorReported(code)))
  }

  lemma GiveUpStops(cfg: Config, code: nat, s: Client)
    requires cfg.Valid()
    ensures GiveUp(cfg, code, s) == Stopped(code, s)
  {
    hide Consistent, BackedOff, Attempts;
  }

  /** Register, or stop with an error if the message cannot be sent. */
  function Registering(cfg: Config, s: Client): Client
    requires cfg.Valid()
  {
    var t := Returned(cfg, SendRegister, s);
    if Answer(s.tape) then t else Stopped(INVALID_PARAMETERS, t)
  }

  lemma RegisterNowRegisters(cfg: Config, s: Client)
    requires cfg.Valid()
    ensures RegisterNow(cfg, s) == Registering(cfg, s)
  {
    hide Consistent, BackedOff, Attempts, GiveUp;
    CallReturns(cfg, SendRegister, s);
    GiveUpStops(cfg, INVALID_PARAMETERS, Returned(cfg, SendRegister, s));
    hide Call, Returned;
  }

  // ------------------------------------------------------------- reconnection

  /** The client as it looks its server up again. */
  function LookingUpAgain(cfg: Config, server: ServerType, s: Client): Client
    requires cfg.Valid()
  {
    StartFlowTimer(cfg, server, s.(log := Then(Then(s.log, ListeningStopped), SocketBound)))
  }

  /** When the retry timer fires, a client that kept a security object does nothing but
      look its server up again; the rest is up to what the lookup delivers. */
  lemma RetryLooksUpAgain(cfg: Config, s: Client)
    requires cfg.Valid() && s.security.Some?
    ensures var server := if s.bootstrapped then M2MServer else BootstrapServer;
      var t := s.(retryTimerExpired := true, current := if s.bootstrapped then Register else Bootstrap);
      Handle(cfg, RetryTimer, s) == Returned(cfg, Resolve(server), LookingUpAgain(cfg, server, t))
  {
    hide Consistent, BackedOff, Attempts, Connect;
    RetryTimerLeads(cfg, s);
    hide Handle, Go, Returned;
    var server := if s.bootstrapped then M2MServer else BootstrapServer;
    var t := s.(retryTimerExpired := true, current := if s.bootstrapped then Register else Bootstrap);
    LookupReturns(cfg, server, Emit(cfg, SocketBound, Emit(cfg, ListeningStopped, t)));
  }

  lemma RetryTimerLeads(cfg: Config, s: Client)
    requires cfg.Valid()
    ensures Handle(cfg, RetryTimer, s) ==
            var t := s.(retryTimerExpired := true);
            if s.bootstrapped then EnterRegister(cfg, NoData, t.(current := Register))
            else EnterBootstrap(cfg, NoData, t.(current := Bootstrap))
  {
    hide Consistent, BackedOff, Attempts, EnterRegister, EnterBootstrap;
    assert Handle(cfg, RetryTimer, s) == HandleRetryTimer(cfg, s);
    var t := s.(retryTimerExpired := true);
    assert Go(cfg, Register, NoData, t) == EnterRegister(cfg, NoData, t.(current := Register));
    assert Go(cfg, Bootstrap, NoData, t) == EnterBootstrap(cfg, NoData, t.(current := Bootstrap));
  }

  /** Once the server's address is known, a reconnecting client tries an update and, if
      it cannot be sent and nothing changed meanwhile, a full registration; any other
      client registers. */
  lemma AddressReadyOutcome(cfg: Config, s: Client)
    requires cfg.Valid()
    ensures var h := Then(Then(s.log, ListeningStarted), ServerAddressSet);
      Handle(cfg, AddressReady(M2MServer), s) ==
      if s.reconnection == WithUpdate then
        var t := Returned(cfg, SendUpdate(0), s.(current := UpdateRegistration, log := h));
        if Answer(s.tape) || t.reconnection != WithUpdate then t
        else Registering(cfg, t.(reconnection := FullRegistration))
      else Registering(cfg, s.(current := RegisterAddressResolved, log := h))
  {
    hide Consistent, BackedOff, Attempts, RegisterNow;
    AddressLeads(cfg, s);
    hide Handle, Go, Registering, Returned;
    var h := Then(Then(s.log, ListeningStarted), ServerAddressSet);
    if s.reconnection == WithUpdate {
      var u := s.(current := UpdateRegistration, log := h);
      CallReturns(cfg, SendUpdate(0), u);
      RegisterNowRegisters(cfg, Returned(cfg, SendUpdate(0), u).(reconnection := FullRegistration));
    } else {
      RegisterNowRegisters(cfg, s.(current := RegisterAddressResolved, log := h));
    }
    hide Call;
  }

  lemma AddressLeads(cfg: Config, s: Client)
    requires cfg.Valid()
    ensures Handle(cfg, AddressReady(M2MServer), s) ==
            var t := s.(current := RegisterAddressResolved, log := Then(Then(s.log, ListeningStarted), ServerAddressSet));
            if s.reconnection == WithUpdate
            then EnterUpdateRegistration(cfg, NoData, t.(current := UpdateRegistration))
            else RegisterNow(cfg, t)
  {
    hide Consistent, BackedOff, Attempts, EnterUpdateRegistration, RegisterNow;
    var t := s.(current := RegisterAddressResolved);
    assert Handle(cfg, AddressReady(M2MServer), s) == HandleAddress(cfg, M2MServer, s);
    assert HandleAddress(cfg, M2MServer, s) == EnterRegisterAddressResolved(cfg, AddressData, t);
    assert EnterRegisterAddressResolved(cfg, AddressData, t) ==
           var u := Emit(cfg, ServerAddressSet, Emit(cfg, ListeningStarted, t));
           if u.reconnection == WithUpdate then Go(cfg, UpdateRegistration, NoData, u) else RegisterNow(cfg, u);
  }

  /** The calls on the tape deliver nothing by themselves. */
  predicate Quiet(tape: seq<Reaction>) { forall reaction | reaction in tape :: reaction.events == [] }

  lemma QuietReturns(cfg: Config, call: Library, s: Client)
    requires cfg.Valid() && Quiet(s.tape)
    ensures Returned(cfg, call, s) == s.(log := Then(s.log, Called(call)), tape := Later(s.tape))
    ensures Quiet(Later(s.tape))
  {
    hide Consistent, BackedOff, Attempts;
    var t := s.(log := Then(s.log, Called(call)), tape := Later(s.tape));
    assert Delivered(s.tape) == [];
    assert Run(cfg, [], t) == t;
  }

  /** A reconnection runs its course: the failure arms the timer, the timer looks the
      server up, the address sends an update or, if that fails, a registration, and the
      server's answer leaves the client registered with its counters cleared. */
  lemma ReconnectionCompletes(cfg: Config, s: Client, code: nat)
    requires cfg.Valid() && Retried(cfg, true, s) && s.security.Some? && s.bootstrapped
    requires Quiet(s.tape) && (Answer(Later(s.tape)) || Answer(Later(Later(s.tape))))
    ensures
      var updated := Answer(Later(s.tape));
      var s1 := Handle(cfg, SocketError(code, true), s);
      var s2 := Handle(cfg, RetryTimer, s1);
      var s3 := Handle(cfg, AddressReady(M2MServer), s2);
      var s4 := Handle(cfg, if updated then RegistrationWasUpdated else ClientRegistered, s3);
      && s1.log.Then? && s1.log.last == RetryTimerStarted(cfg.interval * cfg.count * s1.retryCount * 1000)
      && s2.log.Then? && s2.log.last == Called(Resolve(M2MServer))
      && s3.current == UpdateRegistration && s3.reconnecting
      && s3.log.Then? && s3.log.last == Called(if updated then SendUpdate(0) else SendRegister)
      && s4.current == Registered && !s4.reconnecting && s4.retryCount == 0 && s4.reconnection == NoReconnection
  {
    hide Consistent, BackedOff, Attempts, Returned, Handle, Answer, Later;
    var s1 := Handle(cfg, SocketError(code, true), s);
    FailureArms(cfg, s, code);
    RetryLooksUpAgain(cfg, s1);
    var t := LookingUpAgain(cfg, M2MServer, s1.(retryTimerExpired := true, current := Register));
    QuietReturns(cfg, Resolve(M2MServer), t);
    var s2 := Handle(cfg, RetryTimer, s1);
    AddressReadyOutcome(cfg, s2);
    var u := s2.(current := UpdateRegistration, log := Then(Then(s2.log, ListeningStarted), ServerAddressSet));
    QuietReturns(cfg, SendUpdate(0), u);
    QuietReturns(cfg, SendRegister, Returned(cfg, SendUpdate(0), u).(reconnection := FullRegistration));
    AnswerRegisters(cfg, Handle(cfg, AddressReady(M2MServer), s2), Answer(Later(s.tape)));
  }

  lemma FailureArms(cfg: Config, s: Client, code: nat)
    requires cfg.Valid() && Retried(cfg, true, s)
    ensures var r := Handle(cfg, SocketError(code, true), s);
      && r.log.Then? && r.log.last == RetryTimerStarted(cfg.interval * cfg.count * r.retryCount * 1000)
      && r.reconnecting && r.reconnection == WithUpdate
      && r.security == s.security && r.bootstrapped == s.bootstrapped && r.tape == s.tape
  {
    hide Consistent, BackedOff, Attempts, RetryOrFail;
    var t := s.(reconnection := WithUpdate);
    assert Handle(cfg, SocketError(code, true), s) == RetryOrFail(cfg, ErrorOf(code), t);
    RetryOrFailArms(cfg, ErrorOf(code), t);
  }

  lemma RetryOrFailArms(cfg: Config, error: nat, s: Client)
    requires cfg.Valid() && s.reconnection == WithUpdate && (cfg.loop || s.retryCount < cfg.count)
    ensures var r := RetryOrFail(cfg, error, s);
      && r.log.Then? && r.log.last == RetryTimerStarted(cfg.interval * cfg.count * r.retryCount * 1000)
      && r.reconnecting && r.reconnection == WithUpdate
      && r.security == s.security && r.bootstrapped == s.bootstrapped && r.tape == s.tape
  {
    hide Consistent, BackedOff, Attempts, Fail, Retry, Go;
    RetryArms(cfg, s.(retryCount := s.retryCount + 1));
    RetryArms(cfg, Report(cfg, error, s.(retryCount := 1)));
  }

  lemma AnswerRegisters(cfg: Config, s: Client, updated: bool)
    requires cfg.Valid()
    ensures var r := Handle(cfg, if updated then RegistrationWasUpdated else ClientRegistered, s);
      r.current == Registered && !r.reconnecting && r.retryCount == 0 && r.reconnection == NoReconnection
  {
    hide Consistent, BackedOff, Attempts;
    var r := HandleRegistered(cfg, if updated then RegistrationUpdated else ObjectRegistered, s);
    assert Handle(cfg, if updated then RegistrationWasUpdated else ClientRegistered, s) == r;
  }

  /** Whether the server's address and what follows arrive while it is being looked up
      or afterwards makes no difference. */
  lemma LookupMayCallBack(cfg: Config, s: Client, events: seq<Event>, answer: bool, rest: seq<Reaction>)
    requires cfg.Valid() && s.security.Some? && s.tape == [Reaction(events, answer)] + rest
    ensures
      var later := Handle(cfg, RetryTimer, s.(tape := [Reaction([], answer)] + rest));
      Handle(cfg, RetryTimer, s) == Run(cfg, events, later)
  {
    hide Consistent, BackedOff, Attempts, Handle, StartFlowTimer;
    var server := if s.bootstrapped then M2MServer else BootstrapServer;
    var quiet := s.(tape := [Reaction([], answer)] + rest);
    RetryLooksUpAgain(cfg, s);
    RetryLooksUpAgain(cfg, quiet);
    var t := s.(retryTimerExpired := true, current := if s.bootstrapped then Register else Bootstrap,
                log := Then(Then(s.log, ListeningStopped), SocketBound));
    FlowTimerKeepsTape(cfg, server, t, quiet.tape);
    var u := StartFlowTimer(cfg, server, t);
    var v := u.(log := Then(u.log, Called(Resolve(server))), tape := rest);
    assert s.tape[1..] == rest == quiet.tape[1..];
    assert Run(cfg, [], v) == v;
  }

  lemma FlowTimerKeepsTape(cfg: Config, server: ServerType, s: Client, tape: seq<Reaction>)
    requires cfg.Valid()
    ensures StartFlowTimer(cfg, server, s.(tape := tape)) == StartFlowTimer(cfg, server, s).(tape := tape)
    ensures StartFlowTimer(cfg, server, s).tape == s.tape
  {
    hide Consistent, BackedOff, Attempts;
  }

  // ---------------------------------------------------------------- update requests

  lemma UpdateLeads(cfg: Config, s: Client, update: Event)
    requires cfg.Valid() && update.UpdateRequest? && !s.reconnecting
    ensures var data := UpdateData(update.security, update.lifetime, update.hasObjects);
      var short := 0 < update.lifetime < MINIMUM_REGISTRATION_TIME;
      var t := s.(reconnection := WithUpdate,
                  log := if short then Then(s.log, ErrorReported(INVALID_PARAMETERS)) else s.log);
      Handle(cfg, update, s) ==
      if s.current == Idle then EnterRegister(cfg, data, t.(current := Register))
      else if s.current in {Registered, Waiting} then EnterUpdateRegistration(cfg, data, t.(current := UpdateRegistration))
      else t.(log := Then(t.log, ErrorReported(NOT_ALLOWED)))
  {
    hide Consistent, BackedOff, Attempts, EnterRegister, EnterUpdateRegistration;
    var data := UpdateData(update.security, update.lifetime, update.hasObjects);
    var short := 0 < update.lifetime < MINIMUM_REGISTRATION_TIME;
    var t := s.(reconnection := WithUpdate,
                log := if short then Then(s.log, ErrorReported(INVALID_PARAMETERS)) else s.log);
    assert Handle(cfg, update, s) == Attempt(cfg, ToUpdate, data, t) by {
      hide Attempt;
    }
    hide Handle;
    if s.current == Idle {
      assert Go(cfg, Register, data, t) == EnterRegister(cfg, data, t.(current := Register));
    } else if s.current in {Registered, Waiting} {
      assert Go(cfg, UpdateRegistration, data, t) ==
             EnterUpdateRegistration(cfg, data, t.(current := UpdateRegistration));
    }
  }

  /** A lifetime below the minimum is reported, but the update is sent with it, whatever
      the library answers and delivers, behind any new objects. */
  lemma ShortLifetimeIsSent(cfg: Config, s: Client, security: Option<Security>, lifetime: nat, hasObjects: bool)
    requires cfg.Valid() && 0 < lifetime < MINIMUM_REGISTRATION_TIME
    requires s.current in {Registered, Waiting} && !s.reconnecting
    ensures
      var u := s.(current := UpdateRegistration, reconnection := WithUpdate,
                  log := Then(s.log, ErrorReported(INVALID_PARAMETERS)));
      var v := if hasObjects then Returned(cfg, CreateNsdlList, u) else u;
      var t := Returned(cfg, SendUpdate(lifetime), v);
      Handle(cfg, UpdateRequest(security, lifetime, hasObjects), s) ==
      if Answer(v.tape) || t.reconnection != WithUpdate then t
      else Registering(cfg, t.(reconnection := FullRegistration))
  {
    hide Consistent, BackedOff, Attempts, RegisterNow;
    var u := s.(current := UpdateRegistration, reconnection := WithUpdate,
                log := Then(s.log, ErrorReported(INVALID_PARAMETERS)));
    UpdateLeads(cfg, s, UpdateRequest(security, lifetime, hasObjects));
    hide Handle, Returned, Registering;
    CallReturns(cfg, CreateNsdlList, u);
    var v := if hasObjects then Returned(cfg, CreateNsdlList, u) else u;
    CallReturns(cfg, SendUpdate(lifetime), v);
    RegisterNowRegisters(cfg, Returned(cfg, SendUpdate(lifetime), v).(reconnection := FullRegistration));
    hide Call;
  }

  /** How often a library was ever called this way. */
  ghost function Times(h: History, call: Library): (n: nat) {
    match h
    case Nothing => 0
    case Then(before, last) => Times(before, call) + if last == Called(call) then 1 else 0
  }

  lemma TimesStep(h: History, o: Output, call: Library)
    ensures Times(Then(h, o), call) == Times(h, call) + if o == Called(call) then 1 else 0
  {
  }

  /** One quiet call is one call more. */
  lemma QuietCallCounts(cfg: Config, call: Library, s: Client, other: Library)
    requires cfg.Valid() && Quiet(s.tape)
    ensures var r := Call(cfg, call, s);
      && r == (Answer(s.tape), s.(log := Then(s.log, Called(call)), tape := Later(s.tape)))
      && Quiet(r.1.tape)
      && Times(r.1.log, other) == Times(s.log, other) + if call == other then 1 else 0
  {
    hide Times;
    CallReturns(cfg, call, s);
    QuietReturns(cfg, call, s);
    hide Call, Returned, Consistent;
    TimesStep(s.log, Called(call), other);
  }

  lemma StopCounts(code: nat, s: Client, call: Library)
    ensures Times(Stopped(code, s).log, call) == Times(s.log, call)
  {
    var h := Then(s.log, NsdlTimersStopped);
    assert Times(h, call) == Times(s.log, call);
  }

  lemma QuietRegistrationCounts(cfg: Config, s: Client, call: Library)
    requires cfg.Valid() && Quiet(s.tape)
    ensures var r := RegisterNow(cfg, s);
      && Quiet(r.tape)
      && Times(r.log, call) == Times(s.log, call) + if call == SendRegister then 1 else 0
  {
    hide Consistent, BackedOff, Attempts, GiveUp, Times;
    QuietCallCounts(cfg, SendRegister, s, call);
    GiveUpStops(cfg, INVALID_PARAMETERS, Call(cfg, SendRegister, s).1);
    StopCounts(INVALID_PARAMETERS, Call(cfg, SendRegister, s).1, call);
    hide Call;
  }

  /** The update is sent once, with the lifetime it was asked for. */
  lemma QuietUpdateCounts(cfg: Config, data: EventData, s: Client, lifetime: nat)
    requires cfg.Valid() && s.current == UpdateRegistration && Deliverable(UpdateRegistration, data) && Quiet(s.tape)
    ensures var r := EnterUpdateRegistration(cfg, data, s);
      && Quiet(r.tape)
      && Times(r.log, SendUpdate(lifetime)) ==
         Times(s.log, SendUpdate(lifetime)) + if lifetime == (if data.UpdateData? then data.lifetime else 0) then 1 else 0
  {
    hide Consistent, BackedOff, Attempts, RegisterNow, Times, Call;
    var call := SendUpdate(if data.UpdateData? then data.lifetime else 0);
    QuietCallCounts(cfg, CreateNsdlList, s, SendUpdate(lifetime));
    var t := if data.UpdateData? && data.hasObjects then Call(cfg, CreateNsdlList, s).1 else s;
    QuietCallCounts(cfg, call, t, SendUpdate(lifetime));
    QuietRegistrationCounts(cfg, Call(cfg, call, t).1.(reconnection := FullRegistration), SendUpdate(lifetime));
  }

  lemma QuietLookupCounts(cfg: Config, server: ServerType, s: Client, call: Library)
    requires cfg.Valid() && Quiet(s.tape)
    ensures var r := Connect(cfg, server, s);
      && Quiet(r.tape) && r.reconnection == s.reconnection
      && Times(r.log, call) == Times(s.log, call) + if call == Resolve(server) then 1 else 0
  {
    hide Consistent, BackedOff, Attempts, Call;
    var h := Then(s.log, FlowTimerStopped);
    assert Times(h, call) == Times(s.log, call);
    FlowTimerKeepsTape(cfg, server, s, s.tape);
    QuietCallCounts(cfg, Resolve(server), StartFlowTimer(cfg, server, s), call);
  }

  /** Registering anew sends no update; with a kept security object it looks the server up. */
  lemma QuietRegisterCounts(cfg: Config, data: EventData, s: Client, call: Library)
    requires cfg.Valid() && s.current == Register && Deliverable(Register, data) && Quiet(s.tape)
    requires call.SendUpdate? || call == Resolve(M2MServer)
    ensures var r := EnterRegister(cfg, data, s);
      && Quiet(r.tape) && r.reconnection == s.reconnection
      && (call.SendUpdate? ==> Times(r.log, call) == Times(s.log, call))
      && (s.security.Some? && call == Resolve(M2MServer) ==> Times(r.log, call) == Times(s.log, call) + 1)
  {
    hide Consistent, BackedOff, Attempts, Call, Connect, RegisterFirst, Times;
    if s.security.Some? {
      var t := s.(log := Then(s.log, ListeningStopped));
      TimesStep(s.log, ListeningStopped, call);
      QuietCallCounts(cfg, CreateNsdlList, t, call);
      var u := if data.NoData? then t else Call(cfg, CreateNsdlList, t).1;
      TimesStep(u.log, SocketBound, call);
      QuietLookupCounts(cfg, M2MServer, u.(log := Then(u.log, SocketBound)), call);
    } else {
      QuietFirstCounts(cfg, if data.NoData? then s else s.(security := data.security), call);
    }
  }

  lemma QuietFirstCounts(cfg: Config, s: Client, call: Library)
    requires cfg.Valid() && Quiet(s.tape)
    ensures var r := RegisterFirst(cfg, s);
      && Quiet(r.tape) && r.reconnection == s.reconnection
      && (call.SendUpdate? ==> Times(r.log, call) == Times(s.log, call))
  {
    hide Consistent, BackedOff, Attempts, Call, Connect, GiveUp, Times;
    QuietCallCounts(cfg, CreateNsdlList, s, call);
    var t := Call(cfg, CreateNsdlList, s).1;
    QuietLookupCounts(cfg, M2MServer, t, call);
    GiveUpStops(cfg, INVALID_PARAMETERS, s);
    GiveUpStops(cfg, INVALID_PARAMETERS, t);
    StopCounts(INVALID_PARAMETERS, s, call);
    StopCounts(INVALID_PARAMETERS, t, call);
  }

  /** Exactly when an update request is sent as one, for every lifetime, valid or not, every
      state and every answer: if and only if the client is registered or waiting, and not
      reconnecting. */
  lemma UpdateIsSentExactlyWhen(cfg: Config, s: Client, update: Event)
    requires cfg.Valid() && update.UpdateRequest? && Quiet(s.tape)
    ensures var r := Handle(cfg, update, s);
      var sent := !s.reconnecting && s.current in {Registered, Waiting};
      && Quiet(r.tape)
      && Times(r.log, SendUpdate(update.lifetime)) ==
         Times(s.log, SendUpdate(update.lifetime)) + (if sent then 1 else 0)
      && (!s.reconnecting && s.current == Idle ==>
            && r.reconnection == WithUpdate
            && (s.security.Some? ==>
                  Times(r.log, Resolve(M2MServer)) == Times(s.log, Resolve(M2MServer)) + 1))
  {
    hide Consistent, BackedOff, Attempts, EnterRegister, EnterUpdateRegistration, Times;
    var call := SendUpdate(update.lifetime);
    var data := UpdateData(update.security, update.lifetime, update.hasObjects);
    TimesStep(s.log, ErrorReported(INVALID_PARAMETERS), call);
    TimesStep(s.log, ErrorReported(INVALID_PARAMETERS), Resolve(M2MServer));
    if s.reconnecting {
      UpdatesWaitForReconnection(cfg, s, update);
    } else {
      UpdateLeads(cfg, s, update);
      hide Handle;
      var short := 0 < update.lifetime < MINIMUM_REGISTRATION_TIME;
      var t := s.(reconnection := WithUpdate,
                  log := if short then Then(s.log, ErrorReported(INVALID_PARAMETERS)) else s.log);
      if s.current == Idle {
        QuietRegisterCounts(cfg, data, t.(current := Register), call);
        QuietRegisterCounts(cfg, data, t.(current := Register), Resolve(M2MServer));
      } else if s.current in {Registered, Waiting} {
        QuietUpdateCounts(cfg, data, t.(current := UpdateRegistration), update.lifetime);
      } else {
        TimesStep(t.log, ErrorReported(NOT_ALLOWED), call);
      }
    }
  }

  /** Exactly when the lifetime of an update request reaches the server, over the request
      and the address that a lookup brings: from Idle the client registers anew, and what
      it then sends is an update without the lifetime. */
  lemma LifetimeIsSentExactlyWhen(cfg: Config, s: Client, update: Event)
    requires cfg.Valid() && update.UpdateRequest? && update.lifetime > 0 && Quiet(s.tape)
    ensures var r := Handle(cfg, AddressReady(M2MServer), Handle(cfg, update, s));
      var sent := !s.reconnecting && s.current in {Registered, Waiting};
      && Times(r.log, SendUpdate(update.lifetime)) ==
         Times(s.log, SendUpdate(update.lifetime)) + (if sent then 1 else 0)
      && (!s.reconnecting && s.current == Idle ==>
            Times(r.log, SendUpdate(0)) == Times(Handle(cfg, update, s).log, SendUpdate(0)) + 1)
  {
    hide Handle, Times, Consistent;
    UpdateIsSentExactlyWhen(cfg, s, update);
    AddressCounts(cfg, Handle(cfg, update, s), update.lifetime);
    AddressCounts(cfg, Handle(cfg, update, s), 0);
  }

  /** A known address sends an update without a lifetime while an update is due, and none
      otherwise. */
  lemma AddressCounts(cfg: Config, s: Client, lifetime: nat)
    requires cfg.Valid() && Quiet(s.tape)
    ensures Times(Handle(cfg, AddressReady(M2MServer), s).log, SendUpdate(lifetime)) ==
            Times(s.log, SendUpdate(lifetime)) + if lifetime == 0 && s.reconnection == WithUpdate then 1 else 0
  {
    hide Consistent, BackedOff, Attempts, EnterUpdateRegistration, RegisterNow, Times;
    AddressLeads(cfg, s);
    hide Handle;
    var call := SendUpdate(lifetime);
    var h := Then(s.log, ListeningStarted);
    TimesStep(s.log, ListeningStarted, call);
    TimesStep(h, ServerAddressSet, call);
    var t := s.(current := RegisterAddressResolved, log := Then(h, ServerAddressSet));
    if s.reconnection == WithUpdate {
      QuietUpdateCounts(cfg, NoData, t.(current := UpdateRegistration), lifetime);
    } else {
      QuietRegistrationCounts(cfg, t, call);
    }
  }

  /** While it reconnects, the client ignores update requests but for reporting a bad lifetime. */
  lemma UpdatesWaitForReconnection(cfg: Config, s: Client, update: Event)
    requires cfg.Valid() && update.UpdateRequest? && s.reconnecting
    ensures var r := Handle(cfg, update, s);
      r == if 0 < update.lifetime < MINIMUM_REGISTRATION_TIME
           then s.(log := Then(s.log, ErrorReported(INVALID_PARAMETERS)))
           else s
  {
    hide Consistent, BackedOff, Attempts, Attempt;
  }

  // ------------------------------------------------------------------ whole flows

  /** What entering a state through its state function comes to, with a request. */
  lemma RequestLeads(cfg: Config, request: Request, security: Option<Security>, s: Client)
    requires cfg.Valid() && security.Some?
    ensures request.ToBootstrap? && s.current == Idle ==>
              Handle(cfg, BootstrapRequest(security), s) ==
              EnterBootstrap(cfg, SecurityData(security), s.(current := Bootstrap))
    ensures request.ToRegister? && s.current in {Idle, Bootstrapped, Registered, Waiting} ==>
              Handle(cfg, RegisterRequest(security), s) ==
              EnterRegister(cfg, RegisterData(security), s.(current := Register))
  {
    hide Consistent, BackedOff, Attempts, EnterBootstrap, EnterRegister;
    match request
    case ToBootstrap =>
      assert Handle(cfg, BootstrapRequest(security), s) == RequestWith(cfg, ToBootstrap, security, s);
      if s.current == Idle {
        assert RequestWith(cfg, ToBootstrap, security, s) == Go(cfg, Bootstrap, SecurityData(security), s);
      }
    case ToRegister =>
      assert Handle(cfg, RegisterRequest(security), s) == RequestWith(cfg, ToRegister, security, s);
      if s.current in {Idle, Bootstrapped, Registered, Waiting} {
        assert RequestWith(cfg, ToRegister, security, s) == Go(cfg, Register, RegisterData(security), s);
      }
    case _ =>
  }

  /** The first bootstrap looks up the bootstrap server exactly if the security object is
      that of a bootstrap server with an address; any other is refused, but kept. */
  lemma FirstBootstrapOutcome(cfg: Config, s: Client, security: Security)
    requires cfg.Valid() && s.current == Idle && s.security.None?
    ensures var t := s.(current := Bootstrap, bootstrapped := false, security := Some(security));
      Handle(cfg, BootstrapRequest(Some(security)), s) ==
      if security == Security(BootstrapServer, true)
      then Returned(cfg, Resolve(BootstrapServer), StartFlowTimer(cfg, BootstrapServer, t))
      else Stopped(INVALID_PARAMETERS, t)
  {
    hide Consistent, BackedOff, Attempts, Connect, GiveUp;
    RequestLeads(cfg, ToBootstrap, Some(security), s);
    hide Handle, Go, Returned, StartFlowTimer;
    var t := s.(current := Bootstrap, bootstrapped := false, security := Some(security));
    LookupReturns(cfg, BootstrapServer, t);
    GiveUpStops(cfg, INVALID_PARAMETERS, t);
  }

  /** With the bootstrap server's address known, the bootstrap resource is created, or
      the client gives up; a name that is too long is only reported. */
  lemma BootstrapAddressOutcome(cfg: Config, s: Client)
    requires cfg.Valid()
    ensures var t := s.(current := BootstrapAddressResolved, log := Then(s.log, ListeningStarted));
      var u := Returned(cfg, CreateBootstrapResource, t);
      Handle(cfg, AddressReady(BootstrapServer), s) ==
      if !cfg.nameFits then t.(log := Then(t.log, ErrorReported(INVALID_PARAMETERS)))
      else if Answer(s.tape) then u.(current := BootstrapResourceCreated)
      else Stopped(INVALID_PARAMETERS, u)
  {
    hide Consistent, BackedOff, Attempts, Call, GiveUp, Returned;
    var t := s.(current := BootstrapAddressResolved);
    assert Handle(cfg, AddressReady(BootstrapServer), s) == HandleAddress(cfg, BootstrapServer, s);
    assert HandleAddress(cfg, BootstrapServer, s) == EnterBootstrapAddressResolved(cfg, AddressData, t);
    hide Handle, HandleAddress;
    var u := t.(log := Then(s.log, ListeningStarted));
    CallReturns(cfg, CreateBootstrapResource, u);
    var v := Returned(cfg, CreateBootstrapResource, u);
    GiveUpStops(cfg, INVALID_PARAMETERS, v);
    assert Go(cfg, BootstrapResourceCreated, NoData, v) == v.(current := BootstrapResourceCreated);
  }

  /** The server may end the bootstrap while its last message is still to be
      acknowledged: the application is told only when that has been sent, and the
      security object of the bootstrap is given up for the next registration. */
  lemma BootstrapEndsWithTheLastMessage(cfg: Config, s: Client, security: Option<Security>)
    requires cfg.Valid()
    ensures var s1 := Handle(cfg, BootstrapMustWait(security), s);
      var s2 := Handle(cfg, DataSent, s1);
      && s1.current == BootstrapWait && s1.log == s.log
      && s2.current == Bootstrapped && s2.bootstrapped && s2.security == None
      && s2.log.Then? && s2.log.last == BootstrapDone
      && !s2.reconnecting && s2.retryCount == 0
  {
    hide Consistent, BackedOff, Attempts;
    var s1 := s.(security := security, current := BootstrapWait);
    assert Handle(cfg, BootstrapMustWait(security), s) == s1 by {
      assert Go(cfg, BootstrapWait, NoData, s.(security := security)) == s1;
    }
    assert Handle(cfg, DataSent, s1) == HandleDataSent(cfg, s1);
    hide Handle, HandleBootstrapDone;
  }

  /** The first registration looks up the server exactly if the security object is that
      of an LwM2M server with an address and the object list could be taken over. */
  lemma FirstRegistrationOutcome(cfg: Config, s: Client, security: Security)
    requires cfg.Valid() && s.security.None? && s.current in {Idle, Bootstrapped, Registered, Waiting}
    ensures var t := s.(current := Register, security := Some(security));
      var u := Returned(cfg, CreateNsdlList, t);
      Handle(cfg, RegisterRequest(Some(security)), s) ==
      if security.server != M2MServer then Stopped(INVALID_PARAMETERS, t)
      else if Answer(s.tape) && security.hasAddress
      then Returned(cfg, Resolve(M2MServer), StartFlowTimer(cfg, M2MServer, u))
      else Stopped(INVALID_PARAMETERS, u)
  {
    hide Consistent, BackedOff, Attempts, Call, Connect, GiveUp;
    RequestLeads(cfg, ToRegister, Some(security), s);
    hide Handle, Go, Returned, StartFlowTimer;
    var t := s.(current := Register, security := Some(security));
    assert EnterRegister(cfg, RegisterData(Some(security)), s.(current := Register)) == RegisterFirst(cfg, t);
    hide EnterRegister, EnterBootstrap;
    CallReturns(cfg, CreateNsdlList, t);
    var u := Returned(cfg, CreateNsdlList, t);
    LookupReturns(cfg, M2MServer, u);
    GiveUpStops(cfg, INVALID_PARAMETERS, t);
    GiveUpStops(cfg, INVALID_PARAMETERS, u);
  }

  /** Unregistering: refused unless registered; else the message is sent, in Waiting, or
      the client reports that it is not registered. */
  lemma UnregisterOutcome(cfg: Config, s: Client)
    requires cfg.Valid()
    ensures var t := Returned(cfg, SendUnregister, s.(current := Waiting));
      Handle(cfg, UnregisterRequest, s) ==
      if s.current !in {Registered, UpdateRegistration, Waiting} then s.(log := Then(s.log, ErrorReported(NOT_ALLOWED)))
      else if Answer(s.tape) then t
      else Stopped(NOT_REGISTERED, t)
  {
    hide Consistent, BackedOff, Attempts, Call, GiveUp, Returned;
    assert Handle(cfg, UnregisterRequest, s) == Attempt(cfg, ToUnregister, NoData, s);
    if s.current in {Registered, UpdateRegistration, Waiting} {
      var t := s.(current := Unregister);
      assert Attempt(cfg, ToUnregister, NoData, s) == Go(cfg, Unregister, NoData, s) == EnterUnregister(cfg, t);
      assert Go(cfg, SendingCoapData, NoData, t) == t.(current := Waiting);
      hide Handle, Attempt, Go;
      CallReturns(cfg, SendUnregister, t.(current := Waiting));
      GiveUpStops(cfg, NOT_REGISTERED, Returned(cfg, SendUnregister, t.(current := Waiting)));
    }
  }

  /** Received data is processed in Waiting; if it cannot be parsed, that is reported. */
  lemma ReceivedDataOutcome(cfg: Config, s: Client)
    requires cfg.Valid()
    ensures var t := Returned(cfg, ProcessData, s.(current := Waiting));
      Handle(cfg, DataAvailable, s) ==
      if Answer(s.tape) then t else t.(log := Then(t.log, ErrorReported(RESPONSE_PARSE_FAILED)))
  {
    hide Consistent, BackedOff, Attempts, Call, Returned;
    var t := s.(current := CoapDataReceived);
    assert Handle(cfg, DataAvailable, s) == Go(cfg, CoapDataReceived, ReceivedData, s) == EnterCoapDataReceived(cfg, t);
    assert Go(cfg, ProcessingCoapData, NoData, t) == t.(current := Waiting);
    hide Handle, Go;
    CallReturns(cfg, ProcessData, t.(current := Waiting));
  }

  /** A message that is ready is sent, in Waiting, unless the client is idle.  If it cannot
      be sent the client becomes idle, and says so unless it is reconnecting by then. */
  lemma MessageOutcome(cfg: Config, s: Client)
    requires cfg.Valid()
    ensures var t := Returned(cfg, SendData, s.(current := Waiting));
      var idle := t.(current := Idle, log := Then(t.log, NsdlTimersStopped));
      Handle(cfg, MessageReady, s) ==
      if s.current == Idle then s
      else if Answer(s.tape) then t
      else if t.reconnecting then idle
      else Stopped(NETWORK_ERROR, t)
  {
    hide Consistent, BackedOff, Attempts, Call, Returned;
    assert Handle(cfg, MessageReady, s) == SendMessage(cfg, s);
    hide Handle;
    assert Go(cfg, SendingCoapData, NoData, s) == s.(current := Waiting);
    CallReturns(cfg, SendData, s.(current := Waiting));
    var t := Returned(cfg, SendData, s.(current := Waiting));
    assert Go(cfg, Idle, NoData, t) == t.(current := Idle, log := Then(t.log, NsdlTimersStopped));
  }
}

/**
 * The wrapper around the AMI client.  The client keeps a list of callbacks
 * and calls each of them with every event it receives; the wrapper registers
 * two login-validation callbacks (each deregisters itself once its event has
 * been seen) and the event listener that feeds the filters.  It also decides
 * whether the event thread and the connection are healthy, and forwards
 * filter lists to the listener.
 *
 * The client library itself is not part of this model: its callback list,
 * action-id counter and response timeout are fields here, a sent action is
 * appended to a log, and the response to it is an input.
 */
module ClientWrappers {
  import opened Ami
  import opened Sequences
  import opened NumberText
  import opened EventFilters
  import opened EventListeners

  /** The callbacks the AMI client can hold. */
  datatype Callback = ValidateLogin | ValidateFullyBooted | ListenerOnEvent | ExecuterOnEvent

  /** Whether a login-validation callback sees its event (and so deregisters itself). */
  predicate Fires(cb: Callback, e: Event) {
    match cb
    case ValidateLogin => e.name == Some("SuccessfulAuth")
    case ValidateFullyBooted => e.name == Some("FullyBooted")
    case _ => false
  }

  /** remove_event_listener: the first occurrence goes; an absent callback is no error. */
  function Deregister(cbs: seq<Callback>, cb: Callback): (r: seq<Callback>)
    ensures cb !in cbs ==> r == cbs
  {
    match RemoveFirst(cbs, cb)
    case None => cbs
    case Some(t) => t
  }

  /** Deregistering a registered callback removes exactly one occurrence of it. */
  lemma DeregisterCount(cbs: seq<Callback>, cb: Callback)
    requires cb in cbs
    ensures multiset(Deregister(cbs, cb)) == multiset(cbs) - multiset{cb}
  {
    RemoveFirstCount(cbs, cb);
  }

  /** What the callbacks see and change: the callback list, the two flags, the filters and the last-event time. */
  datatype Session = Session(
    callbacks: seq<Callback>,
    loginValidated: bool,
    fullyBooted: bool,
    filters: seq<FilterSnap>,
    lastEvent: int)

  function DispatchTo(e: Event): seq<FilterSnap> -> seq<FilterSnap> {
    fs => Dispatch(fs, e)
  }

  /** One callback handling an event at time now (the executer's callback acts on the executer only). */
  function CallbackStep(s: Session, cb: Callback, e: Event, now: int): Session {
    match cb
    case ValidateLogin =>
      if Fires(cb, e) then s.(loginValidated := true, callbacks := Deregister(s.callbacks, cb)) else s
    case ValidateFullyBooted =>
      if Fires(cb, e) then s.(fullyBooted := true, callbacks := Deregister(s.callbacks, cb)) else s
    case ListenerOnEvent => s.(filters := Dispatch(s.filters, e), lastEvent := now)
    case ExecuterOnEvent => s
  }

  /** The callbacks of cbs handling an event, in order. */
  function DeliverAlong(s: Session, cbs: seq<Callback>, e: Event, now: int): Session
    decreases |cbs|
  {
    if |cbs| == 0 then s else CallbackStep(DeliverAlong(s, cbs[..|cbs| - 1], e, now), cbs[|cbs| - 1], e, now)
  }

  /** An event delivered to the callbacks registered when it arrives. */
  function DeliverEvent(s: Session, e: Event, now: int): Session {
    DeliverAlong(s, s.callbacks, e, now)
  }

  /** A batch of events delivered in order, all at time now. */
  function DeliverBatch(s: Session, es: seq<Event>, now: int): Session
    decreases |es|
  {
    if |es| == 0 then s else DeliverEvent(DeliverBatch(s, es[..|es| - 1], now), es[|es| - 1], now)
  }

  /** The filters see the event once per registered listener callback. */
  lemma {:induction false} DeliverAlongFilters(s: Session, cbs: seq<Callback>, e: Event, now: int)
    ensures DeliverAlong(s, cbs, e, now).filters == Iterate(DispatchTo(e), Count(cbs, ListenerOnEvent), s.filters)
    decreases |cbs|
  {
    if |cbs| > 0 {
      var init := cbs[..|cbs| - 1];
      var c := cbs[|cbs| - 1];
      DeliverAlongFilters(s, init, e, now);
      CallbackStepFilters(DeliverAlong(s, init, e, now), c, e, now);
      assert Count(cbs, ListenerOnEvent) == Count(init, ListenerOnEvent) + if c == ListenerOnEvent then 1 else 0;
    }
  }

  lemma CallbackStepFilters(t: Session, c: Callback, e: Event, now: int)
    ensures CallbackStep(t, c, e, now).filters == if c == ListenerOnEvent then DispatchTo(e)(t.filters) else t.filters
  {
  }

  /** The time of the last event is now when a listener callback is registered, and unchanged otherwise. */
  lemma {:induction false} DeliverAlongTime(s: Session, cbs: seq<Callback>, e: Event, now: int)
    ensures DeliverAlong(s, cbs, e, now).lastEvent == if ListenerOnEvent in cbs then now else s.lastEvent
    decreases |cbs|
  {
    if |cbs| > 0 {
      var init := cbs[..|cbs| - 1];
      assert cbs == init + [cbs[|cbs| - 1]];
      DeliverAlongTime(s, init, e, now);
    }
  }

  /** A flag is set by the event its callback waits for, if that callback is registered, and is never cleared. */
  lemma {:induction false} DeliverAlongFlags(s: Session, cbs: seq<Callback>, e: Event, now: int)
    ensures DeliverAlong(s, cbs, e, now).loginValidated <==>
      s.loginValidated || (ValidateLogin in cbs && e.name == Some("SuccessfulAuth"))
    ensures DeliverAlong(s, cbs, e, now).fullyBooted <==>
      s.fullyBooted || (ValidateFullyBooted in cbs && e.name == Some("FullyBooted"))
    decreases |cbs|
  {
    if |cbs| > 0 {
      var init := cbs[..|cbs| - 1];
      DeliverAlongFlags(s, init, e, now);
      assert cbs == init + [cbs[|cbs| - 1]];
    }
  }

  /** The callback list after the callbacks of p handled an event: each one that fires deregisters itself. */
  function CallbacksAfter(cbs: seq<Callback>, p: seq<Callback>, e: Event): seq<Callback>
    decreases |p|
  {
    if |p| == 0 then cbs
    else
      var t := CallbacksAfter(cbs, p[..|p| - 1], e);
      var c := p[|p| - 1];
      if Fires(c, e) then Deregister(t, c) else t
  }

  /** Only the login callbacks change the callback list while an event is delivered. */
  lemma {:induction false} DeliverAlongCallbackList(s: Session, p: seq<Callback>, e: Event, now: int)
    ensures DeliverAlong(s, p, e, now).callbacks == CallbacksAfter(s.callbacks, p, e)
    decreases |p|
  {
    if |p| > 0 {
      DeliverAlongCallbackList(s, p[..|p| - 1], e, now);
    }
  }

  /**
   * Along a prefix p of the registered callbacks, every callback that fires
   * has removed one occurrence of itself.
   */
  lemma {:induction false} CallbacksAfterCount(cbs: seq<Callback>, p: seq<Callback>, e: Event, cb: Callback)
    requires p <= cbs
    ensures multiset(CallbacksAfter(cbs, p, e))[cb] + (if Fires(cb, e) then multiset(p)[cb] else 0) ==
      multiset(cbs)[cb]
    decreases |p|
  {
    if |p| > 0 {
      var q := p[..|p| - 1];
      var c := p[|p| - 1];
      assert p == q + [c];
      var t := CallbacksAfter(cbs, q, e);
      CallbacksAfterCount(cbs, q, e, cb);
      if Fires(c, e) {
        CallbacksAfterCount(cbs, q, e, c);
        assert cbs == p + cbs[|p|..];
        assert multiset(cbs)[c] >= multiset(p)[c] > multiset(q)[c];
        assert c in t;
        DeregisterCount(t, c);
      }
    }
  }

  /** Neither login callback is registered. */
  predicate NoLoginCallbacks(cbs: seq<Callback>) {
    ValidateLogin !in cbs && ValidateFullyBooted !in cbs
  }

  /** Callbacks that never fire leave the callback list as it is. */
  lemma {:induction false} CallbacksAfterQuiet(cbs: seq<Callback>, p: seq<Callback>, e: Event)
    requires NoLoginCallbacks(p)
    ensures CallbacksAfter(cbs, p, e) == cbs
    decreases |p|
  {
    if |p| > 0 {
      var q := p[..|p| - 1];
      assert p == q + [p[|p| - 1]];
      CallbacksAfterQuiet(cbs, q, e);
    }
  }

  /** Without login callbacks registered, an event leaves the callback list as it is. */
  lemma DeliverEventQuiet(s: Session, e: Event, now: int)
    requires NoLoginCallbacks(s.callbacks)
    ensures DeliverEvent(s, e, now).callbacks == s.callbacks
  {
    DeliverAlongCallbackList(s, s.callbacks, e, now);
    CallbacksAfterQuiet(s.callbacks, s.callbacks, e);
  }

  /** Dispatching an event any number of times keeps the shape of every filter. */
  lemma {:induction false} IterateKeepsShape(fs: seq<FilterSnap>, e: Event, n: nat)
    requires AllInv(fs)
    ensures SameShapes(Iterate(DispatchTo(e), n, fs), fs)
  {
    if n > 0 {
      IterateKeepsShape(fs, e, n - 1);
      var before := Iterate(DispatchTo(e), n - 1, fs);
      DispatchKeepsShape(before, e);
    }
  }

  /** An event keeps the shape of every filter the session holds. */
  lemma DeliverEventKeepsShape(s: Session, e: Event, now: int)
    requires AllInv(s.filters)
    ensures SameShapes(DeliverEvent(s, e, now).filters, s.filters)
  {
    DeliverAlongFilters(s, s.callbacks, e, now);
    IterateKeepsShape(s.filters, e, Count(s.callbacks, ListenerOnEvent));
  }

  /** After an event, a login callback it fires is gone entirely; every other callback keeps its count. */
  lemma DeliverEventCallbacks(s: Session, e: Event, now: int, cb: Callback)
    ensures multiset(DeliverEvent(s, e, now).callbacks)[cb] == if Fires(cb, e) then 0 else multiset(s.callbacks)[cb]
  {
    DeliverAlongCallbackList(s, s.callbacks, e, now);
    CallbacksAfterCount(s.callbacks, s.callbacks, e, cb);
  }

  /** The login callbacks ignore an event without a name: nothing but the filters and the time can change. */
  lemma {:induction false} NamelessEventIgnored(s: Session, cbs: seq<Callback>, e: Event, now: int)
    requires e.name.None?
    ensures var r := DeliverAlong(s, cbs, e, now);
      r.callbacks == s.callbacks && r.loginValidated == s.loginValidated && r.fullyBooted == s.fullyBooted
    decreases |cbs|
  {
    if |cbs| > 0 {
      NamelessEventIgnored(s, cbs[..|cbs| - 1], e, now);
    }
  }

  /** What the health of the event thread depends on (check_event_thread_health). */
  predicate EventThreadHealthy(loginValidated: bool, threadAlive: bool) {
    !loginValidated || threadAlive
  }

  /** Whether the last event is too old, so the connection has to be probed with a ping. */
  predicate Stale(lastEvent: int, pingTimeout: int, now: int) {
    lastEvent + Ticks(pingTimeout) < now
  }

  /** The first poll of the login wait at which both flags are set; returns normally only then. */
  function PollLogin(s: Session, arrivals: seq<seq<Event>>, loginTimeout: int, bootTimeout: int, start: int, j: nat): (r: (Session, bool))
    decreases Max(Ticks(loginTimeout), Ticks(bootTimeout)) + 1 - j
  {
    if s.loginValidated && s.fullyBooted then (s, false)
    else if !s.loginValidated && j > Ticks(loginTimeout) then (s, true)
    else if !s.fullyBooted && j > Ticks(bootTimeout) then (s, true)
    else
      var batch := if j < |arrivals| then arrivals[j] else [];
      PollLogin(DeliverBatch(s, batch, start + j), arrivals, loginTimeout, bootTimeout, start, j + 1)
  }

  function Max(a: int, b: int): int {
    if a < b then b else a
  }

  /** login returns normally exactly when both flags end up set; it raises otherwise. */
  lemma {:induction false} PollLoginOutcome(s: Session, arrivals: seq<seq<Event>>, loginTimeout: int, bootTimeout: int, start: int, j: nat)
    ensures var r := PollLogin(s, arrivals, loginTimeout, bootTimeout, start, j);
      !r.1 <==> r.0.loginValidated && r.0.fullyBooted
    decreases Max(Ticks(loginTimeout), Ticks(bootTimeout)) + 1 - j
  {
    if !(s.loginValidated && s.fullyBooted) && !(!s.loginValidated && j > Ticks(loginTimeout)) &&
       !(!s.fullyBooted && j > Ticks(bootTimeout)) {
      var batch := if j < |arrivals| then arrivals[j] else [];
      PollLoginOutcome(DeliverBatch(s, batch, start + j), arrivals, loginTimeout, bootTimeout, start, j + 1);
    }
  }

  /** A login that raises at a poll does so because a flag is still false after its own timeout. */
  lemma {:induction false} PollLoginTimesOut(s: Session, arrivals: seq<seq<Event>>, loginTimeout: int, bootTimeout: int, start: int, j: nat)
    requires PollLogin(s, arrivals, loginTimeout, bootTimeout, start, j).1
    ensures exists k :: j <= k && TimedOutAt(PollLogin(s, arrivals, loginTimeout, bootTimeout, start, j).0, loginTimeout, bootTimeout, k)
    decreases Max(Ticks(loginTimeout), Ticks(bootTimeout)) + 1 - j
  {
    if !s.loginValidated && j > Ticks(loginTimeout) {
      assert TimedOutAt(s, loginTimeout, bootTimeout, j);
    } else if !s.fullyBooted && j > Ticks(bootTimeout) {
      assert TimedOutAt(s, loginTimeout, bootTimeout, j);
    } else {
      var batch := if j < |arrivals| then arrivals[j] else [];
      PollLoginTimesOut(DeliverBatch(s, batch, start + j), arrivals, loginTimeout, bootTimeout, start, j + 1);
    }
  }

  /** At poll k (k ticks after the start) a still-false flag has outlived its timeout. */
  predicate TimedOutAt(s: Session, loginTimeout: int, bootTimeout: int, k: int) {
    (!s.loginValidated && k > Ticks(loginTimeout)) || (!s.fullyBooted && k > Ticks(bootTimeout))
  }

  /** Action ids are the counter in decimal, so two different counts never give the same id. */
  lemma ActionIdsDistinct(a: nat, b: nat)
    requires a != b
    ensures NatToString(a) != NatToString(b)
  {
    if NatToString(a) == NatToString(b) {
      assert IntToString(a) == IntToString(b);
      IntToStringInjective(a, b);
    }
  }

  class ClientWrapper {
    const listener: EventListener
    /** The AMI client's callback list. */
    var callbacks: seq<Callback>
    var isLoginValidated: bool
    var isAsteriskFullyBooted: bool
    /** The attribute logoff writes (not the login flag); None until logoff first runs. */
    var validatedLogin: Option<bool>
    const pingTimeout: int
    /** The AMI client's response timeout, in seconds. */
    var timeout: int
    /** The AMI client's action counter: the next action id is its decimal text. */
    var actionCounter: nat
    /** The actions sent through the client, oldest first. */
    var sent: seq<SimpleAction>

    /** The wrapper owns its listener; the listener owns the attached filters. */
    ghost predicate Valid()
      reads this, listener, listener.Repr
    {
      this !in listener.Repr && listener.Valid()
    }

    ghost function State(): Session
      reads this, listener, listener.Repr
      requires Valid()
    {
      Session(callbacks, isLoginValidated, isAsteriskFullyBooted, listener.Filters(), listener.lastEventReceived)
    }

    constructor (timeout: int, pingTimeout: int, now: int)
      ensures Valid() && fresh(listener) && fresh(listener.Repr - {listener})
      ensures callbacks == [] && !isLoginValidated && !isAsteriskFullyBooted && validatedLogin.None?
      ensures listener.eventFilter == [] && listener.lastEventReceived == now
      ensures this.timeout == timeout && this.pingTimeout == pingTimeout && actionCounter == 0 && sent == []
    {
      listener := new EventListener(now);
      callbacks := [];
      isLoginValidated := false;
      isAsteriskFullyBooted := false;
      validatedLogin := None;
      this.pingTimeout := pingTimeout;
      this.timeout := timeout;
      actionCounter := 0;
      sent := [];
    }

    /** The fields the event callbacks never touch. */
    twostate predicate KeepsSettings()
      reads this
    {
      validatedLogin == old(validatedLogin) && timeout == old(timeout) &&
      actionCounter == old(actionCounter) && sent == old(sent)
    }

    /** __validate_login: on SuccessfulAuth set the flag and deregister. */
    method ValidateLoginCallback(e: Event)
      requires Valid()
      modifies this
      ensures Valid() && listener.Repr == old(listener.Repr) && KeepsSettings()
      ensures isLoginValidated == (old(isLoginValidated) || Fires(ValidateLogin, e))
      ensures callbacks == if Fires(ValidateLogin, e) then Deregister(old(callbacks), ValidateLogin) else old(callbacks)
      ensures isAsteriskFullyBooted == old(isAsteriskFullyBooted)
    {
      if e.name.None? {
        return;
      }
      if e.name.value == "SuccessfulAuth" {
        isLoginValidated := true;
        callbacks := Deregister(callbacks, ValidateLogin);
      }
    }

    /** __validate_asterisk_fully_booted: on FullyBooted set the flag and deregister. */
    method ValidateFullyBootedCallback(e: Event)
      requires Valid()
      modifies this
      ensures Valid() && listener.Repr == old(listener.Repr) && KeepsSettings()
      ensures isAsteriskFullyBooted == (old(isAsteriskFullyBooted) || Fires(ValidateFullyBooted, e))
      ensures callbacks == if Fires(ValidateFullyBooted, e) then Deregister(old(callbacks), ValidateFullyBooted) else old(callbacks)
      ensures isLoginValidated == old(isLoginValidated)
    {
      if e.name.None? {
        return;
      }
      if e.name.value == "FullyBooted" {
        isAsteriskFullyBooted := true;
        callbacks := Deregister(callbacks, ValidateFullyBooted);
      }
    }

    /** The AMI client calling one registered callback with an event. */
    method Call(cb: Callback, e: Event, now: int)
      requires Valid()
      modifies this, listener.Repr
      ensures Valid() && listener.Repr == old(listener.Repr) && listener.eventFilter == old(listener.eventFilter)
      ensures State() == CallbackStep(old(State()), cb, e, now)
      ensures KeepsSettings()
    {
      match cb {
        case ValidateLogin => ValidateLoginCallback(e);
        case ValidateFullyBooted => ValidateFullyBootedCallback(e);
        case ListenerOnEvent => listener.OnEvent(e, now);
        case ExecuterOnEvent =>
      }
    }

    /**
     * The AMI client receiving an event at time now: every callback registered
     * when it arrives is called in order (the executer's own callback is run by
     * the executer).
     */
    method Deliver(e: Event, now: int)
      requires Valid()
      modifies this, listener.Repr
      ensures Valid() && listener.Repr == old(listener.Repr) && listener.eventFilter == old(listener.eventFilter)
      ensures State() == DeliverEvent(old(State()), e, now)
      ensures KeepsSettings()
    {
      var snapshot := callbacks;
      var i := 0;
      while i < |snapshot|
        invariant 0 <= i <= |snapshot|
        invariant Valid() && listener.Repr == old(listener.Repr) && listener.eventFilter == old(listener.eventFilter)
        invariant State() == DeliverAlong(old(State()), snapshot[..i], e, now)
        invariant KeepsSettings()
      {
        assert snapshot[..i + 1][..i] == snapshot[..i];
        Call(snapshot[i], e, now);
        i := i + 1;
      }
      assert snapshot[..|snapshot|] == snapshot;
    }

    /** A batch of events arriving together at time now. */
    method DeliverAll(es: seq<Event>, now: int)
      requires Valid()
      modifies this, listener.Repr
      ensures Valid() && listener.Repr == old(listener.Repr) && listener.eventFilter == old(listener.eventFilter)
      ensures State() == DeliverBatch(old(State()), es, now)
      ensures KeepsSettings()
    {
      var i := 0;
      while i < |es|
        invariant 0 <= i <= |es|
        invariant Valid() && listener.Repr == old(listener.Repr) && listener.eventFilter == old(listener.eventFilter)
        invariant State() == DeliverBatch(old(State()), es[..i], now)
        invariant KeepsSettings()
      {
        assert es[..i + 1][..i] == es[..i];
        Deliver(es[i], now);
        i := i + 1;
      }
      assert es[..|es|] == es;
    }

    /**
     * login: register the two validation callbacks and the listener, log in,
     * then poll every tick until both flags are set, raising when the login
     * response is missing or an error, or when a still-false flag outlives its
     * timeout.  Batch j of arrivals comes in j ticks after start.
     */
    method Login(reply: Option<Response>, loginTimeout: int, bootTimeout: int, arrivals: seq<seq<Event>>, start: int)
      returns (raised: bool)
      requires Valid()
      modifies this, listener.Repr
      ensures Valid() && listener.Repr == old(listener.Repr) && listener.eventFilter == old(listener.eventFilter)
      ensures KeepsSettings()
      ensures LoginRejected(reply) ==> raised && State() == Registered(old(State()))
      ensures !LoginRejected(reply) ==>
        (State(), raised) == PollLogin(Registered(old(State())), arrivals, loginTimeout, bootTimeout, start, 0)
    {
      callbacks := callbacks + [ValidateLogin, ValidateFullyBooted, ListenerOnEvent];
      if reply.None? || reply.value.isError {
        return true;
      }
      raised := AwaitLogin(loginTimeout, bootTimeout, arrivals, start);
    }

    /** The wait of login: one batch of events per tick until both flags are set or a timeout passes. */
    method AwaitLogin(loginTimeout: int, bootTimeout: int, arrivals: seq<seq<Event>>, start: int) returns (raised: bool)
      requires Valid()
      modifies this, listener.Repr
      ensures Valid() && listener.Repr == old(listener.Repr) && listener.eventFilter == old(listener.eventFilter)
      ensures KeepsSettings()
      ensures (State(), raised) == PollLogin(old(State()), arrivals, loginTimeout, bootTimeout, start, 0)
    {
      var j := 0;
      while !isLoginValidated || !isAsteriskFullyBooted
        invariant Valid() && listener.Repr == old(listener.Repr) && listener.eventFilter == old(listener.eventFilter)
        invariant KeepsSettings()
        invariant PollLogin(State(), arrivals, loginTimeout, bootTimeout, start, j) ==
          PollLogin(old(State()), arrivals, loginTimeout, bootTimeout, start, 0)
        decreases Max(Ticks(loginTimeout), Ticks(bootTimeout)) + 1 - j
      {
        if !isLoginValidated && j > Ticks(loginTimeout) {
          return true;
        }
        if !isAsteriskFullyBooted && j > Ticks(bootTimeout) {
          return true;
        }
        var batch := if j < |arrivals| then arrivals[j] else [];
        DeliverAll(batch, start + j);
        j := j + 1;
      }
      raised := false;
    }

    /** logoff: clear the client's callbacks; the login flag stays, a different attribute is set. */
    method Logoff()
      requires Valid()
      modifies this
      ensures Valid() && listener.Repr == old(listener.Repr)
      ensures callbacks == [] && validatedLogin == Some(false)
      ensures isLoginValidated == old(isLoginValidated) && isAsteriskFullyBooted == old(isAsteriskFullyBooted)
      ensures timeout == old(timeout) && actionCounter == old(actionCounter) && sent == old(sent)
    {
      callbacks := [];
      validatedLogin := Some(false);
    }

    /** disconnect: clear the client's callbacks and the login flag; the fully-booted flag stays. */
    method Disconnect()
      requires Valid()
      modifies this
      ensures Valid() && listener.Repr == old(listener.Repr)
      ensures callbacks == [] && !isLoginValidated
      ensures isAsteriskFullyBooted == old(isAsteriskFullyBooted) && KeepsSettings()
    {
      callbacks := [];
      isLoginValidated := false;
    }

    /** check_event_thread_health, given whether the client's event thread is alive. */
    method CheckEventThreadHealth(threadAlive: bool) returns (healthy: bool)
      ensures healthy <==> EventThreadHealthy(isLoginValidated, threadAlive)
      ensures !isLoginValidated ==> healthy
    {
      if !isLoginValidated {
        return true;
      }
      healthy := threadAlive;
    }

    /** next_action_id of the client: the counter in decimal, then the counter moves on. */
    method GetNextActionId() returns (id: string)
      requires Valid()
      modifies this
      ensures Valid() && listener.Repr == old(listener.Repr)
      ensures id == NatToString(old(actionCounter)) && actionCounter == old(actionCounter) + 1
      ensures forall n: nat :: n < old(actionCounter) ==> NatToString(n) != id
      ensures callbacks == old(callbacks) && isLoginValidated == old(isLoginValidated)
      ensures isAsteriskFullyBooted == old(isAsteriskFullyBooted) && validatedLogin == old(validatedLogin)
      ensures timeout == old(timeout) && sent == old(sent)
    {
      id := NatToString(actionCounter);
      forall n: nat | n < actionCounter ensures NatToString(n) != id {
        ActionIdsDistinct(n, actionCounter);
      }
      actionCounter := actionCounter + 1;
    }

    method SetResponseTimeout(t: int)
      requires Valid()
      modifies this
      ensures Valid() && listener.Repr == old(listener.Repr)
      ensures timeout == t
      ensures callbacks == old(callbacks) && isLoginValidated == old(isLoginValidated)
      ensures isAsteriskFullyBooted == old(isAsteriskFullyBooted) && validatedLogin == old(validatedLogin)
      ensures actionCounter == old(actionCounter) && sent == old(sent)
    {
      timeout := t;
    }

    /** send_action: the action goes out; the response (or its absence) is what the AMI answers. */
    method SendAction(a: SimpleAction, reply: Option<Response>) returns (response: Option<Response>)
      requires Valid()
      modifies this
      ensures Valid() && listener.Repr == old(listener.Repr)
      ensures response == reply && sent == old(sent) + [a]
      ensures callbacks == old(callbacks) && isLoginValidated == old(isLoginValidated)
      ensures isAsteriskFullyBooted == old(isAsteriskFullyBooted) && validatedLogin == old(validatedLogin)
      ensures actionCounter == old(actionCounter) && timeout == old(timeout)
    {
      sent := sent + [a];
      response := reply;
    }

    /** __validate_ami_connection: a Ping with a fresh id; a response counts as an event just received. */
    method ValidateAmiConnection(reply: Option<Response>, now: int) returns (up: bool)
      requires Valid()
      modifies this, listener
      ensures Valid() && listener.Repr == old(listener.Repr) && listener.eventFilter == old(listener.eventFilter)
      ensures up <==> reply.Some?
      ensures sent == old(sent) + [PingAction(old(actionCounter))] && actionCounter == old(actionCounter) + 1
      ensures State() == old(State()).(lastEvent := if up then now else old(listener.lastEventReceived))
      ensures validatedLogin == old(validatedLogin) && timeout == old(timeout)
    {
      var id := GetNextActionId();
      var response := SendAction(SimpleAction("Ping", map["ActionID" := id]), reply);
      if response.None? {
        return false;
      }
      listener.UpdateTimeOfLastEvent(now);
      up := true;
    }

    /** check_ami_connection_health: probe only when no event came within the ping timeout. */
    method CheckAmiConnectionHealth(reply: Option<Response>, now: int) returns (up: bool)
      requires Valid()
      modifies this, listener
      ensures Valid() && listener.Repr == old(listener.Repr) && listener.eventFilter == old(listener.eventFilter)
      ensures up <==> !Stale(old(listener.lastEventReceived), pingTimeout, now) || reply.Some?
      ensures sent == if Stale(old(listener.lastEventReceived), pingTimeout, now)
        then old(sent) + [PingAction(old(actionCounter))] else old(sent)
      ensures State() == old(State()).(lastEvent :=
        if Stale(old(listener.lastEventReceived), pingTimeout, now) && up then now else old(listener.lastEventReceived))
    {
      var last := listener.GetTimeOfLastEvent();
      if last + Ticks(pingTimeout) < now {
        up := ValidateAmiConnection(reply, now);
      } else {
        up := true;
      }
    }

    /** add_event_filter: each filter of the list is appended to the listener, in order. */
    method AddEventFilter(fs: seq<EventFilter>)
      requires Valid()
      requires forall i :: 0 <= i < |fs| ==> fs[i].Valid() && fs[i].Repr !! listener.Repr && this !in fs[i].Repr
      requires forall i, j :: 0 <= i < j < |fs| ==> fs[i].Repr !! fs[j].Repr
      modifies listener
      ensures Valid() && listener.Repr == old(listener.Repr) + FiltersRepr(fs)
      ensures listener.eventFilter == old(listener.eventFilter) + fs
      ensures listener.lastEventReceived == old(listener.lastEventReceived)
      ensures forall f :: f in old(listener.eventFilter) ==> f.Valid() && f.Snap() == old(f.Snap())
      ensures forall j :: 0 <= j < |fs| ==> fs[j].Valid() && fs[j].Snap() == old(fs[j].Snap())
    {
      ghost var olds := listener.eventFilter;
      var i := 0;
      while i < |fs|
        invariant 0 <= i <= |fs|
        invariant Valid() && listener.Repr == old(listener.Repr) + FiltersRepr(fs[..i])
        invariant listener.eventFilter == olds + fs[..i]
        invariant listener.lastEventReceived == old(listener.lastEventReceived)
        invariant forall j :: i <= j < |fs| ==> fs[j].Valid() && fs[j].Repr !! listener.Repr
      {
        AddNextFilter(fs, i, old(listener.Repr), olds);
        i := i + 1;
      }
      assert fs[..|fs|] == fs;
      forall f | f in olds ensures f.Valid() && f.Snap() == old(f.Snap()) {
        f.Stable();
      }
      forall j | 0 <= j < |fs| ensures fs[j].Valid() && fs[j].Snap() == old(fs[j].Snap()) {
        fs[j].Stable();
      }
    }

    /** One turn of the add_event_filter loop: the next filter of the list is appended. */
    method AddNextFilter(fs: seq<EventFilter>, i: nat, ghost base: set<object>, ghost olds: seq<EventFilter>)
      requires Valid() && i < |fs| && this !in fs[i].Repr
      requires listener.Repr == base + FiltersRepr(fs[..i]) && listener.eventFilter == olds + fs[..i]
      requires forall j :: i <= j < |fs| ==> fs[j].Valid() && fs[j].Repr !! listener.Repr
      requires forall j, k :: 0 <= j < k < |fs| ==> fs[j].Repr !! fs[k].Repr
      modifies listener
      ensures Valid() && listener.Repr == base + FiltersRepr(fs[..i + 1])
      ensures listener.eventFilter == olds + fs[..i + 1]
      ensures listener.lastEventReceived == old(listener.lastEventReceived)
      ensures forall j :: i + 1 <= j < |fs| ==> fs[j].Valid() && fs[j].Repr !! listener.Repr
    {
      FiltersReprSnoc(fs, i);
      ghost var r := listener.Repr;
      listener.AddEventFilter(fs[i]);
      UnionGrows(r, base, FiltersRepr(fs[..i]), fs[i].Repr);
    }

    /** remove_event_filter: each filter of the list is removed from the listener in order; a missing one raises. */
    method RemoveEventFilter(fs: seq<EventFilter>) returns (raised: bool)
      requires Valid()
      modifies listener
      ensures Valid() && listener.Repr <= old(listener.Repr)
      ensures raised <==> RemoveEach(old(listener.eventFilter), fs).None?
      ensures !raised ==> RemoveEach(old(listener.eventFilter), fs) == Some(listener.eventFilter)
      ensures !raised ==> listener.Repr == old(listener.Repr) - FiltersRepr(fs)
      ensures raised ==>
        exists k :: 0 <= k < |fs| && fs[k] !in listener.eventFilter &&
          RemoveEach(old(listener.eventFilter), fs[..k]) == Some(listener.eventFilter)
      ensures listener.lastEventReceived == old(listener.lastEventReceived)
    {
      var i := 0;
      raised := false;
      while i < |fs|
        invariant 0 <= i <= |fs|
        invariant Valid() && listener.Repr == old(listener.Repr) - FiltersRepr(fs[..i])
        invariant RemoveEach(old(listener.eventFilter), fs) == RemoveEach(listener.eventFilter, fs[i..])
        invariant RemoveEach(old(listener.eventFilter), fs[..i]) == Some(listener.eventFilter)
        invariant listener.lastEventReceived == old(listener.lastEventReceived)
      {
        assert fs[..i + 1] == fs[..i] + [fs[i]];
        assert fs[i..][1..] == fs[i + 1..];
        RemoveEachSnoc(old(listener.eventFilter), fs[..i], fs[i]);
        raised := listener.RemoveEventFilter(fs[i]);
        if raised {
          return;
        }
        i := i + 1;
      }
      assert fs[i..] == [];
      assert fs[..i] == fs;
    }

    /** attach_event_listener: the callback is appended to the client's list. */
    method AttachEventListener(cb: Callback)
      requires Valid()
      modifies this
      ensures Valid() && listener.Repr == old(listener.Repr) && callbacks == old(callbacks) + [cb]
      ensures isLoginValidated == old(isLoginValidated) && isAsteriskFullyBooted == old(isAsteriskFullyBooted)
      ensures KeepsSettings() && State() == old(State()).(callbacks := callbacks)
      ensures forall f :: f in listener.eventFilter ==> f.Valid() && f.Snap() == old(f.Snap())
    {
      callbacks := callbacks + [cb];
    }

    /** detach_event_listener: the callback is removed if it is there. */
    method DetachEventListener(cb: Callback)
      requires Valid()
      modifies this
      ensures Valid() && listener.Repr == old(listener.Repr) && callbacks == Deregister(old(callbacks), cb)
      ensures isLoginValidated == old(isLoginValidated) && isAsteriskFullyBooted == old(isAsteriskFullyBooted)
      ensures KeepsSettings()
    {
      callbacks := Deregister(callbacks, cb);
    }
  }

  lemma UnionGrows(r: set<object>, base: set<object>, a: set<object>, b: set<object>)
    requires r == base + a
    ensures r + b == base + (a + b)
  {
  }

  /** The login response makes login raise when it is missing or an error. */
  predicate LoginRejected(reply: Option<Response>) {
    reply.None? || reply.value.isError
  }

  /** The session right after login registered its three callbacks. */
  function Registered(s: Session): Session {
    s.(callbacks := s.callbacks + [ValidateLogin, ValidateFullyBooted, ListenerOnEvent])
  }

  /** The connection probe sent under action counter n. */
  function PingAction(n: nat): SimpleAction {
    SimpleAction("Ping", map["ActionID" := NatToString(n)])
  }
}

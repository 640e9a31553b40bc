/** The node's connection driver: connect, run, back off, and what it reports. */
module Lifecycle {
  import opened Wrappers
  import opened ByteStrings
  import opened LifecycleEvents
  import R = Reconnect

  const RETIRED_SESSION_RETRY_DELAY: nat := R.SECOND

  datatype Wait = Elapsed | ShutDown

  datatype RuntimeEnd = ClientFailed(error: R.ClientError) | Saturated | ResultTaskFailed | EndedCleanly

  /** What happens to the driver in one attempt. */
  datatype Round =
    | ShutdownWhileConnecting
    | ConnectFails(error: R.ClientError, wait: Wait)
    | ShutdownWhileRunning(token: Option<string>, drained: bool)
    | RuntimeEnds(token: Option<string>, end: RuntimeEnd, wait: Wait)

  /** What the driver's callbacks see, in order. */
  datatype Item = Event(event: LifecycleEvent) | TokenIssued(attempt: U64, token: string)

  datatype Finish = StillRunning | StoppedNormally | PausedWith(pause: ReconnectPause)

  function ClassOf(error: R.ClientError): ClientErrorClass {
    match error
    case InvalidUrl | InsecureRemoteGateway => Configuration
    case Tls(detail) => if R.IsTlsConfigurationError(detail) then Configuration else Transport
    case TransportFailed | ConnectTimeout | ChallengeTimeout | WriteTimeout | ClosedSession => Transport
    case InvalidChallenge | InvalidFrame => Protocol
    case ConnectParams | IdentityFailed => Identity
    case GatewayError(_, _, _, _, _) => Gateway
    case RequestTimedOut(_) => RequestTimeout
    case Lagged => EventLagged
    case NotActivated => Activation
  }

  function NextAttempt(attempt: nat): U64 {
    if attempt < U64_MAX then attempt + 1 else U64_MAX
  }

  // ---- the driver ----

  datatype Driver = Driver(policy: R.Policy, restartDelay: nat, attempt: U64, trace: seq<Item>)

  function Emit(d: Driver, event: LifecycleEvent): Driver {
    d.(trace := d.trace + [Event(event)])
  }

  function BackOffOrStop(d: Driver, delay: nat, reason: DisconnectReason, wait: Wait): (Driver, Finish) {
    var waiting := Emit(d, BackingOff(d.attempt, delay, reason));
    match wait
    case ShutDown => (Emit(waiting, Stopped(d.attempt, true)), StoppedNormally)
    case Elapsed => (waiting, StillRunning)
  }

  function HandleClientFailure(d: Driver, error: R.ClientError, wait: Wait): (Driver, Finish) {
    var reason := Client(ClassOf(error));
    var down := Emit(d, Disconnected(d.attempt, reason));
    var (policy, action) := R.FailureStep(d.policy, error, R.Unavailable);
    var decided := down.(policy := policy);
    match action
    case RetryAfter(delay) => BackOffOrStop(decided, delay, reason, wait)
    case RetryWithStoredDeviceTokenAfter(delay) => BackOffOrStop(decided, delay, reason, wait)
    case Pause(pause) => (Emit(decided, Paused(d.attempt, pause)), PausedWith(pause))
    case KeepSession => BackOffOrStop(decided, RETIRED_SESSION_RETRY_DELAY, reason, wait)
  }

  function HandleRuntimeFailure(d: Driver, failure: RuntimeErrorClass, wait: Wait): (Driver, Finish) {
    BackOffOrStop(Emit(d, Disconnected(d.attempt, Runtime(failure))), d.restartDelay, Runtime(failure), wait)
  }

  function BecomeReady(d: Driver, token: Option<string>): Driver {
    var connected := Emit(d.(policy := R.ConnectedStep(d.policy)), LifecycleEvent.Connected(d.attempt));
    var issued := match token
      case None => connected
      case Some(secret) => connected.(trace := connected.trace + [TokenIssued(d.attempt, secret)]);
    Emit(issued, Ready(d.attempt))
  }

  function RoundStep(d: Driver, round: Round): (Driver, Finish) {
    var attempt := NextAttempt(d.attempt);
    var connecting := Emit(d.(attempt := attempt), Connecting(attempt));
    match round
    case ShutdownWhileConnecting => (Emit(connecting, Stopped(attempt, true)), StoppedNormally)
    case ConnectFails(error, wait) => HandleClientFailure(connecting, error, wait)
    case ShutdownWhileRunning(token, _) => FromReady(BecomeReady(connecting, token), round)
    case RuntimeEnds(token, _, _) => FromReady(BecomeReady(connecting, token), round)
  }

  /** The rest of a round whose session became ready. */
  function FromReady(d: Driver, round: Round): (Driver, Finish)
    requires round.ShutdownWhileRunning? || round.RuntimeEnds?
  {
    match round
    case ShutdownWhileRunning(_, drained) =>
      (Emit(Emit(d, Disconnected(d.attempt, Shutdown)), Stopped(d.attempt, drained)), StoppedNormally)
    case RuntimeEnds(_, end, wait) =>
      match end
      case ClientFailed(error) => HandleClientFailure(d, error, wait)
      case Saturated => HandleRuntimeFailure(d, DeliverySaturated, wait)
      case ResultTaskFailed => HandleRuntimeFailure(d, ResultTask, wait)
      case EndedCleanly => (Emit(d, Disconnected(d.attempt, RuntimeEnded)), StillRunning)
  }

  /** The driver over these rounds; rounds after the end do not happen. */
  function RunRounds(d: Driver, rounds: seq<Round>): (Driver, Finish)
    decreases |rounds|
  {
    if rounds == [] then (d, StillRunning)
    else
      var (after, finish) := RoundStep(d, rounds[0]);
      if finish.StillRunning? then RunRounds(after, rounds[1..]) else (after, finish)
  }

  class NodeLifecycle {
    const reconnect: R.ReconnectPolicy
    const runtimeRestartDelay: nat
    var attempt: U64
    /** Everything the callbacks have been given. */
    var trace: seq<Item>

    constructor (reconnect: R.ReconnectPolicy, runtimeRestartDelay: nat)
      ensures this.reconnect == reconnect && this.runtimeRestartDelay == runtimeRestartDelay
      ensures attempt == 0 && trace == []
    {
      this.reconnect, this.runtimeRestartDelay := reconnect, runtimeRestartDelay;
      attempt, trace := 0, [];
    }

    ghost function View(): Driver
      reads this, reconnect
    {
      Driver(reconnect.View(), runtimeRestartDelay, attempt, trace)
    }

    method OnEvent(event: LifecycleEvent)
      modifies this`trace
      ensures trace == old(trace) + [Event(event)]
    {
      trace := trace + [Event(event)];
    }

    method Run(rounds: seq<Round>) returns (finish: Finish)
      modifies this, reconnect
      ensures (View(), finish) == RunRounds(old(View()), rounds)
    {
      var i := 0;
      while i < |rounds|
        invariant i <= |rounds|
        invariant RunRounds(View(), rounds[i..]) == RunRounds(old(View()), rounds)
      {
        assert rounds[i..][1..] == rounds[i + 1..];
        finish := RunOneRound(rounds[i]);
        if !finish.StillRunning? { return; }
        i := i + 1;
      }
      finish := StillRunning;
    }

    method RunOneRound(round: Round) returns (finish: Finish)
      modifies this, reconnect
      ensures (View(), finish) == RoundStep(old(View()), round)
    {
      attempt := NextAttempt(attempt);
      OnEvent(Connecting(attempt));
      if round.ShutdownWhileConnecting? {
        OnEvent(Stopped(attempt, true));
        return StoppedNormally;
      }
      if round.ConnectFails? {
        finish := OnClientFailure(round.error, round.wait);
        return;
      }
      reconnect.Connected();
      OnEvent(LifecycleEvent.Connected(attempt));
      if round.token.Some? { trace := trace + [TokenIssued(attempt, round.token.value)]; }
      OnEvent(Ready(attempt));
      if round.ShutdownWhileRunning? {
        OnEvent(Disconnected(attempt, Shutdown));
        OnEvent(Stopped(attempt, round.drained));
        return StoppedNormally;
      }
      match round.end {
        case ClientFailed(error) => finish := OnClientFailure(error, round.wait);
        case Saturated => finish := OnRuntimeFailure(DeliverySaturated, round.wait);
        case ResultTaskFailed => finish := OnRuntimeFailure(ResultTask, round.wait);
        case EndedCleanly =>
          OnEvent(Disconnected(attempt, RuntimeEnded));
          finish := StillRunning;
      }
    }

    method OnClientFailure(error: R.ClientError, wait: Wait) returns (finish: Finish)
      modifies this`trace, reconnect
      ensures (View(), finish) == HandleClientFailure(old(View()), error, wait)
    {
      var reason := Client(ClassOf(error));
      OnEvent(Disconnected(attempt, reason));
      var action := reconnect.AfterFailure(error);
      var delay := RETIRED_SESSION_RETRY_DELAY;
      match action {
        case RetryAfter(d) => delay := d;
        case RetryWithStoredDeviceTokenAfter(d) => delay := d;
        case Pause(pause) =>
          OnEvent(Paused(attempt, pause));
          return PausedWith(pause);
        case KeepSession =>
      }
      finish := BackOff(delay, reason, wait);
    }

    method OnRuntimeFailure(failure: RuntimeErrorClass, wait: Wait) returns (finish: Finish)
      modifies this`trace
      ensures (View(), finish) == HandleRuntimeFailure(old(View()), failure, wait)
    {
      OnEvent(Disconnected(attempt, Runtime(failure)));
      finish := BackOff(runtimeRestartDelay, Runtime(failure), wait);
    }

    method BackOff(delay: nat, reason: DisconnectReason, wait: Wait) returns (finish: Finish)
      modifies this`trace
      ensures (View(), finish) == BackOffOrStop(old(View()), delay, reason, wait)
    {
      OnEvent(BackingOff(attempt, delay, reason));
      if wait == ShutDown {
        OnEvent(Stopped(attempt, true));
        return StoppedNormally;
      }
      finish := StillRunning;
    }
  }

  // ---- the grammar of traces ----

  /** How far a well-formed trace has got. */
  datatype Place =
    | Between(attempt: nat)
    | InConnecting(attempt: nat)
    | InConnected(attempt: nat, issued: bool)
    | InReady(attempt: nat)
    | InDisconnected(attempt: nat, reason: DisconnectReason)
    | InBackoff(attempt: nat)
    | Over
    | Malformed

  function Advance(p: Place, item: Item): Place {
    match item
    case TokenIssued(a, _) => if p == InConnected(a, false) then InConnected(a, true) else Malformed
    case Event(event) =>
      match event
      case Connecting(a) =>
        if (p.Between? || p.InBackoff? || (p.InDisconnected? && p.reason.RuntimeEnded?)) && a == NextAttempt(p.attempt)
        then InConnecting(a) else Malformed
      case Connected(a) => if p == InConnecting(a) then InConnected(a, false) else Malformed
      case Ready(a) => if p.InConnected? && p.attempt == a then InReady(a) else Malformed
      case Disconnected(a, reason) =>
        if p == InReady(a) || (p == InConnecting(a) && reason.Client?) then InDisconnected(a, reason) else Malformed
      case BackingOff(a, _, reason) =>
        if p == InDisconnected(a, reason) && (reason.Client? || reason.Runtime?) then InBackoff(a) else Malformed
      case Paused(a, _) =>
        if p.InDisconnected? && p.attempt == a && p.reason.Client? then Over else Malformed
      case Stopped(a, drained) =>
        if p == InDisconnected(a, Shutdown) || ((p == InConnecting(a) || p == InBackoff(a)) && drained) then Over
        else Malformed
  }

  function Parse(trace: seq<Item>): Place {
    if trace == [] then Between(0) else Advance(Parse(trace[..|trace| - 1]), trace[|trace| - 1])
  }

  lemma ParseAppends(trace: seq<Item>, item: Item)
    ensures Parse(trace + [item]) == Advance(Parse(trace), item)
  {
    assert (trace + [item])[..|trace|] == trace;
  }

  predicate IsTerminal(item: Item) {
    item.Event? && (item.event.Stopped? || item.event.Paused?)
  }

  /** Where a driver between two rounds may stand. */
  predicate AtRoundEnd(d: Driver) {
    var p := Parse(d.trace);
    (p.Between? || p.InBackoff? || (p.InDisconnected? && p.reason.RuntimeEnded?)) && p.attempt == d.attempt
  }

  /** How a driver that has finished ended its trace. */
  predicate Concluded(d: Driver, finish: Finish) {
    && Parse(d.trace).Over? && d.trace != []
    && match finish
       case StillRunning => false
       case StoppedNormally => exists drained :: d.trace[|d.trace| - 1] == Event(Stopped(d.attempt, drained))
       case PausedWith(pause) => d.trace[|d.trace| - 1] == Event(Paused(d.attempt, pause))
  }

  ghost predicate Parses(result: (Driver, Finish)) {
    if result.1.StillRunning? then AtRoundEnd(result.0) else Concluded(result.0, result.1)
  }

  lemma BackOffParses(d: Driver, delay: nat, reason: DisconnectReason, wait: Wait)
    requires Parse(d.trace) == InDisconnected(d.attempt, reason) && (reason.Client? || reason.Runtime?)
    ensures Parses(BackOffOrStop(d, delay, reason, wait))
  {
    var backing := Event(BackingOff(d.attempt, delay, reason));
    ParseAppends(d.trace, backing);
    ParseAppends(d.trace + [backing], Event(Stopped(d.attempt, true)));
  }

  lemma ClientFailureParses(d: Driver, error: R.ClientError, wait: Wait)
    requires Parse(d.trace) == InReady(d.attempt) || Parse(d.trace) == InConnecting(d.attempt)
    ensures Parses(HandleClientFailure(d, error, wait))
  {
    var reason := Client(ClassOf(error));
    var down := Emit(d, Disconnected(d.attempt, reason));
    ParseAppends(d.trace, Event(Disconnected(d.attempt, reason)));
    var (policy, action) := R.FailureStep(d.policy, error, R.Unavailable);
    var decided := down.(policy := policy);
    assert Parse(decided.trace) == Parse(down.trace) && decided.attempt == d.attempt;
    match action
    case RetryAfter(delay) => BackOffParses(decided, delay, reason, wait);
    case RetryWithStoredDeviceTokenAfter(delay) => BackOffParses(decided, delay, reason, wait);
    case Pause(pause) => ParseAppends(decided.trace, Event(Paused(d.attempt, pause)));
    case KeepSession => BackOffParses(decided, RETIRED_SESSION_RETRY_DELAY, reason, wait);
  }

  lemma RuntimeFailureParses(d: Driver, failure: RuntimeErrorClass, wait: Wait)
    requires Parse(d.trace) == InReady(d.attempt)
    ensures Parses(HandleRuntimeFailure(d, failure, wait))
  {
    ParseAppends(d.trace, Event(Disconnected(d.attempt, Runtime(failure))));
    BackOffParses(Emit(d, Disconnected(d.attempt, Runtime(failure))), d.restartDelay, Runtime(failure), wait);
  }

  lemma ReadyParses(d: Driver, token: Option<string>)
    requires Parse(d.trace) == InConnecting(d.attempt)
    ensures Parse(BecomeReady(d, token).trace) == InReady(d.attempt) && BecomeReady(d, token).attempt == d.attempt
  {
    var connected := d.trace + [Event(LifecycleEvent.Connected(d.attempt))];
    ParseAppends(d.trace, Event(LifecycleEvent.Connected(d.attempt)));
    if token.Some? {
      ParseAppends(connected, TokenIssued(d.attempt, token.value));
      ParseAppends(connected + [TokenIssued(d.attempt, token.value)], Event(Ready(d.attempt)));
    } else {
      ParseAppends(connected, Event(Ready(d.attempt)));
    }
  }

  lemma ConnectedRoundParses(d: Driver, round: Round)
    requires Parse(d.trace) == InReady(d.attempt) && (round.ShutdownWhileRunning? || round.RuntimeEnds?)
    ensures Parses(FromReady(d, round))
  {
    match round
    case ShutdownWhileRunning(_, drained) =>
      ParseAppends(d.trace, Event(Disconnected(d.attempt, Shutdown)));
      ParseAppends(Emit(d, Disconnected(d.attempt, Shutdown)).trace, Event(Stopped(d.attempt, drained)));
    case RuntimeEnds(_, end, wait) =>
      match end {
        case ClientFailed(error) => ClientFailureParses(d, error, wait);
        case Saturated => RuntimeFailureParses(d, DeliverySaturated, wait);
        case ResultTaskFailed => RuntimeFailureParses(d, ResultTask, wait);
        case EndedCleanly => ParseAppends(d.trace, Event(Disconnected(d.attempt, RuntimeEnded)));
      }
  }

  lemma RoundParses(d: Driver, round: Round)
    requires AtRoundEnd(d)
    ensures Parses(RoundStep(d, round))
  {
    var attempt := NextAttempt(d.attempt);
    var connecting := Emit(d.(attempt := attempt), Connecting(attempt));
    ParseAppends(d.trace, Event(Connecting(attempt)));
    assert Parse(connecting.trace) == InConnecting(attempt);
    match round
    case ShutdownWhileConnecting => ParseAppends(connecting.trace, Event(Stopped(attempt, true)));
    case ConnectFails(error, wait) => ClientFailureParses(connecting, error, wait);
    case _ =>
      ReadyParses(connecting, round.token);
      ConnectedRoundParses(BecomeReady(connecting, round.token), round);
  }

  /** Whatever happens to it, the driver's trace is well formed, and the run is over
      exactly when the trace is: with a stop, or with the very pause it returns. */
  lemma {:induction false} EveryTraceIsWellFormed(d: Driver, rounds: seq<Round>)
    requires AtRoundEnd(d)
    ensures var (after, finish) := RunRounds(d, rounds);
            && !Parse(after.trace).Malformed?
            && if finish.StillRunning? then AtRoundEnd(after) else Concluded(after, finish)
    decreases |rounds|
  {
    if rounds != [] {
      RoundParses(d, rounds[0]);
      var (after, finish) := RoundStep(d, rounds[0]);
      if finish.StillRunning? { EveryTraceIsWellFormed(after, rounds[1..]); }
    }
  }

  lemma {:induction false} PrefixesParse(trace: seq<Item>, k: nat)
    requires !Parse(trace).Malformed? && k <= |trace|
    ensures !Parse(trace[..k]).Malformed?
  {
    if k < |trace| {
      PrefixesParse(trace[..|trace| - 1], k);
      assert trace[..|trace| - 1][..k] == trace[..k];
    } else {
      assert trace[..k] == trace;
    }
  }

  /** One item of a well-formed trace. */
  lemma ParseOne(trace: seq<Item>, k: nat)
    requires !Parse(trace).Malformed? && k < |trace|
    ensures Parse(trace[..k + 1]) == Advance(Parse(trace[..k]), trace[k]) && !Parse(trace[..k + 1]).Malformed?
  {
    PrefixesParse(trace, k + 1);
    assert trace[..k + 1] == trace[..k] + [trace[k]];
    ParseAppends(trace[..k], trace[k]);
  }

  lemma TerminalsAndOver(p: Place, item: Item)
    ensures p.Over? ==> Advance(p, item).Malformed?
    ensures !Advance(p, item).Malformed? ==> (Advance(p, item).Over? <==> IsTerminal(item))
  {
  }

  /** In a well-formed trace a stop or pause is the last item, so there is at most one;
      and the trace is over exactly if it has one. */
  lemma TerminalIsLast(trace: seq<Item>, k: nat)
    requires !Parse(trace).Malformed? && k < |trace|
    ensures IsTerminal(trace[k]) <==> k == |trace| - 1 && Parse(trace).Over?
  {
    ParseOne(trace, k);
    TerminalsAndOver(Parse(trace[..k]), trace[k]);
    if k + 1 < |trace| {
      ParseOne(trace, k + 1);
      TerminalsAndOver(Parse(trace[..k + 1]), trace[k + 1]);
    } else {
      assert trace[..k + 1] == trace;
    }
  }

  /** A token is handed over right after its attempt connected, and the next thing is
      that the same attempt is ready. */
  lemma TokenComesBeforeReady(trace: seq<Item>, k: nat)
    requires !Parse(trace).Malformed? && k < |trace| && trace[k].TokenIssued?
    ensures k > 0 && trace[k - 1] == Event(LifecycleEvent.Connected(trace[k].attempt))
    ensures k + 1 < |trace| ==> trace[k + 1] == Event(Ready(trace[k].attempt))
  {
    ParseOne(trace, k);
    assert Parse(trace[..k]) == InConnected(trace[k].attempt, false);
    ConnectedComesFirst(trace, k, trace[k].attempt);
    if k + 1 < |trace| { ParseOne(trace, k + 1); }
  }

  lemma ConnectedComesFirst(trace: seq<Item>, k: nat, attempt: nat)
    requires !Parse(trace).Malformed? && k < |trace| && Parse(trace[..k]) == InConnected(attempt, false)
    ensures k > 0 && trace[k - 1] == Event(LifecycleEvent.Connected(attempt))
  {
    assert trace[..0] == [] && Parse([]) == Between(0);
    ParseOne(trace, k - 1);
  }

  function Attempts(trace: seq<Item>): nat {
    if trace == [] then 0
    else
      var last := trace[|trace| - 1];
      Attempts(trace[..|trace| - 1]) + if last.Event? && last.event.Connecting? then 1 else 0
  }

  /** Attempts are numbered 1, 2, 3, ... up to the largest number, which then repeats;
      and everything in between carries the number of its own attempt. */
  lemma {:induction false} AttemptsCountUp(trace: seq<Item>)
    requires !Parse(trace).Malformed? && !Parse(trace).Over?
    ensures Parse(trace).attempt == Min(Attempts(trace), U64_MAX)
  {
    if trace != [] {
      PrefixesParse(trace, |trace| - 1);
      if Parse(trace[..|trace| - 1]).Over? { assert false; }
      AttemptsCountUp(trace[..|trace| - 1]);
    }
  }

  /** The attempt an item names. */
  function AttemptOf(item: Item): nat {
    match item
    case TokenIssued(attempt, _) => attempt
    case Event(event) => event.attempt
  }

  /** Every item of a well-formed trace names the attempt it belongs to: the k-th
      connection attempt and all that follows it carry k, saturated. */
  lemma EveryItemNamesItsAttempt(trace: seq<Item>, k: nat)
    requires !Parse(trace).Malformed? && k < |trace|
    ensures AttemptOf(trace[k]) == Min(Attempts(trace[..k + 1]), U64_MAX)
  {
    ParseOne(trace, k);
    TerminalsAndOver(Parse(trace[..k]), trace[k]);
    assert trace[..k + 1][..k] == trace[..k];
    if IsTerminal(trace[k]) {
      PrefixesParse(trace, k);
      AttemptsCountUp(trace[..k]);
    } else {
      AttemptsCountUp(trace[..k + 1]);
    }
  }

  // ---- delays ----

  /** A connection that keeps failing in a way the policy answers itself is retried after
      delays that double up to the maximum. */
  lemma {:induction false} RepeatedFailuresBackOff(d: Driver, rounds: seq<Round>, k: nat)
    requires d.policy.next == R.ClosedForm(d.policy.initial, d.policy.maximum, k)
    requires forall i :: 0 <= i < |rounds| ==>
      && rounds[i].ConnectFails? && rounds[i].wait.Elapsed?
      && !R.IsSessionRequestError(rounds[i].error) && R.ClassifyPause(rounds[i].error).None?
      && R.ServerDelay(rounds[i].error).None?
    ensures var (after, finish) := RunRounds(d, rounds);
            && finish.StillRunning? && |after.trace| == |d.trace| + 3 * |rounds| && d.trace <= after.trace
            && forall i :: 0 <= i < |rounds| ==>
                 && after.trace[|d.trace| + 3 * i + 2].Event?
                 && after.trace[|d.trace| + 3 * i + 2].event.BackingOff?
                 && after.trace[|d.trace| + 3 * i + 2].event.delay
                    == R.ClosedForm(d.policy.initial, d.policy.maximum, k + i)
    decreases |rounds|
  {
    if rounds != [] {
      R.DoublingCapped(d.policy.initial, d.policy.maximum, k);
      var (next, _) := RoundStep(d, rounds[0]);
      RepeatedFailuresBackOff(next, rounds[1..], k + 1);
      var after := RunRounds(d, rounds).0;
      forall i | 0 <= i < |rounds|
        ensures var item := after.trace[|d.trace| + 3 * i + 2];
                item.Event? && item.event.BackingOff?
                && item.event.delay == R.ClosedForm(d.policy.initial, d.policy.maximum, k + i)
      {
        if i > 0 {
          assert |d.trace| + 3 * i + 2 == |next.trace| + 3 * (i - 1) + 2;
        } else {
          assert after.trace[|d.trace| + 2] == next.trace[|d.trace| + 2];
        }
      }
    }
  }

  /** How long a driver with these settings may say it waits. */
  predicate DelayOk(item: Item, maximum: nat, restartDelay: nat) {
    item.Event? && item.event.BackingOff? ==>
      match item.event.reason
      case Client(_) => item.event.delay <= Max(maximum, RETIRED_SESSION_RETRY_DELAY)
      case Runtime(_) => item.event.delay == restartDelay
      case _ => false
  }

  predicate DelaysOk(d: Driver) {
    && d.policy.initial <= d.policy.maximum && d.policy.next <= d.policy.maximum
    && forall i :: 0 <= i < |d.trace| ==> DelayOk(d.trace[i], d.policy.maximum, d.restartDelay)
  }

  /** Same settings, and every wait still within them. */
  predicate KeepsDelays(d: Driver, after: Driver) {
    DelaysOk(after) && after.policy.maximum == d.policy.maximum && after.restartDelay == d.restartDelay
  }

  lemma BackOffKeepsDelays(d: Driver, delay: nat, reason: DisconnectReason, wait: Wait)
    requires DelaysOk(d) && DelayOk(Event(BackingOff(d.attempt, delay, reason)), d.policy.maximum, d.restartDelay)
    ensures KeepsDelays(d, BackOffOrStop(d, delay, reason, wait).0)
  {
  }

  lemma FailureStaysBounded(p: R.Policy, error: R.ClientError)
    requires p.initial <= p.maximum && p.next <= p.maximum
    ensures var (after, action) := R.FailureStep(p, error, R.Unavailable);
            && after.initial == p.initial && after.maximum == p.maximum && after.next <= p.maximum
            && !action.RetryWithStoredDeviceTokenAfter? && (action.RetryAfter? ==> action.delay <= p.maximum)
  {
  }

  lemma ClientFailureKeepsDelays(d: Driver, error: R.ClientError, wait: Wait)
    requires DelaysOk(d)
    ensures KeepsDelays(d, HandleClientFailure(d, error, wait).0)
  {
    FailureStaysBounded(d.policy, error);
    var reason := Client(ClassOf(error));
    var (policy, action) := R.FailureStep(d.policy, error, R.Unavailable);
    var decided := Emit(d, Disconnected(d.attempt, reason)).(policy := policy);
    if action.RetryAfter? { BackOffKeepsDelays(decided, action.delay, reason, wait); }
    if action.KeepSession? { BackOffKeepsDelays(decided, RETIRED_SESSION_RETRY_DELAY, reason, wait); }
  }

  lemma RuntimeFailureKeepsDelays(d: Driver, failure: RuntimeErrorClass, wait: Wait)
    requires DelaysOk(d)
    ensures KeepsDelays(d, HandleRuntimeFailure(d, failure, wait).0)
  {
    BackOffKeepsDelays(Emit(d, Disconnected(d.attempt, Runtime(failure))), d.restartDelay, Runtime(failure), wait);
  }

  lemma ReadyKeepsDelays(d: Driver, token: Option<string>)
    requires DelaysOk(d)
    ensures KeepsDelays(d, BecomeReady(d, token))
  {
  }

  lemma RoundKeepsDelays(d: Driver, round: Round)
    requires DelaysOk(d)
    ensures KeepsDelays(d, RoundStep(d, round).0)
  {
    var attempt := NextAttempt(d.attempt);
    var connecting := Emit(d.(attempt := attempt), Connecting(attempt));
    match round
    case ShutdownWhileConnecting =>
    case ConnectFails(error, wait) => ClientFailureKeepsDelays(connecting, error, wait);
    case ShutdownWhileRunning(token, _) => ReadyKeepsDelays(connecting, token);
    case RuntimeEnds(token, end, wait) =>
      ReadyKeepsDelays(connecting, token);
      var ready := BecomeReady(connecting, token);
      match end {
        case ClientFailed(error) => ClientFailureKeepsDelays(ready, error, wait);
        case Saturated => RuntimeFailureKeepsDelays(ready, DeliverySaturated, wait);
        case ResultTaskFailed => RuntimeFailureKeepsDelays(ready, ResultTask, wait);
        case EndedCleanly =>
      }
  }

  /** Over every run, a wait after a client failure is within the policy's maximum or the
      fixed retry delay of a retired session, and a wait after a runtime failure is the
      restart delay. */
  lemma {:induction false} EveryWaitIsBounded(d: Driver, rounds: seq<Round>)
    requires DelaysOk(d)
    ensures KeepsDelays(d, RunRounds(d, rounds).0)
    decreases |rounds|
  {
    if rounds != [] {
      RoundKeepsDelays(d, rounds[0]);
      var (after, finish) := RoundStep(d, rounds[0]);
      if finish.StillRunning? { EveryWaitIsBounded(after, rounds[1..]); }
    }
  }
}

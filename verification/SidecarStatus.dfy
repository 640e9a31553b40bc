/** What the supervisor is shown while the driver runs: the status a bridge projects from
    the driver's trace, read against the trace's own grammar. */
module SidecarStatus {
  import opened Wrappers
  import opened ByteStrings
  import opened SidecarConfiguration
  import opened SidecarExchange
  import opened Lifecycle
  import Events = LifecycleEvents
  import Reconnect

  /** The events of a trace; a token is handed over elsewhere. */
  function EventsOf(trace: seq<Item>): seq<Events.LifecycleEvent> {
    if trace == [] then []
    else
      EventsOf(trace[..|trace| - 1])
      + match trace[|trace| - 1] case Event(event) => [event] case TokenIssued(_, _) => []
  }

  /** The status of a bridge that has seen a trace from its start. */
  function StatusAfter(b: Bridge, trace: seq<Item>): Status {
    ObserveAll(b, EventsOf(trace)).status
  }

  lemma OneMoreItem(b: Bridge, trace: seq<Item>)
    requires trace != []
    ensures var before, last := trace[..|trace| - 1], trace[|trace| - 1];
            StatusAfter(b, trace)
            == match last
               case Event(event) => ObserveStep(ObserveAll(b, EventsOf(before)), event).status
               case TokenIssued(_, _) => StatusAfter(b, before)
  {
    var before, last := trace[..|trace| - 1], trace[|trace| - 1];
    match last
    case Event(event) => assert (EventsOf(before) + [event])[..|EventsOf(before)|] == EventsOf(before);
    case TokenIssued(_, _) => assert EventsOf(before) + [] == EventsOf(before);
  }

  /** The cause of the disconnection a trace is still about. */
  function LastReason(trace: seq<Item>): Option<Events.DisconnectReason> {
    if trace == [] then None
    else match trace[|trace| - 1]
      case Event(Disconnected(_, reason)) => Some(reason)
      case Event(BackingOff(_, _, reason)) => Some(reason)
      case _ => None
  }

  /** A status that tells where the driver stands. */
  predicate Tells(status: Status, trace: seq<Item>) {
    match Parse(trace)
    case Between(_) => status.state.Configured? && status.reason.None?
    case InConnecting(_) => status.state.Connecting? && status.reason.None?
    case InConnected(_, _) => status.state.Connecting? && status.reason.None?
    case InReady(_) => status.state.Ready? && status.reason.None?
    case InDisconnected(_, reason) =>
      && (status.state.Draining? <==> reason.Shutdown?) && (status.state.Connecting? <==> !reason.Shutdown?)
      && status.reason == Some(DisconnectCause(reason))
    case InBackoff(_) =>
      status.state.BackingOff? && LastReason(trace).Some? && status.reason == Some(DisconnectCause(LastReason(trace).value))
    case Over =>
      && trace != []
      && (match trace[|trace| - 1]
          case Event(Paused(_, pause)) => status.state.Paused? && status.reason == Some(PauseCause(pause))
          case _ => status.state.Stopped? && status.reason == Some(ShutdownReason))
    case Malformed => false
  }

  lemma {:induction false} StatusTells(b: Bridge, trace: seq<Item>)
    requires b.status.state.Configured? && b.status.reason.None? && !Parse(trace).Malformed?
    ensures Tells(StatusAfter(b, trace), trace)
  {
    if trace != [] {
      PrefixesParse(trace, |trace| - 1);
      StatusTells(b, trace[..|trace| - 1]);
      OneMoreItem(b, trace);
    }
  }

  lemma {:induction false} StatusCounts(b: Bridge, trace: seq<Item>)
    requires b.status.attempt == 0 && !Parse(trace).Malformed?
    ensures StatusAfter(b, trace).attempt == Min(Attempts(trace), MAX_PORTABLE_INTEGER)
  {
    if trace != [] {
      var before, last := trace[..|trace| - 1], |trace| - 1;
      PrefixesParse(trace, last);
      StatusCounts(b, before);
      OneMoreItem(b, trace);
      EveryItemNamesItsAttempt(trace, last);
      assert trace[..last + 1] == trace;
    }
  }

  /** At every point of every run of a fresh driver, a bridge that has seen its events since
      activation tells where it stands: ready exactly between a ready event and the next
      disconnection, backing off or disconnected with that disconnection's cause, draining
      exactly in a shutdown, paused or stopped exactly at the end; and it counts the
      connection attempts, as far as a portable number goes. */
  lemma StatusFollowsTheDriver(b: Bridge, policy: Reconnect.Policy, restartDelay: nat, rounds: seq<Round>, k: nat)
    requires b.status.state.Configured? && b.status.reason.None? && b.status.attempt == 0
    requires k <= |RunRounds(Driver(policy, restartDelay, 0, []), rounds).0.trace|
    ensures var seen := RunRounds(Driver(policy, restartDelay, 0, []), rounds).0.trace[..k];
            && !Parse(seen).Malformed? && Tells(StatusAfter(b, seen), seen)
            && StatusAfter(b, seen).attempt == Min(Attempts(seen), MAX_PORTABLE_INTEGER)
  {
    var d := Driver(policy, restartDelay, 0, []);
    EveryTraceIsWellFormed(d, rounds);
    var trace := RunRounds(d, rounds).0.trace;
    PrefixesParse(trace, k);
    StatusTells(b, trace[..k]);
    StatusCounts(b, trace[..k]);
  }

  predicate SameKind(p: Events.ReconnectPause, o: Events.ReconnectPause) {
    match p
    case DevicePairing(_) => o.DevicePairing?
    case AuthenticationPause(_) => o.AuthenticationPause?
    case ProtocolPause(_) => o.ProtocolPause?
    case _ => p == o
  }

  /** No two causes of a disconnection are shown as the same reason, and a pause is shown
      as what kind of pause it is. */
  lemma ReasonsAreTold(r: Events.DisconnectReason, q: Events.DisconnectReason, p: Events.ReconnectPause, o: Events.ReconnectPause)
    ensures DisconnectCause(r) == DisconnectCause(q) ==> r == q
    ensures PauseCause(p) == PauseCause(o) <==> SameKind(p, o)
    ensures p == Events.ConfigurationPause ==> PauseCause(p) == DisconnectCause(Events.Client(Events.Configuration))
    ensures p == Events.LocalIdentity ==> PauseCause(p) == DisconnectCause(Events.Client(Events.Identity))
    ensures p.ProtocolPause? ==> PauseCause(p) == DisconnectCause(Events.Client(Events.Protocol))
  {
  }
}

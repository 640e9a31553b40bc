/** What a run of the driver reports, told from its rounds alone: every event and wait
    without the policy's state. */
module LifecycleScript {
  import opened Wrappers
  import opened ByteStrings
  import opened LifecycleEvents
  import opened Lifecycle
  import R = Reconnect

  /** What a driver is set up with. */
  datatype Settings = Settings(initial: R.Duration, maximum: R.Duration, restartDelay: nat) {
    function Ceiling(): R.Duration {
      Max(maximum, initial)
    }
  }

  function FreshDriver(t: Settings): Driver {
    Driver(R.NewPolicy(t.initial, t.maximum), t.restartDelay, 0, [])
  }

  // ---- one round ----

  predicate Connects(round: Round) {
    round.ShutdownWhileRunning? || round.RuntimeEnds?
  }

  /** The client error a round came to. */
  function FailureOf(round: Round): Option<R.ClientError> {
    match round
    case ConnectFails(error, _) => Some(error)
    case RuntimeEnds(_, ClientFailed(error), _) => Some(error)
    case _ => None
  }

  /** The pause an error calls for, if it is the connection's and not a request's. */
  function PauseFor(error: R.ClientError): Option<ReconnectPause> {
    if R.IsSessionRequestError(error) then None else R.ClassifyPause(error)
  }

  /** The policy is on its own: nobody asks for a pause or names a delay. */
  predicate OwnChoice(round: Round) {
    match FailureOf(round)
    case Some(error) =>
      !R.IsSessionRequestError(error) && R.ClassifyPause(error).None? && R.ServerDelay(error).None?
    case None => false
  }

  /** The waits of the policy's own choosing since the last connection. */
  function Streak(rounds: seq<Round>): nat
    decreases |rounds|, 0
  {
    if rounds == [] then 0
    else
      var last := rounds[|rounds| - 1];
      StreakInto(rounds[..|rounds| - 1], last) + if OwnChoice(last) then 1 else 0
  }

  /** As they stand when this round fails. */
  function StreakInto(before: seq<Round>, round: Round): nat
    decreases |before|, 1
  {
    if Connects(round) then 0 else Streak(before)
  }

  function ReasonOf(round: Round): Option<DisconnectReason> {
    match round
    case ShutdownWhileConnecting => None
    case ConnectFails(error, _) => Some(Client(ClassOf(error)))
    case ShutdownWhileRunning(_, _) => Some(Shutdown)
    case RuntimeEnds(_, ClientFailed(error), _) => Some(Client(ClassOf(error)))
    case RuntimeEnds(_, Saturated, _) => Some(Runtime(DeliverySaturated))
    case RuntimeEnds(_, ResultTaskFailed, _) => Some(Runtime(ResultTask))
    case RuntimeEnds(_, EndedCleanly, _) => Some(RuntimeEnded)
  }

  /** How long the driver waits after a round, if it does: the fixed delay after an error
      that was a request's, the server's delay up to the maximum, the closed form at the
      streak so far, or the restart delay. */
  function WaitAfter(t: Settings, before: seq<Round>, round: Round): Option<nat> {
    match FailureOf(round)
    case Some(error) =>
      if R.IsSessionRequestError(error) then Some(RETIRED_SESSION_RETRY_DELAY)
      else if R.ClassifyPause(error).Some? then None
      else Some(match R.ServerDelay(error)
                case Some(delay) => Min(delay, t.Ceiling())
                case None => R.ClosedForm(t.initial, t.Ceiling(), StreakInto(before, round)))
    case None =>
      if round.RuntimeEnds? && !round.end.EndedCleanly? then Some(t.restartDelay) else None
  }

  /** How a round ends the run, if it does. */
  function EndOf(round: Round): Finish {
    match round
    case ShutdownWhileConnecting | ShutdownWhileRunning(_, _) => StoppedNormally
    case ConnectFails(error, wait) => EndOfFailure(error, wait)
    case RuntimeEnds(_, ClientFailed(error), wait) => EndOfFailure(error, wait)
    case RuntimeEnds(_, EndedCleanly, _) => StillRunning
    case RuntimeEnds(_, _, wait) => if wait.ShutDown? then StoppedNormally else StillRunning
  }

  function EndOfFailure(error: R.ClientError, wait: Wait): Finish {
    match PauseFor(error)
    case Some(pause) => PausedWith(pause)
    case None => if wait.ShutDown? then StoppedNormally else StillRunning
  }

  // ---- what is reported ----

  function Opening(attempt: U64, round: Round): seq<Item> {
    [Event(Connecting(attempt))]
    + if !Connects(round) then []
      else [Event(LifecycleEvent.Connected(attempt))]
           + (match round.token case Some(secret) => [TokenIssued(attempt, secret)] case None => [])
           + [Event(Ready(attempt))]
  }

  function Parting(attempt: U64, round: Round, wait: Option<nat>): seq<Item> {
    match ReasonOf(round)
    case None => []
    case Some(reason) =>
      [Event(Disconnected(attempt, reason))]
      + match wait case Some(delay) => [Event(BackingOff(attempt, delay, reason))] case None => []
  }

  function Ending(attempt: U64, round: Round): seq<Item> {
    match EndOf(round)
    case StillRunning => []
    case PausedWith(pause) => [Event(Paused(attempt, pause))]
    case StoppedNormally => [Event(Stopped(attempt, round.ShutdownWhileRunning? ==> round.drained))]
  }

  function Aftermath(t: Settings, before: seq<Round>, round: Round, attempt: U64): seq<Item> {
    Parting(attempt, round, WaitAfter(t, before, round)) + Ending(attempt, round)
  }

  function RoundItems(t: Settings, before: seq<Round>, round: Round): seq<Item> {
    var attempt := Min(|before| + 1, U64_MAX);
    Opening(attempt, round) + Aftermath(t, before, round, attempt)
  }

  /** Everything the driver reports over these rounds, and how it ends; rounds after the
      end do not happen. */
  function Script(t: Settings, rounds: seq<Round>): (seq<Item>, Finish) {
    if rounds == [] then ([], StillRunning)
    else
      var before, last := rounds[..|rounds| - 1], rounds[|rounds| - 1];
      var (items, finish) := Script(t, before);
      if finish.StillRunning? then (items + RoundItems(t, before, last), EndOf(last)) else (items, finish)
  }

  /** The class an error is reported under goes with what the policy makes of it: what the
      host must configure, who the node is and what the protocol cannot be made to do
      pause the connection as just that; what the transport does never pauses it. */
  lemma ClassesGoWithPauses(error: R.ClientError)
    ensures ClassOf(error).Configuration? <==> R.ClassifyPause(error) == Some(ConfigurationPause)
    ensures ClassOf(error).Identity? <==> R.ClassifyPause(error) == Some(LocalIdentity)
    ensures ClassOf(error).Protocol? <==> R.ClassifyPause(error) == Some(ProtocolPause(None))
    ensures ClassOf(error).Gateway? <==> error.GatewayError?
    ensures ClassOf(error).RequestTimeout? <==> error.RequestTimedOut?
    ensures ClassOf(error).EventLagged? || ClassOf(error).Activation? ==> R.IsSessionRequestError(error)
    ensures ClassOf(error).Transport? ==> R.ClassifyPause(error).None? && !R.IsSessionRequestError(error)
  {
    if error.GatewayError? { R.GatewayPausesExactlyWhen(error.code, error.details, error.retryable); }
  }

  // ---- the driver follows it ----

  lemma {:induction false} RunRoundsAppends(d: Driver, rounds: seq<Round>, last: Round)
    ensures RunRounds(d, rounds + [last])
         == var (after, finish) := RunRounds(d, rounds);
            if finish.StillRunning? then RoundStep(after, last) else (after, finish)
    decreases |rounds|
  {
    var all := rounds + [last];
    if rounds == [] {
      assert all == [last] && all[1..] == [];
      var (after, finish) := RoundStep(d, last);
      assert RunRounds(after, []) == (after, StillRunning);
    } else {
      assert all[0] == rounds[0] && all[1..] == rounds[1..] + [last];
      var (after, finish) := RoundStep(d, rounds[0]);
      if finish.StillRunning? { RunRoundsAppends(after, rounds[1..], last); }
    }
  }

  /** The policy after this many waits of its own choosing. */
  function PolicyAt(t: Settings, streak: nat): R.Policy {
    R.DoublingCapped(t.initial, t.Ceiling(), streak);
    R.Policy(t.initial, t.Ceiling(), R.ClosedForm(t.initial, t.Ceiling(), streak), false)
  }

  lemma PolicyAnswers(t: Settings, streak: nat, error: R.ClientError)
    ensures R.FailureStep(PolicyAt(t, streak), error, R.Unavailable)
         == if R.IsSessionRequestError(error) then (PolicyAt(t, streak), R.KeepSession)
            else match R.ClassifyPause(error)
              case Some(pause) => (PolicyAt(t, streak), R.Pause(pause))
              case None =>
                match R.ServerDelay(error)
                case Some(delay) => (PolicyAt(t, streak), R.RetryAfter(Min(delay, t.Ceiling())))
                case None =>
                  (PolicyAt(t, streak + 1), R.RetryAfter(R.ClosedForm(t.initial, t.Ceiling(), streak)))
  {
    R.DoublingCapped(t.initial, t.Ceiling(), streak);
  }

  lemma PolicyAtZero(t: Settings)
    ensures PolicyAt(t, 0) == R.NewPolicy(t.initial, t.maximum)
    ensures forall streak :: R.ConnectedStep(PolicyAt(t, streak)) == PolicyAt(t, 0)
  {
    assert R.Pow2(0) == 1;
  }

  /** The driver once it has reported these items as well. */
  function Reporting(d: Driver, items: seq<Item>): Driver {
    d.(trace := d.trace + items)
  }

  lemma ReportingInTurn(d: Driver, first: seq<Item>, second: seq<Item>)
    ensures Reporting(Reporting(d, first), second) == Reporting(d, first + second)
    ensures Reporting(d, []) == d
  {
    assert d.trace + first + second == d.trace + (first + second);
    assert d.trace + [] == d.trace;
  }

  /** A wait, and the stop that may cut it short. */
  function BackOffItems(attempt: U64, delay: nat, reason: DisconnectReason, wait: Wait): seq<Item> {
    [Event(BackingOff(attempt, delay, reason))] + if wait.ShutDown? then [Event(Stopped(attempt, true))] else []
  }

  lemma BackOffIsScripted(d: Driver, delay: nat, reason: DisconnectReason, wait: Wait)
    ensures BackOffOrStop(d, delay, reason, wait)
         == (Reporting(d, BackOffItems(d.attempt, delay, reason, wait)),
             if wait.ShutDown? then StoppedNormally else StillRunning)
  {
    var backing := [Event(BackingOff(d.attempt, delay, reason))];
    assert Emit(d, BackingOff(d.attempt, delay, reason)) == Reporting(d, backing);
    ReportingInTurn(d, backing, [Event(Stopped(d.attempt, true))]);
    assert backing + [] == backing;
  }

  lemma AftermathOfWait(t: Settings, before: seq<Round>, round: Round, attempt: U64, delay: nat, reason: DisconnectReason)
    requires WaitAfter(t, before, round) == Some(delay) && ReasonOf(round) == Some(reason)
    ensures round.ConnectFails? || round.RuntimeEnds?
    ensures Aftermath(t, before, round, attempt)
         == [Event(Disconnected(attempt, reason))] + BackOffItems(attempt, delay, reason, round.wait)
    ensures EndOf(round) == if round.wait.ShutDown? then StoppedNormally else StillRunning
  {
  }

  lemma AftermathOfPause(t: Settings, before: seq<Round>, round: Round, attempt: U64, reason: DisconnectReason)
    requires FailureOf(round).Some? && WaitAfter(t, before, round).None? && ReasonOf(round) == Some(reason)
    ensures PauseFor(FailureOf(round).value).Some?
    ensures EndOf(round) == PausedWith(PauseFor(FailureOf(round).value).value)
    ensures Aftermath(t, before, round, attempt)
         == [Event(Disconnected(attempt, reason))] + [Event(Paused(attempt, PauseFor(FailureOf(round).value).value))]
  {
    assert [Event(Disconnected(attempt, reason))] + [] == [Event(Disconnected(attempt, reason))];
  }

  lemma FailureIsScripted(t: Settings, before: seq<Round>, round: Round, d: Driver)
    requires FailureOf(round).Some? && d.policy == PolicyAt(t, StreakInto(before, round))
    ensures round.ConnectFails? || round.RuntimeEnds?
    ensures HandleClientFailure(d, FailureOf(round).value, round.wait)
         == (Reporting(d.(policy := PolicyAt(t, Streak(before + [round]))), Aftermath(t, before, round, d.attempt)), EndOf(round))
  {
    var error, reason := FailureOf(round).value, Client(ClassOf(FailureOf(round).value));
    PolicyAnswers(t, StreakInto(before, round), error);
    assert (before + [round])[..|before|] == before;
    var after := d.(policy := PolicyAt(t, Streak(before + [round])));
    var down := [Event(Disconnected(d.attempt, reason))];
    assert Emit(d, Disconnected(d.attempt, reason)).(policy := after.policy) == Reporting(after, down);
    match WaitAfter(t, before, round)
    case Some(delay) =>
      AftermathOfWait(t, before, round, d.attempt, delay, reason);
      BackOffIsScripted(Reporting(after, down), delay, reason, round.wait);
      ReportingInTurn(after, down, BackOffItems(d.attempt, delay, reason, round.wait));
    case None =>
      var pause := R.ClassifyPause(error).value;
      AftermathOfPause(t, before, round, d.attempt, reason);
      ReportingInTurn(after, down, [Event(Paused(d.attempt, pause))]);
  }

  lemma RuntimeFailureIsScripted(t: Settings, before: seq<Round>, round: Round, d: Driver, failure: RuntimeErrorClass)
    requires round.RuntimeEnds? && !round.end.EndedCleanly? && !round.end.ClientFailed?
    requires failure == if round.end.Saturated? then DeliverySaturated else ResultTask
    requires d.restartDelay == t.restartDelay
    ensures HandleRuntimeFailure(d, failure, round.wait) == (Reporting(d, Aftermath(t, before, round, d.attempt)), EndOf(round))
  {
    var reason, down := Runtime(failure), [Event(Disconnected(d.attempt, Runtime(failure)))];
    assert Emit(d, Disconnected(d.attempt, reason)) == Reporting(d, down);
    AftermathOfWait(t, before, round, d.attempt, t.restartDelay, reason);
    BackOffIsScripted(Reporting(d, down), t.restartDelay, reason, round.wait);
    ReportingInTurn(d, down, BackOffItems(d.attempt, t.restartDelay, reason, round.wait));
  }

  lemma PartingIsScripted(t: Settings, before: seq<Round>, round: Round, d: Driver)
    requires round.ShutdownWhileRunning? || (round.RuntimeEnds? && round.end.EndedCleanly?)
    ensures FromReady(d, round) == (Reporting(d, Aftermath(t, before, round, d.attempt)), EndOf(round))
  {
    var down := [Event(Disconnected(d.attempt, ReasonOf(round).value))];
    assert down + [] == down;
    if round.ShutdownWhileRunning? { ReportingInTurn(d, down, [Event(Stopped(d.attempt, round.drained))]); }
  }

  /** The rest of a round whose session became ready. */
  lemma RestIsScripted(t: Settings, before: seq<Round>, round: Round, d: Driver)
    requires Connects(round) && d.policy == PolicyAt(t, 0) && d.restartDelay == t.restartDelay
    ensures FromReady(d, round)
         == (Reporting(d.(policy := PolicyAt(t, Streak(before + [round]))), Aftermath(t, before, round, d.attempt)), EndOf(round))
  {
    assert (before + [round])[..|before|] == before;
    if FailureOf(round).Some? {
      FailureIsScripted(t, before, round, d);
    } else if round.RuntimeEnds? && !round.end.EndedCleanly? {
      RuntimeFailureIsScripted(t, before, round, d, if round.end.Saturated? then DeliverySaturated else ResultTask);
    } else {
      PartingIsScripted(t, before, round, d);
    }
  }

  /** Connecting resets the policy, whatever it had come to. */
  lemma OpeningIsScripted(t: Settings, d: Driver, round: Round, streak: nat)
    requires Connects(round) && d.policy == PolicyAt(t, streak)
    ensures BecomeReady(Emit(d, Connecting(d.attempt)), round.token)
         == Reporting(d.(policy := PolicyAt(t, 0)), Opening(d.attempt, round))
  {
    PolicyAtZero(t);
  }

  /** A round that never gets a session. */
  function Unconnected(d: Driver, round: Round): (Driver, Finish)
    requires !Connects(round)
  {
    match round
    case ShutdownWhileConnecting => (Emit(d, Stopped(d.attempt, true)), StoppedNormally)
    case ConnectFails(error, wait) => HandleClientFailure(d, error, wait)
  }

  lemma UnconnectedIsScripted(t: Settings, before: seq<Round>, round: Round, d: Driver)
    requires !Connects(round) && d.policy == PolicyAt(t, Streak(before))
    ensures Unconnected(d, round)
         == (Reporting(d.(policy := PolicyAt(t, Streak(before + [round]))), Aftermath(t, before, round, d.attempt)), EndOf(round))
  {
    assert (before + [round])[..|before|] == before;
    if round.ConnectFails? {
      FailureIsScripted(t, before, round, d);
    } else {
      assert Aftermath(t, before, round, d.attempt) == [Event(Stopped(d.attempt, true))];
    }
  }

  /** A driver in its next attempt, after what the script has for the round. */
  function ScriptedRound(t: Settings, before: seq<Round>, round: Round, d: Driver): (Driver, Finish) {
    (Reporting(d.(policy := PolicyAt(t, Streak(before + [round]))), Opening(d.attempt, round) + Aftermath(t, before, round, d.attempt)),
     EndOf(round))
  }

  lemma ConnectedRoundIsScripted(t: Settings, before: seq<Round>, round: Round, d: Driver)
    requires Connects(round) && d.policy == PolicyAt(t, Streak(before)) && d.restartDelay == t.restartDelay
    ensures FromReady(BecomeReady(Emit(d, Connecting(d.attempt)), round.token), round)
         == ScriptedRound(t, before, round, d)
  {
    OpeningIsScripted(t, d, round, Streak(before));
    RestIsScripted(t, before, round, Reporting(d.(policy := PolicyAt(t, 0)), Opening(d.attempt, round)));
    ReportingInTurn(d.(policy := PolicyAt(t, Streak(before + [round]))), Opening(d.attempt, round),
                    Aftermath(t, before, round, d.attempt));
  }

  lemma UnconnectedRoundIsScripted(t: Settings, before: seq<Round>, round: Round, d: Driver)
    requires !Connects(round) && d.policy == PolicyAt(t, Streak(before))
    ensures Unconnected(Emit(d, Connecting(d.attempt)), round)
         == ScriptedRound(t, before, round, d)
  {
    assert Opening(d.attempt, round) == [Event(Connecting(d.attempt))];
    UnconnectedIsScripted(t, before, round, Reporting(d, Opening(d.attempt, round)));
    ReportingInTurn(d.(policy := PolicyAt(t, Streak(before + [round]))), Opening(d.attempt, round),
                    Aftermath(t, before, round, d.attempt));
  }

  lemma ConnectedRound(d: Driver, round: Round)
    requires Connects(round)
    ensures var next := d.(attempt := NextAttempt(d.attempt));
            RoundStep(d, round) == FromReady(BecomeReady(Emit(next, Connecting(next.attempt)), round.token), round)
  {
  }

  lemma UnconnectedRound(d: Driver, round: Round)
    requires !Connects(round)
    ensures var next := d.(attempt := NextAttempt(d.attempt));
            RoundStep(d, round) == Unconnected(Emit(next, Connecting(next.attempt)), round)
  {
  }

  lemma RoundIsScripted(t: Settings, before: seq<Round>, round: Round, d: Driver)
    requires d.policy == PolicyAt(t, Streak(before)) && d.restartDelay == t.restartDelay
    ensures RoundStep(d, round) == ScriptedRound(t, before, round, d.(attempt := NextAttempt(d.attempt)))
  {
    var next := d.(attempt := NextAttempt(d.attempt));
    if Connects(round) {
      ConnectedRoundIsScripted(t, before, round, next);
      ConnectedRound(d, round);
    } else {
      UnconnectedRoundIsScripted(t, before, round, next);
      UnconnectedRound(d, round);
    }
  }

  /** Over every run of a fresh driver, what it reports is exactly the script: each wait
      of its own choosing is the closed form at the number of such waits since the last
      connection, every connection starts that count anew, and the run ends as its last
      round says. */
  lemma {:induction false} TheDriverFollowsTheScript(t: Settings, rounds: seq<Round>)
    ensures var (after, finish) := RunRounds(FreshDriver(t), rounds);
            && (after.trace, finish) == Script(t, rounds)
            && (finish.StillRunning? ==>
                  && after.policy == PolicyAt(t, Streak(rounds)) && after.restartDelay == t.restartDelay
                  && after.attempt == Min(|rounds|, U64_MAX))
    decreases |rounds|
  {
    if rounds == [] {
      PolicyAtZero(t);
    } else {
      var before, last := rounds[..|rounds| - 1], rounds[|rounds| - 1];
      assert rounds == before + [last];
      TheDriverFollowsTheScript(t, before);
      RunRoundsAppends(FreshDriver(t), before, last);
      var (after, finish) := RunRounds(FreshDriver(t), before);
      if finish.StillRunning? { RoundIsScripted(t, before, last, after); }
    }
  }

  /** The rounds whose wait the policy chose itself and after which nothing connected. */
  function OwnSinceConnected(rounds: seq<Round>): set<nat> {
    set k | 0 <= k < |rounds| && OwnChoice(rounds[k]) && forall j :: k < j < |rounds| ==> !Connects(rounds[j])
  }

  /** The streak counts just those. */
  lemma {:induction false} StreakCountsOwnWaits(rounds: seq<Round>)
    ensures Streak(rounds) == |OwnSinceConnected(rounds)|
    decreases |rounds|
  {
    if rounds != [] {
      var n := |rounds| - 1;
      var before, own := rounds[..n], if OwnChoice(rounds[n]) then {n} else {};
      StreakCountsOwnWaits(before);
      assert rounds == before + [rounds[n]];
      OneMoreRound(before, rounds[n]);
      assert OwnSinceConnected(before) !! own;
    }
  }

  lemma OneMoreRound(before: seq<Round>, last: Round)
    ensures OwnSinceConnected(before + [last])
         == (if Connects(last) then {} else OwnSinceConnected(before)) + if OwnChoice(last) then {|before|} else {}
  {
    var rounds, n := before + [last], |before|;
    assert rounds[n] == last;
    forall k: nat | k < n
      ensures k in OwnSinceConnected(rounds) <==> k in OwnSinceConnected(before) && !Connects(last)
    {
      assert rounds[k] == before[k];
      if k in OwnSinceConnected(before) && !Connects(last) {
        forall j | k < j <= n ensures !Connects(rounds[j]) { if j < n { assert rounds[j] == before[j]; } }
      }
      if k in OwnSinceConnected(rounds) {
        forall j | k < j < n ensures !Connects(before[j]) { assert rounds[j] == before[j]; }
      }
    }
  }

  lemma {:induction false} ScriptsExtend(t: Settings, rounds: seq<Round>, i: nat)
    requires i <= |rounds|
    ensures Script(t, rounds[..i]).0 <= Script(t, rounds).0
    decreases |rounds|
  {
    if i < |rounds| {
      ScriptsExtend(t, rounds[..|rounds| - 1], i);
      assert rounds[..|rounds| - 1][..i] == rounds[..i];
    } else {
      assert rounds[..i] == rounds;
    }
  }

  /** Whenever a run comes to a failure that nobody asks a pause or a delay for, its trace
      goes on with the disconnection and a wait of the closed form at the number of such
      waits since the last connection; none if this very round had connected. */
  lemma OwnWaitsAreClosedForm(t: Settings, rounds: seq<Round>, i: nat)
    requires i < |rounds| && OwnChoice(rounds[i]) && Script(t, rounds[..i]).1.StillRunning?
    ensures var attempt, round := Min(i + 1, U64_MAX), rounds[i];
            var streak := if Connects(round) then 0 else |OwnSinceConnected(rounds[..i])|;
            Script(t, rounds[..i]).0
            + (Opening(attempt, round) + Parting(attempt, round, Some(R.ClosedForm(t.initial, t.Ceiling(), streak))))
            <= RunRounds(FreshDriver(t), rounds).0.trace
  {
    TheDriverFollowsTheScript(t, rounds);
    ScriptsExtend(t, rounds, i + 1);
    StreakCountsOwnWaits(rounds[..i]);
    assert rounds[..i + 1] == rounds[..i] + [rounds[i]];
    PartingComesNext(t, rounds[..i], rounds[i]);
  }

  lemma PartingComesNext(t: Settings, before: seq<Round>, round: Round)
    requires Script(t, before).1.StillRunning?
    ensures var attempt := Min(|before| + 1, U64_MAX);
            Script(t, before).0 + (Opening(attempt, round) + Parting(attempt, round, WaitAfter(t, before, round)))
            <= Script(t, before + [round]).0
  {
    var attempt := Min(|before| + 1, U64_MAX);
    InTwoParts(Script(t, before).0, Opening(attempt, round), Parting(attempt, round, WaitAfter(t, before, round)),
               Ending(attempt, round));
    assert (before + [round])[..|before|] == before;
    assert Script(t, before + [round]).0 == Script(t, before).0 + RoundItems(t, before, round);
  }

  lemma InTwoParts(a: seq<Item>, b: seq<Item>, c: seq<Item>, d: seq<Item>)
    ensures a + (b + c) <= a + (b + (c + d))
  {
    assert a + (b + (c + d)) == (a + (b + c)) + d;
  }
}

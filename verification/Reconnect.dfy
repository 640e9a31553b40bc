/** What to do after a failed connection, and how long to wait first. */
module Reconnect {
  import opened Wrappers
  import opened ByteStrings
  import opened LifecycleEvents
  import opened Text

  /** The fields of a Gateway error's details that the policy reads, already parsed. */
  datatype ErrorDetails = ErrorDetails(
    code: Option<string>, step: Option<RecoveryStep>, retryable: Option<bool>, pauseReconnect: Option<bool>)

  const NO_DETAILS := ErrorDetails(None, None, None, None)

  datatype ClientError =
    | InvalidUrl
    | InsecureRemoteGateway
    | Tls(detail: string)
    | ConnectParams
    | IdentityFailed
    | InvalidChallenge
    | InvalidFrame
    | GatewayError(request: string, code: string, details: Option<ErrorDetails>, retryable: Option<bool>, retryAfterMs: Option<U64>)
    | TransportFailed
    | ConnectTimeout
    | ChallengeTimeout
    | RequestTimedOut(request: string)
    | WriteTimeout
    | ClosedSession
    | Lagged
    | NotActivated

  datatype ReconnectAction =
    | KeepSession
    | RetryAfter(delay: nat)
    | RetryWithStoredDeviceTokenAfter(delay: nat)
    | Pause(pause: ReconnectPause)

  datatype StoredToken = Unavailable | AvailableForTrustedEndpoint

  const CONNECT := "connect"
  const PAIRING_REQUIRED := "PAIRING_REQUIRED"
  const PROTOCOL_MISMATCH := "PROTOCOL_MISMATCH"
  const CLIENT_VERSION_MISMATCH := "CLIENT_VERSION_MISMATCH"
  const AUTH_RATE_LIMITED := "AUTH_RATE_LIMITED"
  const AUTH_TOKEN_MISMATCH := "AUTH_TOKEN_MISMATCH"
  const NOT_PAIRED := "NOT_PAIRED"
  const TLS_PIN_MISMATCH := "Gateway TLS certificate fingerprint mismatch"
  const TLS_NEEDS_WSS := "Gateway TLS fingerprint requires a wss:// URL"

  const AUTH_PAUSE_CODES: set<string> := {
    "AUTH_TOKEN_MISSING", "AUTH_TOKEN_NOT_CONFIGURED", "AUTH_BOOTSTRAP_TOKEN_INVALID", "AUTH_PASSWORD_MISSING",
    "AUTH_PASSWORD_MISMATCH", "AUTH_PASSWORD_NOT_CONFIGURED", AUTH_RATE_LIMITED, "AUTH_DEVICE_TOKEN_MISMATCH",
    "AUTH_SCOPE_MISMATCH", AUTH_TOKEN_MISMATCH, "CONTROL_UI_DEVICE_IDENTITY_REQUIRED", "DEVICE_IDENTITY_REQUIRED" }

  // ---- classification ----

  predicate Contains(s: string, part: string) {
    |part| <= |s| && (s[..|part|] == part || (s != "" && Contains(s[1..], part)))
  }

  predicate IsTlsConfigurationError(detail: string) {
    Contains(detail, TLS_PIN_MISMATCH) || Contains(detail, TLS_NEEDS_WSS)
  }

  function DetailCode(code: string, details: Option<ErrorDetails>): string {
    var given := details.UnwrapOr(NO_DETAILS).code;
    if given.Some? && Trim(given.value) != "" then Trim(given.value)
    else if code == NOT_PAIRED then PAIRING_REQUIRED
    else code
  }

  /** The code that decides is the one in the details, without the space around it, unless
      there is none to read; then a node that is not paired is one that has to be. */
  lemma DetailCodeIsTheMostSpecific(code: string, details: Option<ErrorDetails>)
    ensures var given := details.UnwrapOr(NO_DETAILS).code;
            if given.Some? && exists c :: c in given.value && !IsWhitespace(c)
            then DetailCode(code, details) == Trim(given.value)
            else DetailCode(code, details) == if code == "NOT_PAIRED" then "PAIRING_REQUIRED" else code
  {
    var given := details.UnwrapOr(NO_DETAILS).code;
    if given.Some? { BlankExactlyWhen(given.value); }
  }

  function ClassifyGateway(code: string, details: Option<ErrorDetails>, retryable: Option<bool>): Option<ReconnectPause> {
    var found := details.UnwrapOr(NO_DETAILS);
    var detailCode := DetailCode(code, details);
    if detailCode == PAIRING_REQUIRED then
      if found.pauseReconnect == Some(false) || found.step == Some(WaitThenRetry) then None
      else Some(DevicePairing(PairingRequest(found.pauseReconnect, found.step)))
    else if detailCode == PROTOCOL_MISMATCH || detailCode == CLIENT_VERSION_MISMATCH then
      Some(ProtocolPause(Some(detailCode)))
    else if retryable == Some(false) || found.pauseReconnect == Some(true) || found.retryable == Some(false) then
      Some(AuthenticationPause(detailCode))
    else if detailCode == AUTH_RATE_LIMITED then Some(AuthenticationPause(detailCode))
    else if found.step == Some(WaitThenRetry) then None
    else if found.step.Some? then Some(AuthenticationPause(detailCode))
    else if detailCode in AUTH_PAUSE_CODES then Some(AuthenticationPause(detailCode))
    else None
  }

  function ClassifyPause(error: ClientError): Option<ReconnectPause> {
    match error
    case InvalidUrl | InsecureRemoteGateway => Some(ConfigurationPause)
    case Tls(detail) => if IsTlsConfigurationError(detail) then Some(ConfigurationPause) else None
    case ConnectParams | IdentityFailed => Some(LocalIdentity)
    case InvalidChallenge | InvalidFrame => Some(ProtocolPause(None))
    case GatewayError(_, code, details, retryable, _) => ClassifyGateway(code, details, retryable)
    case _ => None
  }

  /** An authentication rate limit always pauses, whatever else the Gateway says. */
  lemma RateLimitsPause(code: string, details: Option<ErrorDetails>, retryable: Option<bool>)
    requires DetailCode(code, details) == AUTH_RATE_LIMITED
    ensures ClassifyGateway(code, details, retryable) == Some(AuthenticationPause(AUTH_RATE_LIMITED))
  {
    assert AUTH_RATE_LIMITED[0] == 'A' && PAIRING_REQUIRED[0] == 'P' && PROTOCOL_MISMATCH[0] == 'P';
    assert CLIENT_VERSION_MISMATCH[0] == 'C';
  }

  /** A failure the Gateway says to wait out is waited out, unless it is a protocol
      mismatch, a rate limit, or elsewhere marked as final. */
  lemma WaitingIsHonouredExactlyWhen(code: string, details: Option<ErrorDetails>, retryable: Option<bool>)
    requires details.Some? && details.value.step == Some(WaitThenRetry)
    ensures var detailCode := DetailCode(code, details);
            ClassifyGateway(code, details, retryable).None?
            <==> detailCode == PAIRING_REQUIRED
                 || (detailCode !in {PROTOCOL_MISMATCH, CLIENT_VERSION_MISMATCH, AUTH_RATE_LIMITED}
                     && retryable != Some(false) && details.value.retryable != Some(false)
                     && details.value.pauseReconnect != Some(true))
  {
    assert PAIRING_REQUIRED[1] == 'A' && PROTOCOL_MISMATCH[1] == 'R' && CLIENT_VERSION_MISMATCH[1] == 'L';
    assert AUTH_RATE_LIMITED[1] == 'U';
  }

  predicate IsSessionRequestError(error: ClientError) {
    match error
    case GatewayError(request, _, _, _, _) => request != CONNECT
    case RequestTimedOut(request) => request != CONNECT
    case Lagged | NotActivated => true
    case _ => false
  }

  predicate RequestsDeviceTokenRetry(error: ClientError) {
    && error.GatewayError? && error.request == CONNECT
    && (DetailCode(error.code, error.details) == AUTH_TOKEN_MISMATCH
        || error.details.UnwrapOr(NO_DETAILS).step == Some(RetryWithDeviceToken))
  }

  /** What a Gateway's answer to a connection attempt leads to, told without an order of
      checks: pairing pauses unless the Gateway says to go on or to wait; a mismatch of
      protocols always pauses; anything else pauses as an authentication matter exactly if
      it is marked final, is a rate limit, names a step other than waiting, or names none
      and is a known authentication code. */
  lemma GatewayPausesExactlyWhen(code: string, details: Option<ErrorDetails>, retryable: Option<bool>)
    ensures var found, detailCode := details.UnwrapOr(NO_DETAILS), DetailCode(code, details);
            var pause := ClassifyGateway(code, details, retryable);
            && (pause == Some(DevicePairing(PairingRequest(found.pauseReconnect, found.step)))
                <==> detailCode == PAIRING_REQUIRED && found.pauseReconnect != Some(false) && found.step != Some(WaitThenRetry))
            && (pause == Some(ProtocolPause(Some(detailCode))) <==> detailCode in {PROTOCOL_MISMATCH, CLIENT_VERSION_MISMATCH})
            && (pause == Some(AuthenticationPause(detailCode))
                <==> && detailCode !in {PAIRING_REQUIRED, PROTOCOL_MISMATCH, CLIENT_VERSION_MISMATCH}
                     && (MarkedFinal(found, retryable) || detailCode == AUTH_RATE_LIMITED
                         || (found.step.Some? && found.step != Some(WaitThenRetry))
                         || (found.step.None? && detailCode in AUTH_PAUSE_CODES)))
            && (pause.Some? ==>
                  || pause.value == DevicePairing(PairingRequest(found.pauseReconnect, found.step))
                  || pause.value == ProtocolPause(Some(detailCode)) || pause.value == AuthenticationPause(detailCode))
  {
    PauseCodesDiffer();
  }

  predicate MarkedFinal(found: ErrorDetails, retryable: Option<bool>) {
    retryable == Some(false) || found.retryable == Some(false) || found.pauseReconnect == Some(true)
  }

  lemma PauseCodesDiffer()
    ensures PAIRING_REQUIRED != PROTOCOL_MISMATCH && PAIRING_REQUIRED != CLIENT_VERSION_MISMATCH
    ensures PAIRING_REQUIRED != AUTH_RATE_LIMITED
  {
    assert PAIRING_REQUIRED[1] == 'A' && PROTOCOL_MISMATCH[1] == 'R' && CLIENT_VERSION_MISMATCH[1] == 'L';
    assert AUTH_RATE_LIMITED[1] == 'U';
  }

  // ---- delays, in nanoseconds ----

  const SECOND: nat := 1_000_000_000
  const MILLISECOND: nat := 1_000_000

  /** The longest representable duration. */
  const LONGEST_DURATION: nat := U64_MAX * SECOND + (SECOND - 1)

  type Duration = d: nat | d <= LONGEST_DURATION

  const DEVICE_TOKEN_RETRY_DELAY: Duration := 250 * MILLISECOND

  function CheckedDouble(d: Duration): Option<Duration> {
    if 2 * d <= LONGEST_DURATION then Some(2 * d) else None
  }

  function ServerDelay(error: ClientError): Option<Duration> {
    if error.GatewayError? && error.retryAfterMs.Some? then
      assert error.retryAfterMs.value * MILLISECOND <= LONGEST_DURATION;
      Some(error.retryAfterMs.value * MILLISECOND)
    else None
  }

  datatype Policy = Policy(initial: Duration, maximum: Duration, next: Duration, tokenRetryUsed: bool)

  function NewPolicy(initial: Duration, maximum: Duration): Policy {
    Policy(initial, Max(maximum, initial), initial, false)
  }

  function FailureStep(p: Policy, error: ClientError, token: StoredToken): (Policy, ReconnectAction) {
    if IsSessionRequestError(error) then (p, KeepSession)
    else if !p.tokenRetryUsed && token.AvailableForTrustedEndpoint? && RequestsDeviceTokenRetry(error) then
      (p.(tokenRetryUsed := true), RetryWithStoredDeviceTokenAfter(DEVICE_TOKEN_RETRY_DELAY))
    else
      match ClassifyPause(error)
      case Some(pause) => (p, Pause(pause))
      case None =>
        match ServerDelay(error)
        case Some(delay) => (p, RetryAfter(Min(delay, p.maximum)))
        case None =>
          (p.(next := Min(CheckedDouble(p.next).UnwrapOr(p.maximum), p.maximum)), RetryAfter(p.next))
  }

  function ConnectedStep(p: Policy): Policy {
    p.(next := p.initial, tokenRetryUsed := false)
  }

  class ReconnectPolicy {
    const initialDelay: Duration
    const maximumDelay: Duration
    var nextDelay: Duration
    var deviceTokenRetryUsed: bool

    function View(): Policy
      reads this
    {
      Policy(initialDelay, maximumDelay, nextDelay, deviceTokenRetryUsed)
    }

    constructor (initialDelay: Duration, maximumDelay: Duration)
      ensures View() == NewPolicy(initialDelay, maximumDelay)
    {
      this.initialDelay := initialDelay;
      this.maximumDelay := Max(maximumDelay, initialDelay);
      nextDelay := initialDelay;
      deviceTokenRetryUsed := false;
    }

    method AfterFailureWithDeviceToken(error: ClientError, token: StoredToken) returns (action: ReconnectAction)
      modifies this
      ensures (View(), action) == FailureStep(old(View()), error, token)
    {
      if IsSessionRequestError(error) { return KeepSession; }
      if !deviceTokenRetryUsed && token == AvailableForTrustedEndpoint && RequestsDeviceTokenRetry(error) {
        deviceTokenRetryUsed := true;
        return RetryWithStoredDeviceTokenAfter(DEVICE_TOKEN_RETRY_DELAY);
      }
      var pause := ClassifyPause(error);
      if pause.Some? { return Pause(pause.value); }
      var serverDelay := ServerDelay(error);
      if serverDelay.Some? { return RetryAfter(Min(serverDelay.value, maximumDelay)); }
      var delay := nextDelay;
      var doubled := CheckedDouble(nextDelay);
      nextDelay := Min(doubled.UnwrapOr(maximumDelay), maximumDelay);
      action := RetryAfter(delay);
    }

    method AfterFailure(error: ClientError) returns (action: ReconnectAction)
      modifies this
      ensures (View(), action) == FailureStep(old(View()), error, Unavailable)
    {
      action := AfterFailureWithDeviceToken(error, Unavailable);
    }

    method Connected()
      modifies this
      ensures View() == ConnectedStep(old(View()))
    {
      nextDelay := initialDelay;
      deviceTokenRetryUsed := false;
    }
  }

  // ---- every history of calls ----

  datatype Call = Failed(error: ClientError, token: StoredToken, action: ReconnectAction) | Connected

  /** The policy after these calls, if it answered as they say. */
  function AfterCalls(p: Policy, calls: seq<Call>): Option<Policy> {
    if calls == [] then Some(p)
    else
      match AfterCalls(p, calls[..|calls| - 1])
      case None => None
      case Some(before) =>
        match calls[|calls| - 1]
        case Connected => Some(ConnectedStep(before))
        case Failed(error, token, action) =>
          var (after, answer) := FailureStep(before, error, token);
          if answer == action then Some(after) else None
  }

  /** A delay of the policy's own choosing, not one the server asked for. */
  predicate SelfChosen(call: Call) {
    call.Failed? && call.action.RetryAfter? && ServerDelay(call.error).None?
  }

  /** How many calls of a kind there have been since the last connection. */
  function Since(calls: seq<Call>, kind: Call -> bool): nat {
    if calls == [] || calls[|calls| - 1].Connected? then 0
    else Since(calls[..|calls| - 1], kind) + if kind(calls[|calls| - 1]) then 1 else 0
  }

  predicate TokenRetried(call: Call) {
    call.Failed? && call.action.RetryWithStoredDeviceTokenAfter?
  }

  function Pow2(n: nat): (p: nat)
    ensures p >= 1
  {
    if n == 0 then 1 else 2 * Pow2(n - 1)
  }

  /** The unbounded closed form. */
  function ClosedForm(initial: nat, maximum: nat, k: nat): nat {
    Min(initial * Pow2(k), maximum)
  }

  lemma DoublingCapped(initial: nat, maximum: Duration, k: nat)
    ensures ClosedForm(initial, maximum, k) <= maximum
    ensures Min(CheckedDouble(ClosedForm(initial, maximum, k)).UnwrapOr(maximum), maximum)
         == ClosedForm(initial, maximum, k + 1)
  {
    assert initial * Pow2(k + 1) == 2 * (initial * Pow2(k));
  }

  /** After any history, the next delay is the closed form at the number of self-chosen
      delays since the last connection, and the token retry is used exactly if there was
      one since then. */
  lemma {:induction false} BackoffIsClosedForm(initial: Duration, maximum: Duration, calls: seq<Call>)
    requires AfterCalls(NewPolicy(initial, maximum), calls).Some?
    ensures var p := AfterCalls(NewPolicy(initial, maximum), calls).value;
            && p.initial == initial && p.maximum == Max(maximum, initial)
            && p.next == ClosedForm(initial, p.maximum, Since(calls, SelfChosen))
            && Since(calls, TokenRetried) == if p.tokenRetryUsed then 1 else 0
  {
    if calls != [] {
      var before := calls[..|calls| - 1];
      BackoffIsClosedForm(initial, maximum, before);
      DoublingCapped(initial, Max(maximum, initial), Since(before, SelfChosen));
    }
  }

  /** Every delay over every history: the k-th self-chosen one is the closed form at k,
      no retry delay exceeds the maximum, and a stored token is tried at most once
      between two connections. */
  lemma EveryDelayIsBounded(initial: Duration, maximum: Duration, calls: seq<Call>, last: Call)
    requires last.Failed? && AfterCalls(NewPolicy(initial, maximum), calls + [last]).Some?
    ensures SelfChosen(last) ==>
      last.action.delay == ClosedForm(initial, Max(maximum, initial), Since(calls, SelfChosen))
    ensures last.action.RetryAfter? ==> last.action.delay <= Max(maximum, initial)
    ensures last.action.RetryAfter? && ServerDelay(last.error).Some? ==>
      last.action.delay == Min(last.error.retryAfterMs.value * MILLISECOND, Max(maximum, initial))
    ensures TokenRetried(last) ==> Since(calls, TokenRetried) == 0
    ensures !SelfChosen(last) ==> Since(calls + [last], SelfChosen) == Since(calls, SelfChosen)
  {
    assert (calls + [last])[..|calls|] == calls;
    BackoffIsClosedForm(initial, maximum, calls);
    DoublingCapped(initial, Max(maximum, initial), Since(calls, SelfChosen));
  }

  /** After any history: the session is kept exactly when the failure was a request's and
      not the connection's; of the others that no stored token is tried for, exactly those
      that call for a pause get it, and the rest are retried. */
  lemma AnswersExactlyWhen(initial: Duration, maximum: Duration, calls: seq<Call>, error: ClientError, token: StoredToken)
    requires AfterCalls(NewPolicy(initial, maximum), calls).Some?
    ensures var action := FailureStep(AfterCalls(NewPolicy(initial, maximum), calls).value, error, token).1;
            && (action.KeepSession?
                <==> || (error.GatewayError? && error.request != CONNECT) || (error.RequestTimedOut? && error.request != CONNECT)
                     || error.Lagged? || error.NotActivated?)
            && (!action.KeepSession? && !action.RetryWithStoredDeviceTokenAfter? ==>
                  if ClassifyPause(error).Some? then action == Pause(ClassifyPause(error).value) else action.RetryAfter?)
  {
  }

  /** A stored token is tried exactly when it is safe to, the Gateway asks for it, and
      none has been tried since the last connection. */
  lemma StoredTokenTriedExactlyWhen(initial: Duration, maximum: Duration, calls: seq<Call>, error: ClientError, token: StoredToken)
    requires AfterCalls(NewPolicy(initial, maximum), calls).Some?
    ensures var p := AfterCalls(NewPolicy(initial, maximum), calls).value;
            FailureStep(p, error, token).1.RetryWithStoredDeviceTokenAfter?
            <==> token.AvailableForTrustedEndpoint? && RequestsDeviceTokenRetry(error) && Since(calls, TokenRetried) == 0
  {
    BackoffIsClosedForm(initial, maximum, calls);
  }
}

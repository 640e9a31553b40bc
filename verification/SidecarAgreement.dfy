/** What every run of the sidecar protocol guarantees its two peers. */
module SidecarAgreement {
  import opened Wrappers
  import opened ByteStrings
  import opened SizedWriters
  import opened SidecarFrame
  import opened SidecarNegotiation
  import opened SidecarChannel
  import opened SidecarLink
  import opened SidecarHandshake
  import opened SidecarConfiguration
  import opened SidecarExchange
  import opened SidecarRuns
  import opened CommandRuntimeBuilder
  import Text

  /** Two fresh ends of one session, each with its own bootstrap ceiling. */
  predicate Initial(s: Session, w: World) {
    && LocalOfferFault(s.supervisorOffer).None? && LocalOfferFault(s.runtimeOffer).None?
    && Create(w.supervisor.c.id, Supervisor, w.supervisor.c.session, w.supervisor.c.generation,
              w.supervisor.c.maxFrame) == Ok(w.supervisor.c)
    && Create(w.runtime.c.id, Runtime, w.supervisor.c.session, w.supervisor.c.generation,
              w.runtime.c.maxFrame) == Ok(w.runtime.c)
    && w.supervisor == Endpoint(w.supervisor.c, Shaking(Handshake(s.supervisorOffer, Starting, None, None, None)), None, 0)
    && w.runtime == Endpoint(w.runtime.c, Shaking(Handshake(s.runtimeOffer, Starting, None, None, None)), None, 0)
  }

  lemma InitialIsOk(s: Session, w: World)
    requires s.Sound() && Initial(s, w)
    ensures WorldOk(s, w)
  {
  }

  /** Some run from two fresh ends leads here. */
  ghost predicate Reachable(s: Session, w: World) {
    exists start, actions :: Initial(s, start) && IsRun(s, start, actions) && After(s, start, actions) == w
  }

  lemma ReachableIsOk(s: Session, w: World)
    requires s.Sound() && Reachable(s, w)
    ensures WorldOk(s, w)
  {
    var start, actions :| Initial(s, start) && IsRun(s, start, actions) && After(s, start, actions) == w;
    InitialIsOk(s, start);
    RunsKeepWorld(s, start, actions);
  }

  /** The selection an endpoint has committed to, if any. */
  function Committed(e: Endpoint): Option<Selection> {
    match e.phase
    case Shaking(h) =>
      if h.state.Authenticated? && h.negotiated.Some? then Some(h.negotiated.value.selection) else None
    case Exchanging(x) => if x.state.ExchangeFailed? then None else Some(x.selection)
  }

  predicate InExchange(e: Endpoint, state: ExchangeState) {
    e.phase.Exchanging? && e.phase.x.state == state
  }

  /** A committed end has the other peer's identity right, and later the runtime's version. */
  predicate Knows(e: Endpoint, peer: PeerIdentity, runtimeVersion: string) {
    match e.phase
    case Shaking(h) => h.state.Authenticated? && h.negotiated.Some? ==> h.negotiated.value.remotePeer == peer
    case Exchanging(x) => !x.state.ExchangeFailed? ==> x.runtimeVersion == runtimeVersion
  }

  /** A committed supervisor's selection is the one the runtime derived and sealed; two
      committed peers run their channels alike; whatever a peer has committed to is the
      greatest selection within both offers; and each knows the other. */
  ghost predicate HandshakeAgreement(s: Session, w: World) {
    && (Committed(w.supervisor).Some? ==>
          var selection := Committed(w.supervisor).value;
          && RuntimeDerived(s, w.runtime.c).Some?
          && RuntimeDerived(s, w.runtime.c).value.selection == selection
          && SentHandshake(s, w.runtime.c, AcceptMessage(s.runtimeOffer, selection))
          && WithinOffer(selection, s.supervisorOffer) && WithinOffer(selection, s.runtimeOffer)
          && GreatestWithin(selection, s.supervisorOffer, s.runtimeOffer))
    && (Committed(w.runtime).Some? ==> GreatestWithin(Committed(w.runtime).value, s.supervisorOffer, s.runtimeOffer))
    && Knows(w.supervisor, s.runtimeOffer.peer, s.runtimeOffer.peer.version)
    && Knows(w.runtime, s.supervisorOffer.peer, s.runtimeOffer.peer.version)
    && (Committed(w.supervisor).Some? && Committed(w.runtime).Some? ==>
          && Committed(w.supervisor) == Committed(w.runtime)
          && w.supervisor.c.minor == w.runtime.c.minor == Committed(w.runtime).value.minor
          && w.supervisor.c.maxFrame == w.runtime.c.maxFrame == Committed(w.runtime).value.limits.maxFrameBytes)
  }

  /** The runtime has the configuration's own names, sorted, and its own limits. */
  predicate RuntimeRuns(r: CommandRuntime, g: Configuration) {
    && multiset(r.commandNames) == multiset(g.commands) && Text.Sorted(r.commandNames)
    && multiset(r.capabilityNames) == multiset(g.capabilities) && Text.Sorted(r.capabilityNames)
    && r.maxConcurrency == g.maxConcurrency && r.maxInputBytes == g.maxInputBytes
    && r.maxOutputBytes == g.maxOutputBytes && r.defaultTimeoutMs == g.defaultTimeoutMs
    && r.maxTimeoutMs == g.maxTimeoutMs && r.resultGraceMs == g.resultGraceMs
  }

  /** Positive bounds that no offer is exceeded by, and names anyone may register. */
  ghost predicate RuntimeWithin(r: CommandRuntime, o: Offer) {
    && 1 <= r.maxConcurrency <= o.limits.maxInFlight && 1 <= r.maxInputBytes <= o.limits.maxFrameBytes
    && HoldsBridgeFailures(r.maxOutputBytes) && r.maxOutputBytes <= o.limits.maxFrameBytes
    && r.resultGraceMs < r.defaultTimeoutMs <= r.maxTimeoutMs
    && (forall n :: n in r.capabilityNames ==> PlainName(n))
    && (forall n :: n in r.commandNames ==> PlainName(n) && Unreserved(n))
  }

  /** A configured supervisor's configuration is the one the runtime checked, its status
      budget included, and acknowledged; an activated runtime runs the manifest and the limits
      of the one that was sent, within both offers. */
  ghost predicate ConfigurationAgreement(s: Session, w: World)
    requires w.runtime.c.Valid()
  {
    && (InExchange(w.supervisor, ExchangeConfigured) ==>
          var g := w.supervisor.phase.x.configuration;
          && g.Some? && ConfigurationReceived(s, w.runtime.c) == g
          && Checked(s, w.runtime.c, g.value, w.supervisor.phase.x.selection)
          && SentMessage(s, w.runtime.c, ConfiguredMessage(ManifestOf(g.value))))
    && (w.runtime.bridge.Some? ==>
          var g := ConfigurationReceived(s, w.runtime.c);
          && g.Some? && w.runtime.bridge.value.manifest == ManifestOf(g.value)
          && RuntimeRuns(w.runtime.bridge.value.runtime, g.value)
          && RuntimeWithin(w.runtime.bridge.value.runtime, s.supervisorOffer)
          && RuntimeWithin(w.runtime.bridge.value.runtime, s.runtimeOffer)
          && |w.supervisor.c.sent| >= 2
          && s.messages.decode(w.supervisor.c.sent[1].payload) == Some(ConfigureMessage(g.value)))
  }

  /** The first message a runtime derived anything from was the supervisor's offer. */
  lemma RuntimeDerivedFromTheOffer(s: Session, w: World)
    requires s.Sound() && WorldOk(s, w) && RuntimeDerived(s, w.runtime.c).Some?
    ensures Negotiate(s.runtimeOffer, s.supervisorOffer) == Ok(RuntimeDerived(s, w.runtime.c).value)
  {
    var c, peer := w.runtime.c, w.supervisor.c;
    assert c.accepted[0] == peer.SentPayloads()[0] == peer.sent[0].payload;
    assert SentHandshake(s, peer, OfferMessage(s.supervisorOffer));
  }

  /** What a supervisor confirmed was the acceptance the runtime sealed. */
  lemma SupervisorDerivedFromTheAcceptance(s: Session, w: World)
    requires s.Sound() && WorldOk(s, w) && SupervisorDerived(s, w.supervisor.c).Some?
    ensures RuntimeDerived(s, w.runtime.c).Some?
    ensures Negotiate(s.supervisorOffer, s.runtimeOffer) == Ok(SupervisorDerived(s, w.supervisor.c).value)
    ensures SupervisorDerived(s, w.supervisor.c).value.selection == RuntimeDerived(s, w.runtime.c).value.selection
    ensures SentHandshake(s, w.runtime.c, AcceptMessage(s.runtimeOffer, RuntimeDerived(s, w.runtime.c).value.selection))
  {
    var c, peer := w.supervisor.c, w.runtime.c;
    assert c.accepted[0] == peer.SentPayloads()[0] == peer.sent[0].payload;
    assert RuntimeHistory(s, peer);
  }

  lemma CommittedSupervisorDerived(s: Session, w: World)
    requires WorldOk(s, w) && Committed(w.supervisor).Some?
    ensures SupervisorDerived(s, w.supervisor.c).Some?
    ensures Committed(w.supervisor).value == SupervisorDerived(s, w.supervisor.c).value.selection
    ensures Under(w.supervisor.c, SupervisorDerived(s, w.supervisor.c).value)
  {
  }

  lemma CommittedRuntimeDerived(s: Session, w: World)
    requires WorldOk(s, w) && Committed(w.runtime).Some?
    ensures RuntimeDerived(s, w.runtime.c).Some?
    ensures Committed(w.runtime).value == RuntimeDerived(s, w.runtime.c).value.selection
    ensures Under(w.runtime.c, RuntimeDerived(s, w.runtime.c).value)
  {
  }

  lemma HandshakesAgree(s: Session, w: World)
    requires s.Sound() && WorldOk(s, w)
    ensures HandshakeAgreement(s, w)
  {
    if Committed(w.supervisor).Some? {
      CommittedSupervisorDerived(s, w);
      SupervisorDerivedFromTheAcceptance(s, w);
      RuntimeDerivedFromTheOffer(s, w);
      BothSidesDeriveOneSelection(s.runtimeOffer, s.supervisorOffer);
      SelectionIsGreatest(s.supervisorOffer, s.runtimeOffer);
    }
    if Committed(w.runtime).Some? {
      CommittedRuntimeDerived(s, w);
      RuntimeDerivedFromTheOffer(s, w);
      SelectionIsGreatest(s.runtimeOffer, s.supervisorOffer);
    }
    PeersKnowEachOther(s, w);
  }

  lemma PeersKnowEachOther(s: Session, w: World)
    requires s.Sound() && WorldOk(s, w)
    ensures Knows(w.supervisor, s.runtimeOffer.peer, s.runtimeOffer.peer.version)
    ensures Knows(w.runtime, s.supervisorOffer.peer, s.runtimeOffer.peer.version)
  {
    if Committed(w.supervisor).Some? {
      CommittedSupervisorDerived(s, w);
      SupervisorDerivedFromTheAcceptance(s, w);
      SelectionIsGreatest(s.supervisorOffer, s.runtimeOffer);
    }
    if Committed(w.runtime).Some? {
      CommittedRuntimeDerived(s, w);
      RuntimeDerivedFromTheOffer(s, w);
      SelectionIsGreatest(s.runtimeOffer, s.supervisorOffer);
    }
  }

  /** What a configured supervisor holds. */
  lemma ConfiguredSupervisorHolds(s: Session, c: Channel, x: Exchange)
    requires SupervisorExchanged(s, c, x) && x.state.ExchangeConfigured?
    ensures SupervisorDerived(s, c).Some? && x.selection == SupervisorDerived(s, c).value.selection
    ensures x.configuration.Some? && SentMessage(s, c, ConfigureMessage(x.configuration.value))
    ensures ManifestReceived(s, c) == Some(ManifestOf(x.configuration.value))
  {
  }

  /** The acknowledgement a supervisor opened is the one the runtime sealed, for the
      configuration it had checked. */
  lemma AcknowledgementIsTheRuntimes(s: Session, c: Channel, peer: Channel)
    requires WritesJson(s.messages) && peer.Valid() && RuntimeHistory(s, peer)
    requires c.accepted <= peer.SentPayloads() && ManifestReceived(s, c).Some?
    ensures RuntimeDerived(s, peer).Some? && ConfigurationReceived(s, peer).Some?
    ensures Checked(s, peer, ConfigurationReceived(s, peer).value, RuntimeDerived(s, peer).value.selection)
    ensures SentMessage(s, peer, ConfiguredMessage(ManifestOf(ConfigurationReceived(s, peer).value)))
    ensures ManifestReceived(s, c).value == ManifestOf(ConfigurationReceived(s, peer).value)
  {
    assert c.accepted[1] == peer.SentPayloads()[1] == peer.sent[1].payload;
    var m := ConfiguredMessage(ManifestOf(ConfigurationReceived(s, peer).value));
    assert s.messages.decode(s.messages.encode(m).Text()) == Some(m);
  }

  lemma ConfiguredSupervisorAgrees(s: Session, w: World)
    requires s.Sound() && WorldOk(s, w) && InExchange(w.supervisor, ExchangeConfigured)
    ensures var g := w.supervisor.phase.x.configuration;
            && g.Some? && ConfigurationReceived(s, w.runtime.c) == g
            && Checked(s, w.runtime.c, g.value, w.supervisor.phase.x.selection)
            && SentMessage(s, w.runtime.c, ConfiguredMessage(ManifestOf(g.value)))
  {
    var x := w.supervisor.phase.x;
    ConfiguredSupervisorHolds(s, w.supervisor.c, x);
    AcknowledgementIsTheRuntimes(s, w.supervisor.c, w.runtime.c);
    SupervisorDerivedFromTheAcceptance(s, w);
    ReceivedIsWhatWasSent(s, w);
    var m := ConfigureMessage(x.configuration.value);
    assert s.messages.decode(s.messages.encode(m).Text()) == Some(m);
  }

  lemma ReceivedIsWhatWasSent(s: Session, w: World)
    requires s.Sound() && WorldOk(s, w) && ConfigurationReceived(s, w.runtime.c).Some?
    ensures |w.supervisor.c.sent| >= 2
    ensures s.messages.decode(w.supervisor.c.sent[1].payload)
         == Some(ConfigureMessage(ConfigurationReceived(s, w.runtime.c).value))
  {
    var c, peer := w.runtime.c, w.supervisor.c;
    assert c.accepted[1] == peer.SentPayloads()[1] == peer.sent[1].payload;
  }

  /** What a checked configuration builds. */
  lemma CheckedConfigurationBuilds(g: Configuration, selection: Selection, r: CommandRuntime, a: Offer, b: Offer)
    requires ConfigurationFault(g, selection).None? && RuntimeOf(g, ManifestOf(g)) == Ok(r)
    requires GreatestWithin(selection, a, b)
    ensures RuntimeRuns(r, g) && RuntimeWithin(r, a) && RuntimeWithin(r, b)
  {
    ValidatedConfigurationBuilds(g, selection);
    ConfigurationPassesExactlyWhen(g, selection);
    ManifestIsSortedPermutation(g, g);
    assert WithinLimits(selection.limits, selection.limits);
    forall n | n in r.capabilityNames ensures PlainName(n) { assert n in multiset(g.capabilities); }
    forall n | n in r.commandNames ensures PlainName(n) && Unreserved(n) { assert n in multiset(g.commands); }
  }

  lemma ActivatedRuntimeFits(s: Session, w: World)
    requires s.Sound() && WorldOk(s, w) && w.runtime.bridge.Some?
    ensures var g, r := ConfigurationReceived(s, w.runtime.c), w.runtime.bridge.value.runtime;
            && g.Some? && RuntimeRuns(r, g.value)
            && RuntimeWithin(r, s.supervisorOffer) && RuntimeWithin(r, s.runtimeOffer)
  {
    var c, b := w.runtime.c, w.runtime.bridge.value;
    assert BridgeFits(s, c, b) && RuntimeHistory(s, c);
    RuntimeDerivedFromTheOffer(s, w);
    SelectionIsGreatest(s.runtimeOffer, s.supervisorOffer);
    CheckedConfigurationBuilds(ConfigurationReceived(s, c).value, RuntimeDerived(s, c).value.selection, b.runtime,
                               s.supervisorOffer, s.runtimeOffer);
  }

  lemma ConfigurationsAgree(s: Session, w: World)
    requires s.Sound() && WorldOk(s, w)
    ensures ConfigurationAgreement(s, w)
  {
    if InExchange(w.supervisor, ExchangeConfigured) {
      ConfiguredSupervisorAgrees(s, w);
    }
    if w.runtime.bridge.Some? {
      ReceivedIsWhatWasSent(s, w);
      ActivatedRuntimeFits(s, w);
    }
  }

  /** Everything at once, for every run from two fresh ends over any transport the
      ideal code allows: both agreements hold, the runtime has activated at most
      once, and a supervisor never has. */
  lemma EveryRunAgrees(s: Session, w: World, actions: seq<(Role, Action)>)
    requires s.Sound() && Initial(s, w) && IsRun(s, w, actions)
    ensures var end := After(s, w, actions);
      && HandshakeAgreement(s, end) && end.runtime.c.Valid() && ConfigurationAgreement(s, end)
      && end.runtime.activations <= 1 && end.supervisor.activations == 0
      && end.supervisor.c.accepted <= end.runtime.c.SentPayloads()
      && end.runtime.c.accepted <= end.supervisor.c.SentPayloads()
  {
    var end := After(s, w, actions);
    InitialIsOk(s, w);
    RunsKeepWorld(s, w, actions);
    HandshakesAgree(s, end);
    ConfigurationsAgree(s, end);
  }

  /** In every reachable world the runtime's current status seals, as long as its
      channel is live and has a sequence number left. */
  lemma EveryStatusSeals(s: Session, w: World)
    requires s.Sound() && Reachable(s, w) && w.runtime.bridge.Some?
    requires w.runtime.c.Valid() && !w.runtime.c.retired && w.runtime.c.sendSequence < U64_MAX
    ensures SealStep(w.runtime.c, s.mac,
                     s.messages.encode(StatusMessage(w.runtime.bridge.value.status))).1.Ok?
  {
    ReachableIsOk(s, w);
    var b := w.runtime.bridge.value;
    EveryStatusFits(s.messages, b, s.runtimeOffer.peer.version, [], w.runtime.c.MaxPayload());
  }

  // ---- failure ----

  /** The endpoint's state machine has failed and its channel is retired. */
  predicate Lost(e: Endpoint) {
    e.c.retired && match e.phase case Shaking(h) => h.state.Failed? case Exchanging(x) => x.state.ExchangeFailed?
  }

  lemma LostStaysLost(s: Session, e: Endpoint, a: Action)
    requires e.c.Valid() && Lost(e)
    ensures var e' := EndpointStep(s, e, a);
            Lost(e') && e'.c.sent == e.c.sent && e'.c.accepted == e.c.accepted && e'.activations == e.activations
  {
    match e.phase {
      case Shaking(h) => LostHandshakeStays(s, e, h, a);
      case Exchanging(x) => LostExchangeStays(s, e, x, a);
    }
  }

  lemma LostHandshakeStays(s: Session, e: Endpoint, h: Handshake, a: Action)
    requires e.c.Valid() && e.c.retired && e.phase == Shaking(h) && h.state.Failed?
    ensures var e' := ShakingStep(s, e, h, a);
            Lost(e') && e'.c.sent == e.c.sent && e'.c.accepted == e.c.accepted && e'.activations == e.activations
  {
  }

  lemma LostExchangeStays(s: Session, e: Endpoint, x: Exchange, a: Action)
    requires e.c.Valid() && e.c.retired && e.phase == Exchanging(x) && x.state.ExchangeFailed?
    ensures var e' := ExchangingStep(s, e, x, a);
            Lost(e') && e'.c.sent == e.c.sent && e'.c.accepted == e.c.accepted && e'.activations == e.activations
  {
    match a {
      case Configure(g) =>
        FailuresAreClosed(e.c.(locked := true), s.mac, s.messages.encode(ConfigureMessage(g)), [], s.messages.decode);
      case ReceiveConfiguration(frame) => LostExchangeHearsNothing(s, e, x, frame);
      case _ =>
    }
  }

  lemma LostExchangeHearsNothing(s: Session, e: Endpoint, x: Exchange, frame: Bytes)
    requires e.c.Valid() && e.c.retired && x.state.ExchangeFailed?
    ensures var r := ConfigurationReceiveStep(x, e.c, s.mac, s.messages, frame);
            r.0.state.ExchangeFailed? && r.1.retired && r.1.sent == e.c.sent && r.1.accepted == e.c.accepted
  {
    FailuresAreClosed(e.c.(locked := true), s.mac, Serialization([], true), frame, s.messages.decode);
  }

  /** A peer that has failed stays failed in every continuation, and neither seals
      nor accepts anything more. */
  lemma {:induction false} FailureIsFinal(s: Session, w: World, actions: seq<(Role, Action)>, side: Role)
    requires IsRun(s, w, actions) && Lost(w.End(side))
    ensures var e := After(s, w, actions).End(side);
      Lost(e) && e.c.sent == w.End(side).c.sent && e.c.accepted == w.End(side).c.accepted
      && e.activations == w.End(side).activations
    decreases |actions|
  {
    if actions != [] {
      var (who, a) := actions[0];
      if who == side { LostStaysLost(s, w.End(side), a); }
      FailureIsFinal(s, Step(s, w, who, a), actions[1..], side);
    }
  }
}

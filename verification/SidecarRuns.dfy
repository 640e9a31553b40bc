/** Whole runs of a supervisor and a runtime over an adversarial transport. */
module SidecarRuns {
  import opened Wrappers
  import opened ByteStrings
  import opened SizedWriters
  import opened SidecarFrame
  import opened SidecarNegotiation
  import opened SidecarChannel
  import opened SidecarLink
  import opened SidecarHandshake
  import opened SidecarConfiguration
  import opened SidecarExchange
  import Events = LifecycleEvents

  /** What is fixed for one process session. */
  datatype Session = Session(
    mac: Mac, handshakes: Codec<HandshakeMessage>, messages: Codec<RuntimeMessage>,
    supervisorOffer: Offer, runtimeOffer: Offer)
  {
    ghost predicate Sound() {
      && TagSized(mac) && Lawful(handshakes) && WritesJson(messages)
      && supervisorOffer.peer.role.Supervisor? && runtimeOffer.peer.role.Runtime?
    }
  }

  /** A peer is in its handshake until it trades that for a configuration exchange. */
  datatype Phase = Shaking(h: Handshake) | Exchanging(x: Exchange)

  datatype Endpoint = Endpoint(c: Channel, phase: Phase, bridge: Option<Bridge>, activations: nat)

  datatype World = World(supervisor: Endpoint, runtime: Endpoint) {
    function End(side: Role): Endpoint {
      if side.Supervisor? then supervisor else runtime
    }

    function With(side: Role, e: Endpoint): World {
      if side.Supervisor? then this.(supervisor := e) else this.(runtime := e)
    }
  }

  datatype Action =
    | StartHandshake
    | ReceiveHandshake(frame: Bytes)
    | CompleteHandshake
    | BeginExchange
    | Configure(configuration: Configuration)
    | ReceiveConfiguration(frame: Bytes)
    | Acknowledge(manifest: Manifest)
    | CompleteAcknowledgement
    | ActivateBridge
    | Observe(event: Events.LifecycleEvent)
    | SendStatus
    | OnChannel(op: LinkAction)
    | LoseTransport

  /** After configuration the owner of a channel may use it directly, in any way. */
  predicate Settled(e: Endpoint) {
    e.phase.Exchanging? && (e.phase.x.state.ExchangeConfigured? || e.phase.x.state.Activated?)
  }

  function ShakingStep(s: Session, e: Endpoint, h: Handshake, a: Action): Endpoint
    requires e.c.Valid()
  {
    match a
    case StartHandshake =>
      var r := StartStep(h, e.c, s.mac, s.handshakes);
      e.(c := r.1, phase := Shaking(r.0))
    case ReceiveHandshake(frame) =>
      var r := ReceiveStep(h, e.c, s.mac, s.handshakes, frame);
      e.(c := r.1, phase := Shaking(r.0))
    case CompleteHandshake =>
      var r := CompleteStep(h, e.c);
      e.(c := r.1, phase := Shaking(r.0))
    case BeginExchange =>
      if ExchangeOf(h).Ok? then e.(phase := Exchanging(ExchangeOf(h).value)) else e
    case LoseTransport => e.(c := RetireStep(e.c))
    case _ => e
  }

  function ExchangingStep(s: Session, e: Endpoint, x: Exchange, a: Action): Endpoint
    requires e.c.Valid()
  {
    match a
    case Configure(g) =>
      var r := ConfigureStep(x, e.c, s.mac, s.messages, g);
      e.(c := r.1, phase := Exchanging(r.0))
    case ReceiveConfiguration(frame) =>
      var r := ConfigurationReceiveStep(x, e.c, s.mac, s.messages, frame);
      e.(c := r.1, phase := Exchanging(r.0))
    case Acknowledge(m) =>
      var r := AcknowledgeStep(x, e.c, s.mac, s.messages, m);
      e.(c := r.1, phase := Exchanging(r.0))
    case CompleteAcknowledgement =>
      var r := CompleteAcknowledgementStep(x, e.c);
      e.(c := r.1, phase := Exchanging(r.0))
    case _ => BridgingStep(s, e, x, a)
  }

  /** Activation, and what happens once there is something to activate. */
  function BridgingStep(s: Session, e: Endpoint, x: Exchange, a: Action): Endpoint
    requires e.c.Valid()
  {
    match a
    case ActivateBridge =>
      var r := ActivateStep(x, e.c);
      var next := e.(c := r.1, phase := Exchanging(r.0));
      if r.2.Ok? then next.(bridge := Some(r.2.value), activations := e.activations + 1) else next
    case Observe(event) =>
      if e.bridge.Some? then e.(bridge := Some(ObserveStep(e.bridge.value, event))) else e
    case SendStatus =>
      if e.bridge.Some?
      then e.(c := SealStep(e.c, s.mac, s.messages.encode(StatusMessage(e.bridge.value.status))).0)
      else e
    case OnChannel(op) =>
      if Settled(e) then e.(c := EndStep(e.c, s.mac, op)) else e
    case LoseTransport => e.(c := RetireStep(e.c))
    case _ => e
  }

  function EndpointStep(s: Session, e: Endpoint, a: Action): Endpoint
    requires e.c.Valid()
  {
    match e.phase
    case Shaking(h) => ShakingStep(s, e, h, a)
    case Exchanging(x) => ExchangingStep(s, e, x, a)
  }

  // ---- what each endpoint's own history says ----

  /** The selection a runtime derived from the offer it accepted first. */
  function RuntimeDerived(s: Session, c: Channel): Option<Negotiated> {
    if |c.accepted| == 0 then None
    else match s.handshakes.decode(c.accepted[0])
      case Some(OfferMessage(offer)) =>
        if Negotiate(s.runtimeOffer, offer).Ok? then Some(Negotiate(s.runtimeOffer, offer).value) else None
      case _ => None
  }

  /** The selection a supervisor derived from the acceptance it confirmed first. */
  function SupervisorDerived(s: Session, c: Channel): Option<Negotiated> {
    if |c.accepted| == 0 then None
    else match s.handshakes.decode(c.accepted[0])
      case Some(AcceptMessage(offer, claimed)) =>
        if Negotiate(s.supervisorOffer, offer).Ok? && Negotiate(s.supervisorOffer, offer).value.selection == claimed
        then Some(Negotiate(s.supervisorOffer, offer).value)
        else None
      case _ => None
  }

  /** The configuration a runtime was sent, if its second accepted message is one. */
  function ConfigurationReceived(s: Session, c: Channel): Option<Configuration> {
    if |c.accepted| < 2 then None
    else match s.messages.decode(c.accepted[1])
      case Some(ConfigureMessage(g)) => Some(g)
      case _ => None
  }

  /** The manifest a supervisor was sent back. */
  function ManifestReceived(s: Session, c: Channel): Option<Manifest> {
    if |c.accepted| < 2 then None
    else match s.messages.decode(c.accepted[1])
      case Some(ConfiguredMessage(m)) => Some(m)
      case _ => None
  }

  predicate SentHandshake(s: Session, c: Channel, m: HandshakeMessage) {
    |c.sent| >= 1 && s.handshakes.encode(m).complete && c.sent[0].payload == s.handshakes.encode(m).Text()
  }

  predicate SentMessage(s: Session, c: Channel, m: RuntimeMessage) {
    |c.sent| >= 2 && s.messages.encode(m).complete && c.sent[1].payload == s.messages.encode(m).Text()
  }

  predicate SupervisorHistory(s: Session, c: Channel) {
    |c.sent| >= 1 ==> SentHandshake(s, c, OfferMessage(s.supervisorOffer))
  }

  /** The checks a runtime makes of a configuration: its content against the selection,
      and the worst status against the locked channel. */
  predicate Checked(s: Session, c: Channel, g: Configuration, selection: Selection)
    requires c.Valid()
  {
    && c.locked && ConfigurationFault(g, selection).None?
    && StatusBudgetFault(s.messages, s.runtimeOffer.peer.version, g.manifestGeneration, c.MaxPayload()).None?
  }

  /** A runtime only ever acknowledges what it derived and checked itself. */
  predicate RuntimeHistory(s: Session, c: Channel)
    requires c.Valid()
  {
    && (|c.sent| >= 1 ==>
          && RuntimeDerived(s, c).Some?
          && SentHandshake(s, c, AcceptMessage(s.runtimeOffer, RuntimeDerived(s, c).value.selection)))
    && (|c.sent| >= 2 ==>
          && ConfigurationReceived(s, c).Some?
          && Checked(s, c, ConfigurationReceived(s, c).value, RuntimeDerived(s, c).value.selection)
          && SentMessage(s, c, ConfiguredMessage(ManifestOf(ConfigurationReceived(s, c).value))))
  }

  /** The channel runs under the selection this end derived. */
  predicate Under(c: Channel, n: Negotiated) {
    c.minor == n.selection.minor && c.maxFrame == n.selection.limits.maxFrameBytes
  }

  /** How many messages an end has sealed and accepted. */
  predicate Counts(c: Channel, sent: nat, accepted: nat) {
    |c.sent| == sent && |c.accepted| == accepted
  }

  predicate Holds(x: Exchange, c: Channel, g: Configuration)
    requires c.Valid()
  {
    && c.locked && x.configuration == Some(g) && x.expectedManifest == Some(ManifestOf(g))
    && x.maxPayload == Some(c.MaxPayload()) && ConfigurationFault(g, x.selection).None?
  }

  predicate SupervisorShaking(s: Session, c: Channel, h: Handshake) {
    && h.offer == s.supervisorOffer && h.Consistent()
    && (h.bound == Some(c.id) || (h.bound.None? && h.state.Starting?))
    && match h.state
       case Starting => Counts(c, 0, 0)
       case AwaitingAcceptance => Counts(c, 1, 0)
       case AcceptancePending => false
       case Authenticated =>
         Counts(c, 1, 1) && h.negotiated == SupervisorDerived(s, c) && Under(c, h.negotiated.value)
       case Failed => c.retired
  }

  predicate SupervisorExchanging(s: Session, c: Channel, x: Exchange)
    requires c.Valid()
  {
    && x.channelId == c.id && x.role.Supervisor?
    && (x.state.ExchangeFailed? ==> c.retired)
    && (!x.state.ExchangeFailed? ==>
          && SupervisorDerived(s, c).Some? && Under(c, SupervisorDerived(s, c).value)
          && x.selection == SupervisorDerived(s, c).value.selection
          && x.runtimeVersion == SupervisorDerived(s, c).value.remotePeer.version
          && match x.state
             case ExchangeStarting => Counts(c, 1, 1)
             case AwaitingAcknowledgement =>
               && Counts(c, 2, 1) && x.configuration.Some? && Holds(x, c, x.configuration.value)
               && SentMessage(s, c, ConfigureMessage(x.configuration.value))
             case ExchangeConfigured =>
               && |c.sent| >= 2 && |c.accepted| >= 2
               && x.configuration.Some? && Holds(x, c, x.configuration.value)
               && SentMessage(s, c, ConfigureMessage(x.configuration.value))
               && ManifestReceived(s, c) == Some(ManifestOf(x.configuration.value))
             case _ => false)
  }

  predicate RuntimeShaking(s: Session, c: Channel, h: Handshake) {
    && h.offer == s.runtimeOffer && h.Consistent()
    && (h.bound == Some(c.id) || (h.bound.None? && h.state.Starting?))
    && match h.state
       case Starting => Counts(c, 0, 0)
       case AwaitingAcceptance => false
       case AcceptancePending => Counts(c, 1, 1) && h.pending == RuntimeDerived(s, c)
       case Authenticated =>
         Counts(c, 1, 1) && h.negotiated == RuntimeDerived(s, c) && Under(c, h.negotiated.value)
       case Failed => c.retired
  }

  predicate RuntimeExchanging(s: Session, c: Channel, x: Exchange)
    requires c.Valid()
  {
    && x.channelId == c.id && x.role.Runtime?
    && (x.state.ExchangeFailed? ==> c.retired)
    && (!x.state.ExchangeFailed? ==>
          && RuntimeDerived(s, c).Some? && Under(c, RuntimeDerived(s, c).value)
          && x.selection == RuntimeDerived(s, c).value.selection
          && x.runtimeVersion == s.runtimeOffer.peer.version
          && match x.state
             case AwaitingConfiguration => Counts(c, 1, 1) && x.configuration.None?
             case AwaitingAcknowledgement => Counts(c, 1, 2) && Adopted(s, c, x)
             case AcknowledgementPending => Counts(c, 2, 2) && Adopted(s, c, x)
             case ExchangeConfigured => |c.sent| >= 2 && |c.accepted| >= 2 && Adopted(s, c, x)
             case Activated => |c.sent| >= 2 && |c.accepted| >= 2 && Adopted(s, c, x)
             case _ => false)
  }

  /** The runtime holds the configuration it was sent, with its status budget checked. */
  predicate Adopted(s: Session, c: Channel, x: Exchange)
    requires c.Valid()
  {
    && x.configuration.Some? && x.configuration == ConfigurationReceived(s, c)
    && Holds(x, c, x.configuration.value)
    && StatusBudgetFault(s.messages, x.runtimeVersion, x.configuration.value.manifestGeneration,
                         c.MaxPayload()).None?
  }

  /** A bridge exists exactly after the single activation, and its status always
      fits the locked channel. */
  predicate BridgeOk(s: Session, e: Endpoint, x: Exchange)
    requires e.c.Valid()
  {
    && e.activations <= 1 && (e.activations == 1 <==> e.bridge.Some?)
    && (x.state.Activated? ==> e.bridge.Some?)
    && (e.bridge.Some? ==> (x.state.Activated? || x.state.ExchangeFailed?) && BridgeFits(s, e.c, e.bridge.value))
  }

  predicate BridgeFits(s: Session, c: Channel, b: Bridge)
    requires c.Valid()
  {
    && c.locked && |c.sent| >= 2 && Steady(b, s.runtimeOffer.peer.version)
    && ConfigurationReceived(s, c).Some? && b.manifest == ManifestOf(ConfigurationReceived(s, c).value)
    && RuntimeOf(ConfigurationReceived(s, c).value, b.manifest) == Ok(b.runtime)
    && StatusBudgetFault(s.messages, s.runtimeOffer.peer.version, b.manifest.manifestGeneration,
                         c.MaxPayload()).None?
  }

  predicate SupervisorShook(s: Session, c: Channel, h: Handshake) {
    && c.Valid() && c.role.Supervisor? && s.supervisorOffer.peer.role.Supervisor?
    && SupervisorHistory(s, c) && SupervisorShaking(s, c, h)
  }

  predicate SupervisorExchanged(s: Session, c: Channel, x: Exchange) {
    c.Valid() && c.role.Supervisor? && SupervisorHistory(s, c) && SupervisorExchanging(s, c, x)
  }

  predicate RuntimeShook(s: Session, c: Channel, h: Handshake) {
    && c.Valid() && c.role.Runtime? && s.runtimeOffer.peer.role.Runtime?
    && RuntimeHistory(s, c) && RuntimeShaking(s, c, h)
  }

  predicate RuntimeExchanged(s: Session, c: Channel, x: Exchange) {
    c.Valid() && c.role.Runtime? && RuntimeHistory(s, c) && RuntimeExchanging(s, c, x)
  }

  predicate SupervisorOk(s: Session, e: Endpoint) {
    && e.bridge.None? && e.activations == 0
    && match e.phase
       case Shaking(h) => SupervisorShook(s, e.c, h)
       case Exchanging(x) => SupervisorExchanged(s, e.c, x)
  }

  predicate RuntimeOk(s: Session, e: Endpoint) {
    && match e.phase
       case Shaking(h) => RuntimeShook(s, e.c, h) && e.bridge.None? && e.activations == 0
       case Exchanging(x) => RuntimeExchanged(s, e.c, x) && BridgeOk(s, e, x)
  }

  // ---- every call keeps an endpoint's own invariant ----

  /** What a successful seal adds. */
  lemma SealAppends(c: Channel, mac: Mac, run: Serialization)
    requires c.Valid() && SealStep(c, mac, run).1.Ok?
    ensures var c' := SealStep(c, mac, run).0;
      && c'.Valid() && c' == c.(sendSequence := c.sendSequence + 1, sent := c.sent + [Sent(c.minor, run.Text())])
      && run.complete && !c.retired
  {
    FailuresAreClosed(c, mac, run, [], (p: Bytes) => Some(p));
  }

  /** What a successful open adds. */
  lemma OpenAppends<T>(c: Channel, mac: Mac, frame: Bytes, decode: Bytes -> Option<T>) returns (payload: Bytes)
    requires c.Valid() && OpenStep(c, mac, frame, decode).1.Ok?
    ensures var c' := OpenStep(c, mac, frame, decode).0;
      && c'.Valid() && !c.retired
      && c' == c.(receiveSequence := c.receiveSequence + 1, accepted := c.accepted + [payload])
      && decode(payload) == Some(OpenStep(c, mac, frame, decode).1.value)
  {
    FailuresAreClosed(c, mac, Serialization([], true), frame, decode);
    payload := CheckFrame(c, mac, frame).value;
  }

  lemma FailedOpenRetires<T>(c: Channel, mac: Mac, frame: Bytes, decode: Bytes -> Option<T>)
    requires c.Valid() && OpenStep(c, mac, frame, decode).1.Err?
    ensures OpenStep(c, mac, frame, decode).0 == RetireStep(c)
  {
  }

  /** An end that has accepted one more payload. */
  function Accepted(c: Channel, payload: Bytes): Channel
    requires c.receiveSequence < U64_MAX
  {
    c.(receiveSequence := c.receiveSequence + 1, accepted := c.accepted + [payload])
  }

  lemma SupervisorStartKeeps(s: Session, c: Channel, h: Handshake)
    requires SupervisorShook(s, c, h)
    ensures var r := StartStep(h, c, s.mac, s.handshakes); SupervisorShook(s, r.1, r.0)
  {
    var run := s.handshakes.encode(OfferMessage(s.supervisorOffer));
    if SealStep(c, s.mac, run).1.Ok? {
      SealAppends(c, s.mac, run);
    }
  }

  lemma SupervisorGivesUp(s: Session, c: Channel, h: Handshake)
    requires c.Valid() && c.role.Supervisor? && s.supervisorOffer.peer.role.Supervisor? && SupervisorHistory(s, c)
    requires h.offer == s.supervisorOffer && h.bound == Some(c.id)
    ensures SupervisorShook(s, RetireStep(c), Dead(h))
  {
  }

  lemma SupervisorCommits(s: Session, c: Channel, h: Handshake, payload: Bytes, theirs: Offer, claimed: Selection)
    requires SupervisorShook(s, c, h) && c.receiveSequence < U64_MAX && h.bound == Some(c.id)
    requires h.state.AwaitingAcceptance? && s.handshakes.decode(payload) == Some(AcceptMessage(theirs, claimed))
    requires ConfirmRuntime(h, Accepted(c, payload), theirs, claimed).2.None?
    ensures var r := ConfirmRuntime(h, Accepted(c, payload), theirs, claimed); SupervisorShook(s, r.1, r.0)
  {
    var c1 := Accepted(c, payload);
    assert c1.accepted[0] == payload;
    assert SupervisorDerived(s, c1) == Some(Negotiate(h.offer, theirs).value);
  }

  lemma SupervisorHandlesKeeps(s: Session, c: Channel, h: Handshake, payload: Bytes, m: HandshakeMessage)
    requires SupervisorShook(s, c, h) && c.receiveSequence < U64_MAX && h.bound == Some(c.id)
    requires s.handshakes.decode(payload) == Some(m)
    ensures var r := Closing(HandleStep(h, Accepted(c, payload), s.mac, s.handshakes, m));
            SupervisorShook(s, r.1, r.0)
  {
    var c1 := Accepted(c, payload);
    var r := HandleStep(h, c1, s.mac, s.handshakes, m);
    if r.2.Ok? {
      SupervisorCommits(s, c, h, payload, m.offer, m.selection);
    } else {
      assert r.0 == h && r.1 == c1;
      SupervisorGivesUp(s, c1, h);
    }
  }

  lemma SupervisorReceiveKeeps(s: Session, c: Channel, h: Handshake, frame: Bytes)
    requires SupervisorShook(s, c, h)
    ensures var r := ReceiveStep(h, c, s.mac, s.handshakes, frame); SupervisorShook(s, r.1, r.0)
  {
    var incoming := OpenStep(c, s.mac, frame, s.handshakes.decode).1;
    if incoming.Ok? {
      var payload := OpenAppends(c, s.mac, frame, s.handshakes.decode);
      if !h.Substituted(c) {
        SupervisorHandlesKeeps(s, c, h.Bind(c), payload, incoming.value);
      }
    } else {
      FailedOpenRetires(c, s.mac, frame, s.handshakes.decode);
    }
  }

  lemma SupervisorCompleteKeeps(s: Session, c: Channel, h: Handshake)
    requires SupervisorShook(s, c, h)
    ensures var r := CompleteStep(h, c); SupervisorShook(s, r.1, r.0)
  {
  }

  lemma SupervisorBeginKeeps(s: Session, c: Channel, h: Handshake)
    requires SupervisorShook(s, c, h) && ExchangeOf(h).Ok?
    ensures SupervisorExchanged(s, c, ExchangeOf(h).value)
  {
  }

  lemma SupervisorConfigureKeeps(s: Session, c: Channel, x: Exchange, g: Configuration)
    requires SupervisorExchanged(s, c, x)
    ensures var r := ConfigureStep(x, c, s.mac, s.messages, g); SupervisorExchanged(s, r.1, r.0)
  {
    var c1, run := c.(locked := true), s.messages.encode(ConfigureMessage(g));
    if x.state.ExchangeStarting? && AdoptionFault(x, c1, s.messages, g).None? && SealStep(c1, s.mac, run).1.Ok? {
      SealAppends(c1, s.mac, run);
      SupervisorAdoptsKeeps(s, c, x, g);
    }
  }

  /** An end that has sealed one more payload. */
  function AlsoSent(c: Channel, payload: Bytes): Channel
    requires c.sendSequence < U64_MAX
  {
    c.(sendSequence := c.sendSequence + 1, sent := c.sent + [Sent(c.minor, payload)])
  }

  lemma SupervisorAdoptsKeeps(s: Session, c: Channel, x: Exchange, g: Configuration)
    requires SupervisorExchanged(s, c, x) && x.state.ExchangeStarting? && c.sendSequence < U64_MAX
    requires ConfigurationFault(g, x.selection).None? && s.messages.encode(ConfigureMessage(g)).complete
    requires AlsoSent(c.(locked := true), s.messages.encode(ConfigureMessage(g)).Text()).Valid()
    ensures SupervisorExchanged(s, AlsoSent(c.(locked := true), s.messages.encode(ConfigureMessage(g)).Text()),
                                Adopt(x, c.(locked := true), g))
  {
    var c' := AlsoSent(c.(locked := true), s.messages.encode(ConfigureMessage(g)).Text());
    assert c'.sent[0] == c.sent[0] && SupervisorHistory(s, c');
    assert SupervisorDerived(s, c') == SupervisorDerived(s, c);
    assert SentMessage(s, c', ConfigureMessage(g));
  }

  lemma SupervisorConfirmKeeps(s: Session, c: Channel, x: Exchange, payload: Bytes, m: RuntimeMessage)
    requires SupervisorExchanged(s, c, x) && c.receiveSequence < U64_MAX && s.messages.decode(payload) == Some(m)
    ensures var r := HandleRuntimeMessage(x, Accepted(c, payload), s.messages, m); SupervisorExchanged(s, r.1, r.0)
  {
    var c1 := Accepted(c, payload);
    if x.state.AwaitingAcknowledgement? && m.ConfiguredMessage? && x.expectedManifest == Some(m.manifest) {
      assert c1.accepted[0] == c.accepted[0] && c1.accepted[1] == payload;
      assert ManifestReceived(s, c1) == Some(m.manifest);
    }
  }

  lemma SupervisorReceiveConfigurationKeeps(s: Session, c: Channel, x: Exchange, frame: Bytes)
    requires SupervisorExchanged(s, c, x)
    ensures var r := ConfigurationReceiveStep(x, c, s.mac, s.messages, frame); SupervisorExchanged(s, r.1, r.0)
  {
    var c1 := c.(locked := true);
    assert SupervisorExchanged(s, c1, x);
    var incoming := OpenStep(c1, s.mac, frame, s.messages.decode).1;
    if incoming.Ok? {
      var payload := OpenAppends(c1, s.mac, frame, s.messages.decode);
      SupervisorConfirmKeeps(s, c1, x, payload, incoming.value);
    } else {
      FailedOpenRetires(c1, s.mac, frame, s.messages.decode);
    }
  }

  lemma SupervisorRetiresKeeps(s: Session, c: Channel, x: Exchange)
    requires SupervisorExchanged(s, c, x)
    ensures SupervisorExchanged(s, RetireStep(c), x) && SupervisorExchanged(s, RetireStep(c), Abandon(x))
  {
  }

  /** A supervisor that makes one of the runtime's calls loses the exchange or its channel. */
  lemma SupervisorMisuseKeeps(s: Session, c: Channel, x: Exchange, m: Manifest)
    requires SupervisorExchanged(s, c, x)
    ensures var r := AcknowledgeStep(x, c, s.mac, s.messages, m); SupervisorExchanged(s, r.1, r.0)
    ensures var r := CompleteAcknowledgementStep(x, c); SupervisorExchanged(s, r.1, r.0)
  {
    SupervisorRetiresKeeps(s, c, x);
  }

  lemma SupervisorNeverActivates(s: Session, c: Channel, x: Exchange)
    requires SupervisorExchanged(s, c, x)
    ensures var r := ActivateStep(x, c); SupervisorExchanged(s, r.1, r.0) && r.2.Err?
  {
    SupervisorRetiresKeeps(s, c, x);
  }

  // ---- direct use of a configured channel ----

  /** The same end later on: same identity and limits, longer history. */
  predicate Extends(c: Channel, c': Channel) {
    && c'.Valid() && c'.id == c.id && c'.role == c.role && c'.session == c.session && c'.generation == c.generation
    && c'.minor == c.minor && c'.maxFrame == c.maxFrame && c'.locked == c.locked
    && c.sent <= c'.sent && c.accepted <= c'.accepted
  }

  lemma DirectUseExtends(c: Channel, mac: Mac, op: LinkAction)
    requires c.Valid() && c.locked
    ensures Extends(c, EndStep(c, mac, op))
  {
    match op {
      case Seal(_, run) => FailuresAreClosed(c, mac, run, [], (p: Bytes) => Some(p));
      case Open(_, frame, readable) =>
        FailuresAreClosed(c, mac, Serialization([], true), frame, Reader(readable));
      case _ => QuietSteps(c, mac, op);
    }
  }

  /** What the first two messages said cannot change. */
  lemma HistoryPersists(s: Session, c: Channel, c': Channel)
    requires Extends(c, c') && |c.sent| >= 2 && |c.accepted| >= 2
    ensures SupervisorDerived(s, c') == SupervisorDerived(s, c) && RuntimeDerived(s, c') == RuntimeDerived(s, c)
    ensures ConfigurationReceived(s, c') == ConfigurationReceived(s, c)
    ensures ManifestReceived(s, c') == ManifestReceived(s, c)
    ensures c'.sent[0] == c.sent[0] && c'.sent[1] == c.sent[1]
  {
  }

  lemma SupervisorExtensionKeeps(s: Session, c: Channel, c': Channel, x: Exchange)
    requires SupervisorExchanged(s, c, x) && x.state.ExchangeConfigured? && Extends(c, c')
    ensures SupervisorExchanged(s, c', x)
  {
    HistoryPersists(s, c, c');
    assert c'.MaxPayload() == c.MaxPayload();
  }

  lemma RuntimeExtensionKeeps(s: Session, c: Channel, c': Channel, x: Exchange)
    requires RuntimeExchanged(s, c, x) && (x.state.ExchangeConfigured? || x.state.Activated?) && Extends(c, c')
    ensures RuntimeExchanged(s, c', x)
  {
    HistoryPersists(s, c, c');
    assert c'.MaxPayload() == c.MaxPayload();
  }

  // ---- the runtime's calls ----

  lemma RuntimeStartKeeps(s: Session, c: Channel, h: Handshake)
    requires RuntimeShook(s, c, h)
    ensures var r := StartStep(h, c, s.mac, s.handshakes); RuntimeShook(s, r.1, r.0)
  {
  }

  /** What a runtime sealed rests on its first messages, so hearing more changes nothing. */
  lemma HearingKeepsHistory(s: Session, c: Channel, payload: Bytes)
    requires c.Valid() && RuntimeHistory(s, c) && c.receiveSequence < U64_MAX
    ensures Accepted(c, payload).Valid() && RuntimeHistory(s, Accepted(c, payload))
    ensures |c.accepted| >= 1 ==> RuntimeDerived(s, Accepted(c, payload)) == RuntimeDerived(s, c)
    ensures |c.accepted| >= 2 ==> ConfigurationReceived(s, Accepted(c, payload)) == ConfigurationReceived(s, c)
  {
    var c1 := Accepted(c, payload);
    if |c.accepted| >= 1 { assert c1.accepted[0] == c.accepted[0]; }
    if |c.accepted| >= 2 { assert c1.accepted[1] == c.accepted[1]; }
  }

  lemma RuntimeGivesUp(s: Session, c: Channel, h: Handshake)
    requires c.Valid() && c.role.Runtime? && s.runtimeOffer.peer.role.Runtime? && RuntimeHistory(s, c)
    requires h.offer == s.runtimeOffer && h.bound == Some(c.id)
    ensures RuntimeShook(s, RetireStep(c), Dead(h))
  {
  }

  lemma RuntimeAnswers(s: Session, c: Channel, h: Handshake, payload: Bytes, theirs: Offer)
    requires RuntimeShook(s, c, h) && c.receiveSequence < U64_MAX && h.bound == Some(c.id)
    requires h.state.Starting? && s.handshakes.decode(payload) == Some(OfferMessage(theirs))
    requires Accepted(c, payload).Valid()
    requires AcceptSupervisor(h, Accepted(c, payload), s.mac, s.handshakes, theirs).2.Ok?
    ensures var r := AcceptSupervisor(h, Accepted(c, payload), s.mac, s.handshakes, theirs); RuntimeShook(s, r.1, r.0)
  {
    var c1, n := Accepted(c, payload), Negotiate(h.offer, theirs).value;
    SealAppends(c1, s.mac, s.handshakes.encode(AcceptMessage(h.offer, n.selection)));
    assert c1.accepted[0] == payload;
    assert RuntimeDerived(s, c1) == Some(n);
  }

  lemma RuntimeHandlesKeeps(s: Session, c: Channel, h: Handshake, payload: Bytes, m: HandshakeMessage)
    requires RuntimeShook(s, c, h) && c.receiveSequence < U64_MAX && h.bound == Some(c.id)
    requires s.handshakes.decode(payload) == Some(m)
    ensures Accepted(c, payload).Valid()
    ensures var r := Closing(HandleStep(h, Accepted(c, payload), s.mac, s.handshakes, m)); RuntimeShook(s, r.1, r.0)
  {
    var c1 := Accepted(c, payload);
    HearingKeepsHistory(s, c, payload);
    var r := HandleStep(h, c1, s.mac, s.handshakes, m);
    if r.2.Ok? {
      RuntimeAnswers(s, c, h, payload, m.offer);
    } else {
      assert r.0 == h && r.1 == c1;
      RuntimeGivesUp(s, c1, h);
    }
  }

  lemma RuntimeReceiveKeeps(s: Session, c: Channel, h: Handshake, frame: Bytes)
    requires RuntimeShook(s, c, h)
    ensures var r := ReceiveStep(h, c, s.mac, s.handshakes, frame); RuntimeShook(s, r.1, r.0)
  {
    var incoming := OpenStep(c, s.mac, frame, s.handshakes.decode).1;
    if incoming.Ok? {
      var payload := OpenAppends(c, s.mac, frame, s.handshakes.decode);
      if !h.Substituted(c) {
        RuntimeHandlesKeeps(s, c, h.Bind(c), payload, incoming.value);
      }
    } else {
      FailedOpenRetires(c, s.mac, frame, s.handshakes.decode);
    }
  }

  lemma RuntimeCompleteKeeps(s: Session, c: Channel, h: Handshake)
    requires RuntimeShook(s, c, h)
    ensures var r := CompleteStep(h, c); RuntimeShook(s, r.1, r.0)
  {
    var r := CompleteStep(h, c);
    if r.2.None? {
      assert r.1 == c.(minor := r.1.minor, maxFrame := r.1.maxFrame);
      RuntimeCommits(s, c, h);
    } else if !h.Substituted(c) {
      RuntimeGivesUp(s, c, h.Bind(c));
    }
  }

  lemma RuntimeCommits(s: Session, c: Channel, h: Handshake)
    requires RuntimeShook(s, c, h) && CompleteStep(h, c).2.None?
    ensures var r := CompleteStep(h, c); RuntimeShook(s, r.1, r.0)
  {
  }

  lemma RuntimeBeginKeeps(s: Session, c: Channel, h: Handshake)
    requires RuntimeShook(s, c, h) && ExchangeOf(h).Ok?
    ensures RuntimeExchanged(s, c, ExchangeOf(h).value)
  {
  }

  lemma RuntimeMisuseKeeps(s: Session, c: Channel, x: Exchange, g: Configuration)
    requires RuntimeExchanged(s, c, x)
    ensures var r := ConfigureStep(x, c, s.mac, s.messages, g); RuntimeExchanged(s, r.1, r.0)
    ensures var r := CompleteAcknowledgementStep(x, c); RuntimeExchanged(s, r.1, r.0)
  {
  }

  lemma RuntimeAdoptsKeeps(s: Session, c: Channel, x: Exchange, payload: Bytes, m: RuntimeMessage)
    requires RuntimeExchanged(s, c, x) && c.locked && c.receiveSequence < U64_MAX
    requires s.messages.decode(payload) == Some(m)
    ensures Accepted(c, payload).Valid()
    ensures var r := HandleRuntimeMessage(x, Accepted(c, payload), s.messages, m); RuntimeExchanged(s, r.1, r.0)
  {
    var c1 := Accepted(c, payload);
    HearingKeepsHistory(s, c, payload);
    if HandleRuntimeMessage(x, c1, s.messages, m).2.Ok? {
      RuntimeTakesConfiguration(s, c, x, payload, m.configuration);
    } else {
      RuntimeAbandons(s, c1, x);
    }
  }

  lemma RuntimeAbandons(s: Session, c: Channel, x: Exchange)
    requires c.Valid() && c.role.Runtime? && RuntimeHistory(s, c) && x.channelId == c.id && x.role.Runtime?
    ensures RuntimeExchanged(s, RetireStep(c), Abandon(x))
  {
  }

  lemma RuntimeTakesConfiguration(s: Session, c: Channel, x: Exchange, payload: Bytes, g: Configuration)
    requires RuntimeExchanged(s, c, x) && c.locked && c.receiveSequence < U64_MAX && x.state.AwaitingConfiguration?
    requires s.messages.decode(payload) == Some(ConfigureMessage(g)) && Accepted(c, payload).Valid()
    requires AdoptionFault(x, Accepted(c, payload), s.messages, g).None?
    ensures RuntimeExchanged(s, Accepted(c, payload), Adopt(x, Accepted(c, payload), g))
  {
    var c1 := Accepted(c, payload);
    HearingKeepsHistory(s, c, payload);
    assert c1.accepted[1] == payload;
    assert ConfigurationReceived(s, c1) == Some(g);
  }

  lemma RuntimeReceiveConfigurationKeeps(s: Session, c: Channel, x: Exchange, frame: Bytes)
    requires RuntimeExchanged(s, c, x)
    ensures var r := ConfigurationReceiveStep(x, c, s.mac, s.messages, frame); RuntimeExchanged(s, r.1, r.0)
  {
    var c1 := c.(locked := true);
    assert RuntimeExchanged(s, c1, x);
    var incoming := OpenStep(c1, s.mac, frame, s.messages.decode).1;
    if incoming.Ok? {
      var payload := OpenAppends(c1, s.mac, frame, s.messages.decode);
      RuntimeAdoptsKeeps(s, c1, x, payload, incoming.value);
    } else {
      FailedOpenRetires(c1, s.mac, frame, s.messages.decode);
    }
  }

  lemma RuntimeAcknowledgesKeeps(s: Session, c: Channel, x: Exchange)
    requires RuntimeExchanged(s, c, x) && x.state.AwaitingAcknowledgement? && c.sendSequence < U64_MAX
    requires s.messages.encode(ConfiguredMessage(x.expectedManifest.value)).complete
    requires AlsoSent(c, s.messages.encode(ConfiguredMessage(x.expectedManifest.value)).Text()).Valid()
    ensures RuntimeExchanged(s, AlsoSent(c, s.messages.encode(ConfiguredMessage(x.expectedManifest.value)).Text()),
                             x.(state := AcknowledgementPending))
  {
    var c' := AlsoSent(c, s.messages.encode(ConfiguredMessage(x.expectedManifest.value)).Text());
    assert c'.sent[0] == c.sent[0] && c'.MaxPayload() == c.MaxPayload();
  }

  lemma RuntimeAcknowledgeKeeps(s: Session, c: Channel, x: Exchange, m: Manifest)
    requires RuntimeExchanged(s, c, x)
    ensures var r := AcknowledgeStep(x, c, s.mac, s.messages, m); RuntimeExchanged(s, r.1, r.0)
  {
    if x.state.AwaitingAcknowledgement? && x.expectedManifest == Some(m) {
      var run := s.messages.encode(ConfiguredMessage(m));
      if SealStep(c, s.mac, run).1.Ok? {
        SealAppends(c, s.mac, run);
        RuntimeAcknowledgesKeeps(s, c, x);
      }
    }
  }

  lemma RuntimeActivateKeeps(s: Session, c: Channel, x: Exchange)
    requires RuntimeExchanged(s, c, x)
    ensures var r := ActivateStep(x, c);
      && r.1 == c && RuntimeExchanged(s, c, r.0)
      && (r.2.Ok? ==> BridgeFits(s, c, r.2.value) && r.0.state.Activated? && x.state.ExchangeConfigured?)
      && (r.2.Err? ==> r.0 == x || r.0.state.ExchangeFailed?)
  {
  }

  // ---- every call keeps the two ends linked ----

  lemma RetiringKeepsLink(a: Channel, b: Channel)
    requires Linked(a, b)
    ensures Linked(RetireStep(a), b) && Linked(a.(locked := true), b) && Linked(RetireStep(a.(locked := true)), b)
  {
    QuietChangeKeepsLink(a, RetireStep(a), b);
    QuietChangeKeepsLink(a, a.(locked := true), b);
    QuietChangeKeepsLink(a, RetireStep(a.(locked := true)), b);
  }

  lemma ApplyingKeepsLink(a: Channel, b: Channel, n: Negotiated)
    requires Linked(a, b)
    ensures Linked(ApplyStep(a, n).0, b)
  {
    QuietChangeKeepsLink(a, ApplyStep(a, n).0, b);
  }

  lemma StartKeepsLink(s: Session, a: Channel, b: Channel, h: Handshake)
    requires Linked(a, b)
    ensures Linked(StartStep(h, a, s.mac, s.handshakes).1, b)
  {
    RetiringKeepsLink(a, b);
    SealKeepsLink(s.mac, a, b, s.handshakes.encode(OfferMessage(h.offer)));
  }

  lemma HandlingKeepsLink(s: Session, a: Channel, b: Channel, h: Handshake, m: HandshakeMessage)
    requires Linked(a, b)
    ensures Linked(Closing(HandleStep(h, a, s.mac, s.handshakes, m)).1, b)
  {
    RetiringKeepsLink(a, b);
    match m {
      case OfferMessage(offer) => AnsweringKeepsLink(s, a, b, h, offer);
      case AcceptMessage(offer, claimed) => ConfirmingKeepsLink(a, b, h, offer, claimed);
    }
  }

  lemma AnsweringKeepsLink(s: Session, a: Channel, b: Channel, h: Handshake, theirs: Offer)
    requires Linked(a, b)
    ensures var r := AcceptSupervisor(h, a, s.mac, s.handshakes, theirs);
            if r.2.Ok? then Linked(r.1, b) else r.1 == a
  {
    if Negotiate(h.offer, theirs).Ok? {
      SealKeepsLink(s.mac, a, b,
                    s.handshakes.encode(AcceptMessage(h.offer, Negotiate(h.offer, theirs).value.selection)));
    }
  }

  lemma ConfirmingKeepsLink(a: Channel, b: Channel, h: Handshake, theirs: Offer, claimed: Selection)
    requires Linked(a, b)
    ensures var r := ConfirmRuntime(h, a, theirs, claimed);
            if r.2.None? then Linked(r.1, b) else r.1 == a
  {
    if Negotiate(h.offer, theirs).Ok? { ApplyingKeepsLink(a, b, Negotiate(h.offer, theirs).value); }
  }

  lemma ReceiveKeepsLink(s: Session, a: Channel, b: Channel, h: Handshake, frame: Bytes)
    requires TagSized(s.mac) && Linked(a, b) && Deliverable(s.mac, a, b, frame)
    ensures Linked(ReceiveStep(h, a, s.mac, s.handshakes, frame).1, b)
  {
    RetiringKeepsLink(a, b);
    OpenKeepsLink(s.mac, a, b, frame, s.handshakes.decode);
    var (a1, incoming) := OpenStep(a, s.mac, frame, s.handshakes.decode);
    RetiringKeepsLink(a1, b);
    if incoming.Ok? {
      HandlingKeepsLink(s, a1, b, h.Bind(a), incoming.value);
    }
  }

  lemma CompleteKeepsLink(a: Channel, b: Channel, h: Handshake)
    requires Linked(a, b)
    ensures Linked(CompleteStep(h, a).1, b)
  {
    RetiringKeepsLink(a, b);
    if h.pending.Some? { ApplyingKeepsLink(a, b, h.pending.value); }
  }

  lemma ConfigureKeepsLink(s: Session, a: Channel, b: Channel, x: Exchange, g: Configuration)
    requires Linked(a, b)
    ensures Linked(ConfigureStep(x, a, s.mac, s.messages, g).1, b)
  {
    RetiringKeepsLink(a, b);
    SealKeepsLink(s.mac, a.(locked := true), b, s.messages.encode(ConfigureMessage(g)));
  }

  lemma ReceiveConfigurationKeepsLink(s: Session, a: Channel, b: Channel, x: Exchange, frame: Bytes)
    requires TagSized(s.mac) && Linked(a, b) && Deliverable(s.mac, a, b, frame)
    ensures Linked(ConfigurationReceiveStep(x, a, s.mac, s.messages, frame).1, b)
  {
    RetiringKeepsLink(a, b);
    var a1 := a.(locked := true);
    LockingIsInvisible(s.mac, a, b, frame);
    OpenKeepsLink(s.mac, a1, b, frame, s.messages.decode);
    RetiringKeepsLink(OpenStep(a1, s.mac, frame, s.messages.decode).0, b);
  }

  lemma LockingIsInvisible(mac: Mac, a: Channel, b: Channel, frame: Bytes)
    requires Linked(a, b) && Deliverable(mac, a, b, frame)
    ensures a.(locked := true).Valid() && Deliverable(mac, a.(locked := true), b, frame)
  {
    var a1 := a.(locked := true);
    if SentBy(mac, a, frame) {
      var k: nat :| k < |a.sent| && frame == a.SentFrame(mac, k);
      assert frame == a1.SentFrame(mac, k);
    }
  }

  lemma AcknowledgeKeepsLink(s: Session, a: Channel, b: Channel, x: Exchange, m: Manifest)
    requires Linked(a, b)
    ensures Linked(AcknowledgeStep(x, a, s.mac, s.messages, m).1, b)
  {
    RetiringKeepsLink(a, b);
    SealKeepsLink(s.mac, a, b, s.messages.encode(ConfiguredMessage(m)));
  }

  lemma DirectUseKeepsLink(s: Session, a: Channel, b: Channel, op: LinkAction)
    requires TagSized(s.mac) && Linked(a, b) && (op.Open? ==> Deliverable(s.mac, a, b, op.frame))
    ensures Linked(EndStep(a, s.mac, op), b)
  {
    match op {
      case Seal(_, run) => SealKeepsLink(s.mac, a, b, run);
      case Open(_, frame, readable) => OpenKeepsLink(s.mac, a, b, frame, Reader(readable));
      case _ =>
        QuietSteps(a, s.mac, op);
        QuietChangeKeepsLink(a, EndStep(a, s.mac, op), b);
    }
  }

  // ---- runs ----

  ghost predicate WorldOk(s: Session, w: World) {
    && Linked(w.supervisor.c, w.runtime.c) && SupervisorOk(s, w.supervisor) && RuntimeOk(s, w.runtime)
  }

  /** The transport may hand a peer any bytes the ideal code allows. */
  ghost predicate Enabled(s: Session, w: World, side: Role, a: Action)
    requires w.supervisor.c.Valid() && w.runtime.c.Valid()
  {
    var mine, theirs := w.End(side).c, w.End(side.Remote()).c;
    match a
    case ReceiveHandshake(frame) => Deliverable(s.mac, mine, theirs, frame)
    case ReceiveConfiguration(frame) => Deliverable(s.mac, mine, theirs, frame)
    case OnChannel(op) => op.Open? ==> Deliverable(s.mac, mine, theirs, op.frame)
    case _ => true
  }

  function Step(s: Session, w: World, side: Role, a: Action): World
    requires w.supervisor.c.Valid() && w.runtime.c.Valid()
  {
    w.With(side, EndpointStep(s, w.End(side), a))
  }

  lemma ShakingKeepsLink(s: Session, e: Endpoint, peer: Channel, h: Handshake, a: Action)
    requires TagSized(s.mac) && Linked(e.c, peer)
    requires a.ReceiveHandshake? ==> Deliverable(s.mac, e.c, peer, a.frame)
    ensures Linked(ShakingStep(s, e, h, a).c, peer)
  {
    match a {
      case StartHandshake => StartKeepsLink(s, e.c, peer, h);
      case ReceiveHandshake(frame) => ReceiveKeepsLink(s, e.c, peer, h, frame);
      case CompleteHandshake => CompleteKeepsLink(e.c, peer, h);
      case _ => RetiringKeepsLink(e.c, peer);
    }
  }

  lemma ExchangingKeepsLink(s: Session, e: Endpoint, peer: Channel, x: Exchange, a: Action)
    requires TagSized(s.mac) && Linked(e.c, peer)
    requires a.ReceiveConfiguration? ==> Deliverable(s.mac, e.c, peer, a.frame)
    requires a.OnChannel? && a.op.Open? ==> Deliverable(s.mac, e.c, peer, a.op.frame)
    ensures Linked(ExchangingStep(s, e, x, a).c, peer)
  {
    RetiringKeepsLink(e.c, peer);
    match a {
      case Configure(g) => ConfigureKeepsLink(s, e.c, peer, x, g);
      case ReceiveConfiguration(frame) => ReceiveConfigurationKeepsLink(s, e.c, peer, x, frame);
      case Acknowledge(m) => AcknowledgeKeepsLink(s, e.c, peer, x, m);
      case CompleteAcknowledgement =>
      case _ => BridgingKeepsLink(s, e, peer, x, a);
    }
  }

  lemma BridgingKeepsLink(s: Session, e: Endpoint, peer: Channel, x: Exchange, a: Action)
    requires TagSized(s.mac) && Linked(e.c, peer)
    requires a.OnChannel? && a.op.Open? ==> Deliverable(s.mac, e.c, peer, a.op.frame)
    ensures Linked(BridgingStep(s, e, x, a).c, peer)
  {
    RetiringKeepsLink(e.c, peer);
    match a {
      case SendStatus =>
        if e.bridge.Some? {
          SealKeepsLink(s.mac, e.c, peer, s.messages.encode(StatusMessage(e.bridge.value.status)));
        }
      case OnChannel(op) => DirectUseKeepsLink(s, e.c, peer, op);
      case _ =>
    }
  }

  lemma LinkedIsMutual(a: Channel, b: Channel)
    requires Linked(a, b)
    ensures Linked(b, a)
  {
  }

  lemma EndpointKeepsLink(s: Session, e: Endpoint, peer: Channel, a: Action)
    requires TagSized(s.mac) && Linked(e.c, peer)
    requires a.ReceiveHandshake? || a.ReceiveConfiguration? ==> Deliverable(s.mac, e.c, peer, a.frame)
    requires a.OnChannel? && a.op.Open? ==> Deliverable(s.mac, e.c, peer, a.op.frame)
    ensures Linked(EndpointStep(s, e, a).c, peer)
  {
    match e.phase {
      case Shaking(h) => ShakingKeepsLink(s, e, peer, h, a);
      case Exchanging(x) => ExchangingKeepsLink(s, e, peer, x, a);
    }
  }

  lemma StepKeepsLink(s: Session, w: World, side: Role, a: Action)
    requires s.Sound() && Linked(w.supervisor.c, w.runtime.c) && Enabled(s, w, side, a)
    ensures var w' := Step(s, w, side, a); Linked(w'.supervisor.c, w'.runtime.c)
  {
    var e, peer := w.End(side), w.End(side.Remote()).c;
    LinkedIsMutual(w.supervisor.c, w.runtime.c);
    EndpointKeepsLink(s, e, peer, a);
    LinkedIsMutual(EndpointStep(s, e, a).c, peer);
  }

  lemma SupervisorShakingStepKeeps(s: Session, e: Endpoint, h: Handshake, a: Action)
    requires SupervisorOk(s, e) && e.phase == Shaking(h) && e.c.Valid()
    ensures SupervisorOk(s, ShakingStep(s, e, h, a))
  {
    match a {
      case StartHandshake => SupervisorStartKeeps(s, e.c, h);
      case ReceiveHandshake(frame) => SupervisorReceiveKeeps(s, e.c, h, frame);
      case CompleteHandshake => SupervisorCompleteKeeps(s, e.c, h);
      case BeginExchange => if ExchangeOf(h).Ok? { SupervisorBeginKeeps(s, e.c, h); }
      case _ =>
    }
  }

  lemma SupervisorExchangeCallKeeps(s: Session, e: Endpoint, x: Exchange, a: Action)
    requires SupervisorExchanged(s, e.c, x) && ExchangeCall(a)
    ensures var e' := ExchangingStep(s, e, x, a);
            && e'.phase.Exchanging? && SupervisorExchanged(s, e'.c, e'.phase.x)
            && e'.bridge == e.bridge && e'.activations == e.activations
  {
    match a {
      case Configure(g) => SupervisorConfigureKeeps(s, e.c, x, g);
      case ReceiveConfiguration(frame) => SupervisorReceiveConfigurationKeeps(s, e.c, x, frame);
      case Acknowledge(m) => SupervisorMisuseKeeps(s, e.c, x, m);
      case CompleteAcknowledgement => SupervisorMisuseKeeps(s, e.c, x, Manifest(0, [], []));
    }
  }

  lemma SupervisorDirectKeeps(s: Session, c: Channel, x: Exchange, op: LinkAction)
    requires SupervisorExchanged(s, c, x) && x.state.ExchangeConfigured?
    ensures SupervisorExchanged(s, EndStep(c, s.mac, op), x)
  {
    DirectUseExtends(c, s.mac, op);
    SupervisorExtensionKeeps(s, c, EndStep(c, s.mac, op), x);
  }

  lemma SupervisorBridgingStepKeeps(s: Session, e: Endpoint, x: Exchange, a: Action)
    requires SupervisorExchanged(s, e.c, x) && e.phase == Exchanging(x) && e.bridge.None?
    ensures var e' := BridgingStep(s, e, x, a);
            && e'.phase.Exchanging? && SupervisorExchanged(s, e'.c, e'.phase.x)
            && e'.bridge == e.bridge && e'.activations == e.activations
  {
    match a {
      case ActivateBridge => SupervisorNeverActivates(s, e.c, x);
      case OnChannel(op) => if Settled(e) { SupervisorDirectKeeps(s, e.c, x, op); }
      case LoseTransport => SupervisorRetiresKeeps(s, e.c, x);
      case _ => assert BridgingStep(s, e, x, a) == e;
    }
  }

  lemma SupervisorStepKeeps(s: Session, e: Endpoint, a: Action)
    requires SupervisorOk(s, e) && e.c.Valid()
    ensures SupervisorOk(s, EndpointStep(s, e, a))
  {
    match e.phase {
      case Shaking(h) => SupervisorShakingStepKeeps(s, e, h, a);
      case Exchanging(x) =>
        if ExchangeCall(a) {
          SupervisorExchangeCallKeeps(s, e, x, a);
        } else {
          SupervisorBridgingStepKeeps(s, e, x, a);
        }
    }
  }

  /** Same locked ceiling, nothing forgotten. */
  predicate OnlyLonger(c: Channel, c': Channel) {
    && c'.Valid() && c'.locked && c'.maxFrame == c.maxFrame && c'.session == c.session
    && c.accepted <= c'.accepted && |c.sent| <= |c'.sent|
  }

  lemma BridgeSurvives(s: Session, c: Channel, c': Channel, b: Bridge)
    requires c.Valid() && BridgeFits(s, c, b) && OnlyLonger(c, c')
    ensures BridgeFits(s, c', b)
  {
    assert c'.MaxPayload() == c.MaxPayload();
    assert c'.accepted[0] == c.accepted[0] && c'.accepted[1] == c.accepted[1];
  }

  lemma ConfiguringOnlyExtends(s: Session, c: Channel, x: Exchange, g: Configuration)
    requires c.Valid() && c.locked
    ensures OnlyLonger(c, ConfigureStep(x, c, s.mac, s.messages, g).1)
  {
    FailuresAreClosed(c, s.mac, s.messages.encode(ConfigureMessage(g)), [], s.messages.decode);
    assert c.(locked := true) == c;
  }

  lemma ReceivingOnlyExtends(s: Session, c: Channel, x: Exchange, frame: Bytes)
    requires c.Valid() && c.locked
    ensures OnlyLonger(c, ConfigurationReceiveStep(x, c, s.mac, s.messages, frame).1)
  {
    FailuresAreClosed(c, s.mac, Serialization([], true), frame, s.messages.decode);
    assert c.(locked := true) == c;
    var (c1, message) := OpenStep(c, s.mac, frame, s.messages.decode);
    OpeningOnlyExtends(s, c, frame);
    if message.Ok? { HandlingOnlyRetires(s, x, c1, message.value); }
  }

  lemma OpeningOnlyExtends(s: Session, c: Channel, frame: Bytes)
    requires c.Valid() && c.locked
    ensures var c1 := OpenStep(c, s.mac, frame, s.messages.decode).0; OnlyLonger(c, c1) && OnlyLonger(c, RetireStep(c1))
  {
    FailuresAreClosed(c, s.mac, Serialization([], true), frame, s.messages.decode);
  }

  lemma HandlingOnlyRetires(s: Session, x: Exchange, c: Channel, m: RuntimeMessage)
    requires c.Valid()
    ensures var c' := HandleRuntimeMessage(x, c, s.messages, m).1; c' == c || c' == RetireStep(c)
  {
  }

  lemma AcknowledgingOnlyExtends(s: Session, c: Channel, x: Exchange, m: Manifest)
    requires c.Valid() && c.locked
    ensures OnlyLonger(c, AcknowledgeStep(x, c, s.mac, s.messages, m).1)
  {
    FailuresAreClosed(c, s.mac, s.messages.encode(ConfiguredMessage(m)), [], s.messages.decode);
  }

  predicate ExchangeCall(a: Action) {
    a.Configure? || a.ReceiveConfiguration? || a.Acknowledge? || a.CompleteAcknowledgement?
  }

  lemma RuntimeExchangeCallKeeps(s: Session, e: Endpoint, x: Exchange, a: Action)
    requires RuntimeExchanged(s, e.c, x) && ExchangeCall(a)
    ensures var e' := ExchangingStep(s, e, x, a);
            && e'.phase.Exchanging? && RuntimeExchanged(s, e'.c, e'.phase.x)
            && e'.bridge == e.bridge && e'.activations == e.activations
  {
    match a {
      case Configure(g) => RuntimeMisuseKeeps(s, e.c, x, g);
      case ReceiveConfiguration(frame) => RuntimeReceiveConfigurationKeeps(s, e.c, x, frame);
      case Acknowledge(m) => RuntimeAcknowledgeKeeps(s, e.c, x, m);
      case CompleteAcknowledgement => RuntimeMisuseKeeps(s, e.c, x, Configuration(0, [], [], 0, 0, 0, 0, 0, 0));
    }
  }

  lemma ExchangeCallOnlyExtends(s: Session, e: Endpoint, x: Exchange, a: Action)
    requires e.c.Valid() && e.c.locked && ExchangeCall(a)
    ensures OnlyLonger(e.c, ExchangingStep(s, e, x, a).c)
  {
    match a {
      case Configure(g) => ConfiguringOnlyExtends(s, e.c, x, g);
      case ReceiveConfiguration(frame) => ReceivingOnlyExtends(s, e.c, x, frame);
      case Acknowledge(m) => AcknowledgingOnlyExtends(s, e.c, x, m);
      case CompleteAcknowledgement =>
    }
  }

  /** Past activation, every exchange call fails the exchange. */
  lemma ActivatedExchangeCallsFail(s: Session, e: Endpoint, x: Exchange, a: Action)
    requires e.c.Valid() && ExchangeCall(a) && x.channelId == e.c.id
    requires x.state.Activated? || x.state.ExchangeFailed?
    ensures ExchangingStep(s, e, x, a).phase.x.state.ExchangeFailed?
  {
  }

  lemma ActivationNeedsBridging(s: Session, e: Endpoint, x: Exchange, a: Action)
    requires e.c.Valid() && ExchangeCall(a) && !x.state.Activated?
    ensures !ExchangingStep(s, e, x, a).phase.x.state.Activated?
  {
  }

  lemma RuntimeExchangingStepKeeps(s: Session, e: Endpoint, x: Exchange, a: Action)
    requires RuntimeOk(s, e) && e.phase == Exchanging(x) && e.c.Valid() && ExchangeCall(a)
    ensures RuntimeOk(s, ExchangingStep(s, e, x, a))
  {
    var e' := ExchangingStep(s, e, x, a);
    RuntimeExchangeCallKeeps(s, e, x, a);
    if e.bridge.Some? {
      ExchangeCallOnlyExtends(s, e, x, a);
      BridgeSurvives(s, e.c, e'.c, e.bridge.value);
      ActivatedExchangeCallsFail(s, e, x, a);
    } else {
      ActivationNeedsBridging(s, e, x, a);
    }
  }

  lemma RuntimeBridgingStepKeeps(s: Session, e: Endpoint, x: Exchange, a: Action)
    requires RuntimeOk(s, e) && e.phase == Exchanging(x) && e.c.Valid()
    ensures RuntimeOk(s, BridgingStep(s, e, x, a))
  {
    match a {
      case ActivateBridge => RuntimeActivatesKeeps(s, e, x);
      case Observe(event) => RuntimeObservesKeeps(s, e, x, event);
      case SendStatus => if e.bridge.Some? { RuntimeStatusKeeps(s, e, x); }
      case OnChannel(op) => if Settled(e) { RuntimeDirectKeeps(s, e, x, op); }
      case LoseTransport => RuntimeLosesKeeps(s, e, x);
      case _ =>
    }
  }

  lemma RuntimeActivatesKeeps(s: Session, e: Endpoint, x: Exchange)
    requires RuntimeOk(s, e) && e.phase == Exchanging(x) && e.c.Valid()
    ensures RuntimeOk(s, BridgingStep(s, e, x, ActivateBridge))
  {
    RuntimeActivateKeeps(s, e.c, x);
  }

  lemma RuntimeObservesKeeps(s: Session, e: Endpoint, x: Exchange, event: Events.LifecycleEvent)
    requires RuntimeOk(s, e) && e.phase == Exchanging(x) && e.c.Valid()
    ensures RuntimeOk(s, BridgingStep(s, e, x, Observe(event)))
  {
  }

  lemma RuntimeRetiresKeeps(s: Session, c: Channel, x: Exchange)
    requires RuntimeExchanged(s, c, x)
    ensures RuntimeExchanged(s, RetireStep(c), x)
  {
  }

  lemma RuntimeLosesKeeps(s: Session, e: Endpoint, x: Exchange)
    requires RuntimeOk(s, e) && e.phase == Exchanging(x) && e.c.Valid()
    ensures RuntimeOk(s, BridgingStep(s, e, x, LoseTransport))
  {
    RuntimeRetiresKeeps(s, e.c, x);
    if e.bridge.Some? { BridgeSurvives(s, e.c, RetireStep(e.c), e.bridge.value); }
  }

  lemma RuntimeShakingStepKeeps(s: Session, e: Endpoint, h: Handshake, a: Action)
    requires RuntimeOk(s, e) && e.phase == Shaking(h) && e.c.Valid()
    ensures RuntimeOk(s, ShakingStep(s, e, h, a))
  {
    match a {
      case StartHandshake => RuntimeStartKeeps(s, e.c, h);
      case ReceiveHandshake(frame) => RuntimeReceiveKeeps(s, e.c, h, frame);
      case CompleteHandshake => RuntimeCompleteKeeps(s, e.c, h);
      case BeginExchange => if ExchangeOf(h).Ok? { RuntimeBeginKeeps(s, e.c, h); }
      case _ =>
    }
  }

  lemma RuntimeStepKeeps(s: Session, e: Endpoint, a: Action)
    requires RuntimeOk(s, e) && e.c.Valid()
    ensures RuntimeOk(s, EndpointStep(s, e, a))
  {
    match e.phase {
      case Shaking(h) => RuntimeShakingStepKeeps(s, e, h, a);
      case Exchanging(x) =>
        if ExchangeCall(a) {
          RuntimeExchangingStepKeeps(s, e, x, a);
        } else {
          RuntimeBridgingStepKeeps(s, e, x, a);
        }
    }
  }

  lemma RuntimeDirectKeeps(s: Session, e: Endpoint, x: Exchange, op: LinkAction)
    requires RuntimeOk(s, e) && e.phase == Exchanging(x) && Settled(e) && e.c.Valid()
    ensures RuntimeOk(s, e.(c := EndStep(e.c, s.mac, op)))
  {
    var c' := EndStep(e.c, s.mac, op);
    DirectUseExtends(e.c, s.mac, op);
    RuntimeExtensionKeeps(s, e.c, c', x);
    if e.bridge.Some? { BridgeSurvives(s, e.c, c', e.bridge.value); }
  }

  lemma RuntimeStatusKeeps(s: Session, e: Endpoint, x: Exchange)
    requires RuntimeOk(s, e) && e.phase == Exchanging(x) && e.bridge.Some? && e.c.Valid()
    ensures RuntimeOk(s, BridgingStep(s, e, x, SendStatus))
  {
    var run := s.messages.encode(StatusMessage(e.bridge.value.status));
    if x.state.Activated? {
      RuntimeDirectKeeps(s, e, x, Seal(Runtime, run));
    } else {
      assert SealStep(e.c, s.mac, run).0 == e.c;
    }
  }

  lemma StepKeeps(s: Session, w: World, side: Role, a: Action)
    requires s.Sound() && WorldOk(s, w) && Enabled(s, w, side, a)
    ensures WorldOk(s, Step(s, w, side, a))
  {
    StepKeepsLink(s, w, side, a);
    if side.Supervisor? {
      SupervisorStepKeeps(s, w.supervisor, a);
    } else {
      RuntimeStepKeeps(s, w.runtime, a);
    }
  }

  /** A run: each action is one the transport and the callers can take next. */
  ghost predicate IsRun(s: Session, w: World, actions: seq<(Role, Action)>)
    decreases |actions|
  {
    && w.supervisor.c.Valid() && w.runtime.c.Valid()
    && (actions != [] ==>
          var (side, a) := actions[0];
          Enabled(s, w, side, a) && IsRun(s, Step(s, w, side, a), actions[1..]))
  }

  ghost function After(s: Session, w: World, actions: seq<(Role, Action)>): World
    requires IsRun(s, w, actions)
    decreases |actions|
  {
    if actions == [] then w else After(s, Step(s, w, actions[0].0, actions[0].1), actions[1..])
  }

  lemma {:induction false} RunsKeepWorld(s: Session, w: World, actions: seq<(Role, Action)>)
    requires s.Sound() && WorldOk(s, w) && IsRun(s, w, actions)
    ensures WorldOk(s, After(s, w, actions))
    decreases |actions|
  {
    if actions != [] {
      var (side, a) := actions[0];
      StepKeeps(s, w, side, a);
      RunsKeepWorld(s, Step(s, w, side, a), actions[1..]);
    }
  }
}

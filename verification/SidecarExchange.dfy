/** The one-shot configuration exchange and the runtime bridge it activates. */
module SidecarExchange {
  import opened Wrappers
  import opened ByteStrings
  import opened SizedWriters
  import opened SidecarFrame
  import opened SidecarNegotiation
  import opened SidecarChannel
  import opened SidecarHandshake
  import opened SidecarConfiguration
  import opened CommandRuntimeBuilder
  import Events = LifecycleEvents

  datatype ExchangeState =
    | ExchangeStarting
    | AwaitingConfiguration
    | AwaitingAcknowledgement
    | AcknowledgementPending
    | ExchangeConfigured
    | Activated
    | ExchangeFailed

  datatype ExchangeError =
    | HandshakeNotAuthenticated
    | ExchangeFrameFault(frame: FrameError)
    | ConfigurationRejected(bridge: BridgeError)
    | SupervisorMustConfigure
    | RuntimeMustAcknowledge
    | ExchangeRoleMismatch
    | ExchangeChannelMismatch
    | ManifestMismatch
    | UnexpectedExchangeMessage

  datatype Exchange = Exchange(
    role: Role, channelId: nat, selection: Selection, runtimeVersion: string, state: ExchangeState,
    configuration: Option<Configuration>, expectedManifest: Option<Manifest>, maxPayload: Option<nat>)
  {
    predicate Substituted(c: Channel) {
      c.id != channelId
    }
  }

  /** The exchange an authenticated handshake turns into. */
  function ExchangeOf(h: Handshake): Result<Exchange, ExchangeError> {
    if !h.state.Authenticated? || h.negotiated.None? || h.bound.None? then Err(HandshakeNotAuthenticated)
    else
      var role, n := h.offer.peer.role, h.negotiated.value;
      Ok(Exchange(role, h.bound.value, n.selection,
                  if role.Runtime? then h.offer.peer.version else n.remotePeer.version,
                  if role.Supervisor? then ExchangeStarting else AwaitingConfiguration,
                  None, None, None))
  }

  function Abandon(x: Exchange): Exchange {
    x.(configuration := None, expectedManifest := None, maxPayload := None, state := ExchangeFailed)
  }

  /** What either side checks before it takes a configuration as its own. */
  function AdoptionFault(x: Exchange, c: Channel, codec: Codec<RuntimeMessage>, g: Configuration)
      : Option<BridgeError>
    requires c.Valid()
  {
    if ConfigurationFault(g, x.selection).Some? then ConfigurationFault(g, x.selection)
    else StatusBudgetFault(codec, x.runtimeVersion, g.manifestGeneration, c.MaxPayload())
  }

  function Adopt(x: Exchange, c: Channel, g: Configuration): Exchange
    requires c.Valid()
  {
    x.(configuration := Some(g), expectedManifest := Some(ManifestOf(g)), maxPayload := Some(c.MaxPayload()),
       state := AwaitingAcknowledgement)
  }

  function ProposeStep(x: Exchange, c: Channel, mac: Mac, codec: Codec<RuntimeMessage>, g: Configuration)
      : (Exchange, Channel, Result<Bytes, ExchangeError>)
    requires c.Valid()
  {
    var fault := AdoptionFault(x, c, codec, g);
    if fault.Some? then (Abandon(x), RetireStep(c), Err(ConfigurationRejected(fault.value)))
    else match SealStep(c, mac, codec.encode(ConfigureMessage(g)))
      case (_, Err(e)) => (Abandon(x), RetireStep(c), Err(ExchangeFrameFault(e)))
      case (c', Ok(frame)) => (Adopt(x, c, g), c', Ok(frame))
  }

  /** The supervisor seals its single configuration. */
  function ConfigureStep(x: Exchange, c: Channel, mac: Mac, codec: Codec<RuntimeMessage>, g: Configuration)
      : (Exchange, Channel, Result<Bytes, ExchangeError>)
    requires c.Valid()
  {
    if x.Substituted(c) then (x, RetireStep(c), Err(ExchangeChannelMismatch))
    else if !x.role.Supervisor? then (Abandon(x), RetireStep(c), Err(SupervisorMustConfigure))
    else if c.role != x.role then (Abandon(x), RetireStep(c), Err(ExchangeRoleMismatch))
    else if !x.state.ExchangeStarting? then (Abandon(x), RetireStep(c), Err(UnexpectedExchangeMessage))
    else ProposeStep(x, c.(locked := true), mac, codec, g)
  }

  /** What a peer does with one runtime message it has opened. */
  function HandleRuntimeMessage(x: Exchange, c: Channel, codec: Codec<RuntimeMessage>, message: RuntimeMessage)
      : (Exchange, Channel, Result<Option<Configuration>, ExchangeError>)
    requires c.Valid()
  {
    if x.role.Runtime? && x.state.AwaitingConfiguration? && message.ConfigureMessage? then
      var fault := AdoptionFault(x, c, codec, message.configuration);
      if fault.Some? then (Abandon(x), RetireStep(c), Err(ConfigurationRejected(fault.value)))
      else (Adopt(x, c, message.configuration), c, Ok(Some(message.configuration)))
    else if x.role.Supervisor? && x.state.AwaitingAcknowledgement? && message.ConfiguredMessage? then
      if x.expectedManifest != Some(message.manifest)
      then (Abandon(x), RetireStep(c), Err(ManifestMismatch))
      else (x.(state := ExchangeConfigured), c, Ok(None))
    else (Abandon(x), RetireStep(c), Err(UnexpectedExchangeMessage))
  }

  /** The runtime receives the configuration, or the supervisor its acknowledgement. */
  function ConfigurationReceiveStep(x: Exchange, c: Channel, mac: Mac, codec: Codec<RuntimeMessage>, frame: Bytes)
      : (Exchange, Channel, Result<Option<Configuration>, ExchangeError>)
    requires c.Valid()
  {
    if x.Substituted(c) then (x, RetireStep(c), Err(ExchangeChannelMismatch))
    else if c.role != x.role then (Abandon(x), RetireStep(c), Err(ExchangeRoleMismatch))
    else
      var c1 := c.(locked := true);
      match OpenStep(c1, mac, frame, codec.decode)
      case (c2, Err(e)) => (Abandon(x), RetireStep(c2), Err(ExchangeFrameFault(e)))
      case (c2, Ok(message)) =>
        assert c2.Valid() by { FailuresAreClosed(c1, mac, Serialization([], true), frame, codec.decode); }
        HandleRuntimeMessage(x, c2, codec, message)
  }

  /** The runtime seals its acknowledgement of exactly the validated manifest. */
  function AcknowledgeStep(x: Exchange, c: Channel, mac: Mac, codec: Codec<RuntimeMessage>, m: Manifest)
      : (Exchange, Channel, Result<Bytes, ExchangeError>)
    requires c.Valid()
  {
    if x.Substituted(c) then (x, RetireStep(c), Err(ExchangeChannelMismatch))
    else if !x.role.Runtime? then (Abandon(x), RetireStep(c), Err(RuntimeMustAcknowledge))
    else if c.role != x.role then (Abandon(x), RetireStep(c), Err(ExchangeRoleMismatch))
    else if !x.state.AwaitingAcknowledgement?
    then (Abandon(x), RetireStep(c), Err(UnexpectedExchangeMessage))
    else if x.expectedManifest != Some(m) then (Abandon(x), RetireStep(c), Err(ManifestMismatch))
    else match SealStep(c, mac, codec.encode(ConfiguredMessage(m)))
      case (_, Err(e)) => (Abandon(x), RetireStep(c), Err(ExchangeFrameFault(e)))
      case (c', Ok(frame)) => (x.(state := AcknowledgementPending), c', Ok(frame))
  }

  /** The runtime commits once its acknowledgement has been written. */
  function CompleteAcknowledgementStep(x: Exchange, c: Channel): (Exchange, Channel, Option<ExchangeError>) {
    if x.Substituted(c) then (x, RetireStep(c), Some(ExchangeChannelMismatch))
    else if !x.role.Runtime? then (Abandon(x), RetireStep(c), Some(RuntimeMustAcknowledge))
    else if c.retired then (Abandon(x), RetireStep(c), Some(ExchangeFrameFault(ChannelRetired)))
    else if !x.state.AcknowledgementPending?
    then (Abandon(x), RetireStep(c), Some(UnexpectedExchangeMessage))
    else (x.(state := ExchangeConfigured), c, None)
  }

  /** The immutable manifest, the runtime that enforces it, and its current status. */
  datatype Bridge = Bridge(runtime: CommandRuntime, manifest: Manifest, status: Status)

  function ActivateStep(x: Exchange, c: Channel): (Exchange, Channel, Result<Bridge, BridgeError>) {
    if x.Substituted(c) then (x, RetireStep(c), Err(BridgeChannelMismatch))
    else if c.retired then (Abandon(x), c, Err(BridgeChannelRetired))
    else if !x.role.Runtime? then (x, c, Err(RuntimeRoleRequired))
    else if x.configuration.None? then (x, c, Err(ConfigurationNotValidated))
    else
      var m := ManifestOf(x.configuration.value);
      if !x.state.ExchangeConfigured? || x.expectedManifest != Some(m) || x.maxPayload.None?
      then (x, c, Err(ConfigurationNotValidated))
      else match RuntimeOf(x.configuration.value, m)
        case Err(e) => (x, c, Err(BuildFault(e)))
        case Ok(runtime) =>
          (x.(state := Activated), c,
           Ok(Bridge(runtime, m, Status(Configured, m.manifestGeneration, x.runtimeVersion, 0, None))))
  }

  // ---- what one call means ----

  /** A call that failed on the bound channel: nothing is left of the exchange or of the
      channel. */
  predicate Gone(x: Exchange, c: Channel) {
    x.state.ExchangeFailed? && c.retired
  }

  lemma ReceiveErrorsAreTerminal(x: Exchange, c: Channel, mac: Mac, codec: Codec<RuntimeMessage>, frame: Bytes)
    requires c.Valid() && !x.Substituted(c)
    ensures var (x', c', r) := ConfigurationReceiveStep(x, c, mac, codec, frame); r.Err? ==> Gone(x', c')
    ensures Gone(x, c) ==> ConfigurationReceiveStep(x, c, mac, codec, frame).2.Err?
  {
  }

  /** On a retired channel, whoever retired it, nothing is proposed, adopted, acknowledged,
      committed to or activated. */
  lemma RetiredChannelsExchangeNothing(x: Exchange, c: Channel, mac: Mac, codec: Codec<RuntimeMessage>, frame: Bytes,
                                       g: Configuration, m: Manifest)
    requires c.Valid() && c.retired
    ensures ConfigureStep(x, c, mac, codec, g).2.Err? && ConfigurationReceiveStep(x, c, mac, codec, frame).2.Err?
    ensures AcknowledgeStep(x, c, mac, codec, m).2.Err?
    ensures CompleteAcknowledgementStep(x, c).2.Some? && ActivateStep(x, c).2.Err?
  {
    FailuresAreClosed(c.(locked := true), mac, codec.encode(ConfigureMessage(g)), frame, codec.decode);
    FailuresAreClosed(c, mac, codec.encode(ConfiguredMessage(m)), frame, codec.decode);
  }

  /** Every error on the bound channel except a refused activation is terminal,
      and nothing revives a failed exchange. */
  lemma ExchangeErrorsAreTerminal(x: Exchange, c: Channel, mac: Mac, codec: Codec<RuntimeMessage>, frame: Bytes,
                                  g: Configuration, m: Manifest)
    requires c.Valid() && !x.Substituted(c)
    ensures var (x', c', r) := ConfigureStep(x, c, mac, codec, g); r.Err? ==> Gone(x', c')
    ensures var (x', c', r) := ConfigurationReceiveStep(x, c, mac, codec, frame); r.Err? ==> Gone(x', c')
    ensures var (x', c', r) := AcknowledgeStep(x, c, mac, codec, m); r.Err? ==> Gone(x', c')
    ensures var (x', c', fault) := CompleteAcknowledgementStep(x, c); fault.Some? ==> Gone(x', c')
    ensures Gone(x, c) ==>
              && ConfigureStep(x, c, mac, codec, g).2.Err? && AcknowledgeStep(x, c, mac, codec, m).2.Err?
              && ConfigurationReceiveStep(x, c, mac, codec, frame).2.Err?
              && CompleteAcknowledgementStep(x, c).2.Some? && ActivateStep(x, c).2.Err?
              && ActivateStep(x, c).0.state.ExchangeFailed?
  {
    ReceiveErrorsAreTerminal(x, c, mac, codec, frame);
  }

  /** A different channel instance is retired and the exchange left as it was. */
  lemma SubstitutesLeaveTheExchange(x: Exchange, c: Channel, mac: Mac, codec: Codec<RuntimeMessage>, frame: Bytes,
                                    g: Configuration, m: Manifest)
    requires c.Valid() && x.Substituted(c)
    ensures ConfigureStep(x, c, mac, codec, g) == (x, RetireStep(c), Err(ExchangeChannelMismatch))
    ensures ConfigurationReceiveStep(x, c, mac, codec, frame) == (x, RetireStep(c), Err(ExchangeChannelMismatch))
    ensures AcknowledgeStep(x, c, mac, codec, m) == (x, RetireStep(c), Err(ExchangeChannelMismatch))
    ensures CompleteAcknowledgementStep(x, c) == (x, RetireStep(c), Some(ExchangeChannelMismatch))
    ensures ActivateStep(x, c) == (x, RetireStep(c), Err(BridgeChannelMismatch))
  {
  }

  /** Activation succeeds only from a configured runtime exchange on its own live
      channel, and the step out of that state makes a second one impossible. */
  lemma ActivatesOnlyOnce(x: Exchange, c: Channel)
    ensures ActivateStep(x, c).2.Ok? ==>
      && x.state.ExchangeConfigured? && x.role.Runtime? && !x.Substituted(c) && !c.retired
      && ActivateStep(x, c).0.state.Activated?
    ensures ActivateStep(x, c).2.Ok? ==>
      var b := ActivateStep(x, c).2.value;
      && x.configuration.Some? && b.manifest == ManifestOf(x.configuration.value)
      && b.status.state.Configured? && b.status.attempt == 0 && b.status.reason.None?
      && b.status.runtimeVersion == x.runtimeVersion && b.status.manifestGeneration == b.manifest.manifestGeneration
    ensures x.state.Activated? ==> ActivateStep(x, c).2.Err?
  {
  }

  // ---- lifecycle status ----

  function DisconnectCause(r: Events.DisconnectReason): RuntimeReason {
    match r
    case Client(Configuration) => ConfigurationReason
    case Client(Transport) => TransportReason
    case Client(Protocol) => ProtocolReason
    case Client(Identity) => IdentityReason
    case Client(Gateway) => GatewayReason
    case Client(RequestTimeout) => RequestTimeoutReason
    case Client(EventLagged) => EventLaggedReason
    case Client(Activation) => ActivationReason
    case Runtime(DeliverySaturated) => DeliverySaturatedReason
    case Runtime(ResultTask) => ResultTaskReason
    case RuntimeEnded => RuntimeEndedReason
    case Shutdown => ShutdownReason
  }

  function PauseCause(p: Events.ReconnectPause): RuntimeReason {
    match p
    case DevicePairing(_) => PairingReason
    case AuthenticationPause(_) => AuthenticationReason
    case ProtocolPause(_) => ProtocolReason
    case ConfigurationPause => ConfigurationReason
    case LocalIdentity => IdentityReason
  }

  /** The state, raw attempt and reason a lifecycle event projects to. */
  function Projection(e: Events.LifecycleEvent): (RuntimeState, nat, Option<RuntimeReason>) {
    match e
    case Connecting(attempt) => (RuntimeState.Connecting, attempt, None)
    case Connected(attempt) => (RuntimeState.Connecting, attempt, None)
    case Ready(attempt) => (RuntimeState.Ready, attempt, None)
    case Disconnected(attempt, reason) =>
      (if reason.Shutdown? then Draining else RuntimeState.Connecting, attempt, Some(DisconnectCause(reason)))
    case BackingOff(attempt, _, reason) => (RuntimeState.BackingOff, attempt, Some(DisconnectCause(reason)))
    case Paused(attempt, pause) => (RuntimeState.Paused, attempt, Some(PauseCause(pause)))
    case Stopped(attempt, _) => (RuntimeState.Stopped, attempt, Some(ShutdownReason))
  }

  function ObserveStep(b: Bridge, e: Events.LifecycleEvent): Bridge {
    var (state, attempt, reason) := Projection(e);
    b.(status := Status(state, b.manifest.manifestGeneration, b.status.runtimeVersion,
                        Min(attempt, MAX_PORTABLE_INTEGER), reason))
  }

  function ObserveAll(b: Bridge, events: seq<Events.LifecycleEvent>): Bridge {
    if events == [] then b else ObserveStep(ObserveAll(b, events[..|events| - 1]), events[|events| - 1])
  }

  /** What a bridge keeps from activation on: its status is about its own manifest
      generation, and every message built from it is portable. */
  predicate Steady(b: Bridge, version: string) {
    && b.status.runtimeVersion == version && b.status.manifestGeneration == b.manifest.manifestGeneration
    && b.status.attempt <= MAX_PORTABLE_INTEGER && b.manifest.manifestGeneration <= MAX_PORTABLE_INTEGER
  }

  lemma {:induction false} ObservingKeepsSteady(b: Bridge, version: string, events: seq<Events.LifecycleEvent>)
    requires Steady(b, version)
    ensures Steady(ObserveAll(b, events), version)
    ensures ObserveAll(b, events).manifest == b.manifest && ObserveAll(b, events).runtime == b.runtime
  {
    if events != [] {
      ObservingKeepsSteady(b, version, events[..|events| - 1]);
    }
  }

  /** Room reserved once is room enough for every status the bridge ever reports. */
  lemma EveryStatusFits(codec: Codec<RuntimeMessage>, b: Bridge, version: string,
                        events: seq<Events.LifecycleEvent>, maxPayload: nat)
    requires WritesJson(codec) && Steady(b, version)
    requires StatusBudgetFault(codec, version, b.manifest.manifestGeneration, maxPayload).None?
    ensures Outcome(codec.encode(StatusMessage(ObserveAll(b, events).status)), maxPayload).Written?
  {
    ObservingKeepsSteady(b, version, events);
    var s := ObserveAll(b, events).status;
    var worst := WorstStatus(version, b.manifest.manifestGeneration);
    assert PortableMessage(StatusMessage(worst)) && PortableMessage(StatusMessage(s));
    WorstStatusIsWorst(s);
  }

  // ---- the mutable exchange ----

  class SidecarConfigurationExchange {
    const role: Role
    const channelInstanceId: nat
    const selection: Selection
    const runtimeVersion: string
    const codec: Codec<RuntimeMessage>
    var state: ExchangeState
    var configuration: Option<Configuration>
    var expectedManifest: Option<Manifest>
    var maxPayloadBytes: Option<nat>

    ghost function View(): Exchange
      reads this
    {
      Exchange(role, channelInstanceId, selection, runtimeVersion, state, configuration, expectedManifest,
               maxPayloadBytes)
    }

    constructor Bind(x: Exchange, codec: Codec<RuntimeMessage>)
      ensures View() == x && this.codec == codec
    {
      role, channelInstanceId, selection, runtimeVersion := x.role, x.channelId, x.selection, x.runtimeVersion;
      this.codec, state, configuration := codec, x.state, x.configuration;
      expectedManifest, maxPayloadBytes := x.expectedManifest, x.maxPayload;
    }

    /** The exchange that takes over a committed handshake's channel and selection. */
    static method New(handshake: SidecarHandshake, codec: Codec<RuntimeMessage>)
        returns (r: Result<SidecarConfigurationExchange, ExchangeError>)
      ensures match r {
                case Ok(x) => fresh(x) && x.codec == codec && ExchangeOf(handshake.View()) == Ok(x.View())
                case Err(e) => ExchangeOf(handshake.View()) == Err(e)
              }
    {
      if !handshake.state.Authenticated? { return Err(HandshakeNotAuthenticated); }
      if handshake.negotiated.None? { return Err(HandshakeNotAuthenticated); }
      if handshake.channelInstanceId.None? { return Err(HandshakeNotAuthenticated); }
      var role, n := handshake.localOffer.peer.role, handshake.negotiated.value;
      var version := match role {
        case Runtime => handshake.localOffer.peer.version
        case Supervisor => n.remotePeer.version
      };
      var first := match role { case Supervisor => ExchangeStarting case Runtime => AwaitingConfiguration };
      var x := new SidecarConfigurationExchange.Bind(
        Exchange(role, handshake.channelInstanceId.value, n.selection, version, first, None, None, None), codec);
      r := Ok(x);
    }

    method EnsureChannel(channel: AuthenticatedSidecarChannel) returns (same: bool)
      requires channel.Valid()
      modifies channel
      ensures same <==> !View().Substituted(old(channel.View()))
      ensures channel.View() == if same then old(channel.View()) else RetireStep(old(channel.View()))
      ensures channel.Valid()
    {
      same := channel.instanceId == channelInstanceId;
      if !same { channel.Retire(); }
    }

    method Fail(channel: AuthenticatedSidecarChannel)
      requires channel.Valid()
      modifies this, channel
      ensures View() == Abandon(old(View())) && channel.View() == RetireStep(old(channel.View()))
      ensures channel.Valid()
    {
      channel.Retire();
      configuration, expectedManifest, maxPayloadBytes := None, None, None;
      state := ExchangeFailed;
    }

    /** The validation both sides make before they adopt a configuration. */
    method CheckConfiguration(channel: AuthenticatedSidecarChannel, g: Configuration)
        returns (fault: Option<BridgeError>)
      requires channel.Valid()
      ensures fault == AdoptionFault(View(), channel.View(), codec, g)
    {
      fault := ValidateConfiguration(g, selection);
      if fault.None? {
        var maxPayload := channel.maxFrameBytes - FIXED_HEADER_BYTES - |channel.sessionId| - AUTH_TAG_BYTES;
        fault := ValidateStatusBudget(codec, runtimeVersion, g.manifestGeneration, maxPayload);
      }
    }

    method Commit(channel: AuthenticatedSidecarChannel, g: Configuration)
      requires channel.Valid()
      modifies this
      ensures View() == Adopt(old(View()), channel.View(), g)
    {
      configuration, expectedManifest := Some(g), Some(ManifestOf(g));
      maxPayloadBytes := Some(channel.maxFrameBytes - FIXED_HEADER_BYTES - |channel.sessionId| - AUTH_TAG_BYTES);
      state := AwaitingAcknowledgement;
    }

    method Start(channel: AuthenticatedSidecarChannel, g: Configuration) returns (r: Result<Bytes, ExchangeError>)
      requires channel.Valid()
      modifies this, channel
      ensures (View(), channel.View(), r)
           == ConfigureStep(old(View()), old(channel.View()), channel.mac, codec, g)
      ensures channel.Valid()
    {
      var same := EnsureChannel(channel);
      if !same { return Err(ExchangeChannelMismatch); }
      if !role.Supervisor? {
        Fail(channel);
        return Err(SupervisorMustConfigure);
      }
      if channel.role != role {
        Fail(channel);
        return Err(ExchangeRoleMismatch);
      }
      if !state.ExchangeStarting? {
        Fail(channel);
        return Err(UnexpectedExchangeMessage);
      }
      channel.LockFrameLimit();
      r := Propose(channel, g);
    }

    /** Validate, seal and adopt the configuration on a locked channel. */
    method Propose(channel: AuthenticatedSidecarChannel, g: Configuration) returns (r: Result<Bytes, ExchangeError>)
      requires channel.Valid()
      modifies this, channel
      ensures (View(), channel.View(), r)
           == ProposeStep(old(View()), old(channel.View()), channel.mac, codec, g)
      ensures channel.Valid()
    {
      ghost var before := channel.View();
      var fault := CheckConfiguration(channel, g);
      if fault.Some? {
        Fail(channel);
        return Err(ConfigurationRejected(fault.value));
      }
      var sealed := channel.Seal(codec.encode(ConfigureMessage(g)));
      assert (channel.View(), sealed) == SealStep(before, channel.mac, codec.encode(ConfigureMessage(g)));
      if sealed.Err? {
        Fail(channel);
        return Err(ExchangeFrameFault(sealed.error));
      }
      assert channel.View().MaxPayload() == before.MaxPayload();
      Commit(channel, g);
      assert View() == Adopt(old(View()), before, g);
      r := Ok(sealed.value);
    }

    method Receive(channel: AuthenticatedSidecarChannel, frame: Bytes)
        returns (r: Result<Option<Configuration>, ExchangeError>)
      requires channel.Valid()
      modifies this, channel
      ensures (View(), channel.View(), r)
           == ConfigurationReceiveStep(old(View()), old(channel.View()), channel.mac, codec, frame)
      ensures channel.Valid()
    {
      var same := EnsureChannel(channel);
      if !same { return Err(ExchangeChannelMismatch); }
      if channel.role != role {
        Fail(channel);
        return Err(ExchangeRoleMismatch);
      }
      channel.LockFrameLimit();
      var incoming := channel.Open(frame, codec.decode);
      if incoming.Err? {
        Fail(channel);
        return Err(ExchangeFrameFault(incoming.error));
      }
      var message := incoming.value;
      if role.Runtime? && state.AwaitingConfiguration? && message.ConfigureMessage? {
        var fault := CheckConfiguration(channel, message.configuration);
        if fault.Some? {
          Fail(channel);
          return Err(ConfigurationRejected(fault.value));
        }
        Commit(channel, message.configuration);
        return Ok(Some(message.configuration));
      }
      if role.Supervisor? && state.AwaitingAcknowledgement? && message.ConfiguredMessage? {
        if expectedManifest != Some(message.manifest) {
          Fail(channel);
          return Err(ManifestMismatch);
        }
        state := ExchangeConfigured;
        return Ok(None);
      }
      Fail(channel);
      r := Err(UnexpectedExchangeMessage);
    }

    method Acknowledge(channel: AuthenticatedSidecarChannel, m: Manifest) returns (r: Result<Bytes, ExchangeError>)
      requires channel.Valid()
      modifies this, channel
      ensures (View(), channel.View(), r)
           == AcknowledgeStep(old(View()), old(channel.View()), channel.mac, codec, m)
      ensures channel.Valid()
    {
      var same := EnsureChannel(channel);
      if !same { return Err(ExchangeChannelMismatch); }
      if !role.Runtime? {
        Fail(channel);
        return Err(RuntimeMustAcknowledge);
      }
      if channel.role != role {
        Fail(channel);
        return Err(ExchangeRoleMismatch);
      }
      if !state.AwaitingAcknowledgement? {
        Fail(channel);
        return Err(UnexpectedExchangeMessage);
      }
      if expectedManifest != Some(m) {
        Fail(channel);
        return Err(ManifestMismatch);
      }
      var sealed := channel.Seal(codec.encode(ConfiguredMessage(m)));
      if sealed.Err? {
        Fail(channel);
        return Err(ExchangeFrameFault(sealed.error));
      }
      state := AcknowledgementPending;
      r := Ok(sealed.value);
    }

    method CompleteAcknowledgement(channel: AuthenticatedSidecarChannel) returns (fault: Option<ExchangeError>)
      requires channel.Valid()
      modifies this, channel
      ensures (View(), channel.View(), fault)
           == CompleteAcknowledgementStep(old(View()), old(channel.View()))
      ensures channel.Valid()
    {
      var same := EnsureChannel(channel);
      if !same { return Some(ExchangeChannelMismatch); }
      if !role.Runtime? {
        Fail(channel);
        return Some(RuntimeMustAcknowledge);
      }
      if channel.retired {
        Fail(channel);
        return Some(ExchangeFrameFault(ChannelRetired));
      }
      if !state.AcknowledgementPending? {
        Fail(channel);
        return Some(UnexpectedExchangeMessage);
      }
      state := ExchangeConfigured;
      fault := None;
    }
  }

  class SidecarRuntimeBridge {
    const runtime: CommandRuntime
    const manifest: Manifest
    var status: Status

    ghost function View(): Bridge
      reads this
    {
      Bridge(runtime, manifest, status)
    }

    constructor Build(runtime: CommandRuntime, manifest: Manifest, status: Status)
      ensures View() == Bridge(runtime, manifest, status)
    {
      this.runtime, this.manifest, this.status := runtime, manifest, status;
    }

    /** Build a bridge from the runtime side of a completed exchange. */
    static method Activate(exchange: SidecarConfigurationExchange, channel: AuthenticatedSidecarChannel)
        returns (r: Result<SidecarRuntimeBridge, BridgeError>)
      requires channel.Valid()
      modifies exchange, channel
      ensures var spec := ActivateStep(old(exchange.View()), old(channel.View()));
              && exchange.View() == spec.0 && channel.View() == spec.1
              && match r {
                   case Ok(b) => fresh(b) && spec.2 == Ok(b.View())
                   case Err(e) => spec.2 == Err(e)
                 }
      ensures channel.Valid()
    {
      if channel.instanceId != exchange.channelInstanceId {
        channel.Retire();
        return Err(BridgeChannelMismatch);
      }
      if channel.retired {
        exchange.configuration, exchange.expectedManifest, exchange.maxPayloadBytes := None, None, None;
        exchange.state := ExchangeFailed;
        return Err(BridgeChannelRetired);
      }
      if !exchange.role.Runtime? { return Err(RuntimeRoleRequired); }
      if exchange.configuration.None? { return Err(ConfigurationNotValidated); }
      var g := exchange.configuration.value;
      var manifest := ManifestOf(g);
      if !exchange.state.ExchangeConfigured? || exchange.expectedManifest != Some(manifest) {
        return Err(ConfigurationNotValidated);
      }
      if exchange.maxPayloadBytes.None? { return Err(ConfigurationNotValidated); }
      var built := BuildCommandRuntime(g, manifest);
      if built.Err? { return Err(BuildFault(built.error)); }
      var bridge := new SidecarRuntimeBridge.Build(
        built.value, manifest,
        Status(Configured, manifest.manifestGeneration, exchange.runtimeVersion, 0, None));
      exchange.state := Activated;
      r := Ok(bridge);
    }

    /** Apply one lifecycle event to the status shown to the supervisor. */
    method ObserveLifecycle(event: Events.LifecycleEvent)
      modifies this
      ensures View() == ObserveStep(old(View()), event)
    {
      var (state, attempt, reason) := Projection(event);
      status := Status(state, manifest.manifestGeneration, status.runtimeVersion,
                       Min(attempt, MAX_PORTABLE_INTEGER), reason);
    }
  }
}

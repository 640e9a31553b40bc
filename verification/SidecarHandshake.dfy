/** The two-frame offer/accept handshake of one peer. */
module SidecarHandshake {
  import opened Wrappers
  import opened ByteStrings
  import opened SizedWriters
  import opened SidecarFrame
  import opened SidecarNegotiation
  import opened SidecarChannel
  import Text

  /** A JSON representation of one message type. */
  datatype Codec<!M> = Codec(encode: M -> Serialization, decode: Bytes -> Option<M>)

  /** Whatever serializes reads back. */
  ghost predicate Lawful<M(!new)>(codec: Codec<M>) {
    forall m: M :: codec.encode(m).complete ==> codec.decode(codec.encode(m).Text()) == Some(m)
  }

  datatype HandshakeMessage =
    | OfferMessage(offer: Offer)
    | AcceptMessage(offer: Offer, selection: Selection)

  datatype HandshakeState = Starting | AwaitingAcceptance | AcceptancePending | Authenticated | Failed

  datatype HandshakeError =
    | FrameFault(frame: FrameError)
    | NegotiationFault(protocol: ProtocolError)
    | SupervisorMustInitiate
    | SelectionMismatch
    | UnexpectedMessage
    | InvalidPeerIdentity
    | WrongPeerRole
    | ChannelRoleMismatch
    | ChannelInstanceMismatch

  datatype Handshake = Handshake(
    offer: Offer, state: HandshakeState, negotiated: Option<Negotiated>, pending: Option<Negotiated>,
    bound: Option<nat>)
  {
    /** `negotiated` is set exactly when authenticated, `pending` exactly while
        the acceptance waits to be written. */
    predicate Consistent() {
      && (negotiated.Some? <==> state.Authenticated?)
      && (pending.Some? <==> state.AcceptancePending?)
    }

    /** Whether a call with this channel is about another channel instance. */
    predicate Substituted(c: Channel) {
      bound.Some? && bound.value != c.id
    }

    function Bind(c: Channel): Handshake {
      this.(bound := Some(c.id))
    }
  }

  predicate BlankIdentity(o: Offer) {
    Text.Blank(o.peer.name) || Text.Blank(o.peer.version) || Text.Blank(o.peer.artifact)
  }

  /** The same offer as a peer of the other role would make it. */
  function Counterpart(o: Offer): Offer {
    o.(peer := PeerIdentity(o.peer.role.Remote(), "validation-peer", "0", "validation-only"))
  }

  function LocalOfferFault(o: Offer): Option<HandshakeError> {
    if BlankIdentity(o) then Some(InvalidPeerIdentity)
    else match Negotiate(o, Counterpart(o))
      case Ok(_) => None
      case Err(e) => Some(NegotiationFault(e))
  }

  /** Something to be read in every field of an identity. */
  predicate Named(peer: PeerIdentity) {
    Legible(peer.name) && Legible(peer.version) && Legible(peer.artifact)
  }

  predicate Legible(field: string) {
    exists c :: c in field && !Text.IsWhitespace(c)
  }

  /** An offer may be made exactly when its peer is named, it speaks an implemented
      version, its features are portable and each of its limits leaves something. */
  lemma OfferMayBeMadeExactlyWhen(o: Offer)
    ensures LocalOfferFault(o).None?
       <==> && Named(o.peer) && o.major == PROTOCOL_MAJOR && o.minor <= PROTOCOL_MINOR
            && (forall bit :: bit in o.features ==> bit < 53)
            && o.limits.maxFrameBytes >= MIN_FRAME_BYTES && o.limits.maxInFlight >= 1 && o.limits.bootstrapTimeoutMs >= 1
  {
    Text.BlankExactlyWhen(o.peer.name);
    Text.BlankExactlyWhen(o.peer.version);
    Text.BlankExactlyWhen(o.peer.artifact);
  }

  function Fresh(o: Offer): Result<Handshake, HandshakeError> {
    if LocalOfferFault(o).Some? then Err(LocalOfferFault(o).value)
    else Ok(Handshake(o, Starting, None, None, None))
  }

  function Dead(h: Handshake): Handshake {
    h.(state := Failed, negotiated := None, pending := None)
  }

  /** The supervisor's call that seals its offer. */
  function StartStep(h: Handshake, c: Channel, mac: Mac, codec: Codec<HandshakeMessage>)
      : (Handshake, Channel, Result<Bytes, HandshakeError>)
    requires c.Valid()
  {
    if h.Substituted(c) then (h, RetireStep(c), Err(ChannelInstanceMismatch))
    else if c.role != h.offer.peer.role then (Dead(h.Bind(c)), RetireStep(c), Err(ChannelRoleMismatch))
    else if !h.offer.peer.role.Supervisor?
    then (Dead(h.Bind(c)), RetireStep(c), Err(SupervisorMustInitiate))
    else if !h.state.Starting? then (Dead(h.Bind(c)), RetireStep(c), Err(UnexpectedMessage))
    else match SealStep(c, mac, codec.encode(OfferMessage(h.offer)))
      case (_, Err(e)) => (Dead(h.Bind(c)), RetireStep(c), Err(FrameFault(e)))
      case (c', Ok(frame)) => (h.Bind(c).(state := AwaitingAcceptance), c', Ok(frame))
  }

  /** The runtime derives its selection and seals its acceptance. */
  function AcceptSupervisor(h: Handshake, c: Channel, mac: Mac, codec: Codec<HandshakeMessage>, theirs: Offer)
      : (Handshake, Channel, Result<Bytes, HandshakeError>)
    requires c.Valid()
  {
    if !theirs.peer.role.Supervisor? then (h, c, Err(WrongPeerRole))
    else if BlankIdentity(theirs) then (h, c, Err(InvalidPeerIdentity))
    else match Negotiate(h.offer, theirs)
      case Err(e) => (h, c, Err(NegotiationFault(e)))
      case Ok(n) =>
        match SealStep(c, mac, codec.encode(AcceptMessage(h.offer, n.selection)))
        case (_, Err(e)) => (h, c, Err(FrameFault(e)))
        case (c', Ok(frame)) => (h.(pending := Some(n), state := AcceptancePending), c', Ok(frame))
  }

  /** The supervisor re-derives the selection and commits to it if the claim agrees. */
  function ConfirmRuntime(h: Handshake, c: Channel, theirs: Offer, claimed: Selection)
      : (Handshake, Channel, Option<HandshakeError>)
  {
    if !theirs.peer.role.Runtime? then (h, c, Some(WrongPeerRole))
    else if BlankIdentity(theirs) then (h, c, Some(InvalidPeerIdentity))
    else match Negotiate(h.offer, theirs)
      case Err(e) => (h, c, Some(NegotiationFault(e)))
      case Ok(n) =>
        if claimed != n.selection then (h, c, Some(SelectionMismatch))
        else match ApplyStep(c, n)
          case (_, Some(e)) => (h, c, Some(NegotiationFault(e)))
          case (c', None) => (h.(negotiated := Some(n), state := Authenticated), c', None)
  }

  /** What a peer does with one message it has opened. */
  function HandleStep(h: Handshake, c: Channel, mac: Mac, codec: Codec<HandshakeMessage>, message: HandshakeMessage)
      : (Handshake, Channel, Result<Option<Bytes>, HandshakeError>)
    requires c.Valid()
  {
    if h.offer.peer.role.Runtime? && h.state.Starting? && message.OfferMessage? then
      match AcceptSupervisor(h, c, mac, codec, message.offer)
      case (h', c', Ok(reply)) => (h', c', Ok(Some(reply)))
      case (h', c', Err(e)) => (h', c', Err(e))
    else if h.offer.peer.role.Supervisor? && h.state.AwaitingAcceptance? && message.AcceptMessage? then
      match ConfirmRuntime(h, c, message.offer, message.selection)
      case (h', c', None) => (h', c', Ok(None))
      case (h', c', Some(e)) => (h', c', Err(e))
    else (h, c, Err(UnexpectedMessage))
  }

  function ReceiveActive(h: Handshake, c: Channel, mac: Mac, codec: Codec<HandshakeMessage>, frame: Bytes)
      : (Handshake, Channel, Result<Option<Bytes>, HandshakeError>)
    requires c.Valid()
  {
    match OpenStep(c, mac, frame, codec.decode)
    case (c1, Err(e)) => (h, c1, Err(FrameFault(e)))
    case (c1, Ok(message)) =>
      assert c1.Valid() by { FailuresAreClosed(c, mac, Serialization([], true), frame, codec.decode); }
      HandleStep(h, c1, mac, codec, message)
  }

  /** Any failure while receiving ends the handshake and retires the channel. */
  function Closing(r: (Handshake, Channel, Result<Option<Bytes>, HandshakeError>))
      : (Handshake, Channel, Result<Option<Bytes>, HandshakeError>)
  {
    if r.2.Err? then (Dead(r.0), RetireStep(r.1), r.2) else r
  }

  function ReceiveStep(h: Handshake, c: Channel, mac: Mac, codec: Codec<HandshakeMessage>, frame: Bytes)
      : (Handshake, Channel, Result<Option<Bytes>, HandshakeError>)
    requires c.Valid()
  {
    if h.Substituted(c) then (h, RetireStep(c), Err(ChannelInstanceMismatch))
    else if c.role != h.offer.peer.role then (Dead(h.Bind(c)), RetireStep(c), Err(ChannelRoleMismatch))
    else Closing(ReceiveActive(h.Bind(c), c, mac, codec, frame))
  }

  /** The runtime commits once its acceptance has been written. */
  function CompleteStep(h: Handshake, c: Channel): (Handshake, Channel, Option<HandshakeError>) {
    if h.Substituted(c) then (h, RetireStep(c), Some(ChannelInstanceMismatch))
    else if !c.role.Runtime? then (Dead(h.Bind(c)), RetireStep(c), Some(ChannelRoleMismatch))
    else if c.retired then (Dead(h.Bind(c)), RetireStep(c), Some(FrameFault(ChannelRetired)))
    else if !h.state.AcceptancePending? || h.pending.None?
    then (Dead(h.Bind(c)), RetireStep(c), Some(UnexpectedMessage))
    else match ApplyStep(c, h.pending.value)
      case (_, Some(e)) => (Dead(h.Bind(c)), RetireStep(c), Some(NegotiationFault(e)))
      case (c', None) =>
        (h.Bind(c).(negotiated := h.pending, pending := None, state := Authenticated), c', None)
  }

  lemma HandlingKeepsConsistent(h: Handshake, c: Channel, mac: Mac, codec: Codec<HandshakeMessage>,
                                message: HandshakeMessage)
    requires c.Valid() && h.Consistent()
    ensures Closing(HandleStep(h, c, mac, codec, message)).0.Consistent()
  {
  }

  lemma ReceivingKeepsConsistent(h: Handshake, c: Channel, mac: Mac, codec: Codec<HandshakeMessage>, frame: Bytes)
    requires c.Valid() && h.Consistent()
    ensures Closing(ReceiveActive(h, c, mac, codec, frame)).0.Consistent()
  {
    FailuresAreClosed(c, mac, Serialization([], true), frame, codec.decode);
    var (c1, message) := OpenStep(c, mac, frame, codec.decode);
    if message.Ok? { HandlingKeepsConsistent(h, c1, mac, codec, message.value); }
  }

  /** Every call keeps the two options in step with the state. */
  lemma CallsKeepConsistent(h: Handshake, c: Channel, mac: Mac, codec: Codec<HandshakeMessage>, frame: Bytes)
    requires c.Valid() && h.Consistent()
    ensures StartStep(h, c, mac, codec).0.Consistent()
    ensures ReceiveStep(h, c, mac, codec, frame).0.Consistent()
    ensures CompleteStep(h, c).0.Consistent()
  {
    ReceivingKeepsConsistent(h.Bind(c), c, mac, codec, frame);
  }

  /** On a retired channel, whoever retired it, every call fails: nothing is offered,
      answered or committed to. */
  lemma RetiredChannelsCommitToNothing(h: Handshake, c: Channel, mac: Mac, codec: Codec<HandshakeMessage>, frame: Bytes)
    requires c.Valid() && c.retired
    ensures StartStep(h, c, mac, codec).2.Err? && ReceiveStep(h, c, mac, codec, frame).2.Err?
    ensures CompleteStep(h, c).2.Some?
  {
    FailuresAreClosed(c, mac, codec.encode(OfferMessage(h.offer)), frame, codec.decode);
  }

  /** An error on the bound channel is terminal for both; nothing revives a
      failed handshake. */
  lemma ErrorsAreTerminal(h: Handshake, c: Channel, mac: Mac, codec: Codec<HandshakeMessage>, frame: Bytes)
    requires c.Valid() && !h.Substituted(c)
    ensures StartStep(h, c, mac, codec).2.Err? ==>
              StartStep(h, c, mac, codec).0.state.Failed? && StartStep(h, c, mac, codec).1.retired
    ensures ReceiveStep(h, c, mac, codec, frame).2.Err? ==>
              ReceiveStep(h, c, mac, codec, frame).0.state.Failed? && ReceiveStep(h, c, mac, codec, frame).1.retired
    ensures CompleteStep(h, c).2.Some? ==> CompleteStep(h, c).0.state.Failed? && CompleteStep(h, c).1.retired
    ensures h.state.Failed? && c.retired ==>
              StartStep(h, c, mac, codec).2.Err? && ReceiveStep(h, c, mac, codec, frame).2.Err?
              && CompleteStep(h, c).2.Some?
  {
  }

  /** A different channel instance is retired and the handshake is left as it was. */
  lemma SubstitutesAreRetired(h: Handshake, c: Channel, mac: Mac, codec: Codec<HandshakeMessage>, frame: Bytes)
    requires c.Valid() && h.Substituted(c)
    ensures StartStep(h, c, mac, codec) == (h, RetireStep(c), Err(ChannelInstanceMismatch))
    ensures ReceiveStep(h, c, mac, codec, frame) == (h, RetireStep(c), Err(ChannelInstanceMismatch))
    ensures CompleteStep(h, c) == (h, RetireStep(c), Some(ChannelInstanceMismatch))
  {
  }

  class SidecarHandshake {
    const localOffer: Offer
    const codec: Codec<HandshakeMessage>
    var state: HandshakeState
    var negotiated: Option<Negotiated>
    var pendingNegotiated: Option<Negotiated>
    var channelInstanceId: Option<nat>

    ghost function View(): Handshake
      reads this
    {
      Handshake(localOffer, state, negotiated, pendingNegotiated, channelInstanceId)
    }

    constructor Begin(offer: Offer, codec: Codec<HandshakeMessage>)
      requires LocalOfferFault(offer).None?
      ensures Fresh(offer) == Ok(View()) && this.codec == codec && View().Consistent()
    {
      localOffer, this.codec, state := offer, codec, Starting;
      negotiated, pendingNegotiated, channelInstanceId := None, None, None;
    }

    static method New(offer: Offer, codec: Codec<HandshakeMessage>) returns (r: Result<SidecarHandshake, HandshakeError>)
      ensures match r {
                case Ok(h) => fresh(h) && Fresh(offer) == Ok(h.View()) && h.codec == codec
                case Err(e) => Fresh(offer) == Err(e)
              }
    {
      var fault := LocalOfferFault(offer);
      if fault.Some? { return Err(fault.value); }
      var h := new SidecarHandshake.Begin(offer, codec);
      r := Ok(h);
    }

    method BindChannel(channel: AuthenticatedSidecarChannel) returns (same: bool)
      modifies this`channelInstanceId
      ensures same <==> !old(View()).Substituted(channel.View())
      ensures View() == if same then old(View()).Bind(channel.View()) else old(View())
    {
      if channelInstanceId.None? {
        channelInstanceId := Some(channel.instanceId);
        return true;
      }
      same := channelInstanceId.value == channel.instanceId;
    }

    method Fail(channel: AuthenticatedSidecarChannel)
      requires channel.Valid()
      modifies this, channel
      ensures View() == Dead(old(View())) && channel.View() == RetireStep(old(channel.View()))
      ensures channel.Valid()
    {
      channel.Retire();
      state, negotiated, pendingNegotiated := Failed, None, None;
    }

    method Start(channel: AuthenticatedSidecarChannel) returns (r: Result<Bytes, HandshakeError>)
      requires channel.Valid()
      modifies this, channel
      ensures (View(), channel.View(), r) == StartStep(old(View()), old(channel.View()), channel.mac, codec)
      ensures channel.Valid()
    {
      var same := BindChannel(channel);
      if !same {
        channel.Retire();
        return Err(ChannelInstanceMismatch);
      }
      if channel.role != localOffer.peer.role {
        Fail(channel);
        return Err(ChannelRoleMismatch);
      }
      if !localOffer.peer.role.Supervisor? {
        Fail(channel);
        return Err(SupervisorMustInitiate);
      }
      if !state.Starting? {
        Fail(channel);
        return Err(UnexpectedMessage);
      }
      var sealed := channel.Seal(codec.encode(OfferMessage(localOffer)));
      if sealed.Err? {
        Fail(channel);
        return Err(FrameFault(sealed.error));
      }
      state := AwaitingAcceptance;
      r := Ok(sealed.value);
    }

    method Receive(channel: AuthenticatedSidecarChannel, frame: Bytes)
        returns (r: Result<Option<Bytes>, HandshakeError>)
      requires channel.Valid()
      modifies this, channel
      ensures (View(), channel.View(), r)
           == ReceiveStep(old(View()), old(channel.View()), channel.mac, codec, frame)
      ensures channel.Valid()
    {
      var same := BindChannel(channel);
      if !same {
        channel.Retire();
        return Err(ChannelInstanceMismatch);
      }
      if channel.role != localOffer.peer.role {
        Fail(channel);
        return Err(ChannelRoleMismatch);
      }
      r := ReceiveMessage(channel, frame);
      if r.Err? {
        channel.Retire();
        state, negotiated, pendingNegotiated := Failed, None, None;
      }
    }

    method CompleteAcceptance(channel: AuthenticatedSidecarChannel) returns (fault: Option<HandshakeError>)
      requires channel.Valid()
      modifies this, channel
      ensures (View(), channel.View(), fault) == CompleteStep(old(View()), old(channel.View()))
      ensures channel.Valid()
    {
      var same := BindChannel(channel);
      if !same {
        channel.Retire();
        return Some(ChannelInstanceMismatch);
      }
      if !channel.role.Runtime? {
        Fail(channel);
        return Some(ChannelRoleMismatch);
      }
      if channel.retired {
        Fail(channel);
        return Some(FrameFault(ChannelRetired));
      }
      if !state.AcceptancePending? {
        Fail(channel);
        return Some(UnexpectedMessage);
      }
      var taken := pendingNegotiated;
      pendingNegotiated := None;
      if taken.None? {
        Fail(channel);
        return Some(UnexpectedMessage);
      }
      var refused := channel.ApplyNegotiatedProtocol(taken.value);
      if refused.Some? {
        Fail(channel);
        return Some(NegotiationFault(refused.value));
      }
      negotiated, state := taken, Authenticated;
      fault := None;
    }

    method ReceiveMessage(channel: AuthenticatedSidecarChannel, frame: Bytes)
        returns (r: Result<Option<Bytes>, HandshakeError>)
      requires channel.Valid()
      modifies this, channel
      ensures (View(), channel.View(), r)
           == ReceiveActive(old(View()), old(channel.View()), channel.mac, codec, frame)
      ensures channel.Valid()
    {
      var incoming := channel.Open(frame, codec.decode);
      if incoming.Err? { return Err(FrameFault(incoming.error)); }
      var message := incoming.value;
      if localOffer.peer.role.Runtime? && state.Starting? && message.OfferMessage? {
        var reply := Accept(channel, message.offer);
        return if reply.Ok? then Ok(Some(reply.value)) else Err(reply.error);
      }
      if localOffer.peer.role.Supervisor? && state.AwaitingAcceptance? && message.AcceptMessage? {
        var fault := Confirm(channel, message.offer, message.selection);
        return if fault.None? then Ok(None) else Err(fault.value);
      }
      r := Err(UnexpectedMessage);
    }

    method Accept(channel: AuthenticatedSidecarChannel, theirs: Offer) returns (r: Result<Bytes, HandshakeError>)
      requires channel.Valid()
      modifies this, channel
      ensures (View(), channel.View(), r)
           == AcceptSupervisor(old(View()), old(channel.View()), channel.mac, codec, theirs)
      ensures channel.Valid()
    {
      if !theirs.peer.role.Supervisor? { return Err(WrongPeerRole); }
      if BlankIdentity(theirs) { return Err(InvalidPeerIdentity); }
      var n := Negotiate(localOffer, theirs);
      if n.Err? { return Err(NegotiationFault(n.error)); }
      var sealed := channel.Seal(codec.encode(AcceptMessage(localOffer, n.value.selection)));
      if sealed.Err? { return Err(FrameFault(sealed.error)); }
      pendingNegotiated := Some(n.value);
      state := AcceptancePending;
      r := Ok(sealed.value);
    }

    method Confirm(channel: AuthenticatedSidecarChannel, theirs: Offer, claimed: Selection)
        returns (fault: Option<HandshakeError>)
      requires channel.Valid()
      modifies this, channel
      ensures (View(), channel.View(), fault)
           == ConfirmRuntime(old(View()), old(channel.View()), theirs, claimed)
      ensures channel.Valid()
    {
      if !theirs.peer.role.Runtime? { return Some(WrongPeerRole); }
      if BlankIdentity(theirs) { return Some(InvalidPeerIdentity); }
      var n := Negotiate(localOffer, theirs);
      if n.Err? { return Some(NegotiationFault(n.error)); }
      if claimed != n.value.selection { return Some(SelectionMismatch); }
      var refused := channel.ApplyNegotiatedProtocol(n.value);
      if refused.Some? { return Some(NegotiationFault(refused.value)); }
      negotiated := Some(n.value);
      state := Authenticated;
      fault := None;
    }
  }
}

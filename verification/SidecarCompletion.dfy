/** What two honest peers reach when every frame is delivered, in order. */
module SidecarCompletion {
  import opened Wrappers
  import opened ByteStrings
  import opened SizedWriters
  import opened SidecarFrame
  import opened SidecarNegotiation
  import opened SidecarChannel
  import opened SidecarLink
  import opened SidecarHandshake
  import opened SidecarConfiguration
  import opened SidecarExchange
  import opened SidecarRuns
  import opened SidecarAgreement

  // ---- the handshake ----

  /** Both peers have authenticated and moved on, and neither has lost its channel. */
  predicate ReadyToConfigure(w: World) {
    && InExchange(w.supervisor, ExchangeStarting) && InExchange(w.runtime, AwaitingConfiguration)
    && !w.supervisor.c.retired && !w.runtime.c.retired
  }

  /** The ceiling a channel can take on. */
  predicate CanLowerTo(c: Channel, limit: U32) {
    MinimumFrameBytes(|c.session|) <= limit <= c.maxFrame
  }

  predicate FitsBoth(run: Serialization, a: Channel, b: Channel)
    requires a.Valid() && b.Valid()
  {
    run.complete && |run.Text()| <= a.MaxPayload() && |run.Text()| <= b.MaxPayload()
  }

  /** A valid pair of offers always negotiates. */
  lemma ValidOffersNegotiate(a: Offer, b: Offer)
    requires LocalOfferFault(a).None? && LocalOfferFault(b).None? && a.peer.role != b.peer.role
    ensures Negotiate(a, b).Ok? && Negotiate(b, a).Ok? && !BlankIdentity(a) && !BlankIdentity(b)
  {
  }

  /** What the runtime derives from the supervisor's offer. */
  function Derived(s: Session): Negotiated
    requires Negotiate(s.runtimeOffer, s.supervisorOffer).Ok?
  {
    Negotiate(s.runtimeOffer, s.supervisorOffer).value
  }

  function OfferRun(s: Session): Serialization {
    s.handshakes.encode(OfferMessage(s.supervisorOffer))
  }

  function AcceptanceRun(s: Session): Serialization
    requires Negotiate(s.runtimeOffer, s.supervisorOffer).Ok?
  {
    s.handshakes.encode(AcceptMessage(s.runtimeOffer, Derived(s).selection))
  }

  /** Both handshake messages fit both bootstrap ceilings, and both channels can take on
      the negotiated one. */
  predicate HandshakeFits(s: Session, a: Channel, b: Channel)
    requires a.Valid() && b.Valid() && Negotiate(s.runtimeOffer, s.supervisorOffer).Ok?
  {
    var limit := Derived(s).selection.limits.maxFrameBytes;
    FitsBoth(OfferRun(s), a, b) && FitsBoth(AcceptanceRun(s), a, b) && CanLowerTo(a, limit) && CanLowerTo(b, limit)
  }

  /** A call that failed: the handshake is dead and its channel retired. */
  predicate Dropped(h: Handshake, c: Channel) {
    h.state.Failed? && c.retired
  }

  /** The offer goes out exactly when it serializes and fits the supervisor's channel. */
  lemma OfferGoesOut(s: Session, h: Handshake, c: Channel)
    requires s.Sound() && c.Valid() && c.role.Supervisor? && !c.retired && c.sendSequence == 0
    requires h == Handshake(s.supervisorOffer, Starting, None, None, None)
    ensures var (h1, c1, sent) := StartStep(h, c, s.mac, s.handshakes);
            && (sent.Ok? <==> OfferRun(s).complete && |OfferRun(s).Text()| <= c.MaxPayload())
            && (sent.Ok? ==>
                  && h1 == h.Bind(c).(state := AwaitingAcceptance) && c1 == AlsoSent(c, OfferRun(s).Text())
                  && SealStep(c, s.mac, OfferRun(s)).1 == Ok(sent.value))
            && (sent.Err? ==> Dropped(h1, c1))
  {
    SealsExactlyWhatFits(c, s.mac, OfferRun(s));
    if SealStep(c, s.mac, OfferRun(s)).1.Ok? { SealAppends(c, s.mac, OfferRun(s)); }
  }

  /** Two ends of which one has just sealed what the other is to open next. */
  predicate NextFor(a: Channel, b: Channel) {
    && a.Valid() && b.Valid() && b.role == a.role.Remote() && b.session == a.session && b.generation == a.generation
    && b.minor == a.minor && b.receiveSequence == a.sendSequence && !b.retired
  }

  /** The frame one end seals opens at the other exactly when it fits there as well. */
  lemma SealedOpens<T>(a: Channel, b: Channel, mac: Mac, run: Serialization, decode: Bytes -> Option<T>)
    requires NextFor(a, b) && TagSized(mac) && SealStep(a, mac, run).1.Ok? && decode(run.Text()).Some?
    ensures b.receiveSequence < U64_MAX
    ensures var frame := SealStep(a, mac, run).1.value;
            if |run.Text()| <= b.MaxPayload()
            then OpenStep(b, mac, frame, decode) == (Accepted(b, run.Text()), Ok(decode(run.Text()).value))
            else OpenStep(b, mac, frame, decode).1.Err?
    ensures Accepted(b, run.Text()).Valid()
  {
    SealAppends(a, mac, run);
    OpenInvertsSeal(a, b, mac, run, decode);
  }

  /** The runtime answers an offer exactly when its acceptance serializes and fits. */
  lemma OfferIsHandled(s: Session, h: Handshake, c: Channel)
    requires s.Sound() && Negotiate(s.runtimeOffer, s.supervisorOffer).Ok? && !BlankIdentity(s.supervisorOffer)
    requires c.Valid() && c.role.Runtime? && !c.retired && c.sendSequence == 0
    requires h.offer == s.runtimeOffer && h.state.Starting?
    ensures var (h2, c2, reply) := HandleStep(h, c, s.mac, s.handshakes, OfferMessage(s.supervisorOffer));
            && (reply.Ok? <==> AcceptanceRun(s).complete && |AcceptanceRun(s).Text()| <= c.MaxPayload())
            && (reply.Ok? ==>
                  && h2 == h.(pending := Some(Derived(s)), state := AcceptancePending)
                  && c2 == AlsoSent(c, AcceptanceRun(s).Text()) && reply.value.Some?
                  && SealStep(c, s.mac, AcceptanceRun(s)).1 == Ok(reply.value.value))
  {
    SealsExactlyWhatFits(c, s.mac, AcceptanceRun(s));
    if SealStep(c, s.mac, AcceptanceRun(s)).1.Ok? { SealAppends(c, s.mac, AcceptanceRun(s)); }
  }

  /** The first frame, delivered: the runtime answers exactly when the offer fits its
      channel too, and its acceptance serializes and fits. */
  lemma OfferIsAnsweredExactlyWhen(s: Session, a: Channel, h: Handshake, c: Channel)
    requires s.Sound() && Negotiate(s.runtimeOffer, s.supervisorOffer).Ok? && !BlankIdentity(s.supervisorOffer)
    requires NextFor(a, c) && c.role.Runtime? && c.sendSequence == 0
    requires h == Handshake(s.runtimeOffer, Starting, None, None, None)
    requires SealStep(a, s.mac, OfferRun(s)).1.Ok?
    ensures c.receiveSequence < U64_MAX
    ensures var frame, taken := SealStep(a, s.mac, OfferRun(s)).1.value, Accepted(c, OfferRun(s).Text());
            var (h2, c2, reply) := ReceiveStep(h, c, s.mac, s.handshakes, frame);
            && taken.Valid()
            && (reply.Ok? <==> |OfferRun(s).Text()| <= c.MaxPayload()
                               && AcceptanceRun(s).complete && |AcceptanceRun(s).Text()| <= c.MaxPayload())
            && (reply.Ok? ==>
                  && h2 == h.Bind(c).(pending := Some(Derived(s)), state := AcceptancePending)
                  && c2 == AlsoSent(taken, AcceptanceRun(s).Text()) && reply.value.Some?
                  && SealStep(taken, s.mac, AcceptanceRun(s)).1 == Ok(reply.value.value))
            && (reply.Err? ==> Dropped(h2, c2))
  {
    SealAppends(a, s.mac, OfferRun(s));
    SealedOpens(a, c, s.mac, OfferRun(s), s.handshakes.decode);
    var taken := Accepted(c, OfferRun(s).Text());
    assert taken.MaxPayload() == c.MaxPayload();
    OfferIsHandled(s, h.Bind(c), taken);
  }

  /** With its acceptance out, the runtime commits exactly when its channel can be
      lowered to the negotiated ceiling. */
  lemma CompletionCommitsExactlyWhen(c: Channel, h: Handshake, theirs: Offer)
    requires c.Valid() && c.role.Runtime? && !c.retired && !c.locked && h.bound == Some(c.id)
    requires h.state.AcceptancePending? && h.pending.Some? && Negotiate(h.offer, theirs) == Ok(h.pending.value)
    ensures var selection := h.pending.value.selection;
            var (h3, c3, fault) := CompleteStep(h, c);
            && (fault.None? <==> CanLowerTo(c, selection.limits.maxFrameBytes))
            && (fault.None? ==>
                  && h3 == h.(negotiated := h.pending, pending := None, state := Authenticated)
                  && c3 == c.(maxFrame := selection.limits.maxFrameBytes, minor := selection.minor))
            && (fault.Some? ==> Dropped(h3, c3))
  {
  }

  /** The supervisor confirms an acceptance of its own offer exactly when its channel can
      be lowered to the negotiated ceiling. */
  lemma AcceptanceIsConfirmedExactlyWhen(s: Session, c: Channel, h: Handshake)
    requires c.Valid() && !c.locked && h.state.AwaitingAcceptance? && h.offer == s.supervisorOffer
    requires s.supervisorOffer.peer.role.Supervisor? && s.runtimeOffer.peer.role.Runtime?
    requires !BlankIdentity(s.runtimeOffer) && Negotiate(s.runtimeOffer, s.supervisorOffer).Ok?
    requires Negotiate(s.supervisorOffer, s.runtimeOffer).Ok?
    ensures var selection := Derived(s).selection;
            var (h4, c4, reply) := HandleStep(h, c, s.mac, s.handshakes, AcceptMessage(s.runtimeOffer, selection));
            && (reply.Ok? <==> CanLowerTo(c, selection.limits.maxFrameBytes))
            && (reply.Ok? ==>
                  && reply == Ok(None)
                  && h4 == h.(negotiated := Some(Negotiate(s.supervisorOffer, s.runtimeOffer).value), state := Authenticated)
                  && c4 == c.(maxFrame := selection.limits.maxFrameBytes, minor := selection.minor))
  {
    BothSidesDeriveOneSelection(s.runtimeOffer, s.supervisorOffer);
  }

  /** The second frame, delivered: the supervisor commits exactly when the acceptance fits
      its channel too and the channel can be lowered. */
  lemma AcceptanceCommitsExactlyWhen(s: Session, a: Channel, h: Handshake, c: Channel)
    requires s.Sound() && Negotiate(s.runtimeOffer, s.supervisorOffer).Ok? && !BlankIdentity(s.runtimeOffer)
    requires Negotiate(s.supervisorOffer, s.runtimeOffer).Ok?
    requires NextFor(a, c) && c.role.Supervisor? && !c.locked && h.bound == Some(c.id)
    requires h.offer == s.supervisorOffer && h.state.AwaitingAcceptance?
    requires SealStep(a, s.mac, AcceptanceRun(s)).1.Ok?
    ensures c.receiveSequence < U64_MAX
    ensures var frame, selection := SealStep(a, s.mac, AcceptanceRun(s)).1.value, Derived(s).selection;
            var taken := Accepted(c, AcceptanceRun(s).Text());
            var (h4, c4, reply) := ReceiveStep(h, c, s.mac, s.handshakes, frame);
            && (reply.Ok? <==> |AcceptanceRun(s).Text()| <= c.MaxPayload()
                               && CanLowerTo(c, selection.limits.maxFrameBytes))
            && (reply.Ok? ==>
                  && reply == Ok(None)
                  && h4 == h.(negotiated := Some(Negotiate(s.supervisorOffer, s.runtimeOffer).value), state := Authenticated)
                  && c4 == taken.(maxFrame := selection.limits.maxFrameBytes, minor := selection.minor))
            && (reply.Err? ==> Dropped(h4, c4))
  {
    SealAppends(a, s.mac, AcceptanceRun(s));
    SealedOpens(a, c, s.mac, AcceptanceRun(s), s.handshakes.decode);
    AcceptanceIsConfirmedExactlyWhen(s, Accepted(c, AcceptanceRun(s).Text()), h.Bind(c));
  }

  // ---- the handshake as a run ----

  /** What the supervisor hands the transport first, if anything. */
  function OfferFrame(s: Session, w: World): Bytes
    requires w.supervisor.c.Valid() && w.supervisor.phase.Shaking?
  {
    match StartStep(w.supervisor.phase.h, w.supervisor.c, s.mac, s.handshakes).2
    case Ok(frame) => frame
    case Err(_) => []
  }

  /** What the runtime answers to that, if anything. */
  function ReplyFrame(s: Session, w: World): Bytes
    requires w.supervisor.c.Valid() && w.supervisor.phase.Shaking?
    requires w.runtime.c.Valid() && w.runtime.phase.Shaking?
  {
    match ReceiveStep(w.runtime.phase.h, w.runtime.c, s.mac, s.handshakes, OfferFrame(s, w)).2
    case Ok(Some(frame)) => frame
    case _ => []
  }

  /** Each peer makes its calls in turn and every frame is delivered. */
  function HonestHandshake(s: Session, w: World): seq<(Role, Action)>
    requires w.supervisor.c.Valid() && w.supervisor.phase.Shaking?
    requires w.runtime.c.Valid() && w.runtime.phase.Shaking?
  {
    [(Supervisor, StartHandshake), (Runtime, ReceiveHandshake(OfferFrame(s, w))), (Runtime, CompleteHandshake),
     (Supervisor, ReceiveHandshake(ReplyFrame(s, w))), (Supervisor, BeginExchange), (Runtime, BeginExchange)]
  }

  /** A run with one more action at its front. */
  lemma RunFrom(s: Session, w: World, side: Role, a: Action, rest: seq<(Role, Action)>)
    requires w.supervisor.c.Valid() && w.runtime.c.Valid() && Enabled(s, w, side, a)
    requires IsRun(s, Step(s, w, side, a), rest)
    ensures IsRun(s, w, [(side, a)] + rest)
    ensures After(s, w, [(side, a)] + rest) == After(s, Step(s, w, side, a), rest)
  {
    assert ([(side, a)] + rest)[1..] == rest;
  }

  /** A peer that was dropped leaves nobody ready. */
  lemma LostIsNotReady(s: Session, w: World, rest: seq<(Role, Action)>, side: Role)
    requires IsRun(s, w, rest) && Lost(w.End(side))
    ensures !ReadyToConfigure(After(s, w, rest))
  {
    FailureIsFinal(s, w, rest, side);
  }

  lemma NothingDelivered(s: Session, a: Channel, b: Channel)
    requires a.Valid() && b.Valid()
    ensures Deliverable(s.mac, a, b, [])
  {
  }

  lemma LatestIsDeliverable(s: Session, mine: Channel, theirs: Channel, before: Channel, run: Serialization, frame: Bytes)
    requires mine.Valid() && theirs.Valid() && before.Valid() && SealStep(before, s.mac, run).1 == Ok(frame)
    requires theirs.sent == before.sent + [Sent(before.minor, run.Text())]
    requires theirs.role == before.role && theirs.session == before.session && theirs.generation == before.generation
    ensures Deliverable(s.mac, mine, theirs, frame)
  {
    assert frame == theirs.SentFrame(s.mac, |before.sent|);
  }

  // The rest of the honest run, from each point on.

  const BOTH_MOVE_ON: seq<(Role, Action)> := [(Supervisor, BeginExchange), (Runtime, BeginExchange)]

  function FromReply(reply: Bytes): seq<(Role, Action)> {
    [(Supervisor, ReceiveHandshake(reply))] + BOTH_MOVE_ON
  }

  function FromAnswer(reply: Bytes): seq<(Role, Action)> {
    [(Runtime, CompleteHandshake)] + FromReply(reply)
  }

  function FromOffer(offer: Bytes, reply: Bytes): seq<(Role, Action)> {
    [(Runtime, ReceiveHandshake(offer))] + FromAnswer(reply)
  }

  lemma HonestHandshakeUnfolds(s: Session, w: World)
    requires w.supervisor.c.Valid() && w.supervisor.phase.Shaking?
    requires w.runtime.c.Valid() && w.runtime.phase.Shaking?
    ensures HonestHandshake(s, w) == [(Supervisor, StartHandshake)] + FromOffer(OfferFrame(s, w), ReplyFrame(s, w))
  {
  }

  predicate ValidEnds(w: World) {
    w.supervisor.c.Valid() && w.runtime.c.Valid()
  }

  lemma SealingStaysValid(s: Session, c: Channel, run: Serialization)
    requires c.Valid()
    ensures SealStep(c, s.mac, run).0.Valid()
  {
    FailuresAreClosed(c, s.mac, run, [], s.handshakes.decode);
  }

  lemma OpeningStaysValid(s: Session, c: Channel, frame: Bytes)
    requires c.Valid()
    ensures OpenStep(c, s.mac, frame, s.handshakes.decode).0.Valid()
  {
    FailuresAreClosed(c, s.mac, Serialization([], false), frame, s.handshakes.decode);
  }

  lemma AnsweringStaysValid(s: Session, h: Handshake, c: Channel, theirs: Offer)
    requires c.Valid()
    ensures AcceptSupervisor(h, c, s.mac, s.handshakes, theirs).1.Valid()
  {
    if Negotiate(h.offer, theirs).Ok? {
      SealingStaysValid(s, c, s.handshakes.encode(AcceptMessage(h.offer, Negotiate(h.offer, theirs).value.selection)));
    }
  }

  lemma HandlingStaysValid(s: Session, h: Handshake, c: Channel, m: HandshakeMessage)
    requires c.Valid()
    ensures HandleStep(h, c, s.mac, s.handshakes, m).1.Valid()
  {
    AnsweringStaysValid(s, h, c, m.offer);
  }

  lemma ReceivingStaysValid(s: Session, h: Handshake, c: Channel, frame: Bytes)
    requires c.Valid()
    ensures ReceiveActive(h, c, s.mac, s.handshakes, frame).1.Valid()
    ensures ReceiveStep(h, c, s.mac, s.handshakes, frame).1.Valid()
  {
    OpeningStaysValid(s, c, frame);
    var (c1, message) := OpenStep(c, s.mac, frame, s.handshakes.decode);
    if message.Ok? {
      HandlingStaysValid(s, h, c1, message.value);
      HandlingStaysValid(s, h.Bind(c), c1, message.value);
    }
  }

  lemma StartingStaysValid(s: Session, h: Handshake, c: Channel)
    requires c.Valid()
    ensures StartStep(h, c, s.mac, s.handshakes).1.Valid()
  {
    assert RetireStep(c).Valid();
    SealingStaysValid(s, c, s.handshakes.encode(OfferMessage(h.offer)));
  }

  lemma CompletingStaysValid(h: Handshake, c: Channel)
    requires c.Valid()
    ensures CompleteStep(h, c).1.Valid()
  {
    assert RetireStep(c).Valid();
  }

  /** Calls of the handshake keep both channels well formed. */
  lemma HandshakeStaysValid(s: Session, w: World, side: Role, a: Action)
    requires ValidEnds(w) && (w.End(side).phase.Shaking? || a.BeginExchange?)
    requires a.StartHandshake? || a.ReceiveHandshake? || a.CompleteHandshake? || a.BeginExchange?
    ensures ValidEnds(Step(s, w, side, a))
  {
    var e := w.End(side);
    match a
    case StartHandshake => StartingStaysValid(s, e.phase.h, e.c);
    case ReceiveHandshake(frame) => ReceivingStaysValid(s, e.phase.h, e.c, frame);
    case CompleteHandshake => CompletingStaysValid(e.phase.h, e.c);
    case BeginExchange =>
  }

  lemma MovingOnIsRun(s: Session, w: World)
    requires ValidEnds(w)
    ensures IsRun(s, w, BOTH_MOVE_ON) && ValidEnds(Step(s, w, Supervisor, BeginExchange))
    ensures After(s, w, BOTH_MOVE_ON) == Step(s, Step(s, w, Supervisor, BeginExchange), Runtime, BeginExchange)
  {
    var w1 := Step(s, w, Supervisor, BeginExchange);
    HandshakeStaysValid(s, w, Supervisor, BeginExchange);
    HandshakeStaysValid(s, w1, Runtime, BeginExchange);
    RunFrom(s, w1, Runtime, BeginExchange, []);
    RunFrom(s, w, Supervisor, BeginExchange, [(Runtime, BeginExchange)]);
    assert BOTH_MOVE_ON == [(Supervisor, BeginExchange)] + [(Runtime, BeginExchange)];
    assert [(Runtime, BeginExchange)] + [] == [(Runtime, BeginExchange)];
  }

  /** Two peers that have both authenticated are ready once they move on. */
  lemma AuthenticatedPeersGetReady(s: Session, w: World)
    requires ValidEnds(w) && !w.supervisor.c.retired && !w.runtime.c.retired
    requires w.supervisor.phase.Shaking? && ExchangeOf(w.supervisor.phase.h).Ok?
    requires w.runtime.phase.Shaking? && ExchangeOf(w.runtime.phase.h).Ok?
    requires w.supervisor.phase.h.offer.peer.role.Supervisor? && w.runtime.phase.h.offer.peer.role.Runtime?
    ensures IsRun(s, w, BOTH_MOVE_ON) && ReadyToConfigure(After(s, w, BOTH_MOVE_ON))
  {
    MovingOnIsRun(s, w);
  }

  lemma ReplyIsRun(s: Session, w: World, reply: Bytes)
    requires ValidEnds(w) && w.supervisor.phase.Shaking? && Deliverable(s.mac, w.supervisor.c, w.runtime.c, reply)
    ensures IsRun(s, w, FromReply(reply)) && ValidEnds(Step(s, w, Supervisor, ReceiveHandshake(reply)))
    ensures IsRun(s, Step(s, w, Supervisor, ReceiveHandshake(reply)), BOTH_MOVE_ON)
    ensures After(s, w, FromReply(reply)) == After(s, Step(s, w, Supervisor, ReceiveHandshake(reply)), BOTH_MOVE_ON)
  {
    HandshakeStaysValid(s, w, Supervisor, ReceiveHandshake(reply));
    MovingOnIsRun(s, Step(s, w, Supervisor, ReceiveHandshake(reply)));
    RunFrom(s, w, Supervisor, ReceiveHandshake(reply), BOTH_MOVE_ON);
  }

  lemma AnswerIsRun(s: Session, w: World, reply: Bytes)
    requires ValidEnds(w) && w.supervisor.phase.Shaking? && w.runtime.phase.Shaking?
    requires var done := Step(s, w, Runtime, CompleteHandshake);
             ValidEnds(done) && Deliverable(s.mac, done.supervisor.c, done.runtime.c, reply)
    ensures IsRun(s, w, FromAnswer(reply)) && IsRun(s, Step(s, w, Runtime, CompleteHandshake), FromReply(reply))
    ensures After(s, w, FromAnswer(reply)) == After(s, Step(s, w, Runtime, CompleteHandshake), FromReply(reply))
  {
    ReplyIsRun(s, Step(s, w, Runtime, CompleteHandshake), reply);
    RunFrom(s, w, Runtime, CompleteHandshake, FromReply(reply));
  }

  // ---- where the honest run leads ----

  /** The two unused ends of one session, and offers that suit each other. */
  predicate FreshPair(s: Session, a: Channel, b: Channel) {
    && LocalOfferFault(s.supervisorOffer).None? && LocalOfferFault(s.runtimeOffer).None?
    && Negotiate(s.runtimeOffer, s.supervisorOffer).Ok? && Unused(a) && Unused(b)
    && a.role.Supervisor? && b.role.Runtime? && b.session == a.session && b.generation == a.generation
    && b.minor == a.minor
  }

  predicate Unused(c: Channel) {
    c.Valid() && c.sendSequence == 0 && c.receiveSequence == 0 && !c.locked && !c.retired
  }

  lemma InitialEndsAreFresh(s: Session, w: World)
    requires s.Sound() && Initial(s, w)
    ensures FreshPair(s, w.supervisor.c, w.runtime.c)
  {
    ValidOffersNegotiate(s.runtimeOffer, s.supervisorOffer);
  }

  function Offering(s: Session, c: Channel): Endpoint
    requires c.sendSequence < U64_MAX
  {
    Endpoint(AlsoSent(c, OfferRun(s).Text()),
             Shaking(Handshake(s.supervisorOffer, AwaitingAcceptance, None, None, Some(c.id))), None, 0)
  }

  /** A runtime that has read the offer and sealed its acceptance. */
  function Answering(s: Session, c: Channel): Endpoint
    requires c.sendSequence < U64_MAX && c.receiveSequence < U64_MAX && Negotiate(s.runtimeOffer, s.supervisorOffer).Ok?
  {
    Endpoint(AlsoSent(Accepted(c, OfferRun(s).Text()), AcceptanceRun(s).Text()),
             Shaking(Handshake(s.runtimeOffer, AcceptancePending, None, Some(Derived(s)), Some(c.id))), None, 0)
  }

  function Committing(s: Session, c: Channel): Endpoint
    requires c.sendSequence < U64_MAX && c.receiveSequence < U64_MAX && Negotiate(s.runtimeOffer, s.supervisorOffer).Ok?
  {
    var selection := Derived(s).selection;
    Endpoint(Answering(s, c).c.(maxFrame := selection.limits.maxFrameBytes, minor := selection.minor),
             Shaking(Handshake(s.runtimeOffer, Authenticated, Some(Derived(s)), None, Some(c.id))), None, 0)
  }

  /** What the runtime's commitment leaves. */
  lemma CommitmentLeads(s: Session, w: World, a: Channel, b: Channel)
    requires FreshPair(s, a, b) && w.runtime == Answering(s, b) && ValidEnds(w)
    ensures var e := Step(s, w, Runtime, CompleteHandshake).runtime;
            && e.c.Valid() && e.c.sent == w.runtime.c.sent && e.c.role == b.role && e.c.session == b.session
            && e.c.generation == b.generation
            && if CanLowerTo(b, Derived(s).selection.limits.maxFrameBytes) then e == Committing(s, b) else Lost(e)
  {
    CompletionCommitsExactlyWhen(w.runtime.c, w.runtime.phase.h, s.supervisorOffer);
    HandshakeStaysValid(s, w, Runtime, CompleteHandshake);
  }

  lemma AnswerIsNext(s: Session, a: Channel, b: Channel)
    requires FreshPair(s, a, b) && AlsoSent(a, OfferRun(s).Text()).Valid() && Accepted(b, OfferRun(s).Text()).Valid()
    ensures NextFor(Accepted(b, OfferRun(s).Text()), AlsoSent(a, OfferRun(s).Text()))
    ensures AlsoSent(a, OfferRun(s).Text()).MaxPayload() == a.MaxPayload()
  {
  }

  /** The supervisor's handshake after the reply, if it commits. */
  function Confirmed(s: Session, c: Channel): Handshake
    requires Negotiate(s.supervisorOffer, s.runtimeOffer).Ok?
  {
    Handshake(s.supervisorOffer, Authenticated, Some(Negotiate(s.supervisorOffer, s.runtimeOffer).value), None, Some(c.id))
  }

  lemma ReplyCommits(s: Session, a: Channel, b: Channel, reply: Bytes)
    requires s.Sound() && FreshPair(s, a, b) && AlsoSent(a, OfferRun(s).Text()).Valid()
    requires Accepted(b, OfferRun(s).Text()).Valid()
    requires SealStep(Accepted(b, OfferRun(s).Text()), s.mac, AcceptanceRun(s)).1 == Ok(reply)
    ensures Negotiate(s.supervisorOffer, s.runtimeOffer).Ok?
    ensures var r := ReceiveStep(Offering(s, a).phase.h, Offering(s, a).c, s.mac, s.handshakes, reply);
            if |AcceptanceRun(s).Text()| <= a.MaxPayload() && CanLowerTo(a, Derived(s).selection.limits.maxFrameBytes)
            then r.0 == Confirmed(s, a) && !r.1.retired
            else Dropped(r.0, r.1)
  {
    ValidOffersNegotiate(s.supervisorOffer, s.runtimeOffer);
    AnswerIsNext(s, a, b);
    AcceptanceCommitsExactlyWhen(s, Accepted(b, OfferRun(s).Text()), Offering(s, a).phase.h, Offering(s, a).c);
  }

  /** What the reply leaves at the supervisor. */
  lemma ReplyLeads(s: Session, w: World, a: Channel, b: Channel, reply: Bytes)
    requires s.Sound() && FreshPair(s, a, b) && w.supervisor == Offering(s, a) && ValidEnds(w)
    requires SealStep(Accepted(b, OfferRun(s).Text()), s.mac, AcceptanceRun(s)).1 == Ok(reply)
    ensures var e := Step(s, w, Supervisor, ReceiveHandshake(reply)).supervisor;
            if |AcceptanceRun(s).Text()| <= a.MaxPayload() && CanLowerTo(a, Derived(s).selection.limits.maxFrameBytes)
            then !e.c.retired && e.phase.Shaking? && ExchangeOf(e.phase.h).Ok? && e.phase.h.offer == s.supervisorOffer
            else Lost(e)
  {
    ReplyCommits(s, a, b, reply);
  }

  /** The last frame: the supervisor holds its offer out, the runtime has committed. */
  lemma ReplyLeadsToReady(s: Session, w: World, a: Channel, b: Channel, reply: Bytes)
    requires s.Sound() && FreshPair(s, a, b) && ValidEnds(w)
    requires w.supervisor == Offering(s, a) && w.runtime == Committing(s, b)
    requires SealStep(Accepted(b, OfferRun(s).Text()), s.mac, AcceptanceRun(s)).1 == Ok(reply)
    requires IsRun(s, w, FromReply(reply))
    ensures ReadyToConfigure(After(s, w, FromReply(reply)))
       <==> |AcceptanceRun(s).Text()| <= a.MaxPayload() && CanLowerTo(a, Derived(s).selection.limits.maxFrameBytes)
  {
    ReplyLeads(s, w, a, b, reply);
    assert FromReply(reply)[0] == (Supervisor, ReceiveHandshake(reply));
    ReplyIsRun(s, w, reply);
    var confirmed := Step(s, w, Supervisor, ReceiveHandshake(reply));
    if Lost(confirmed.supervisor) {
      LostIsNotReady(s, confirmed, BOTH_MOVE_ON, Supervisor);
    } else {
      AuthenticatedPeersGetReady(s, confirmed);
    }
  }

  /** From a sealed acceptance: the runtime's own commitment comes first. */
  lemma AnswerLeadsToReady(s: Session, w: World, a: Channel, b: Channel, reply: Bytes)
    requires s.Sound() && FreshPair(s, a, b) && ValidEnds(w)
    requires w.supervisor == Offering(s, a) && w.runtime == Answering(s, b)
    requires SealStep(Accepted(b, OfferRun(s).Text()), s.mac, AcceptanceRun(s)).1 == Ok(reply)
    ensures IsRun(s, w, FromAnswer(reply))
    ensures var limit := Derived(s).selection.limits.maxFrameBytes;
            ReadyToConfigure(After(s, w, FromAnswer(reply)))
            <==> |AcceptanceRun(s).Text()| <= a.MaxPayload() && CanLowerTo(a, limit) && CanLowerTo(b, limit)
  {
    var committed := Step(s, w, Runtime, CompleteHandshake);
    CommitmentLeads(s, w, a, b);
    LatestIsDeliverable(s, w.supervisor.c, committed.runtime.c, Accepted(b, OfferRun(s).Text()), AcceptanceRun(s), reply);
    AnswerIsRun(s, w, reply);
    if CanLowerTo(b, Derived(s).selection.limits.maxFrameBytes) {
      ReplyLeadsToReady(s, committed, a, b, reply);
    } else {
      LostIsNotReady(s, committed, FromReply(reply), Runtime);
    }
  }

  lemma EmptyFrameDrops(s: Session, h: Handshake, c: Channel)
    requires c.Valid()
    ensures ReceiveStep(h, c, s.mac, s.handshakes, []).2.Err?
  {
  }

  /** Nothing was answered: the run goes on, but nobody gets ready. */
  lemma SilenceLeadsNowhere(s: Session, w: World)
    requires ValidEnds(w) && w.supervisor.phase.Shaking? && w.runtime.phase.Shaking?
    ensures IsRun(s, w, FromAnswer([]))
    ensures Lost(w.runtime) || Lost(w.supervisor) ==> !ReadyToConfigure(After(s, w, FromAnswer([])))
  {
    HandshakeStaysValid(s, w, Runtime, CompleteHandshake);
    NothingDelivered(s, w.supervisor.c, Step(s, w, Runtime, CompleteHandshake).runtime.c);
    AnswerIsRun(s, w, []);
    if Lost(w.runtime) { LostIsNotReady(s, w, FromAnswer([]), Runtime); }
    if Lost(w.supervisor) { LostIsNotReady(s, w, FromAnswer([]), Supervisor); }
  }

  /** No offer went out either. */
  lemma NoOfferLeadsNowhere(s: Session, w: World)
    requires ValidEnds(w) && w.supervisor.phase.Shaking? && w.runtime.phase.Shaking? && Lost(w.supervisor)
    ensures IsRun(s, w, FromOffer([], [])) && !ReadyToConfigure(After(s, w, FromOffer([], [])))
  {
    var heard := Step(s, w, Runtime, ReceiveHandshake([]));
    NothingDelivered(s, w.runtime.c, w.supervisor.c);
    HandshakeStaysValid(s, w, Runtime, ReceiveHandshake([]));
    SilenceLeadsNowhere(s, heard);
    RunFrom(s, w, Runtime, ReceiveHandshake([]), FromAnswer([]));
  }

  /** What the offer leaves at the runtime. */
  lemma OfferLeads(s: Session, w: World, a: Channel, b: Channel, offer: Bytes)
    requires s.Sound() && FreshPair(s, a, b) && SealStep(a, s.mac, OfferRun(s)).1 == Ok(offer)
    requires w.runtime == Endpoint(b, Shaking(Handshake(s.runtimeOffer, Starting, None, None, None)), None, 0)
    requires ValidEnds(w)
    ensures var r := ReceiveStep(w.runtime.phase.h, b, s.mac, s.handshakes, offer).2;
            var e := Step(s, w, Runtime, ReceiveHandshake(offer)).runtime;
            && (r.Ok? <==> |OfferRun(s).Text()| <= b.MaxPayload()
                           && AcceptanceRun(s).complete && |AcceptanceRun(s).Text()| <= b.MaxPayload())
            && if r.Ok? then
                 && e == Answering(s, b) && r.value.Some?
                 && SealStep(Accepted(b, OfferRun(s).Text()), s.mac, AcceptanceRun(s)).1 == Ok(r.value.value)
               else Lost(e) && e.phase.Shaking?
  {
    ValidOffersNegotiate(s.supervisorOffer, s.runtimeOffer);
    OfferIsAnsweredExactlyWhen(s, a, w.runtime.phase.h, b);
  }

  /** From a sealed offer: the runtime's answer comes first. */
  lemma OfferLeadsToReady(s: Session, w: World, a: Channel, b: Channel, offer: Bytes, reply: Bytes)
    requires s.Sound() && FreshPair(s, a, b) && ValidEnds(w)
    requires w.supervisor == Offering(s, a)
    requires w.runtime == Endpoint(b, Shaking(Handshake(s.runtimeOffer, Starting, None, None, None)), None, 0)
    requires SealStep(a, s.mac, OfferRun(s)).1 == Ok(offer)
    requires var r := ReceiveStep(w.runtime.phase.h, b, s.mac, s.handshakes, offer).2;
             reply == if r.Ok? && r.value.Some? then r.value.value else []
    ensures IsRun(s, w, FromOffer(offer, reply))
    ensures var limit := Derived(s).selection.limits.maxFrameBytes;
            ReadyToConfigure(After(s, w, FromOffer(offer, reply)))
            <==> |OfferRun(s).Text()| <= b.MaxPayload() && FitsBoth(AcceptanceRun(s), a, b)
                 && CanLowerTo(a, limit) && CanLowerTo(b, limit)
  {
    LatestIsDeliverable(s, b, w.supervisor.c, a, OfferRun(s), offer);
    OfferLeads(s, w, a, b, offer);
    var answered := Step(s, w, Runtime, ReceiveHandshake(offer));
    HandshakeStaysValid(s, w, Runtime, ReceiveHandshake(offer));
    if ReceiveStep(w.runtime.phase.h, b, s.mac, s.handshakes, offer).2.Ok? {
      AnswerLeadsToReady(s, answered, a, b, reply);
    } else {
      SilenceLeadsNowhere(s, answered);
    }
    RunFrom(s, w, Runtime, ReceiveHandshake(offer), FromAnswer(reply));
  }

  /** What the first call leaves at the supervisor. */
  lemma StartLeads(s: Session, w: World)
    requires s.Sound() && Initial(s, w)
    ensures FreshPair(s, w.supervisor.c, w.runtime.c)
    ensures var a, e := w.supervisor.c, Step(s, w, Supervisor, StartHandshake).supervisor;
            if OfferRun(s).complete && |OfferRun(s).Text()| <= a.MaxPayload()
            then e == Offering(s, a) && SealStep(a, s.mac, OfferRun(s)).1 == Ok(OfferFrame(s, w))
            else Lost(e) && e.phase.Shaking? && OfferFrame(s, w) == []
  {
    InitialEndsAreFresh(s, w);
    OfferGoesOut(s, w.supervisor.phase.h, w.supervisor.c);
  }

  /** Delivered in order, a handshake from two fresh ends leaves both peers ready to
      configure exactly when both its messages fit both bootstrap ceilings and both
      channels can take on the negotiated one. */
  lemma HonestHandshakeCompletesExactlyWhen(s: Session, w: World)
    requires s.Sound() && Initial(s, w)
    ensures Negotiate(s.runtimeOffer, s.supervisorOffer).Ok? && IsRun(s, w, HonestHandshake(s, w))
    ensures ReadyToConfigure(After(s, w, HonestHandshake(s, w))) <==> HandshakeFits(s, w.supervisor.c, w.runtime.c)
  {
    var a, b := w.supervisor.c, w.runtime.c;
    var offer, reply := OfferFrame(s, w), ReplyFrame(s, w);
    StartLeads(s, w);
    HonestHandshakeUnfolds(s, w);
    HandshakeStaysValid(s, w, Supervisor, StartHandshake);
    var offered := Step(s, w, Supervisor, StartHandshake);
    if Lost(offered.supervisor) {
      EmptyFrameDrops(s, w.runtime.phase.h, b);
      NoOfferLeadsNowhere(s, offered);
    } else {
      OfferLeadsToReady(s, offered, a, b, offer, reply);
    }
    RunFrom(s, w, Supervisor, StartHandshake, FromOffer(offer, reply));
  }

  // ---- the configuration ----

  /** Two live ends in step in both directions, under one minor version and ceiling. */
  predicate Facing(a: Channel, b: Channel) {
    NextFor(a, b) && NextFor(b, a) && b.maxFrame == a.maxFrame
  }

  /** A frame sealed by one of two facing ends opens at the other. */
  lemma FacingOpens<T>(a: Channel, b: Channel, mac: Mac, run: Serialization, decode: Bytes -> Option<T>)
    requires Facing(a, b) && TagSized(mac) && SealStep(a, mac, run).1.Ok? && decode(run.Text()).Some?
    ensures b.receiveSequence < U64_MAX && a.sendSequence < U64_MAX
    ensures OpenStep(b, mac, SealStep(a, mac, run).1.value, decode)
         == (Accepted(b, run.Text()), Ok(decode(run.Text()).value))
    ensures SealStep(a, mac, run).0 == AlsoSent(a, run.Text())
    ensures Facing(AlsoSent(a, run.Text()), Accepted(b, run.Text()))
    ensures run.complete && |run.Text()| <= a.MaxPayload()
  {
    SealsExactlyWhatFits(a, mac, run);
    SealAppends(a, mac, run);
    SealedOpens(a, b, mac, run, decode);
  }

  lemma ReadyPeersFace(s: Session, w: World)
    requires s.Sound() && WorldOk(s, w) && ReadyToConfigure(w)
    ensures Facing(w.supervisor.c, w.runtime.c)
    ensures w.runtime.phase.x.selection == w.supervisor.phase.x.selection
    ensures w.runtime.phase.x.runtimeVersion == w.supervisor.phase.x.runtimeVersion
  {
    HandshakesAgree(s, w);
    CommittedSupervisorDerived(s, w);
    SupervisorDerivedFromTheAcceptance(s, w);
  }

  /** What a successful proposal leaves behind. */
  lemma ProposalSeals(s: Session, a: Channel, x: Exchange, g: Configuration)
    requires a.Valid() && ConfigureStep(x, a, s.mac, s.messages, g).2.Ok?
    ensures a.sendSequence < U64_MAX && SealStep(a.(locked := true), s.mac, s.messages.encode(ConfigureMessage(g))).1.Ok?
    ensures var locked, run := a.(locked := true), s.messages.encode(ConfigureMessage(g));
            ConfigureStep(x, a, s.mac, s.messages, g)
            == (Adopt(x, locked, g), AlsoSent(locked, run.Text()), Ok(SealStep(locked, s.mac, run).1.value))
  {
    SealAppends(a.(locked := true), s.mac, s.messages.encode(ConfigureMessage(g)));
  }

  lemma ProposalWasChecked(s: Session, a: Channel, x: Exchange, g: Configuration)
    requires a.Valid() && ConfigureStep(x, a, s.mac, s.messages, g).2.Ok?
    ensures AdoptionFault(x, a.(locked := true), s.messages, g).None? && ConfigurationFault(g, x.selection).None?
  {
  }

  /** A configuration message that opens on an equally limited channel is adopted there
      if the sender found nothing against it. */
  lemma ProposalIsAdopted(s: Session, c: Channel, x: Exchange, peer: Exchange, limit: Channel, g: Configuration)
    requires c.Valid() && limit.Valid() && c.MaxPayload() == limit.MaxPayload()
    requires x.role.Runtime? && x.state.AwaitingConfiguration?
    requires peer.selection == x.selection && peer.runtimeVersion == x.runtimeVersion
    requires AdoptionFault(peer, limit, s.messages, g).None?
    ensures HandleRuntimeMessage(x, c, s.messages, ConfigureMessage(g)) == (Adopt(x, c, g), c, Ok(Some(g)))
  {
  }

  function ProposalText(s: Session, g: Configuration): Bytes {
    s.messages.encode(ConfigureMessage(g)).Text()
  }

  /** A sealed proposal opens at the runtime's end, and still faces it. */
  lemma ProposalOpens(s: Session, a: Channel, b: Channel, g: Configuration)
    requires s.Sound() && Facing(a, b) && SealStep(a, s.mac, s.messages.encode(ConfigureMessage(g))).1.Ok?
    ensures a.sendSequence < U64_MAX && b.receiveSequence < U64_MAX
    ensures OpenStep(b, s.mac, SealStep(a, s.mac, s.messages.encode(ConfigureMessage(g))).1.value, s.messages.decode)
         == (Accepted(b, ProposalText(s, g)), Ok(ConfigureMessage(g)))
    ensures Facing(AlsoSent(a, ProposalText(s, g)), Accepted(b, ProposalText(s, g)))
    ensures s.messages.encode(ConfigureMessage(g)).complete
    ensures |ProposalText(s, g)| <= Accepted(b, ProposalText(s, g)).MaxPayload() == a.MaxPayload()
  {
    SealAppends(a, s.mac, s.messages.encode(ConfigureMessage(g)));
    assert s.messages.decode(ProposalText(s, g)) == Some(ConfigureMessage(g));
    FacingOpens(a, b, s.mac, s.messages.encode(ConfigureMessage(g)), s.messages.decode);
  }

  lemma LockingKeepsFacing(a: Channel, b: Channel)
    requires Facing(a, b)
    ensures Facing(a.(locked := true), b.(locked := true))
  {
  }

  /** A proposal checked at one of two facing ends is adopted at the other. */
  lemma FacingEndAdopts(s: Session, a: Channel, x: Exchange, b: Channel, y: Exchange, g: Configuration, d: Channel)
    requires Facing(a, b) && d.Valid() && d.maxFrame == b.maxFrame && d.session == b.session
    requires y.role.Runtime? && y.state.AwaitingConfiguration?
    requires x.selection == y.selection && x.runtimeVersion == y.runtimeVersion
    requires AdoptionFault(x, a, s.messages, g).None?
    ensures HandleRuntimeMessage(y, d, s.messages, ConfigureMessage(g)) == (Adopt(y, d, g), d, Ok(Some(g)))
  {
    assert d.MaxPayload() == a.MaxPayload();
    ProposalIsAdopted(s, d, y, x, a, g);
  }

  /** What a frame that opens comes to. */
  lemma OpenedIsHandled(s: Session, b: Channel, y: Exchange, frame: Bytes, d: Channel, m: RuntimeMessage)
    requires b.Valid() && d.Valid() && y.channelId == b.id && b.role == y.role
    requires OpenStep(b.(locked := true), s.mac, frame, s.messages.decode) == (d, Ok(m))
    ensures ConfigurationReceiveStep(y, b, s.mac, s.messages, frame) == HandleRuntimeMessage(y, d, s.messages, m)
  {
  }

  /** Any configuration the supervisor manages to seal passes the runtime's checks. */
  lemma SealedConfigurationIsAccepted(s: Session, a: Channel, x: Exchange, b: Channel, y: Exchange, g: Configuration)
    requires s.Sound() && Facing(a, b) && y.channelId == b.id && b.role.Runtime? && y.role.Runtime?
    requires x.selection == y.selection && x.runtimeVersion == y.runtimeVersion && y.state.AwaitingConfiguration?
    requires ConfigureStep(x, a, s.mac, s.messages, g).2.Ok?
    ensures b.receiveSequence < U64_MAX
    ensures var d := Accepted(b.(locked := true), ProposalText(s, g));
            && d.Valid()
            && ConfigurationReceiveStep(y, b, s.mac, s.messages, ConfigureStep(x, a, s.mac, s.messages, g).2.value)
               == (Adopt(y, d, g), d, Ok(Some(g)))
  {
    var frame := ConfigureStep(x, a, s.mac, s.messages, g).2.value;
    ProposalSeals(s, a, x, g);
    LockingKeepsFacing(a, b);
    ProposalOpens(s, a.(locked := true), b.(locked := true), g);
    var d := Accepted(b.(locked := true), ProposalText(s, g));
    ProposalWasChecked(s, a, x, g);
    FacingEndAdopts(s, a.(locked := true), x, b.(locked := true), y, g, d);
    OpenedIsHandled(s, b, y, frame, d, ConfigureMessage(g));
  }

  /** The acknowledgement of an adopted configuration always fits the channel. */
  lemma AcknowledgementAlwaysSeals(s: Session, c: Channel, x: Exchange, g: Configuration)
    requires s.Sound() && c.Valid() && !c.retired && c.sendSequence < U64_MAX && c.id == x.channelId
    requires c.role.Runtime? && x.role.Runtime? && x.state.AwaitingAcknowledgement?
    requires x.expectedManifest == Some(ManifestOf(g)) && ConfigurationFault(g, x.selection).None?
    requires s.messages.encode(ConfigureMessage(g)).complete
             && |s.messages.encode(ConfigureMessage(g)).Text()| <= c.MaxPayload()
    ensures var run := s.messages.encode(ConfiguredMessage(ManifestOf(g)));
            var (y, d, reply) := AcknowledgeStep(x, c, s.mac, s.messages, ManifestOf(g));
            && SealStep(c, s.mac, run).1.Ok? && reply == Ok(SealStep(c, s.mac, run).1.value)
            && y == x.(state := AcknowledgementPending) && d == SealStep(c, s.mac, run).0
  {
    AcknowledgementIsNoLonger(g);
    assert PortableMessage(ConfiguredMessage(ManifestOf(g)));
    SealsExactlyWhatFits(c, s.mac, s.messages.encode(ConfiguredMessage(ManifestOf(g))));
  }

  /** A supervisor that proposed a configuration confirms its acknowledgement. */
  lemma AcknowledgementIsConfirmed(s: Session, c: Channel, d: Channel, x: Exchange, g: Configuration)
    requires s.Sound() && Facing(d, c) && c.locked && c.id == x.channelId
    requires c.role.Supervisor? && x.role.Supervisor? && x.state.AwaitingAcknowledgement?
    requires x.expectedManifest == Some(ManifestOf(g))
    requires SealStep(d, s.mac, s.messages.encode(ConfiguredMessage(ManifestOf(g)))).1.Ok?
    ensures var frame := SealStep(d, s.mac, s.messages.encode(ConfiguredMessage(ManifestOf(g)))).1.value;
            var r := ConfigurationReceiveStep(x, c, s.mac, s.messages, frame);
            r.2 == Ok(None) && r.0.state.ExchangeConfigured?
  {
    var ack := s.messages.encode(ConfiguredMessage(ManifestOf(g)));
    assert s.messages.decode(ack.Text()) == Some(ConfiguredMessage(ManifestOf(g))) by { SealAppends(d, s.mac, ack); }
    assert c.(locked := true) == c;
    FacingOpens(d, c, s.mac, ack, s.messages.decode);
  }

  lemma FacingTurns(a: Channel, b: Channel)
    requires Facing(a, b)
    ensures Facing(b, a)
  {
  }

  /** The runtime acknowledges and commits, its frame is delivered, and the supervisor
      confirms: both exchanges are configured. */
  predicate EndConfigured(s: Session, c: Channel, x: Exchange, d: Channel, y: Exchange, g: Configuration)
    requires c.Valid() && d.Valid()
  {
    var (y2, d2, reply) := AcknowledgeStep(y, d, s.mac, s.messages, ManifestOf(g));
    && reply.Ok? && CompleteAcknowledgementStep(y2, d2).2.None?
    && CompleteAcknowledgementStep(y2, d2).0.state.ExchangeConfigured?
    && var confirmed := ConfigurationReceiveStep(x, c, s.mac, s.messages, reply.value);
    && confirmed.2 == Ok(None) && confirmed.0.state.ExchangeConfigured?
  }

  /** With in-order delivery, whatever the supervisor proposes and seals goes all the
      way: the runtime adopts it, its acknowledgement fits, both end configured. */
  lemma HonestConfigurationCompletes(s: Session, w: World, g: Configuration)
    requires s.Sound() && WorldOk(s, w) && ReadyToConfigure(w)
    requires ConfigureStep(w.supervisor.phase.x, w.supervisor.c, s.mac, s.messages, g).2.Ok?
    ensures var (x1, c1, proposal) := ConfigureStep(w.supervisor.phase.x, w.supervisor.c, s.mac, s.messages, g);
            var (y1, d1, adopted) := ConfigurationReceiveStep(w.runtime.phase.x, w.runtime.c, s.mac, s.messages, proposal.value);
            && adopted == Ok(Some(g)) && d1.Valid() && c1.Valid()
            && EndConfigured(s, c1, x1, d1, y1, g)
  {
    ReadyPeersFace(s, w);
    ExchangingPeersAreBound(s, w);
    ProposalGoesAllTheWay(s, w.supervisor.c, w.supervisor.phase.x, w.runtime.c, w.runtime.phase.x, g);
  }

  lemma ExchangingPeersAreBound(s: Session, w: World)
    requires s.Sound() && WorldOk(s, w) && ReadyToConfigure(w)
    ensures w.supervisor.phase.x.channelId == w.supervisor.c.id && w.supervisor.phase.x.role.Supervisor?
    ensures w.runtime.phase.x.channelId == w.runtime.c.id && w.runtime.phase.x.role.Runtime?
    ensures w.supervisor.c.role.Supervisor? && w.runtime.c.role.Runtime? && w.runtime.c.sendSequence < U64_MAX
  {
  }

  /** Once both hold the configuration, the acknowledgement carries both to the end. */
  lemma AdoptionGoesTheRestOfTheWay(s: Session, c: Channel, x: Exchange, d: Channel, y: Exchange, g: Configuration)
    requires s.Sound() && Facing(c, d) && c.locked && x.channelId == c.id && y.channelId == d.id
    requires c.role.Supervisor? && x.role.Supervisor? && d.role.Runtime? && y.role.Runtime? && d.sendSequence < U64_MAX
    requires x.state.AwaitingAcknowledgement? && x.expectedManifest == Some(ManifestOf(g))
    requires y.state.AwaitingAcknowledgement? && y.expectedManifest == Some(ManifestOf(g))
    requires ConfigurationFault(g, y.selection).None?
    requires s.messages.encode(ConfigureMessage(g)).complete && |ProposalText(s, g)| <= d.MaxPayload()
    ensures EndConfigured(s, c, x, d, y, g)
  {
    AcknowledgementAlwaysSeals(s, d, y, g);
    SealAppends(d, s.mac, s.messages.encode(ConfiguredMessage(ManifestOf(g))));
    FacingTurns(c, d);
    AcknowledgementIsConfirmed(s, c, d, x, g);
  }

  /** Once the proposal has crossed, the two ends go the rest of the way. */
  lemma ProposalCrosses(s: Session, a: Channel, x: Exchange, b: Channel, y: Exchange, g: Configuration)
    requires s.Sound() && Facing(a, b) && a.locked && x.channelId == a.id && y.channelId == b.id
    requires a.role.Supervisor? && x.role.Supervisor? && b.role.Runtime? && y.role.Runtime? && b.sendSequence < U64_MAX
    requires ConfigurationFault(g, y.selection).None?
    requires SealStep(a, s.mac, s.messages.encode(ConfigureMessage(g))).1.Ok?
    ensures a.sendSequence < U64_MAX && b.receiveSequence < U64_MAX
    ensures var c1, d1 := AlsoSent(a, ProposalText(s, g)), Accepted(b, ProposalText(s, g));
            c1.Valid() && d1.Valid() && EndConfigured(s, c1, Adopt(x, a, g), d1, Adopt(y, d1, g), g)
  {
    ProposalOpens(s, a, b, g);
    var c1, d1 := AlsoSent(a, ProposalText(s, g)), Accepted(b, ProposalText(s, g));
    AdoptionGoesTheRestOfTheWay(s, c1, Adopt(x, a, g), d1, Adopt(y, d1, g), g);
  }

  /** Any proposal that seals ends with both exchanges configured. */
  lemma ProposalGoesAllTheWay(s: Session, a: Channel, x: Exchange, b: Channel, y: Exchange, g: Configuration)
    requires s.Sound() && Facing(a, b) && x.channelId == a.id && y.channelId == b.id
    requires a.role.Supervisor? && x.role.Supervisor? && b.role.Runtime? && y.role.Runtime? && b.sendSequence < U64_MAX
    requires x.selection == y.selection && x.runtimeVersion == y.runtimeVersion && y.state.AwaitingConfiguration?
    requires ConfigureStep(x, a, s.mac, s.messages, g).2.Ok?
    ensures var (x1, c1, proposal) := ConfigureStep(x, a, s.mac, s.messages, g);
            var (y1, d1, adopted) := ConfigurationReceiveStep(y, b, s.mac, s.messages, proposal.value);
            && adopted == Ok(Some(g)) && d1.Valid() && c1.Valid()
            && EndConfigured(s, c1, x1, d1, y1, g)
  {
    ProposalSeals(s, a, x, g);
    SealedConfigurationIsAccepted(s, a, x, b, y, g);
    ProposalWasChecked(s, a, x, g);
    LockingKeepsFacing(a, b);
    ProposalCrosses(s, a.(locked := true), x, b.(locked := true), y, g);
  }
}

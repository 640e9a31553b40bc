/** Two channel ends and a transport that may deliver any bytes at all, as long
    as what verifies under the session key was sealed under it. */
module SidecarLink {
  import opened Wrappers
  import opened ByteStrings
  import opened SizedWriters
  import opened SidecarFrame
  import opened SidecarNegotiation
  import opened SidecarChannel

  predicate Verifies(mac: Mac, frame: Bytes) {
    |frame| >= AUTH_TAG_BYTES
    && mac(frame[..|frame| - AUTH_TAG_BYTES]) == frame[|frame| - AUTH_TAG_BYTES..]
  }

  ghost predicate SentBy(mac: Mac, c: Channel, frame: Bytes)
    requires c.Valid()
  {
    exists k: nat :: k < |c.sent| && frame == c.SentFrame(mac, k)
  }

  /** A frame some channel of another session or generation sealed under this key. */
  ghost predicate Foreign(mac: Mac, session: Bytes, generation: U64, frame: Bytes) {
    exists h: Header, payload: Bytes ::
      h.Encodable() && |payload| <= U32_MAX && frame == Encode(mac, h, payload)
      && (h.session != session || h.generation != generation)
  }

  /** The ideal code: the transport may drop, repeat, reorder, reflect, replay,
      corrupt or invent frames, but cannot forge a tag. */
  ghost predicate Deliverable(mac: Mac, a: Channel, b: Channel, frame: Bytes)
    requires a.Valid() && b.Valid()
  {
    Verifies(mac, frame) ==>
      SentBy(mac, a, frame) || SentBy(mac, b, frame) || Foreign(mac, a.session, a.generation, frame)
  }

  /** What every run keeps: each end has accepted, in order, a prefix of what the
      other end sealed. */
  predicate Linked(a: Channel, b: Channel) {
    && a.Valid() && b.Valid() && b.role == a.role.Remote()
    && a.session == b.session && a.generation == b.generation
    && a.accepted <= b.SentPayloads() && b.accepted <= a.SentPayloads()
  }

  /** An end never accepts a frame it sealed itself. */
  lemma ReflectionIsRejected(mac: Mac, a: Channel, payload: Bytes, k: nat)
    requires TagSized(mac) && a.Valid() && a.receiveSequence < U64_MAX && |payload| <= U32_MAX
    requires k < |a.sent|
    ensures a.SentFrame(mac, k) != Encode(mac, a.Expected(), payload)
  {
    if a.SentFrame(mac, k) == Encode(mac, a.Expected(), payload) {
      EncodingIsInjective(mac, a.Expected(), payload, a.HeaderOf(k + 1, a.sent[k].minor), a.sent[k].payload);
      assert false;
    }
  }

  lemma ForeignIsRejected(mac: Mac, a: Channel, payload: Bytes, frame: Bytes)
    requires TagSized(mac) && a.Valid() && a.receiveSequence < U64_MAX && |payload| <= U32_MAX
    requires Foreign(mac, a.session, a.generation, frame)
    ensures frame != Encode(mac, a.Expected(), payload)
  {
    var h: Header, p: Bytes :|
      h.Encodable() && |p| <= U32_MAX && frame == Encode(mac, h, p)
      && (h.session != a.session || h.generation != a.generation);
    if frame == Encode(mac, a.Expected(), payload) {
      EncodingIsInjective(mac, a.Expected(), payload, h, p);
      assert false;
    }
  }

  lemma PeersFrameIsTheNext(mac: Mac, a: Channel, b: Channel, payload: Bytes, k: nat)
    requires TagSized(mac) && Linked(a, b) && a.receiveSequence < U64_MAX && |payload| <= U32_MAX
    requires k < |b.sent| && b.SentFrame(mac, k) == Encode(mac, a.Expected(), payload)
    ensures k == |a.accepted| && payload == b.sent[k].payload
  {
    EncodingIsInjective(mac, a.Expected(), payload, b.HeaderOf(k + 1, b.sent[k].minor), b.sent[k].payload);
  }

  lemma EncodedFramesVerify(mac: Mac, h: Header, payload: Bytes)
    requires TagSized(mac) && h.Encodable() && |payload| <= U32_MAX
    ensures Verifies(mac, Encode(mac, h, payload))
  {
    var text, frame := AuthenticatedBytes(h, payload), Encode(mac, h, payload);
    assert |mac(text)| == AUTH_TAG_BYTES;
    assert frame[..|frame| - AUTH_TAG_BYTES] == text && frame[|frame| - AUTH_TAG_BYTES..] == mac(text);
  }

  /** Whatever the transport delivers, a frame that passes the checks is the
      peer's next frame. */
  lemma OnlyThePeersNextFramePasses(mac: Mac, a: Channel, b: Channel, frame: Bytes, payload: Bytes)
    requires TagSized(mac) && Linked(a, b) && Deliverable(mac, a, b, frame)
    requires CheckFrame(a, mac, frame) == Ok(payload)
    ensures |a.accepted| < |b.sent| && payload == b.sent[|a.accepted|].payload
    ensures frame == b.SentFrame(mac, |a.accepted|)
  {
    ChecksAcceptOnlyTheNextFrame(a, mac, frame, payload);
    EncodedFramesVerify(mac, a.Expected(), payload);
    if Foreign(mac, a.session, a.generation, frame) {
      ForeignIsRejected(mac, a, payload, frame);
    }
    if SentBy(mac, a, frame) {
      var k: nat :| k < |a.sent| && frame == a.SentFrame(mac, k);
      ReflectionIsRejected(mac, a, payload, k);
    }
    var k: nat :| k < |b.sent| && frame == b.SentFrame(mac, k);
    PeersFrameIsTheNext(mac, a, b, payload, k);
  }

  lemma SealKeepsLink(mac: Mac, a: Channel, b: Channel, run: Serialization)
    requires Linked(a, b)
    ensures Linked(SealStep(a, mac, run).0, b)
    ensures Linked(b, a) && Linked(b, SealStep(a, mac, run).0)
  {
    FailuresAreClosed(a, mac, run, [], (p: Bytes) => Some(p));
    assert b.accepted <= a.SentPayloads() <= SealStep(a, mac, run).0.SentPayloads();
  }

  /** An end with one more payload accepted, the next one its peer sealed. */
  lemma AcceptingKeepsLink(a: Channel, a': Channel, b: Channel)
    requires Linked(a, b) && |a.accepted| < |b.sent| && a'.Valid()
    requires a' == a.(receiveSequence := a.receiveSequence + 1, accepted := a.accepted + [b.sent[|a.accepted|].payload])
    ensures Linked(a', b) && Linked(b, a')
  {
    assert a'.SentPayloads() == a.SentPayloads();
    assert a'.accepted <= b.SentPayloads();
  }

  lemma RetiringKeepsBothLinked(a: Channel, b: Channel)
    requires Linked(a, b)
    ensures Linked(a, RetireStep(b)) && Linked(RetireStep(a), b) && Linked(b, RetireStep(a)) && Linked(b, a)
  {
    assert RetireStep(a).SentPayloads() == a.SentPayloads() && RetireStep(b).SentPayloads() == b.SentPayloads();
  }

  lemma OpenKeepsLink<T>(mac: Mac, a: Channel, b: Channel, frame: Bytes, decode: Bytes -> Option<T>)
    requires TagSized(mac) && Linked(a, b) && Deliverable(mac, a, b, frame)
    ensures Linked(OpenStep(a, mac, frame, decode).0, b)
    ensures Linked(b, OpenStep(a, mac, frame, decode).0)
    ensures OpenStep(a, mac, frame, decode).1.Ok? ==>
              && |a.accepted| < |b.sent|
              && OpenStep(a, mac, frame, decode).0.accepted == a.accepted + [b.sent[|a.accepted|].payload]
              && decode(b.sent[|a.accepted|].payload) == Some(OpenStep(a, mac, frame, decode).1.value)
  {
    FailuresAreClosed(a, mac, Serialization([], true), frame, decode);
    if OpenStep(a, mac, frame, decode).1.Ok? {
      OnlyThePeersNextFramePasses(mac, a, b, frame, CheckFrame(a, mac, frame).value);
      AcceptingKeepsLink(a, OpenStep(a, mac, frame, decode).0, b);
    } else {
      RetiringKeepsBothLinked(a, b);
    }
  }

  // ---- runs of the bare channel ----

  datatype Link = Link(supervisor: Channel, runtime: Channel) {
    function End(side: Role): Channel {
      if side.Supervisor? then supervisor else runtime
    }

    function With(side: Role, c: Channel): Link {
      if side.Supervisor? then this.(supervisor := c) else this.(runtime := c)
    }
  }

  datatype LinkAction =
    | Seal(side: Role, run: Serialization)
    | Open(side: Role, frame: Bytes, readable: Bytes -> bool)
    | Lower(side: Role, limit: U32)
    | Apply(side: Role, negotiated: Negotiated)
    | Lock(side: Role)
    | RetireEnd(side: Role)

  function Reader(readable: Bytes -> bool): Bytes -> Option<Bytes> {
    payload => if readable(payload) then Some(payload) else None
  }

  function EndStep(c: Channel, mac: Mac, action: LinkAction): Channel
    requires c.Valid()
  {
    match action
    case Seal(_, run) => SealStep(c, mac, run).0
    case Open(_, frame, readable) => OpenStep(c, mac, frame, Reader(readable)).0
    case Lower(_, limit) => LowerStep(c, limit).0
    case Apply(_, n) => ApplyStep(c, n).0
    case Lock(_) => c.(locked := true)
    case RetireEnd(_) => RetireStep(c)
  }

  function LinkStep(mac: Mac, l: Link, action: LinkAction): Link
    requires l.supervisor.Valid() && l.runtime.Valid()
  {
    l.With(action.side, EndStep(l.End(action.side), mac, action))
  }

  ghost predicate LinkEnabled(mac: Mac, l: Link, action: LinkAction)
    requires l.supervisor.Valid() && l.runtime.Valid()
  {
    action.Open? ==> Deliverable(mac, l.supervisor, l.runtime, action.frame)
  }

  ghost predicate LinkRun(mac: Mac, l: Link, actions: seq<LinkAction>)
    decreases |actions|
  {
    && l.supervisor.Valid() && l.runtime.Valid()
    && (actions != [] ==> LinkEnabled(mac, l, actions[0]) && LinkRun(mac, LinkStep(mac, l, actions[0]), actions[1..]))
  }

  ghost function AfterRun(mac: Mac, l: Link, actions: seq<LinkAction>): Link
    requires LinkRun(mac, l, actions)
    decreases |actions|
  {
    if actions == [] then l else AfterRun(mac, LinkStep(mac, l, actions[0]), actions[1..])
  }

  /** Operations that touch neither history keep the link. */
  lemma QuietChangeKeepsLink(a: Channel, a': Channel, b: Channel)
    requires Linked(a, b) && a'.Valid()
    requires a'.role == a.role && a'.session == a.session && a'.generation == a.generation
    requires a'.sent == a.sent && a'.accepted == a.accepted
    ensures Linked(a', b) && Linked(b, a')
  {
    assert a'.SentPayloads() == a.SentPayloads();
  }

  lemma QuietSteps(c: Channel, mac: Mac, action: LinkAction)
    requires c.Valid() && !action.Seal? && !action.Open?
    ensures var c' := EndStep(c, mac, action);
      && c'.Valid() && c'.role == c.role && c'.session == c.session && c'.generation == c.generation
      && c'.sent == c.sent && c'.accepted == c.accepted
      && c'.maxFrame <= c.maxFrame && (c.locked ==> c'.locked && c'.maxFrame == c.maxFrame)
      && (c.retired ==> c'.retired)
  {
  }

  lemma LinkStepKeeps(mac: Mac, l: Link, action: LinkAction)
    requires TagSized(mac) && Linked(l.supervisor, l.runtime) && LinkEnabled(mac, l, action)
    ensures var l' := LinkStep(mac, l, action); Linked(l'.supervisor, l'.runtime)
  {
    var c, peer := l.End(action.side), l.End(action.side.Remote());
    assert Linked(c, peer);
    match action {
      case Seal(_, run) => SealKeepsLink(mac, c, peer, run);
      case Open(_, frame, readable) =>
        assert Deliverable(mac, c, peer, frame);
        OpenKeepsLink(mac, c, peer, frame, Reader(readable));
      case _ =>
        QuietSteps(c, mac, action);
        QuietChangeKeepsLink(c, EndStep(c, mac, action), peer);
    }
  }

  lemma {:induction false} RunsKeepLink(mac: Mac, l: Link, actions: seq<LinkAction>)
    requires TagSized(mac) && Linked(l.supervisor, l.runtime) && LinkRun(mac, l, actions)
    ensures var end := AfterRun(mac, l, actions); Linked(end.supervisor, end.runtime)
    decreases |actions|
  {
    if actions != [] {
      LinkStepKeeps(mac, l, actions[0]);
      RunsKeepLink(mac, LinkStep(mac, l, actions[0]), actions[1..]);
    }
  }

  /** In every run, from two fresh ends of one session, what each end has opened
      is a prefix, in order, of what the other sealed. */
  lemma OpenedIsAPrefixOfSealed(mac: Mac, l: Link, actions: seq<LinkAction>)
    requires TagSized(mac) && FreshEnds(l) && LinkRun(mac, l, actions)
    ensures var end := AfterRun(mac, l, actions);
            && end.supervisor.accepted <= end.runtime.SentPayloads()
            && end.runtime.accepted <= end.supervisor.SentPayloads()
  {
    RunsKeepLink(mac, l, actions);
  }

  predicate FreshEnds(l: Link) {
    var s, r := l.supervisor, l.runtime;
    && Create(s.id, Supervisor, s.session, s.generation, s.maxFrame) == Ok(s)
    && Create(r.id, Runtime, s.session, s.generation, r.maxFrame) == Ok(r)
  }

  lemma EndStepOnlyTightens(c: Channel, mac: Mac, action: LinkAction)
    requires c.Valid()
    ensures var c' := EndStep(c, mac, action);
      && c'.maxFrame <= c.maxFrame && (c.locked ==> c'.locked && c'.maxFrame == c.maxFrame)
      && (c.retired ==> c'.retired && c'.sent == c.sent && c'.accepted == c.accepted)
  {
    match action {
      case Seal(_, run) =>
      case Open(_, frame, readable) =>
      case _ => QuietSteps(c, mac, action);
    }
  }

  /** Once an end is retired nothing is sealed or opened on it again, in any run. */
  lemma {:induction false} RetirementIsFinal(mac: Mac, l: Link, actions: seq<LinkAction>, side: Role)
    requires LinkRun(mac, l, actions) && l.End(side).retired
    ensures var c := AfterRun(mac, l, actions).End(side);
            c.retired && c.sent == l.End(side).sent && c.accepted == l.End(side).accepted
    decreases |actions|
  {
    if actions != [] {
      EndStepOnlyTightens(l.End(side), mac, actions[0]);
      RetirementIsFinal(mac, LinkStep(mac, l, actions[0]), actions[1..], side);
    }
  }

  /** The frame ceiling never rises, and never moves again once locked. */
  lemma {:induction false} CeilingOnlyFalls(mac: Mac, l: Link, actions: seq<LinkAction>, side: Role)
    requires LinkRun(mac, l, actions)
    ensures var c := AfterRun(mac, l, actions).End(side);
            && c.maxFrame <= l.End(side).maxFrame
            && (l.End(side).locked ==> c.locked && c.maxFrame == l.End(side).maxFrame)
    decreases |actions|
  {
    if actions != [] {
      EndStepOnlyTightens(l.End(side), mac, actions[0]);
      CeilingOnlyFalls(mac, LinkStep(mac, l, actions[0]), actions[1..], side);
    }
  }
}

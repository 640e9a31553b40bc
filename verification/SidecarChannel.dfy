/** One end of an authenticated channel: sequence numbers, session and
    generation binding, frame ceiling and retirement. */
module SidecarChannel {
  import opened Wrappers
  import opened ByteStrings
  import opened SizedWriters
  import opened SidecarFrame
  import opened SidecarNegotiation

  datatype FrameError =
    | ChannelRetired
    | SequenceExhausted
    | FrameTooLarge(size: nat, limit: nat)
    | Truncated
    | Authentication
    | InvalidMagic
    | UnsupportedVersion(major: nat, minor: nat)
    | InvalidDirection(value: Byte)
    | WrongDirection
    | WrongGeneration(expectedGeneration: nat, receivedGeneration: nat)
    | UnexpectedSequence(expectedSequence: nat, receivedSequence: nat)
    | WrongSession
    | TrailingBytes
    | SerializeFailed
    | DeserializeFailed

  /** A payload that was sealed, with the minor version its frame carried. */
  datatype Sent = Sent(minor: U16, payload: Bytes)

  /** The abstract state of one channel end. `sent` and `accepted` are its history. */
  datatype Channel = Channel(
    id: nat, role: Role, minor: U16, session: Bytes, generation: U64, maxFrame: U32,
    locked: bool, sendSequence: U64, receiveSequence: U64, retired: bool,
    sent: seq<Sent>, accepted: seq<Bytes>)
  {
    predicate Valid() {
      && 1 <= |session| <= U16_MAX && generation >= 1
      && MinimumFrameBytes(|session|) <= maxFrame
      && |sent| == sendSequence && |accepted| == receiveSequence
      && forall k :: 0 <= k < |sent| ==> Overhead() + |sent[k].payload| <= U32_MAX
    }

    /** Bytes every frame of this channel spends outside its payload. */
    function Overhead(): nat {
      FIXED_HEADER_BYTES + |session| + AUTH_TAG_BYTES
    }

    function MaxPayload(): nat
      requires Valid()
    {
      maxFrame - Overhead()
    }

    /** The header this end puts on its k-th frame (counting from one). */
    function HeaderOf(k: nat, frameMinor: U16): Header {
      Header(frameMinor, role, generation, k, session)
    }

    /** The header the next acceptable incoming frame carries. */
    function Expected(): Header {
      Header(minor, role.Remote(), generation, receiveSequence + 1, session)
    }

    /** The k-th frame this end ever sealed, counting from zero. */
    function SentFrame(mac: Mac, k: nat): Bytes
      requires Valid() && k < |sent|
    {
      Encode(mac, HeaderOf(k + 1, sent[k].minor), sent[k].payload)
    }

    function SentPayloads(): seq<Bytes> {
      seq(|sent|, k requires 0 <= k < |sent| => sent[k].payload)
    }
  }

  function MinimumFrameBytes(sessionBytes: nat): nat {
    FIXED_HEADER_BYTES + sessionBytes + AUTH_TAG_BYTES + 1
  }

  function Create(id: nat, role: Role, session: Bytes, generation: U64, maxFrame: U32)
      : (r: Result<Channel, ProtocolError>)
    ensures r.Ok? ==> r.value.Valid()
  {
    if |session| == 0 || |session| > U16_MAX then Err(InvalidSessionId)
    else if generation == 0 then Err(InvalidGeneration)
    else if maxFrame < MinimumFrameBytes(|session|) then Err(InvalidLimit("maxFrameBytes"))
    else if id == U64_MAX then Err(ChannelInstanceIdExhausted)
    else Ok(Channel(id, role, BOOTSTRAP_MINOR, session, generation, maxFrame, false, 0, 0, false, [], []))
  }

  function RetireStep(c: Channel): Channel {
    c.(retired := true)
  }

  function LowerStep(c: Channel, limit: U32): (Channel, Option<ProtocolError>) {
    if c.locked then (c, Some(FrameLimitLocked))
    else if limit < MinimumFrameBytes(|c.session|) then (c, Some(InvalidLimit("maxFrameBytes")))
    else if limit > c.maxFrame then (c, Some(LimitIncrease(c.maxFrame, limit)))
    else (c.(maxFrame := limit), None)
  }

  function ApplyStep(c: Channel, n: Negotiated): (Channel, Option<ProtocolError>) {
    if n.selection.major != PROTOCOL_MAJOR
    then (c, Some(UnsupportedMajor(PROTOCOL_MAJOR, n.selection.major)))
    else if n.selection.minor > PROTOCOL_MINOR then (c, Some(UnsupportedLocalMinor(n.selection.minor)))
    else
      var (lowered, fault) := LowerStep(c, n.selection.limits.maxFrameBytes);
      if fault.Some? then (lowered, fault) else (lowered.(minor := n.selection.minor), None)
  }

  function SealStep(c: Channel, mac: Mac, run: Serialization): (Channel, Result<Bytes, FrameError>)
    requires c.Valid()
  {
    if c.retired then (c, Err(ChannelRetired))
    else if c.sendSequence == U64_MAX then (c, Err(SequenceExhausted))
    else match Outcome(run, c.MaxPayload())
      case LimitExceeded => (c, Err(FrameError.FrameTooLarge(c.maxFrame + 1, c.maxFrame)))
      case SerializerFailed => (c, Err(SerializeFailed))
      case Written =>
        (c.(sendSequence := c.sendSequence + 1, sent := c.sent + [Sent(c.minor, run.Text())]),
         Ok(Encode(mac, c.HeaderOf(c.sendSequence + 1, c.minor), run.Text())))
  }

  /** Why the fields up to the payload length are refused, in the order the
      receiver checks them. */
  function PrefixFault(c: Channel, p: Bytes): Option<FrameError>
    requires |p| == PAYLOAD_LENGTH_OFFSET
  {
    var major, minor := FromBigEndian(p[4..6]), FromBigEndian(p[6..8]);
    var generation, sequence := FromBigEndian(p[9..17]), FromBigEndian(p[17..25]);
    if p[0..4] != FRAME_MAGIC then Some(InvalidMagic)
    else if major != PROTOCOL_MAJOR || minor != c.minor then Some(UnsupportedVersion(major, minor))
    else if p[8] != 1 && p[8] != 2 then Some(InvalidDirection(p[8]))
    else if p[8] != c.role.Remote().Direction() then Some(WrongDirection)
    else if generation != c.generation then Some(WrongGeneration(c.generation, generation))
    else if c.receiveSequence == U64_MAX then Some(SequenceExhausted)
    else if sequence != c.receiveSequence + 1
    then Some(UnexpectedSequence(c.receiveSequence + 1, sequence))
    else None
  }

  function CheckFields(c: Channel, a: Bytes): Result<Bytes, FrameError>
    requires |a| >= FIXED_HEADER_BYTES
  {
    var sessionLen, payloadLen := FromBigEndian(a[..27][25..27]), FromBigEndian(a[27..31]);
    if PrefixFault(c, a[..27]).Some? then Err(PrefixFault(c, a[..27]).value)
    else if 31 + sessionLen > |a| then Err(Truncated)
    else if a[31..31 + sessionLen] != c.session then Err(WrongSession)
    else if 31 + sessionLen + payloadLen > |a| then Err(Truncated)
    else if 31 + sessionLen + payloadLen != |a| then Err(TrailingBytes)
    else Ok(a[31 + sessionLen..])
  }

  /** The payload of an acceptable frame, or why the frame is rejected. */
  function CheckFrame(c: Channel, mac: Mac, frame: Bytes): Result<Bytes, FrameError> {
    if |frame| > c.maxFrame then Err(FrameError.FrameTooLarge(|frame|, c.maxFrame))
    else if |frame| < FIXED_HEADER_BYTES + AUTH_TAG_BYTES then Err(Truncated)
    else
      var a := frame[..|frame| - AUTH_TAG_BYTES];
      if mac(a) != frame[|frame| - AUTH_TAG_BYTES..] then Err(Authentication)
      else CheckFields(c, a)
  }

  function OpenStep<T>(c: Channel, mac: Mac, frame: Bytes, decode: Bytes -> Option<T>)
      : (Channel, Result<T, FrameError>)
  {
    if c.retired then (c, Err(ChannelRetired))
    else match CheckFrame(c, mac, frame)
      case Err(fault) => (RetireStep(c), Err(fault))
      case Ok(payload) =>
        if decode(payload).None? then (RetireStep(c), Err(DeserializeFailed))
        else if c.receiveSequence == U64_MAX then (RetireStep(c), Err(SequenceExhausted))
        else (c.(receiveSequence := c.receiveSequence + 1, accepted := c.accepted + [payload]),
              Ok(decode(payload).value))
  }

  // ---- what one call means ----

  lemma FieldsAcceptOnlyTheNextHeader(c: Channel, a: Bytes, payload: Bytes)
    requires c.Valid() && |a| >= FIXED_HEADER_BYTES
    ensures CheckFields(c, a) == Ok(payload)
       <==> && c.receiveSequence < U64_MAX && |payload| <= U32_MAX
            && a == AuthenticatedBytes(c.Expected(), payload)
  {
    if CheckFields(c, a) == Ok(payload) {
      SpanOfWords();
      assert FromBigEndian(a[..27][25..27]) == |c.session|;
      PrefixDetermines(a[..27], c.Expected());
      LayoutDetermines(a, c.Expected(), payload);
    }
    if && c.receiveSequence < U64_MAX && |payload| <= U32_MAX
       && a == AuthenticatedBytes(c.Expected(), payload)
    {
      Layout(c.Expected(), payload);
      PrefixLayout(c.Expected());
    }
  }

  /** A frame passes the checks exactly when it is the encoding, under the shared
      key, of the header this end is waiting for. */
  lemma ChecksAcceptOnlyTheNextFrame(c: Channel, mac: Mac, frame: Bytes, payload: Bytes)
    requires c.Valid() && TagSized(mac)
    ensures CheckFrame(c, mac, frame) == Ok(payload)
       <==> && c.receiveSequence < U64_MAX && |payload| <= U32_MAX
            && frame == Encode(mac, c.Expected(), payload) && |frame| <= c.maxFrame
  {
    if FIXED_HEADER_BYTES + AUTH_TAG_BYTES <= |frame| {
      var a := frame[..|frame| - AUTH_TAG_BYTES];
      FieldsAcceptOnlyTheNextHeader(c, a, payload);
      assert frame == a + frame[|frame| - AUTH_TAG_BYTES..];
    }
    if && c.receiveSequence < U64_MAX && |payload| <= U32_MAX
       && frame == Encode(mac, c.Expected(), payload) && |frame| <= c.maxFrame
    {
      var a := AuthenticatedBytes(c.Expected(), payload);
      assert |mac(a)| == AUTH_TAG_BYTES;
      assert frame[..|frame| - AUTH_TAG_BYTES] == a;
      assert frame[|frame| - AUTH_TAG_BYTES..] == mac(a);
    }
  }

  /** Nothing a frame says is looked at before its tag: an error about its content is only
      ever reported for a frame whose tag verifies, and one whose tag does not is reported
      as just that. */
  lemma AuthenticationComesFirst(c: Channel, mac: Mac, frame: Bytes)
    requires FIXED_HEADER_BYTES + AUTH_TAG_BYTES <= |frame| <= c.maxFrame
    ensures CheckFrame(c, mac, frame) == Err(Authentication)
       <==> mac(frame[..|frame| - AUTH_TAG_BYTES]) != frame[|frame| - AUTH_TAG_BYTES..]
  {
  }

  /** Why a well-formed frame with this header is not the one a channel expects. */
  function Misaddressed(c: Channel, h: Header): Option<FrameError> {
    if h.minor != c.minor then Some(UnsupportedVersion(PROTOCOL_MAJOR, h.minor))
    else if h.role != c.role.Remote() then Some(WrongDirection)
    else if h.generation != c.generation then Some(WrongGeneration(c.generation, h.generation))
    else if c.receiveSequence == U64_MAX then Some(SequenceExhausted)
    else if h.sequence != c.receiveSequence + 1 then Some(UnexpectedSequence(c.receiveSequence + 1, h.sequence))
    else if h.session != c.session then Some(WrongSession)
    else None
  }

  /** A well-formed frame that is not the expected one is refused for what its header has
      different: the version, the direction, the generation, the number or the session, in
      this order; and one that has nothing different gives up its payload. */
  lemma RefusalsNameWhatDiffers(c: Channel, mac: Mac, h: Header, payload: Bytes)
    requires h.Encodable() && |payload| <= U32_MAX && TagSized(mac) && |Encode(mac, h, payload)| <= c.maxFrame
    ensures CheckFrame(c, mac, Encode(mac, h, payload))
         == match Misaddressed(c, h) case Some(e) => Err(e) case None => Ok(payload)
  {
    var a := AuthenticatedBytes(h, payload);
    var frame := Encode(mac, h, payload);
    assert |mac(a)| == AUTH_TAG_BYTES && frame[..|frame| - AUTH_TAG_BYTES] == a;
    assert frame[|frame| - AUTH_TAG_BYTES..] == mac(a);
    SpanOfWords();
    Layout(h, payload);
    PrefixLayout(h);
    assert CheckFrame(c, mac, frame) == CheckFields(c, a);
  }

  /** A channel can be made exactly for a session that is there and can be counted in two
      bytes, a generation, a ceiling with room for a payload of one byte, and an instance
      number to spare; and then it may send that much. */
  lemma ChannelsAreMadeExactlyWhen(id: nat, role: Role, session: Bytes, generation: U64, maxFrame: U32)
    ensures Create(id, role, session, generation, maxFrame).Ok?
       <==> && 1 <= |session| <= U16_MAX && generation >= 1 && id != U64_MAX
            && FIXED_HEADER_BYTES + |session| + 1 + AUTH_TAG_BYTES <= maxFrame
    ensures Create(id, role, session, generation, maxFrame).Ok? ==>
      1 <= Create(id, role, session, generation, maxFrame).value.MaxPayload()
  {
  }

  /** On a live channel with sequence left, a payload seals exactly when its serializer
      succeeds and its length is at most the advertised maximum, which is what the streaming
      size check answers and exactly when the whole frame is within the ceiling. */
  lemma SealsExactlyWhatFits(c: Channel, mac: Mac, run: Serialization)
    requires c.Valid() && !c.retired && c.sendSequence < U64_MAX
    ensures SealStep(c, mac, run).1.Ok? <==> run.complete && |run.Text()| <= c.MaxPayload()
    ensures SealStep(c, mac, run).1.Ok? <==> Outcome(run, c.MaxPayload()).Written?
    ensures SealStep(c, mac, run).1.Ok? && TagSized(mac) ==> |SealStep(c, mac, run).1.value| <= c.maxFrame
    ensures TagSized(mac) && |run.Text()| <= U32_MAX ==>
      (SealStep(c, mac, run).1.Ok?
       <==> run.complete && |Encode(mac, c.HeaderOf(c.sendSequence + 1, c.minor), run.Text())| <= c.maxFrame)
  {
  }

  /** A failed seal changes nothing; a failed open retires; a retired end is inert. */
  lemma FailuresAreClosed<T>(c: Channel, mac: Mac, run: Serialization, frame: Bytes, decode: Bytes -> Option<T>)
    requires c.Valid()
    ensures SealStep(c, mac, run).1.Err? ==> SealStep(c, mac, run).0 == c
    ensures OpenStep(c, mac, frame, decode).1.Err? ==> OpenStep(c, mac, frame, decode).0 == RetireStep(c)
    ensures c.retired ==> SealStep(c, mac, run).1 == Err(ChannelRetired)
                          && OpenStep(c, mac, frame, decode) == (c, Err(ChannelRetired))
    ensures SealStep(c, mac, run).0.Valid() && OpenStep(c, mac, frame, decode).0.Valid()
  {
    var c' := SealStep(c, mac, run).0;
    assert c'.sent[..|c.sent|] == c.sent;
  }

  /** A frame addressed to this channel as its next one is opened exactly when it is
      within the ceiling and its payload reads. */
  lemma OpensTheExpected<T>(r: Channel, mac: Mac, payload: Bytes, decode: Bytes -> Option<T>)
    requires r.Valid() && TagSized(mac) && !r.retired && r.receiveSequence < U64_MAX && |payload| <= U32_MAX
    requires decode(payload).Some?
    ensures var frame := Encode(mac, r.Expected(), payload);
            if |frame| <= r.maxFrame
            then OpenStep(r, mac, frame, decode)
                 == (r.(receiveSequence := r.receiveSequence + 1, accepted := r.accepted + [payload]), Ok(decode(payload).value))
            else OpenStep(r, mac, frame, decode).1.Err?
  {
    var frame := Encode(mac, r.Expected(), payload);
    ChecksAcceptOnlyTheNextFrame(r, mac, frame, payload);
    if CheckFrame(r, mac, frame).Ok? {
      ChecksAcceptOnlyTheNextFrame(r, mac, frame, CheckFrame(r, mac, frame).value);
    }
  }

  /** What is sealed is the frame the matching receiver expects next. */
  lemma SealedIsExpected(s: Channel, r: Channel, mac: Mac, run: Serialization)
    requires s.Valid() && r.Valid() && TagSized(mac)
    requires r.role == s.role.Remote() && r.session == s.session && r.generation == s.generation
    requires r.minor == s.minor && r.receiveSequence == s.sendSequence && SealStep(s, mac, run).1.Ok?
    ensures r.receiveSequence < U64_MAX && |run.Text()| <= U32_MAX
    ensures SealStep(s, mac, run).1.value == Encode(mac, r.Expected(), run.Text())
    ensures |SealStep(s, mac, run).1.value| <= s.maxFrame
  {
    SealsExactlyWhatFits(s, mac, run);
    assert s.HeaderOf(s.sendSequence + 1, s.minor) == r.Expected();
  }

  /** The receiver whose next frame this is opens exactly the payload that was sealed,
      if and only if the frame is within its own ceiling. */
  lemma OpenInvertsSeal<T>(s: Channel, r: Channel, mac: Mac, run: Serialization, decode: Bytes -> Option<T>)
    requires s.Valid() && r.Valid() && TagSized(mac)
    requires r.role == s.role.Remote() && r.session == s.session && r.generation == s.generation
    requires r.minor == s.minor && r.receiveSequence == s.sendSequence && !r.retired
    requires SealStep(s, mac, run).1.Ok? && decode(run.Text()).Some?
    ensures var frame := SealStep(s, mac, run).1.value;
      && |frame| <= s.maxFrame
      && (|frame| <= r.maxFrame ==>
            OpenStep(r, mac, frame, decode)
            == (r.(receiveSequence := s.sendSequence + 1, accepted := r.accepted + [run.Text()]),
                Ok(decode(run.Text()).value)))
      && (|frame| > r.maxFrame ==> OpenStep(r, mac, frame, decode).1.Err?)
      && OpenStep(r, mac, frame, decode).0.Valid()
  {
    SealedIsExpected(s, r, mac, run);
    FailuresAreClosed(r, mac, run, Encode(mac, r.Expected(), run.Text()), decode);
    OpensTheExpected(r, mac, run.Text(), decode);
  }

  // ---- the mutable channel ----

  /** Overwriting the length placeholder leaves the other parts of a frame alone. */
  lemma PatchedLength(prefix: Bytes, placeholder: Bytes, length: Bytes, session: Bytes, payload: Bytes)
    requires |placeholder| == |length|
    ensures var draft := prefix + placeholder + session + payload;
            draft[..|prefix|] + length + draft[|prefix| + |length|..] == prefix + length + session + payload
  {
  }

  /** A frame whose length field was patched in last is laid out like any other. */
  lemma PatchedIsLaidOut(h: Header, payload: Bytes)
    requires h.Encodable() && |payload| <= U32_MAX
    ensures var draft := HeaderPrefix(h) + BigEndian(0, 4) + h.session + payload;
            draft[..PAYLOAD_LENGTH_OFFSET] + BigEndian(|payload|, 4) + draft[PAYLOAD_LENGTH_OFFSET + 4..]
            == AuthenticatedBytes(h, payload)
  {
    SpanOfWords();
    PatchedLength(HeaderPrefix(h), BigEndian(0, 4), BigEndian(|payload|, 4), h.session, payload);
  }

  /** Where the fields of the fixed prefix lie in the whole. */
  lemma PrefixSlices(a: Bytes)
    requires |a| >= FIXED_HEADER_BYTES
    ensures a[..27][0..4] == a[0..4] && a[..27][4..6] == a[4..6] && a[..27][6..8] == a[6..8]
    ensures a[..27][8] == a[8..9][0]
    ensures a[..27][9..17] == a[9..17] && a[..27][17..25] == a[17..25] && a[..27][25..27] == a[25..27]
  {
  }

  class InstanceCounter {
    var next: U64

    constructor ()
      ensures next == 1
    {
      next := 1;
    }
  }

  class AuthenticatedSidecarChannel {
    const instanceId: nat
    const role: Role
    const sessionId: Bytes
    const generation: U64
    const mac: Mac
    var protocolMinor: U16
    var maxFrameBytes: U32
    var frameLimitLocked: bool
    var sendSequence: U64
    var receiveSequence: U64
    var retired: bool
    ghost var sent: seq<Sent>
    ghost var accepted: seq<Bytes>

    ghost function View(): Channel
      reads this
    {
      Channel(instanceId, role, protocolMinor, sessionId, generation, maxFrameBytes, frameLimitLocked,
              sendSequence, receiveSequence, retired, sent, accepted)
    }

    ghost predicate Valid()
      reads this
    {
      View().Valid() && TagSized(mac)
    }

    constructor Bind(instanceId: nat, role: Role, sessionId: Bytes, generation: U64, mac: Mac, maxFrameBytes: U32)
      requires Create(instanceId, role, sessionId, generation, maxFrameBytes).Ok? && TagSized(mac)
      ensures Valid() && this.mac == mac
      ensures View() == Create(instanceId, role, sessionId, generation, maxFrameBytes).value
    {
      this.instanceId, this.role, this.sessionId := instanceId, role, sessionId;
      this.generation, this.mac, this.maxFrameBytes := generation, mac, maxFrameBytes;
      protocolMinor, frameLimitLocked, retired := BOOTSTRAP_MINOR, false, false;
      sendSequence, receiveSequence := 0, 0;
      sent, accepted := [], [];
    }

    /** A channel with the next instance number, both counters at zero; or what is wrong
        with the session, the generation or the ceiling. */
    static method New(ids: InstanceCounter, role: Role, sessionId: Bytes, generation: U64, mac: Mac,
                      maxFrameBytes: U32)
        returns (r: Result<AuthenticatedSidecarChannel, ProtocolError>)
      requires TagSized(mac)
      modifies ids
      ensures var spec := Create(old(ids.next), role, sessionId, generation, maxFrameBytes);
              match r {
                case Ok(c) => fresh(c) && c.Valid() && c.mac == mac && spec == Ok(c.View())
                              && ids.next == old(ids.next) + 1
                case Err(e) => spec == Err(e) && ids.next == old(ids.next)
              }
    {
      if |sessionId| == 0 || |sessionId| > U16_MAX { return Err(InvalidSessionId); }
      if generation == 0 { return Err(InvalidGeneration); }
      if maxFrameBytes < MinimumFrameBytes(|sessionId|) { return Err(InvalidLimit("maxFrameBytes")); }
      if ids.next == U64_MAX { return Err(ChannelInstanceIdExhausted); }
      var c := new AuthenticatedSidecarChannel.Bind(ids.next, role, sessionId, generation, mac, maxFrameBytes);
      ids.next := ids.next + 1;
      r := Ok(c);
    }

    method Retire()
      modifies this
      ensures View() == RetireStep(old(View()))
    {
      retired := true;
    }

    method LockFrameLimit()
      modifies this
      ensures View() == old(View()).(locked := true)
    {
      frameLimitLocked := true;
    }

    method LowerFrameLimit(limit: U32) returns (fault: Option<ProtocolError>)
      requires Valid()
      modifies this
      ensures (View(), fault) == LowerStep(old(View()), limit)
      ensures Valid()
    {
      if frameLimitLocked { return Some(FrameLimitLocked); }
      if limit < MinimumFrameBytes(|sessionId|) { return Some(InvalidLimit("maxFrameBytes")); }
      if limit > maxFrameBytes { return Some(LimitIncrease(maxFrameBytes, limit)); }
      maxFrameBytes := limit;
      fault := None;
    }

    method ApplyNegotiatedProtocol(n: Negotiated) returns (fault: Option<ProtocolError>)
      requires Valid()
      modifies this
      ensures (View(), fault) == ApplyStep(old(View()), n)
      ensures Valid()
    {
      if n.selection.major != PROTOCOL_MAJOR {
        return Some(UnsupportedMajor(PROTOCOL_MAJOR, n.selection.major));
      }
      if n.selection.minor > PROTOCOL_MINOR { return Some(UnsupportedLocalMinor(n.selection.minor)); }
      fault := LowerFrameLimit(n.selection.limits.maxFrameBytes);
      if fault.None? { protocolMinor := n.selection.minor; }
    }

    method HeaderBytes(sequence: U64) returns (frame: Bytes)
      requires Valid()
      ensures frame == HeaderPrefix(View().HeaderOf(sequence, protocolMinor))
    {
      SpanOfWords();
      frame := FRAME_MAGIC;
      frame := frame + BigEndian(PROTOCOL_MAJOR, 2);
      frame := frame + BigEndian(protocolMinor, 2);
      frame := frame + [role.Direction()];
      frame := frame + BigEndian(generation, 8);
      frame := frame + BigEndian(sequence, 8);
      frame := frame + BigEndian(|sessionId|, 2);
    }

    /** The frame the byte layout defines for this payload and the next number to send;
        on failure nothing has changed. */
    method Seal(run: Serialization) returns (r: Result<Bytes, FrameError>)
      requires Valid()
      modifies this
      ensures (View(), r) == SealStep(old(View()), mac, run)
      ensures Valid()
    {
      if retired { return Err(ChannelRetired); }
      if sendSequence == U64_MAX { return Err(SequenceExhausted); }
      var sequence := sendSequence + 1;
      var minimumCapacity := FIXED_HEADER_BYTES + |sessionId| + AUTH_TAG_BYTES;
      if minimumCapacity >= maxFrameBytes { assert false; }

      ghost var header := View().HeaderOf(sequence, protocolMinor);
      var frame := HeaderBytes(sequence);
      SpanOfWords();
      frame := frame + BigEndian(0, 4);
      frame := frame + sessionId;

      assert frame == HeaderPrefix(header) + BigEndian(0, 4) + sessionId;
      var payloadStart := |frame|;
      var writer := new BoundedFrameWriter(frame, maxFrameBytes - AUTH_TAG_BYTES);
      var outcome := writer.Serialize(run);
      assert outcome == Outcome(run, View().MaxPayload());
      if !outcome.Written? {
        return if writer.exceeded then Err(FrameError.FrameTooLarge(maxFrameBytes + 1, maxFrameBytes)) else Err(SerializeFailed);
      }
      frame := writer.frame;
      var payloadLen := |frame| - payloadStart;
      assert payloadLen == |run.Text()|;
      PatchedIsLaidOut(header, run.Text());
      frame := frame[..PAYLOAD_LENGTH_OFFSET] + BigEndian(payloadLen, 4) + frame[PAYLOAD_LENGTH_OFFSET + 4..];
      assert frame == AuthenticatedBytes(header, run.Text());
      frame := frame + mac(frame);
      sendSequence := sequence;
      sent := sent + [Sent(protocolMinor, run.Text())];
      assert old(sent) == sent[..|old(sent)|];
      r := Ok(frame);
    }

    /** The value in the peer's next frame; anything else leaves the channel retired. */
    method Open<T>(frame: Bytes, decode: Bytes -> Option<T>) returns (r: Result<T, FrameError>)
      requires Valid()
      modifies this
      ensures (View(), r) == OpenStep(old(View()), mac, frame, decode)
      ensures Valid()
    {
      if retired { return Err(ChannelRetired); }
      r := OpenActive(frame, decode);
      if r.Err? { Retire(); }
    }

    /** Read the fixed fields one by one, checking each as it is read. */
    method ReadPrefix(a: Bytes) returns (fault: Option<FrameError>, cursor: nat, sessionLen: nat, payloadLen: nat)
      requires Valid() && |a| >= FIXED_HEADER_BYTES
      ensures fault == PrefixFault(View(), a[..27])
      ensures fault.None? ==>
        && cursor == 31
        && sessionLen == FromBigEndian(a[..27][25..27]) && payloadLen == FromBigEndian(a[27..31])
    {
      SpanOfWords();
      PrefixSlices(a);
      var field: Option<Bytes>;
      cursor, sessionLen, payloadLen := 0, 0, 0;
      field, cursor := TakeSlice(a, cursor, 4);
      if field.value != FRAME_MAGIC { return Some(InvalidMagic), cursor, 0, 0; }
      field, cursor := TakeSlice(a, cursor, 2);
      var major := FromBigEndian(field.value);
      field, cursor := TakeSlice(a, cursor, 2);
      var minor := FromBigEndian(field.value);
      if major != PROTOCOL_MAJOR || minor != protocolMinor {
        return Some(UnsupportedVersion(major, minor)), cursor, 0, 0;
      }
      field, cursor := TakeSlice(a, cursor, 1);
      var direction := field.value[0];
      if direction != 1 && direction != 2 { return Some(InvalidDirection(direction)), cursor, 0, 0; }
      if direction != role.Remote().Direction() { return Some(WrongDirection), cursor, 0, 0; }
      field, cursor := TakeSlice(a, cursor, 8);
      var received := FromBigEndian(field.value);
      if received != generation { return Some(WrongGeneration(generation, received)), cursor, 0, 0; }
      field, cursor := TakeSlice(a, cursor, 8);
      var sequence := FromBigEndian(field.value);
      if receiveSequence == U64_MAX { return Some(SequenceExhausted), cursor, 0, 0; }
      if sequence != receiveSequence + 1 {
        return Some(UnexpectedSequence(receiveSequence + 1, sequence)), cursor, 0, 0;
      }
      field, cursor := TakeSlice(a, cursor, 2);
      sessionLen := FromBigEndian(field.value);
      field, cursor := TakeSlice(a, cursor, 4);
      payloadLen := FromBigEndian(field.value);
      fault := None;
    }

    method ReadFields(a: Bytes) returns (r: Result<Bytes, FrameError>)
      requires Valid() && |a| >= FIXED_HEADER_BYTES
      ensures r == CheckFields(View(), a)
    {
      var fault, cursor, sessionLen, payloadLen := ReadPrefix(a);
      if fault.Some? { return Err(fault.value); }
      var field: Option<Bytes>;
      field, cursor := TakeSlice(a, cursor, sessionLen);
      if field.None? { return Err(Truncated); }
      if field.value != sessionId { return Err(WrongSession); }
      field, cursor := TakeSlice(a, cursor, payloadLen);
      if field.None? { return Err(Truncated); }
      if cursor != |a| { return Err(TrailingBytes); }
      assert field.value == a[31 + sessionLen..];
      r := Ok(field.value);
    }

    method OpenActive<T>(frame: Bytes, decode: Bytes -> Option<T>) returns (r: Result<T, FrameError>)
      requires Valid() && !retired
      modifies this
      ensures r == OpenStep(old(View()), mac, frame, decode).1
      ensures r.Ok? ==> View() == OpenStep(old(View()), mac, frame, decode).0
      ensures r.Err? ==> View() == old(View())
      ensures Valid()
    {
      if |frame| > maxFrameBytes { return Err(FrameError.FrameTooLarge(|frame|, maxFrameBytes)); }
      if |frame| < FIXED_HEADER_BYTES + AUTH_TAG_BYTES { return Err(Truncated); }
      var a, tag := frame[..|frame| - AUTH_TAG_BYTES], frame[|frame| - AUTH_TAG_BYTES..];
      if mac(a) != tag { return Err(Authentication); }

      var checked := ReadFields(a);
      if checked.Err? { return Err(checked.error); }
      var decoded := decode(checked.value);
      if decoded.None? { return Err(DeserializeFailed); }
      receiveSequence := receiveSequence + 1;
      accepted := accepted + [checked.value];
      r := Ok(decoded.value);
    }
  }

  /** The next `length` bytes after `cursor`, with the cursor past them; or nothing. */
  method TakeSlice(bytes: Bytes, cursor: nat, length: nat) returns (value: Option<Bytes>, end: nat)
    requires cursor <= |bytes|
    ensures value == if cursor + length <= |bytes| then Some(bytes[cursor..cursor + length]) else None
    ensures end == if value.Some? then cursor + length else cursor
  {
    if cursor + length > |bytes| { return None, cursor; }
    value, end := Some(bytes[cursor..cursor + length]), cursor + length;
  }
}

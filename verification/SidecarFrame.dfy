/** The byte layout of one authenticated sidecar frame, and of a stream of
    length-prefixed frames. */
module SidecarFrame {
  import opened Wrappers
  import opened ByteStrings

  const PROTOCOL_MAJOR := 1
  const PROTOCOL_MINOR := 0
  const BOOTSTRAP_MINOR := 0
  /** The ASCII bytes of "OCSC". */
  const FRAME_MAGIC: Bytes := [0x4F, 0x43, 0x53, 0x43]
  const AUTH_TAG_BYTES := 32
  const FIXED_HEADER_BYTES := 4 + 2 + 2 + 1 + 8 + 8 + 2 + 4
  const PAYLOAD_LENGTH_OFFSET := 4 + 2 + 2 + 1 + 8 + 8 + 2
  const MIN_FRAME_BYTES := 65

  /** A message authentication code under one fixed session key. */
  type Mac = Bytes -> Bytes

  ghost predicate TagSized(mac: Mac) {
    forall text: Bytes :: |mac(text)| == AUTH_TAG_BYTES
  }

  datatype Role = Supervisor | Runtime {
    function Direction(): Byte {
      if Supervisor? then 1 else 2
    }

    function Remote(): Role {
      if Supervisor? then Runtime else Supervisor
    }
  }

  /** Everything a frame says about itself, payload aside. */
  datatype Header = Header(minor: nat, role: Role, generation: nat, sequence: nat, session: Bytes) {
    predicate Encodable() {
      && minor <= U16_MAX && generation <= U64_MAX && sequence <= U64_MAX
      && |session| <= U16_MAX
    }
  }

  /** The header up to the payload length field. */
  function HeaderPrefix(h: Header): (bytes: Bytes)
    requires h.Encodable()
    ensures |bytes| == PAYLOAD_LENGTH_OFFSET
  {
    SpanOfWords();
    FRAME_MAGIC + BigEndian(PROTOCOL_MAJOR, 2) + BigEndian(h.minor, 2) + [h.role.Direction()]
    + BigEndian(h.generation, 8) + BigEndian(h.sequence, 8) + BigEndian(|h.session|, 2)
  }

  function AuthenticatedBytes(h: Header, payload: Bytes): (bytes: Bytes)
    requires h.Encodable() && |payload| <= U32_MAX
    ensures |bytes| == FIXED_HEADER_BYTES + |h.session| + |payload|
  {
    SpanOfWords();
    HeaderPrefix(h) + BigEndian(|payload|, 4) + h.session + payload
  }

  /** One complete frame: the authenticated bytes and their tag. */
  function Encode(mac: Mac, h: Header, payload: Bytes): Bytes
    requires h.Encodable() && |payload| <= U32_MAX
  {
    AuthenticatedBytes(h, payload) + mac(AuthenticatedBytes(h, payload))
  }

  /** Where each field of an encoded header lies. */
  lemma PrefixLayout(h: Header)
    requires h.Encodable()
    ensures var p := HeaderPrefix(h);
      && p[0..4] == FRAME_MAGIC
      && FromBigEndian(p[4..6]) == PROTOCOL_MAJOR
      && FromBigEndian(p[6..8]) == h.minor
      && p[8] == h.role.Direction()
      && FromBigEndian(p[9..17]) == h.generation
      && FromBigEndian(p[17..25]) == h.sequence
      && FromBigEndian(p[25..27]) == |h.session|
  {
    SpanOfWords();
    DecodesEncoded(PROTOCOL_MAJOR, 2);
    DecodesEncoded(h.minor, 2);
    DecodesEncoded(h.generation, 8);
    DecodesEncoded(h.sequence, 8);
    DecodesEncoded(|h.session|, 2);
    var p := HeaderPrefix(h);
    assert p[4..6] == BigEndian(PROTOCOL_MAJOR, 2);
    assert p[6..8] == BigEndian(h.minor, 2);
    assert p[9..17] == BigEndian(h.generation, 8);
    assert p[17..25] == BigEndian(h.sequence, 8);
    assert p[25..27] == BigEndian(|h.session|, 2);
  }

  lemma PrefixDetermines(p: Bytes, h: Header)
    requires h.Encodable() && |p| == PAYLOAD_LENGTH_OFFSET
    requires p[0..4] == FRAME_MAGIC
    requires FromBigEndian(p[4..6]) == PROTOCOL_MAJOR && FromBigEndian(p[6..8]) == h.minor
    requires p[8] == h.role.Direction()
    requires FromBigEndian(p[9..17]) == h.generation && FromBigEndian(p[17..25]) == h.sequence
    requires FromBigEndian(p[25..27]) == |h.session|
    ensures p == HeaderPrefix(h)
  {
    SpanOfWords();
    EncodesDecoded(p[4..6]);
    EncodesDecoded(p[6..8]);
    EncodesDecoded(p[9..17]);
    EncodesDecoded(p[17..25]);
    EncodesDecoded(p[25..27]);
    assert p == p[0..4] + p[4..6] + p[6..8] + [p[8]] + p[9..17] + p[17..25] + p[25..27];
  }

  lemma Layout(h: Header, payload: Bytes)
    requires h.Encodable() && |payload| <= U32_MAX
    ensures var a := AuthenticatedBytes(h, payload);
      && a[..27] == HeaderPrefix(h)
      && FromBigEndian(a[27..31]) == |payload|
      && a[31..31 + |h.session|] == h.session
      && a[31 + |h.session|..] == payload
  {
    SpanOfWords();
    var a, p := AuthenticatedBytes(h, payload), HeaderPrefix(h);
    var length := BigEndian(|payload|, 4);
    assert a == p + length + h.session + payload;
    assert a[27..31] == length;
    DecodesEncoded(|payload|, 4);
  }

  /** Bytes with those parts are the encoding of those parts. */
  lemma LayoutDetermines(a: Bytes, h: Header, payload: Bytes)
    requires h.Encodable() && |payload| <= U32_MAX
    requires |a| == FIXED_HEADER_BYTES + |h.session| + |payload|
    requires a[..27] == HeaderPrefix(h) && FromBigEndian(a[27..31]) == |payload|
    requires a[31..31 + |h.session|] == h.session && a[31 + |h.session|..] == payload
    ensures a == AuthenticatedBytes(h, payload)
  {
    EncodesDecoded(a[27..31]);
    var p := HeaderPrefix(h);
    assert a == p + a[27..31] + h.session + payload;
  }

  /** Two frames with the same bytes agree on every field. */
  lemma EncodingIsInjective(mac: Mac, h: Header, payload: Bytes, h': Header, payload': Bytes)
    requires TagSized(mac) && h.Encodable() && h'.Encodable()
    requires |payload| <= U32_MAX && |payload'| <= U32_MAX
    requires Encode(mac, h, payload) == Encode(mac, h', payload')
    ensures h == h' && payload == payload'
  {
    SameFramesSameText(mac, h, payload, h', payload');
    Layout(h, payload);
    Layout(h', payload');
    PrefixLayout(h);
    PrefixLayout(h');
  }

  /** Equal frames authenticate the same bytes. */
  lemma SameFramesSameText(mac: Mac, h: Header, payload: Bytes, h': Header, payload': Bytes)
    requires TagSized(mac) && h.Encodable() && h'.Encodable()
    requires |payload| <= U32_MAX && |payload'| <= U32_MAX
    requires Encode(mac, h, payload) == Encode(mac, h', payload')
    ensures AuthenticatedBytes(h, payload) == AuthenticatedBytes(h', payload')
  {
    var a, a' := AuthenticatedBytes(h, payload), AuthenticatedBytes(h', payload');
    assert |a| == |Encode(mac, h, payload)| - AUTH_TAG_BYTES == |a'|;
    assert a == Encode(mac, h, payload)[..|a|] == a';
  }

  // ---- length-prefixed streams ----

  datatype StreamError = InvalidFrameLimit | FrameTooLarge(size: nat) | EndOfStream

  /** The bytes written for one frame, or the refusal. */
  function Prefixed(frame: Bytes, maxFrameBytes: nat): (r: Result<Bytes, StreamError>)
    requires maxFrameBytes <= U32_MAX
    ensures r.Ok? ==> |r.value| == 4 + |frame|
  {
    if maxFrameBytes < MIN_FRAME_BYTES then Err(InvalidFrameLimit)
    else if |frame| > U32_MAX || |frame| == 0 || |frame| > maxFrameBytes then Err(FrameTooLarge(|frame|))
    else SpanOfWords(); Ok(BigEndian(|frame|, 4) + frame)
  }

  /** One frame off the front of a byte stream, with the rest of the stream. */
  function ReadFrame(stream: Bytes, maxFrameBytes: nat): Result<(Bytes, Bytes), StreamError>
    requires maxFrameBytes <= U32_MAX
  {
    if maxFrameBytes < MIN_FRAME_BYTES then Err(InvalidFrameLimit)
    else if |stream| < 4 then Err(EndOfStream)
    else
      var length := FromBigEndian(stream[..4]);
      if length == 0 || length > maxFrameBytes then Err(FrameTooLarge(length))
      else if |stream| - 4 < length then Err(EndOfStream)
      else Ok((stream[4..4 + length], stream[4 + length..]))
  }

  /** Reading inverts writing, whatever follows on the stream; and a frame that
      reads back was written by exactly those bytes. */
  lemma ReadInvertsWrite(stream: Bytes, maxFrameBytes: nat, frame: Bytes, rest: Bytes)
    requires maxFrameBytes <= U32_MAX
    ensures ReadFrame(stream, maxFrameBytes) == Ok((frame, rest))
       <==> Prefixed(frame, maxFrameBytes).Ok? && stream == Prefixed(frame, maxFrameBytes).value + rest
  {
    SpanOfWords();
    var written := Prefixed(frame, maxFrameBytes);
    if ReadFrame(stream, maxFrameBytes) == Ok((frame, rest)) {
      EncodesDecoded(stream[..4]);
      assert stream == stream[..4] + frame + rest;
    }
    if written.Ok? && stream == written.value + rest {
      assert stream[..4] == BigEndian(|frame|, 4);
      DecodesEncoded(|frame|, 4);
      assert stream[4..4 + |frame|] == frame && stream[4 + |frame|..] == rest;
    }
  }

  function WriteAll(frames: seq<Bytes>, maxFrameBytes: nat): Bytes
    requires maxFrameBytes <= U32_MAX
    requires forall f :: f in frames ==> Prefixed(f, maxFrameBytes).Ok?
  {
    if frames == [] then []
    else Prefixed(frames[0], maxFrameBytes).value + WriteAll(frames[1..], maxFrameBytes)
  }

  /** Read frames until the stream ends or a frame is refused. */
  function ReadAll(stream: Bytes, maxFrameBytes: nat): (seq<Bytes>, Bytes)
    requires maxFrameBytes <= U32_MAX
    decreases |stream|
  {
    match ReadFrame(stream, maxFrameBytes)
    case Err(_) => ([], stream)
    case Ok((frame, rest)) =>
      var (frames, left) := ReadAll(rest, maxFrameBytes);
      ([frame] + frames, left)
  }

  /** A stream of written frames reads back as the same list with nothing left over. */
  lemma {:induction false} StreamReadsBack(frames: seq<Bytes>, maxFrameBytes: nat)
    requires maxFrameBytes <= U32_MAX
    requires forall f :: f in frames ==> Prefixed(f, maxFrameBytes).Ok?
    ensures ReadAll(WriteAll(frames, maxFrameBytes), maxFrameBytes) == (frames, [])
  {
    if frames != [] {
      var rest := WriteAll(frames[1..], maxFrameBytes);
      ReadInvertsWrite(WriteAll(frames, maxFrameBytes), maxFrameBytes, frames[0], rest);
      StreamReadsBack(frames[1..], maxFrameBytes);
      assert frames == [frames[0]] + frames[1..];
    }
  }
}

/** The sized runtime messages have unambiguous JSON texts, so a codec that writes them
    exists, and so does a session for the agreement results to speak about. */
module SidecarTexts {
  import opened Wrappers
  import opened ByteStrings
  import opened SizedWriters
  import opened SidecarFrame
  import opened SidecarNegotiation
  import opened SidecarChannel
  import opened SidecarHandshake
  import opened SidecarConfiguration
  import opened SidecarRuns
  import opened SidecarAgreement
  import opened SidecarCompletion
  import opened JsonText
  import opened JsonReading
  import Text

  // ---- names ----

  lemma StateNamesDiffer(s: RuntimeState, t: RuntimeState)
    ensures |StateName(s)| >= 5 && |StateName(t)| >= 5
    ensures StateName(s)[1] == StateName(t)[1] && StateName(s)[4] == StateName(t)[4] ==> s == t
  {
  }

  lemma StatesDelimit(s: RuntimeState, t: RuntimeState, x: Bytes, y: Bytes)
    requires StateName(s) + x == StateName(t) + y
    ensures s == t && x == y
  {
    StateNamesDiffer(s, t);
    assert (StateName(s) + x)[1] == StateName(s)[1] && (StateName(s) + x)[4] == StateName(s)[4];
    assert (StateName(t) + y)[1] == StateName(t)[1] && (StateName(t) + y)[4] == StateName(t)[4];
    SamePrefix(StateName(s), x, y);
  }

  /** The second to fourth bytes of a reason's text tell which it is. */
  function ReadReason(second: Byte, third: Byte, fourth: Byte): Option<RuntimeReason> {
    match second
    case 0x74 => Some(TransportReason)
    case 0x67 => Some(GatewayReason)
    case 0x72 =>
      Some(if third == 0x75 then RuntimeEndedReason else if fourth == 0x71 then RequestTimeoutReason else ResultTaskReason)
    case 0x65 => Some(EventLaggedReason)
    case 0x61 => Some(if third == 0x63 then ActivationReason else AuthenticationReason)
    case 0x64 => Some(DeliverySaturatedReason)
    case 0x73 => Some(ShutdownReason)
    case 0x70 => Some(if third == 0x61 then PairingReason else ProtocolReason)
    case 0x63 => Some(ConfigurationReason)
    case 0x69 => Some(IdentityReason)
    case _ => None
  }

  lemma ReasonNameReads(r: Option<RuntimeReason>)
    ensures var name := ReasonName(r); |name| >= 4 && ReadReason(name[1], name[2], name[3]) == r
  {
    if r.Some? && !SharesItsInitial(r.value) { LoneInitialReads(r.value); }
  }

  /** Three initials are shared, by seven of the reasons. */
  predicate SharesItsInitial(r: RuntimeReason) {
    match r
    case RequestTimeoutReason | ResultTaskReason | RuntimeEndedReason => true
    case ActivationReason | AuthenticationReason | PairingReason | ProtocolReason => true
    case _ => false
  }

  lemma LoneInitialReads(r: RuntimeReason)
    requires !SharesItsInitial(r)
    ensures var name := ReasonName(Some(r)); |name| >= 4 && ReadReason(name[1], name[2], name[3]) == Some(r)
  {
  }

  lemma ReasonReads(r: Option<RuntimeReason>, x: Bytes)
    ensures var text := ReasonName(r) + x; |text| >= 4 && ReadReason(text[1], text[2], text[3]) == r
  {
    ReasonNameReads(r);
  }

  lemma ReasonsDelimit(r: Option<RuntimeReason>, q: Option<RuntimeReason>, x: Bytes, y: Bytes)
    requires ReasonName(r) + x == ReasonName(q) + y
    ensures r == q && x == y
  {
    ReasonReads(r, x);
    ReasonReads(q, y);
    SamePrefix(ReasonName(r), x, y);
  }

  // ---- texts ----

  /** A number after its key. */
  lemma KeyedNumbersDelimit(key: Bytes, a: nat, b: nat, x: Bytes, y: Bytes)
    requires key + (Decimal(a) + x) == key + (Decimal(b) + y)
    requires x != [] && !IsDigit(x[0]) && y != [] && !IsDigit(y[0])
    ensures a == b && x == y
  {
    SamePrefix(key, Decimal(a) + x, Decimal(b) + y);
    NumbersDelimit(a, b, x, y);
  }

  lemma StringArraysDelimit(key: Bytes, a: seq<string>, b: seq<string>, x: Bytes, y: Bytes)
    requires key + (JsonArray(Strings(a)) + x) == key + (JsonArray(Strings(b)) + y)
    ensures a == b && x == y
  {
    SamePrefix(key, JsonArray(Strings(a)) + x, JsonArray(Strings(b)) + y);
    JsonStringsDelimit();
    TextsAreMapped(JsonString, a);
    TextsAreMapped(JsonString, b);
    assert Strings(a) == Texts(JsonString, a) && Strings(b) == Texts(JsonString, b);
    ArraysDelimit(JsonString, a, b, x, y);
  }

  lemma CommandItemUnfolds(name: string, x: Bytes)
    ensures CommandItem(name) + x == Ascii("{\"name\":") + (JsonString(name) + (Ascii("}") + x))
    ensures CommandItem(name)[0] == 0x7B
  {
    assert CommandItem(name)[0] == Ascii("{\"name\":")[0];
  }

  lemma CommandItemsDelimit()
    ensures Delimiting(CommandItem)
  {
    forall a, b, x, y | CommandItem(a) + x == CommandItem(b) + y ensures a == b && x == y {
      CommandItemUnfolds(a, x);
      CommandItemUnfolds(b, y);
      var v, w := Ascii("}") + x, Ascii("}") + y;
      SamePrefix(Ascii("{\"name\":"), JsonString(a) + v, JsonString(b) + w);
      StringsDelimit(a, b, v, w);
      SamePrefix(Ascii("}"), x, y);
    }
    forall a ensures CommandItem(a) != [] && CommandItem(a)[0] != 0x5D { CommandItemUnfolds(a, []); }
  }

  lemma CommandArraysDelimit(key: Bytes, a: seq<string>, b: seq<string>, x: Bytes, y: Bytes)
    requires key + (JsonArray(CommandItems(a)) + x) == key + (JsonArray(CommandItems(b)) + y)
    ensures a == b && x == y
  {
    SamePrefix(key, JsonArray(CommandItems(a)) + x, JsonArray(CommandItems(b)) + y);
    CommandItemsDelimit();
    TextsAreMapped(CommandItem, a);
    TextsAreMapped(CommandItem, b);
    assert CommandItems(a) == Texts(CommandItem, a) && CommandItems(b) == Texts(CommandItem, b);
    ArraysDelimit(CommandItem, a, b, x, y);
  }

  lemma StatusTextsDiffer(s: Status, t: Status)
    requires StatusText(s) == StatusText(t)
    ensures s == t
  {
    var s5, t5 := Ascii(",\"reason\":") + (ReasonName(s.reason) + Ascii("}}")), Ascii(",\"reason\":") + (ReasonName(t.reason) + Ascii("}}"));
    var s4, t4 := Ascii(",\"attempt\":") + (Decimal(s.attempt) + s5), Ascii(",\"attempt\":") + (Decimal(t.attempt) + t5);
    var s3, t3 := JsonString(s.runtimeVersion) + s4, JsonString(t.runtimeVersion) + t4;
    var s2, t2 := Ascii(",\"runtimeVersion\":") + s3, Ascii(",\"runtimeVersion\":") + t3;
    var key := Ascii(",\"manifestGeneration\":");
    var s1, t1 := key + (Decimal(s.manifestGeneration) + s2), key + (Decimal(t.manifestGeneration) + t2);
    SamePrefix(Ascii("{\"type\":\"status\",\"status\":{\"state\":"), StateName(s.state) + s1, StateName(t.state) + t1);
    StatesDelimit(s.state, t.state, s1, t1);
    StartsWithComma(",\"runtimeVersion\":", s3, t3);
    KeyedNumbersDelimit(key, s.manifestGeneration, t.manifestGeneration, s2, t2);
    SamePrefix(Ascii(",\"runtimeVersion\":"), s3, t3);
    StringsDelimit(s.runtimeVersion, t.runtimeVersion, s4, t4);
    StartsWithComma(",\"reason\":", ReasonName(s.reason) + Ascii("}}"), ReasonName(t.reason) + Ascii("}}"));
    KeyedNumbersDelimit(Ascii(",\"attempt\":"), s.attempt, t.attempt, s5, t5);
    SamePrefix(Ascii(",\"reason\":"), ReasonName(s.reason) + Ascii("}}"), ReasonName(t.reason) + Ascii("}}"));
    ReasonsDelimit(s.reason, t.reason, Ascii("}}"), Ascii("}}"));
  }

  /** What follows a number: a comma, which is no digit. */
  lemma StartsWithComma(key: string, x: Bytes, y: Bytes)
    requires key != "" && key[0] == ','
    ensures Ascii(key) + x != [] && !IsDigit((Ascii(key) + x)[0])
    ensures Ascii(key) + y != [] && !IsDigit((Ascii(key) + y)[0])
  {
    assert (Ascii(key) + x)[0] == 0x2C && (Ascii(key) + y)[0] == 0x2C;
  }

  lemma ConfiguredTextsDiffer(m: Manifest, n: Manifest)
    requires ConfiguredText(m) == ConfiguredText(n)
    ensures m == n
  {
    var close := Ascii("}}");
    var m2, n2 := Ascii(",\"commands\":") + (JsonArray(Strings(m.commands)) + close), Ascii(",\"commands\":") + (JsonArray(Strings(n.commands)) + close);
    var m1, n1 := JsonArray(Strings(m.capabilities)) + m2, JsonArray(Strings(n.capabilities)) + n2;
    StartsWithComma(",\"capabilities\":", m1, n1);
    var key, m0, n0 := Ascii(",\"manifest\":{\"manifestGeneration\":"), Ascii(",\"capabilities\":") + m1, Ascii(",\"capabilities\":") + n1;
    SamePrefix(Ascii("{\"type\":\"configured\""), key + (Decimal(m.manifestGeneration) + m0), key + (Decimal(n.manifestGeneration) + n0));
    KeyedNumbersDelimit(key, m.manifestGeneration, n.manifestGeneration, m0, n0);
    StringArraysDelimit(Ascii(",\"capabilities\":"), m.capabilities, n.capabilities, m2, n2);
    StringArraysDelimit(Ascii(",\"commands\":"), m.commands, n.commands, close, close);
  }

  lemma TailsDiffer(c: Configuration, d: Configuration)
    requires ConfigureTail(c) == ConfigureTail(d)
    ensures c.maxConcurrency == d.maxConcurrency && c.maxInputBytes == d.maxInputBytes
    ensures c.maxOutputBytes == d.maxOutputBytes && c.defaultTimeoutMs == d.defaultTimeoutMs
    ensures c.maxTimeoutMs == d.maxTimeoutMs && c.resultGraceMs == d.resultGraceMs
  {
    var close := Ascii("}}");
    assert close[0] == 0x7D;
    var c6, d6 := Ascii(",\"resultGraceMs\":") + (Decimal(c.resultGraceMs) + close), Ascii(",\"resultGraceMs\":") + (Decimal(d.resultGraceMs) + close);
    var c5, d5 := Ascii(",\"maxTimeoutMs\":") + (Decimal(c.maxTimeoutMs) + c6), Ascii(",\"maxTimeoutMs\":") + (Decimal(d.maxTimeoutMs) + d6);
    var c4, d4 := Ascii(",\"defaultTimeoutMs\":") + (Decimal(c.defaultTimeoutMs) + c5), Ascii(",\"defaultTimeoutMs\":") + (Decimal(d.defaultTimeoutMs) + d5);
    var c3, d3 := Ascii(",\"maxOutputBytes\":") + (Decimal(c.maxOutputBytes) + c4), Ascii(",\"maxOutputBytes\":") + (Decimal(d.maxOutputBytes) + d4);
    var c2, d2 := Ascii(",\"maxInputBytes\":") + (Decimal(c.maxInputBytes) + c3), Ascii(",\"maxInputBytes\":") + (Decimal(d.maxInputBytes) + d3);
    StartsWithComma(",\"maxInputBytes\":", Decimal(c.maxInputBytes) + c3, Decimal(d.maxInputBytes) + d3);
    KeyedNumbersDelimit(Ascii(",\"maxConcurrency\":"), c.maxConcurrency, d.maxConcurrency, c2, d2);
    StartsWithComma(",\"maxOutputBytes\":", Decimal(c.maxOutputBytes) + c4, Decimal(d.maxOutputBytes) + d4);
    KeyedNumbersDelimit(Ascii(",\"maxInputBytes\":"), c.maxInputBytes, d.maxInputBytes, c3, d3);
    StartsWithComma(",\"defaultTimeoutMs\":", Decimal(c.defaultTimeoutMs) + c5, Decimal(d.defaultTimeoutMs) + d5);
    KeyedNumbersDelimit(Ascii(",\"maxOutputBytes\":"), c.maxOutputBytes, d.maxOutputBytes, c4, d4);
    StartsWithComma(",\"maxTimeoutMs\":", Decimal(c.maxTimeoutMs) + c6, Decimal(d.maxTimeoutMs) + d6);
    KeyedNumbersDelimit(Ascii(",\"defaultTimeoutMs\":"), c.defaultTimeoutMs, d.defaultTimeoutMs, c5, d5);
    StartsWithComma(",\"resultGraceMs\":", Decimal(c.resultGraceMs) + close, Decimal(d.resultGraceMs) + close);
    KeyedNumbersDelimit(Ascii(",\"maxTimeoutMs\":"), c.maxTimeoutMs, d.maxTimeoutMs, c6, d6);
    KeyedNumbersDelimit(Ascii(",\"resultGraceMs\":"), c.resultGraceMs, d.resultGraceMs, close, close);
  }

  lemma ConfigureTextsDiffer(c: Configuration, d: Configuration)
    requires ConfigureText(c) == ConfigureText(d)
    ensures c == d
  {
    var c2 := Ascii(",\"commands\":") + (JsonArray(CommandItems(c.commands)) + ConfigureTail(c));
    var d2 := Ascii(",\"commands\":") + (JsonArray(CommandItems(d.commands)) + ConfigureTail(d));
    var c1, d1 := JsonArray(Strings(c.capabilities)) + c2, JsonArray(Strings(d.capabilities)) + d2;
    StartsWithComma(",\"capabilities\":", c1, d1);
    var key, c0, d0 := Ascii(",\"configuration\":{\"manifestGeneration\":"), Ascii(",\"capabilities\":") + c1, Ascii(",\"capabilities\":") + d1;
    SamePrefix(Ascii("{\"type\":\"configure\""), key + (Decimal(c.manifestGeneration) + c0), key + (Decimal(d.manifestGeneration) + d0));
    KeyedNumbersDelimit(key, c.manifestGeneration, d.manifestGeneration, c0, d0);
    StringArraysDelimit(Ascii(",\"capabilities\":"), c.capabilities, d.capabilities, c2, d2);
    CommandArraysDelimit(Ascii(",\"commands\":"), c.commands, d.commands, ConfigureTail(c), ConfigureTail(d));
    TailsDiffer(c, d);
  }

  // ---- a codec that writes them ----

  /** The text of any runtime message; traffic starts with a space, which no JSON text
      here does. */
  function MessageText(m: RuntimeMessage): Bytes {
    match m
    case ConfigureMessage(c) => ConfigureText(c)
    case ConfiguredMessage(d) => ConfiguredText(d)
    case StatusMessage(s) => StatusText(s)
    case TrafficMessage(body) => [0x20] + body
  }

  function ReadKind(text: Bytes): nat {
    if |text| < 19 || text[0] == 0x20 then 3 else if text[9] == 0x73 then 2 else if text[18] == 0x64 then 1 else 0
  }

  lemma HeadTells(head: string, x: Bytes)
    requires |head| >= 19
    ensures |Ascii(head) + x| >= 19 && (Ascii(head) + x)[0] == head[0] as int % 0x100
    ensures (Ascii(head) + x)[9] == head[9] as int % 0x100 && (Ascii(head) + x)[18] == head[18] as int % 0x100
  {
  }

  lemma ConfigureKind(c: Configuration)
    ensures ReadKind(ConfigureText(c)) == 0
  {
    var head := "{\"type\":\"configure\"";
    assert |head| >= 19 && head[0] == '{' && head[9] == 'c' && head[18] == '\"';
    HeadTells(head, ConfigureText(c)[|head|..]);
    assert ConfigureText(c) == Ascii(head) + ConfigureText(c)[|head|..];
  }

  lemma ConfiguredKind(m: Manifest)
    ensures ReadKind(ConfiguredText(m)) == 1
  {
    var head := "{\"type\":\"configured\"";
    assert |head| >= 19 && head[0] == '{' && head[9] == 'c' && head[18] == 'd';
    HeadTells(head, ConfiguredText(m)[|head|..]);
    assert ConfiguredText(m) == Ascii(head) + ConfiguredText(m)[|head|..];
  }

  lemma StatusKind(s: Status)
    ensures ReadKind(StatusText(s)) == 2
  {
    var head := "{\"type\":\"status\",\"status\":{\"state\":";
    assert |head| >= 19 && head[0] == '{' && head[9] == 's';
    HeadTells(head, StatusText(s)[|head|..]);
    assert StatusText(s) == Ascii(head) + StatusText(s)[|head|..];
  }

  function KindOf(m: RuntimeMessage): nat {
    match m
    case ConfigureMessage(_) => 0
    case ConfiguredMessage(_) => 1
    case StatusMessage(_) => 2
    case TrafficMessage(_) => 3
  }

  lemma KindReads(m: RuntimeMessage)
    ensures ReadKind(MessageText(m)) == KindOf(m)
  {
    match m
    case ConfigureMessage(c) => ConfigureKind(c);
    case ConfiguredMessage(d) => ConfiguredKind(d);
    case StatusMessage(s) => StatusKind(s);
    case TrafficMessage(_) =>
  }

  /** No two messages have the same text. */
  lemma MessageTextsDiffer(m: RuntimeMessage, n: RuntimeMessage)
    requires MessageText(m) == MessageText(n)
    ensures m == n
  {
    KindReads(m);
    KindReads(n);
    match m
    case ConfigureMessage(c) => ConfigureTextsDiffer(c, n.configuration);
    case ConfiguredMessage(d) => ConfiguredTextsDiffer(d, n.manifest);
    case StatusMessage(s) => StatusTextsDiffer(s, n.status);
    case TrafficMessage(body) => SamePrefix([0x20], body, n.body);
  }

  function EncodeMessage(m: RuntimeMessage): Serialization {
    Serialization([MessageText(m)], PortableMessage(m))
  }

  ghost function DecodeMessage(text: Bytes): Option<RuntimeMessage> {
    if exists m :: MessageText(m) == text then
      var m :| MessageText(m) == text;
      Some(m)
    else None
  }

  ghost function JsonCodec(): Codec<RuntimeMessage> {
    Codec(EncodeMessage, DecodeMessage)
  }

  lemma DecodeInvertsEncode(m: RuntimeMessage)
    ensures EncodeMessage(m).Text() == MessageText(m) && DecodeMessage(MessageText(m)) == Some(m)
  {
    assert Joined([MessageText(m)]) == MessageText(m);
    var n :| MessageText(n) == MessageText(m) && DecodeMessage(MessageText(m)) == Some(n);
    MessageTextsDiffer(m, n);
  }

  /** So a codec of the kind the agreement results assume does exist. */
  lemma JsonCodecWritesJson()
    ensures WritesJson(JsonCodec())
  {
    forall m: RuntimeMessage
      ensures JsonCodec().encode(m).Text() == MessageText(m) && JsonCodec().decode(MessageText(m)) == Some(m)
    {
      DecodeInvertsEncode(m);
    }
  }

  // ---- a session ----

  function SampleOffer(role: Role): Offer {
    Offer(PROTOCOL_MAJOR, PROTOCOL_MINOR, PeerIdentity(role, "a", "1", "b"), {}, Limits(0x1_0000, 1, 1))
  }

  const SAMPLE_SELECTION := Selection(PROTOCOL_MAJOR, PROTOCOL_MINOR, {}, Limits(0x1_0000, 1, 1))

  const SAMPLE_OFFER := OfferMessage(SampleOffer(Supervisor))
  const SAMPLE_ACCEPTANCE := AcceptMessage(SampleOffer(Runtime), SAMPLE_SELECTION)

  /** Carries the two messages of the sample handshake. */
  function EncodeHandshake(m: HandshakeMessage): Serialization {
    if m == SAMPLE_OFFER then Serialization([[1]], true)
    else if m == SAMPLE_ACCEPTANCE then Serialization([[2]], true)
    else Serialization([], false)
  }

  function DecodeHandshake(text: Bytes): Option<HandshakeMessage> {
    if text == [1] then Some(SAMPLE_OFFER) else if text == [2] then Some(SAMPLE_ACCEPTANCE) else None
  }

  function SampleTag(text: Bytes): Bytes {
    seq(AUTH_TAG_BYTES, i => 0)
  }

  ghost function SampleSession(): Session {
    Session(SampleTag, Codec(EncodeHandshake, DecodeHandshake), JsonCodec(), SampleOffer(Supervisor), SampleOffer(Runtime))
  }

  function SampleEnd(role: Role): Channel {
    Channel(1, role, BOOTSTRAP_MINOR, [0x61], 1, 0x2_0000, false, 0, 0, false, [], [])
  }

  function SampleWorld(): World {
    World(
      Endpoint(SampleEnd(Supervisor), Shaking(Handshake(SampleOffer(Supervisor), Starting, None, None, None)), None, 0),
      Endpoint(SampleEnd(Runtime), Shaking(Handshake(SampleOffer(Runtime), Starting, None, None, None)), None, 0))
  }

  lemma SampleCodecIsLawful()
    ensures Lawful(Codec(EncodeHandshake, DecodeHandshake))
  {
    forall m: HandshakeMessage | EncodeHandshake(m).complete
      ensures DecodeHandshake(EncodeHandshake(m).Text()) == Some(m)
    {
      assert Joined([[1]]) == [1] && Joined([[2]]) == [2];
    }
  }

  lemma SampleSessionIsSound()
    ensures SampleSession().Sound()
  {
    JsonCodecWritesJson();
    SampleCodecIsLawful();
  }

  lemma SampleNamesAreNotBlank()
    ensures !Text.Blank("a") && !Text.Blank("1") && !Text.Blank("b")
  {
    Text.NothingToTrim("a");
    Text.NothingToTrim("1");
    Text.NothingToTrim("b");
  }

  lemma SampleOffersNegotiate(role: Role)
    ensures LocalOfferFault(SampleOffer(role)).None?
    ensures Negotiate(SampleOffer(role), SampleOffer(role.Remote()))
         == Ok(Negotiated(SAMPLE_SELECTION, SampleOffer(role.Remote()).peer))
  {
    SampleNamesAreNotBlank();
    var none: FeatureMask := {};
    assert none * none == none;
  }

  lemma SampleWorldIsInitial()
    ensures Initial(SampleSession(), SampleWorld())
  {
    SampleOffersNegotiate(Supervisor);
    SampleOffersNegotiate(Runtime);
  }

  lemma SampleHandshakeFits()
    ensures Negotiate(SampleSession().runtimeOffer, SampleSession().supervisorOffer).Ok?
    ensures SampleEnd(Supervisor).Valid() && SampleEnd(Runtime).Valid()
    ensures HandshakeFits(SampleSession(), SampleEnd(Supervisor), SampleEnd(Runtime))
  {
    var s := SampleSession();
    SampleOffersNegotiate(Runtime);
    assert Joined([[1]]) == [1] && Joined([[2]]) == [2];
    assert OfferRun(s) == Serialization([[1]], true);
    assert Derived(s).selection == SAMPLE_SELECTION;
    assert AcceptanceRun(s) == EncodeHandshake(SAMPLE_ACCEPTANCE);
  }

  /** The agreement results are about something: this session is sound, its two fresh ends
      are a start, and its honest run leaves both peers ready to configure. */
  lemma SampleSessionGetsReady()
    ensures SampleSession().Sound() && Initial(SampleSession(), SampleWorld())
    ensures IsRun(SampleSession(), SampleWorld(), HonestHandshake(SampleSession(), SampleWorld()))
    ensures ReadyToConfigure(After(SampleSession(), SampleWorld(), HonestHandshake(SampleSession(), SampleWorld())))
  {
    SampleSessionIsSound();
    SampleWorldIsInitial();
    SampleHandshakeFits();
    HonestHandshakeCompletesExactlyWhen(SampleSession(), SampleWorld());
  }
}

/** The runtime configuration, the manifest derived from it, and the messages
    that carry them. */
module SidecarConfiguration {
  import opened Wrappers
  import opened ByteStrings
  import opened SizedWriters
  import opened SidecarFrame
  import opened SidecarNegotiation
  import opened SidecarHandshake
  import opened JsonText
  import opened CommandRuntimeBuilder
  import Text
  import Utf8

  const MAX_PORTABLE_INTEGER: nat := 0x1F_FFFF_FFFF_FFFF

  datatype Configuration = Configuration(
    manifestGeneration: U64, capabilities: seq<string>, commands: seq<string>,
    maxConcurrency: U16, maxInputBytes: U32, maxOutputBytes: U32,
    defaultTimeoutMs: U32, maxTimeoutMs: U32, resultGraceMs: U32)

  datatype Manifest = Manifest(manifestGeneration: U64, capabilities: seq<string>, commands: seq<string>)

  datatype RuntimeState = Configured | Connecting | Ready | BackingOff | Paused | Draining | Stopped

  datatype RuntimeReason =
    | TransportReason | GatewayReason | RequestTimeoutReason | EventLaggedReason | ActivationReason
    | DeliverySaturatedReason | ResultTaskReason | RuntimeEndedReason | ShutdownReason | PairingReason
    | AuthenticationReason | ProtocolReason | ConfigurationReason | IdentityReason

  datatype Status = Status(state: RuntimeState, manifestGeneration: U64, runtimeVersion: string,
                           attempt: U64, reason: Option<RuntimeReason>)

  /** Invocation traffic is carried but its shape does not matter here. */
  datatype RuntimeMessage =
    | ConfigureMessage(configuration: Configuration)
    | ConfiguredMessage(manifest: Manifest)
    | StatusMessage(status: Status)
    | TrafficMessage(body: Bytes)

  datatype BridgeError =
    | ConfigurationNotValidated
    | BridgeChannelMismatch
    | BridgeChannelRetired
    | StatusMessageTooLarge
    | RuntimeRoleRequired
    | InvalidManifestGeneration
    | InvalidRuntimeLimit(field: string)
    | InvalidName(name: string)
    | DuplicateName(name: string)
    | ReservedName(name: string)
    | BuildFault(build: RuntimeBuildError)

  // ---- names ----

  predicate NameChar(c: char) {
    || '0' <= c <= '9' || 'A' <= c <= 'Z' || 'a' <= c <= 'z' || c == '.' || c == '_' || c == '-'
  }

  predicate GoodName(name: string) {
    name != "" && |Utf8.Encode(name)| <= 128 && forall c :: c in name ==> NameChar(c)
  }

  /** The first objection to the names in order, given those already seen. */
  function NamesFault(names: seq<string>, commands: bool, seen: set<string>): Option<BridgeError> {
    if names == [] then None
    else if !GoodName(names[0]) then Some(InvalidName(names[0]))
    else if commands && Reserved(names[0]) then Some(ReservedName(names[0]))
    else if names[0] in seen then Some(DuplicateName(names[0]))
    else NamesFault(names[1..], commands, seen + {names[0]})
  }

  method ValidateNames(names: seq<string>, commands: bool) returns (fault: Option<BridgeError>)
    ensures fault == NamesFault(names, commands, {})
  {
    var unique: set<string> := {};
    var i := 0;
    while i < |names|
      invariant i <= |names|
      invariant NamesFault(names, commands, {}) == NamesFault(names[i..], commands, unique)
    {
      var name := names[i];
      if !GoodName(name) { return Some(InvalidName(name)); }
      if commands && Reserved(name) { return Some(ReservedName(name)); }
      if name in unique { return Some(DuplicateName(name)); }
      unique := unique + {name};
      i := i + 1;
    }
    fault := None;
  }

  /** Names pass exactly when each is well formed, none is reserved, and none repeats. */
  lemma {:induction false} NamesPassExactlyWhen(names: seq<string>, commands: bool, seen: set<string>)
    ensures NamesFault(names, commands, seen).None? <==>
      && (forall n :: n in names ==> GoodName(n) && (commands ==> !Reserved(n)) && n !in seen)
      && Distinct(names)
  {
    if names != [] {
      NamesPassExactlyWhen(names[1..], commands, seen + {names[0]});
      assert names == [names[0]] + names[1..];
      assert Distinct(names) <==> Distinct(names[1..]) && names[0] !in names[1..] by {
        if Distinct(names[1..]) && names[0] !in names[1..] {
          forall i, j | 0 <= i < j < |names| ensures names[i] != names[j] {
            assert names[j] == names[1..][j - 1];
            if i > 0 { assert names[i] == names[1..][i - 1]; }
          }
        }
        if Distinct(names) {
          forall j | 0 <= j < |names[1..]| ensures names[1..][j] != names[0] { assert names[1..][j] == names[j + 1]; }
          forall i, j | 0 <= i < j < |names[1..]| ensures names[1..][i] != names[1..][j] {
            assert names[1..][i] == names[i + 1] && names[1..][j] == names[j + 1];
          }
        }
      }
    }
  }

  lemma GoodNamesNeedNoTrimming(name: string)
    requires GoodName(name)
    ensures TrimStable(name)
  {
    Text.NothingToTrim(name);
  }

  // ---- validation ----

  function BridgeFailureBytes(code: string, message: string): nat {
    |Ascii("{\"code\":\"")| + |code| + |Ascii("\",\"message\":\"")| + |message| + |Ascii("\"}")|
  }

  /** The length of the longest failure the bridge itself may have to return. */
  const MINIMUM_BRIDGE_FAILURE_BYTES := 113

  /** Each failure of the bridge's own making fits this many bytes. */
  predicate HoldsBridgeFailures(bytes: nat) {
    && BridgeFailureBytes("SIDECAR_MESSAGE_TOO_LARGE",
                          "complete sidecar message exceeds the authenticated payload limit") <= bytes
    && BridgeFailureBytes("SIDECAR_NON_PORTABLE_JSON",
                          "sidecar message contains an integer outside the exact JSON range") <= bytes
    && BridgeFailureBytes("SIDECAR_CHANNEL_RETIRED",
                          "authenticated sidecar channel is no longer live") <= bytes
  }

  lemma BridgeFailuresFit(bytes: nat)
    ensures HoldsBridgeFailures(bytes) <==> MINIMUM_BRIDGE_FAILURE_BYTES <= bytes
  {
  }

  function ConfigurationFault(c: Configuration, s: Selection): Option<BridgeError> {
    if c.manifestGeneration == 0 || c.manifestGeneration > MAX_PORTABLE_INTEGER
    then Some(InvalidManifestGeneration)
    else if c.maxConcurrency == 0 || c.maxConcurrency > s.limits.maxInFlight
    then Some(InvalidRuntimeLimit("maxConcurrency"))
    else if c.maxInputBytes == 0 || c.maxInputBytes > s.limits.maxFrameBytes
    then Some(InvalidRuntimeLimit("maxInputBytes"))
    else if c.maxOutputBytes == 0 || c.maxOutputBytes < MINIMUM_BRIDGE_FAILURE_BYTES
            || c.maxOutputBytes > s.limits.maxFrameBytes
    then Some(InvalidRuntimeLimit("maxOutputBytes"))
    else if c.defaultTimeoutMs == 0 || c.maxTimeoutMs == 0 || c.defaultTimeoutMs > c.maxTimeoutMs
            || c.resultGraceMs >= c.defaultTimeoutMs
    then Some(InvalidRuntimeLimit("timeouts"))
    else if NamesFault(c.capabilities, false, {}).Some? then NamesFault(c.capabilities, false, {})
    else NamesFault(c.commands, true, {})
  }

  method ValidateConfiguration(c: Configuration, s: Selection) returns (fault: Option<BridgeError>)
    ensures fault == ConfigurationFault(c, s)
  {
    if c.manifestGeneration == 0 || c.manifestGeneration > MAX_PORTABLE_INTEGER {
      return Some(InvalidManifestGeneration);
    }
    if c.maxConcurrency == 0 || c.maxConcurrency > s.limits.maxInFlight {
      return Some(InvalidRuntimeLimit("maxConcurrency"));
    }
    if c.maxInputBytes == 0 || c.maxInputBytes > s.limits.maxFrameBytes {
      return Some(InvalidRuntimeLimit("maxInputBytes"));
    }
    if c.maxOutputBytes == 0 || c.maxOutputBytes < MINIMUM_BRIDGE_FAILURE_BYTES
       || c.maxOutputBytes > s.limits.maxFrameBytes
    {
      return Some(InvalidRuntimeLimit("maxOutputBytes"));
    }
    if c.defaultTimeoutMs == 0 || c.maxTimeoutMs == 0 || c.defaultTimeoutMs > c.maxTimeoutMs
       || c.resultGraceMs >= c.defaultTimeoutMs
    {
      return Some(InvalidRuntimeLimit("timeouts"));
    }
    fault := ValidateNames(c.capabilities, false);
    if fault.None? { fault := ValidateNames(c.commands, true); }
  }

  /** The limits leave a runtime something to work with, and no more than was negotiated. */
  predicate LimitsFit(c: Configuration, l: SidecarNegotiation.Limits) {
    && 1 <= c.maxConcurrency <= l.maxInFlight && 1 <= c.maxInputBytes <= l.maxFrameBytes
    && HoldsBridgeFailures(c.maxOutputBytes) && c.maxOutputBytes <= l.maxFrameBytes
    && c.resultGraceMs < c.defaultTimeoutMs <= c.maxTimeoutMs
  }

  /** 1 to 128 letters, digits, dots, underscores and dashes. */
  predicate PlainName(name: string) {
    && 1 <= |name| <= 128
    && forall c :: c in name ==> 'a' <= c <= 'z' || 'A' <= c <= 'Z' || '0' <= c <= '9' || c in {'.', '_', '-'}
  }

  /** Not the system's own, nor under it. */
  predicate Unreserved(name: string) {
    name != "system" && !("system." <= name)
  }

  ghost predicate NamesFit(names: seq<string>) {
    (forall n :: n in names ==> PlainName(n)) && Distinct(names)
  }

  lemma {:induction false} PlainNamesEncodeAsTheyAre(name: string)
    requires forall c :: c in name ==> NameChar(c)
    ensures |Utf8.Encode(name)| == |name|
  {
    if name != "" {
      assert name[0] in name && |Utf8.EncodeChar(name[0])| == 1;
      forall c | c in name[1..] ensures NameChar(c) { assert c in name; }
      PlainNamesEncodeAsTheyAre(name[1..]);
      assert |Utf8.Encode(name)| == 1 + |Utf8.Encode(name[1..])|;
    }
  }

  lemma NamesAreGoodExactlyWhen(name: string)
    ensures GoodName(name) <==> PlainName(name)
    ensures Reserved(name) <==> !Unreserved(name)
  {
    if forall c :: c in name ==> NameChar(c) { PlainNamesEncodeAsTheyAre(name); }
    assert Text.IsPrefix("system.", name) <==> "system." <= name;
  }

  lemma NamesFitExactlyWhen(names: seq<string>, commands: bool)
    ensures NamesFault(names, commands, {}).None?
       <==> NamesFit(names) && (commands ==> forall n :: n in names ==> Unreserved(n))
  {
    NamesPassExactlyWhen(names, commands, {});
    forall n | n in names ensures (GoodName(n) <==> PlainName(n)) && (Reserved(n) <==> !Unreserved(n)) {
      NamesAreGoodExactlyWhen(n);
    }
  }

  lemma LimitsFitExactlyWhen(c: Configuration, l: SidecarNegotiation.Limits)
    ensures LimitsFit(c, l)
       <==> && 1 <= c.maxConcurrency <= l.maxInFlight && 1 <= c.maxInputBytes <= l.maxFrameBytes
            && MINIMUM_BRIDGE_FAILURE_BYTES <= c.maxOutputBytes <= l.maxFrameBytes
            && c.resultGraceMs < c.defaultTimeoutMs <= c.maxTimeoutMs
  {
    BridgeFailuresFit(c.maxOutputBytes);
  }

  /** A configuration passes exactly when its generation is a portable number other than
      zero, its limits fit the negotiated ones, and its names are plain, distinct, and as
      far as they are commands not the system's. */
  lemma ConfigurationPassesExactlyWhen(c: Configuration, s: Selection)
    ensures ConfigurationFault(c, s).None?
       <==> && 1 <= c.manifestGeneration <= MAX_PORTABLE_INTEGER && LimitsFit(c, s.limits)
            && NamesFit(c.capabilities) && NamesFit(c.commands)
            && forall n :: n in c.commands ==> Unreserved(n)
  {
    LimitsFitExactlyWhen(c, s.limits);
    NamesFitExactlyWhen(c.capabilities, false);
    NamesFitExactlyWhen(c.commands, true);
  }

  /** The name an objection names is there, and the objection is true of it. */
  lemma {:induction false} NameFaultsAreTrue(names: seq<string>, commands: bool, seen: set<string>)
    ensures match NamesFault(names, commands, seen)
            case None => true
            case Some(InvalidName(n)) => n in names && !PlainName(n)
            case Some(ReservedName(n)) => n in names && commands && !Unreserved(n)
            case Some(DuplicateName(n)) => n in names && (n in seen || multiset(names)[n] >= 2)
            case _ => false
  {
    if names != [] {
      NameFaultsAreTrue(names[1..], commands, seen + {names[0]});
      NamesAreGoodExactlyWhen(names[0]);
      assert names == [names[0]] + names[1..];
      assert forall n :: n in names[1..] ==> multiset(names[1..])[n] >= 1;
    }
  }

  /** Whatever is objected to is wrong: the generation, the limit of that name, or the
      name itself. */
  lemma ConfigurationFaultsAreTrue(c: Configuration, s: Selection)
    ensures match ConfigurationFault(c, s)
            case None => true
            case Some(InvalidManifestGeneration) => !(1 <= c.manifestGeneration <= MAX_PORTABLE_INTEGER)
            case Some(InvalidRuntimeLimit(field)) => !LimitFits(c, s.limits, field)
            case Some(InvalidName(n)) => (n in c.capabilities || n in c.commands) && !PlainName(n)
            case Some(ReservedName(n)) => n in c.commands && !Unreserved(n)
            case Some(DuplicateName(n)) => multiset(c.capabilities)[n] >= 2 || multiset(c.commands)[n] >= 2
            case _ => false
  {
    NameFaultsAreTrue(c.capabilities, false, {});
    NameFaultsAreTrue(c.commands, true, {});
    FieldNamesDiffer();
  }

  /** The limit of this name, on its own. */
  predicate LimitFits(c: Configuration, l: SidecarNegotiation.Limits, field: string) {
    && (field == "maxConcurrency" ==> 1 <= c.maxConcurrency <= l.maxInFlight)
    && (field == "maxInputBytes" ==> 1 <= c.maxInputBytes <= l.maxFrameBytes)
    && (field == "maxOutputBytes" ==> MINIMUM_BRIDGE_FAILURE_BYTES <= c.maxOutputBytes <= l.maxFrameBytes)
    && (field == "timeouts" ==> c.resultGraceMs < c.defaultTimeoutMs <= c.maxTimeoutMs)
  }

  lemma FieldNamesDiffer()
    ensures "maxConcurrency" != "maxInputBytes" && "maxConcurrency" != "maxOutputBytes" && "maxConcurrency" != "timeouts"
    ensures "maxInputBytes" != "maxOutputBytes" && "maxInputBytes" != "timeouts" && "maxOutputBytes" != "timeouts"
  {
    assert "maxConcurrency"[3] == 'C' && "maxOutputBytes"[3] == 'O';
  }

  function ManifestOf(c: Configuration): Manifest {
    Manifest(c.manifestGeneration, Text.Sort(c.capabilities), Text.Sort(c.commands))
  }

  /** The manifest lists the configured names, sorted, whatever order they came in. */
  lemma ManifestIsSortedPermutation(c: Configuration, reordered: Configuration)
    ensures Text.Sorted(ManifestOf(c).capabilities) && Text.Sorted(ManifestOf(c).commands)
    ensures multiset(ManifestOf(c).capabilities) == multiset(c.capabilities)
    ensures multiset(ManifestOf(c).commands) == multiset(c.commands)
    ensures && multiset(reordered.capabilities) == multiset(c.capabilities)
            && multiset(reordered.commands) == multiset(c.commands)
            && reordered.manifestGeneration == c.manifestGeneration
            ==> ManifestOf(reordered) == ManifestOf(c)
  {
    Text.SortSorts(c.capabilities);
    Text.SortSorts(c.commands);
    if && multiset(reordered.capabilities) == multiset(c.capabilities)
       && multiset(reordered.commands) == multiset(c.commands)
    {
      Text.SortIgnoresOrder(reordered.capabilities, c.capabilities);
      Text.SortIgnoresOrder(reordered.commands, c.commands);
    }
  }

  /** Sorting distinct names leaves them strictly ascending. */
  lemma SortedDistinctAscends(names: seq<string>)
    requires Distinct(names)
    ensures Ascending(Text.Sort(names))
  {
    var sorted := Text.Sort(names);
    Text.SortSorts(names);
    forall i, j | 0 <= i < j < |sorted| ensures Text.Less(sorted[i], sorted[j]) {
      TwiceInSequence(sorted, i, j);
      DistinctOnce(names, sorted[i]);
      assert multiset(sorted)[sorted[i]] == multiset(names)[sorted[i]];
    }
  }

  lemma TwiceInSequence(s: seq<string>, i: nat, j: nat)
    requires i < j < |s|
    ensures s[i] == s[j] ==> multiset(s)[s[i]] >= 2
  {
    assert s == s[..i] + [s[i]] + s[i + 1..j] + [s[j]] + s[j + 1..];
  }

  lemma {:induction false} DistinctOnce(names: seq<string>, name: string)
    requires Distinct(names)
    ensures multiset(names)[name] <= 1
  {
    if names != [] {
      var last := |names| - 1;
      DistinctOnce(names[..last], name);
      assert names == names[..last] + [names[last]];
      if name == names[last] {
        assert name !in names[..last];
        assert name !in multiset(names[..last]);
      }
    }
  }

  // ---- the command runtime behind a configuration ----

  /** Build the runtime of a configuration from the manifest's names. */
  function RuntimeOf(c: Configuration, m: Manifest): Result<CommandRuntime, RuntimeBuildError> {
    match CapabilityTree(m.capabilities)
    case Err(e) => Err(e)
    case Ok(capabilityNames) =>
      match CommandTree(m.commands)
      case Err(e) => Err(e)
      case Ok(commandNames) =>
        Ok(CommandRuntime(commandNames, capabilityNames, Max(c.maxConcurrency, 1), Max(c.maxInputBytes, 1),
                          Max(c.maxOutputBytes, 1), Min(Max(c.defaultTimeoutMs, 1), Max(c.maxTimeoutMs, 1)),
                          Max(c.maxTimeoutMs, 1), c.resultGraceMs))
  }

  method BuildCommandRuntime(c: Configuration, m: Manifest) returns (r: Result<CommandRuntime, RuntimeBuildError>)
    ensures r == RuntimeOf(c, m)
  {
    var builder := new CommandRuntimeBuilder(c.maxConcurrency, c.maxInputBytes, c.maxOutputBytes,
                                             c.defaultTimeoutMs, c.maxTimeoutMs, c.resultGraceMs);
    ghost var b := builder;
    var i := 0;
    while i < |m.capabilities|
      invariant i <= |m.capabilities| && builder.capabilities == m.capabilities[..i]
      invariant builder.registrations == [] && fresh(builder)
      invariant Limits(builder, c)
    {
      builder.Capability(m.capabilities[i]);
      i := i + 1;
    }
    assert m.capabilities[..i] == m.capabilities;
    i := 0;
    while i < |m.commands|
      invariant i <= |m.commands| && builder.registrations == m.commands[..i]
      invariant builder.capabilities == m.capabilities && fresh(builder)
      invariant Limits(builder, c)
    {
      builder.Command(m.commands[i]);
      i := i + 1;
    }
    assert m.commands[..i] == m.commands;
    r := builder.Build();
  }

  ghost predicate Limits(b: CommandRuntimeBuilder, c: Configuration)
    reads b
  {
    && b.maxConcurrency == Max(c.maxConcurrency, 1) && b.maxInputBytes == Max(c.maxInputBytes, 1)
    && b.maxOutputBytes == Max(c.maxOutputBytes, 1) && b.defaultTimeoutMs == Max(c.defaultTimeoutMs, 1)
    && b.maxTimeoutMs == Max(c.maxTimeoutMs, 1) && b.resultGraceMs == c.resultGraceMs
  }

  /** Names that pass, once sorted, build a capability set as they are. */
  lemma GoodCapabilitiesBuild(names: seq<string>)
    requires NamesFault(names, false, {}).None?
    ensures CapabilityTree(Text.Sort(names)) == Ok(Text.Sort(names))
  {
    var sorted := Text.Sort(names);
    NamesPassExactlyWhen(names, false, {});
    SortedDistinctAscends(names);
    Text.SortSorts(names);
    forall n | n in sorted ensures TrimStable(n) {
      assert n in multiset(sorted);
      GoodNamesNeedNoTrimming(n);
    }
    AscendingCapabilitiesBuild(sorted);
  }

  lemma GoodCommandsBuild(names: seq<string>)
    requires NamesFault(names, true, {}).None?
    ensures CommandTree(Text.Sort(names)) == Ok(Text.Sort(names))
  {
    var sorted := Text.Sort(names);
    NamesPassExactlyWhen(names, true, {});
    SortedDistinctAscends(names);
    Text.SortSorts(names);
    forall n | n in sorted ensures Registrable(n) {
      assert n in multiset(sorted);
      GoodNamesNeedNoTrimming(n);
    }
    AscendingCommandsBuild(sorted);
  }

  /** A validated configuration always builds, with the manifest's names in the
      manifest's order and every configured limit as it stands. */
  lemma ValidatedConfigurationBuilds(c: Configuration, s: Selection)
    requires ConfigurationFault(c, s).None?
    ensures RuntimeOf(c, ManifestOf(c))
         == Ok(CommandRuntime(ManifestOf(c).commands, ManifestOf(c).capabilities, c.maxConcurrency,
                              c.maxInputBytes, c.maxOutputBytes, c.defaultTimeoutMs, c.maxTimeoutMs,
                              c.resultGraceMs))
  {
    GoodCapabilitiesBuild(c.capabilities);
    GoodCommandsBuild(c.commands);
  }

  // ---- JSON text of the sized messages ----

  function StateName(s: RuntimeState): Bytes {
    match s
    case Configured => Ascii("\"configured\"")
    case Connecting => Ascii("\"connecting\"")
    case Ready => Ascii("\"ready\"")
    case BackingOff => Ascii("\"backing-off\"")
    case Paused => Ascii("\"paused\"")
    case Draining => Ascii("\"draining\"")
    case Stopped => Ascii("\"stopped\"")
  }

  function ReasonName(r: Option<RuntimeReason>): Bytes {
    match r
    case None => Ascii("null")
    case Some(TransportReason) => Ascii("\"transport\"")
    case Some(GatewayReason) => Ascii("\"gateway\"")
    case Some(RequestTimeoutReason) => Ascii("\"request-timeout\"")
    case Some(EventLaggedReason) => Ascii("\"event-lagged\"")
    case Some(ActivationReason) => Ascii("\"activation\"")
    case Some(DeliverySaturatedReason) => Ascii("\"delivery-saturated\"")
    case Some(ResultTaskReason) => Ascii("\"result-task\"")
    case Some(RuntimeEndedReason) => Ascii("\"runtime-ended\"")
    case Some(ShutdownReason) => Ascii("\"shutdown\"")
    case Some(PairingReason) => Ascii("\"pairing\"")
    case Some(AuthenticationReason) => Ascii("\"authentication\"")
    case Some(ProtocolReason) => Ascii("\"protocol\"")
    case Some(ConfigurationReason) => Ascii("\"configuration\"")
    case Some(IdentityReason) => Ascii("\"identity\"")
  }

  function StatusText(s: Status): Bytes {
    Ascii("{\"type\":\"status\",\"status\":{\"state\":") + (StateName(s.state)
    + (Ascii(",\"manifestGeneration\":") + (Decimal(s.manifestGeneration)
    + (Ascii(",\"runtimeVersion\":") + (JsonString(s.runtimeVersion)
    + (Ascii(",\"attempt\":") + (Decimal(s.attempt)
    + (Ascii(",\"reason\":") + (ReasonName(s.reason) + Ascii("}}"))))))))))
  }

  function CommandItem(name: string): Bytes {
    Ascii("{\"name\":") + (JsonString(name) + Ascii("}"))
  }

  function CommandItems(names: seq<string>): (items: seq<Bytes>)
    ensures |items| == |names|
  {
    seq(|names|, i requires 0 <= i < |names| => CommandItem(names[i]))
  }

  function ConfigureTail(c: Configuration): Bytes {
    Ascii(",\"maxConcurrency\":") + (Decimal(c.maxConcurrency)
    + (Ascii(",\"maxInputBytes\":") + (Decimal(c.maxInputBytes)
    + (Ascii(",\"maxOutputBytes\":") + (Decimal(c.maxOutputBytes)
    + (Ascii(",\"defaultTimeoutMs\":") + (Decimal(c.defaultTimeoutMs)
    + (Ascii(",\"maxTimeoutMs\":") + (Decimal(c.maxTimeoutMs)
    + (Ascii(",\"resultGraceMs\":") + (Decimal(c.resultGraceMs) + Ascii("}}"))))))))))))
  }

  function ConfigureText(c: Configuration): Bytes {
    Ascii("{\"type\":\"configure\"")
    + (Ascii(",\"configuration\":{\"manifestGeneration\":") + (Decimal(c.manifestGeneration)
    + (Ascii(",\"capabilities\":") + (JsonArray(Strings(c.capabilities))
    + (Ascii(",\"commands\":") + (JsonArray(CommandItems(c.commands)) + ConfigureTail(c)))))))
  }

  function ConfiguredText(m: Manifest): Bytes {
    Ascii("{\"type\":\"configured\"")
    + (Ascii(",\"manifest\":{\"manifestGeneration\":") + (Decimal(m.manifestGeneration)
    + (Ascii(",\"capabilities\":") + (JsonArray(Strings(m.capabilities))
    + (Ascii(",\"commands\":") + (JsonArray(Strings(m.commands)) + Ascii("}}")))))))
  }

  /** Integers JSON peers can read back exactly; the serializer refuses others. */
  predicate PortableMessage(m: RuntimeMessage) {
    match m
    case ConfigureMessage(c) => c.manifestGeneration <= MAX_PORTABLE_INTEGER
    case ConfiguredMessage(d) => d.manifestGeneration <= MAX_PORTABLE_INTEGER
    case StatusMessage(s) => s.manifestGeneration <= MAX_PORTABLE_INTEGER && s.attempt <= MAX_PORTABLE_INTEGER
    case TrafficMessage(_) => true
  }

  /** A codec that writes the sized messages as the texts above. */
  ghost predicate WritesJson(codec: Codec<RuntimeMessage>) {
    && Lawful(codec)
    && (forall m: RuntimeMessage :: !m.TrafficMessage? ==> (codec.encode(m).complete <==> PortableMessage(m)))
    && (forall c :: codec.encode(ConfigureMessage(c)).complete ==>
                      codec.encode(ConfigureMessage(c)).Text() == ConfigureText(c))
    && (forall m :: codec.encode(ConfiguredMessage(m)).complete ==>
                      codec.encode(ConfiguredMessage(m)).Text() == ConfiguredText(m))
    && (forall s :: codec.encode(StatusMessage(s)).complete ==>
                      codec.encode(StatusMessage(s)).Text() == StatusText(s))
  }

  // ---- the status budget ----

  /** The status that configuration reserves room for. */
  function WorstStatus(version: string, generation: U64): Status {
    Status(BackingOff, generation, version, MAX_PORTABLE_INTEGER, Some(DeliverySaturatedReason))
  }

  function StatusBudgetFault(codec: Codec<RuntimeMessage>, version: string, generation: U64, maxPayload: nat)
      : Option<BridgeError>
  {
    if Outcome(codec.encode(StatusMessage(WorstStatus(version, generation))), maxPayload).Written? then None
    else Some(StatusMessageTooLarge)
  }

  method ValidateStatusBudget(codec: Codec<RuntimeMessage>, version: string, generation: U64, maxPayload: nat)
      returns (fault: Option<BridgeError>)
    ensures fault == StatusBudgetFault(codec, version, generation, maxPayload)
  {
    var fits := RuntimeMessageWithinLimit(codec.encode(StatusMessage(WorstStatus(version, generation))), maxPayload);
    fault := if fits then None else Some(StatusMessageTooLarge);
  }

  lemma NamesAreBounded(s: RuntimeState, r: Option<RuntimeReason>)
    ensures |StateName(s)| <= |StateName(BackingOff)|
    ensures |ReasonName(r)| <= |ReasonName(Some(DeliverySaturatedReason))|
  {
  }

  /** No status of this runtime is longer than the one room was reserved for. */
  lemma WorstStatusIsWorst(s: Status)
    requires s.attempt <= MAX_PORTABLE_INTEGER
    ensures |StatusText(s)| <= |StatusText(WorstStatus(s.runtimeVersion, s.manifestGeneration))|
  {
    NamesAreBounded(s.state, s.reason);
    DecimalGrows(s.attempt, MAX_PORTABLE_INTEGER);
  }

  // ---- the acknowledgement is never longer than the configuration ----

  lemma {:induction false} LengthOfInserted(name: string, names: seq<string>)
    ensures TotalLength(Strings(Text.Insert(name, names))) == |JsonString(name)| + TotalLength(Strings(names))
    ensures |Text.Insert(name, names)| == |names| + 1
  {
    var inserted := Text.Insert(name, names);
    assert Strings(inserted)[0] == JsonString(inserted[0]);
    if names == [] || name == names[0] || Text.Less(name, names[0]) {
      assert Strings(inserted)[1..] == Strings(names);
    } else {
      LengthOfInserted(name, names[1..]);
      assert Strings(inserted)[1..] == Strings(Text.Insert(name, names[1..]));
      assert Strings(names)[1..] == Strings(names[1..]);
    }
  }

  /** Sorting names changes neither their number nor their total length. */
  lemma {:induction false} LengthOfSorted(names: seq<string>)
    ensures TotalLength(Strings(Text.Sort(names))) == TotalLength(Strings(names))
    ensures |Text.Sort(names)| == |names|
  {
    if names != [] {
      LengthOfSorted(names[1..]);
      LengthOfInserted(names[0], Text.Sort(names[1..]));
      assert Strings(names)[1..] == Strings(names[1..]);
    }
  }

  lemma {:induction false} ItemsOutweighNames(names: seq<string>)
    ensures TotalLength(Strings(names)) <= TotalLength(CommandItems(names))
  {
    if names != [] {
      ItemsOutweighNames(names[1..]);
      assert Strings(names)[1..] == Strings(names[1..]);
      assert CommandItems(names)[1..] == CommandItems(names[1..]);
    }
  }

  lemma SortedArrayIsAsLong(names: seq<string>)
    ensures |JsonArray(Strings(Text.Sort(names)))| == |JsonArray(Strings(names))|
  {
    LengthOfSorted(names);
    ArrayLength(Strings(Text.Sort(names)));
    ArrayLength(Strings(names));
    assert Text.Sort(names) == [] <==> names == [];
  }

  lemma CommandItemsAreLonger(names: seq<string>)
    ensures |JsonArray(Strings(names))| <= |JsonArray(CommandItems(names))|
  {
    ItemsOutweighNames(names);
    ArrayLength(Strings(names));
    ArrayLength(CommandItems(names));
  }

  lemma AcknowledgementIsNoLonger(c: Configuration)
    ensures |ConfiguredText(ManifestOf(c))| <= |ConfigureText(c)|
  {
    SortedArrayIsAsLong(c.capabilities);
    SortedArrayIsAsLong(c.commands);
    CommandItemsAreLonger(c.commands);
  }
}

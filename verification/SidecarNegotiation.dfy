/** Offers, limits and the selection two peers derive from them. */
module SidecarNegotiation {
  import opened Wrappers
  import opened ByteStrings
  import opened SidecarFrame

  /** A 64-bit feature mask, as the set of its one bits. */
  type FeatureMask = m: set<nat> | forall bit :: bit in m ==> bit < 64

  /** Whether the mask, read as an integer, is at most 2^53 - 1. */
  predicate Portable(mask: FeatureMask) {
    forall bit :: bit in mask ==> bit < 53
  }

  datatype PeerIdentity = PeerIdentity(role: Role, name: string, version: string, artifact: string)

  datatype Limits = Limits(maxFrameBytes: U32, maxInFlight: U16, bootstrapTimeoutMs: U32)

  datatype Offer = Offer(major: U16, minor: U16, peer: PeerIdentity, features: FeatureMask, limits: Limits)

  datatype Selection = Selection(major: U16, minor: U16, features: FeatureMask, limits: Limits)

  datatype Negotiated = Negotiated(selection: Selection, remotePeer: PeerIdentity)

  datatype ProtocolError =
    | ChannelInstanceIdExhausted
    | InvalidFeatureBits
    | InvalidPeerRole
    | InvalidLimit(field: string)
    | InvalidSessionId
    | LimitIncrease(current: nat, requested: nat)
    | FrameLimitLocked
    | InvalidGeneration
    | UnsupportedMajor(localMajor: nat, remoteMajor: nat)
    | UnsupportedLocalMinor(minor: nat)

  function LimitFault(l: Limits): Option<ProtocolError> {
    if l.maxFrameBytes < MIN_FRAME_BYTES then Some(InvalidLimit("maxFrameBytes"))
    else if l.maxInFlight == 0 then Some(InvalidLimit("maxInFlight"))
    else if l.bootstrapTimeoutMs == 0 then Some(InvalidLimit("bootstrapTimeoutMs"))
    else None
  }

  function LowerLimits(a: Limits, b: Limits): Limits {
    Limits(Min(a.maxFrameBytes, b.maxFrameBytes), Min(a.maxInFlight, b.maxInFlight),
           Min(a.bootstrapTimeoutMs, b.bootstrapTimeoutMs))
  }

  function Negotiate(mine: Offer, theirs: Offer): Result<Negotiated, ProtocolError> {
    if LimitFault(mine.limits).Some? then Err(LimitFault(mine.limits).value)
    else if LimitFault(theirs.limits).Some? then Err(LimitFault(theirs.limits).value)
    else if mine.peer.role == theirs.peer.role then Err(InvalidPeerRole)
    else if !Portable(mine.features) || !Portable(theirs.features)
    then Err(InvalidFeatureBits)
    else if mine.major != PROTOCOL_MAJOR || theirs.major != PROTOCOL_MAJOR
    then Err(UnsupportedMajor(mine.major, theirs.major))
    else if mine.minor > PROTOCOL_MINOR then Err(UnsupportedLocalMinor(mine.minor))
    else Ok(Negotiated(
              Selection(PROTOCOL_MAJOR, Min(mine.minor, theirs.minor), mine.features * theirs.features,
                        LowerLimits(mine.limits, theirs.limits)),
              theirs.peer))
  }

  /** No limit of the first is above the matching limit of the second. */
  predicate WithinLimits(s: Limits, o: Limits) {
    s.maxFrameBytes <= o.maxFrameBytes && s.maxInFlight <= o.maxInFlight
    && s.bootstrapTimeoutMs <= o.bootstrapTimeoutMs
  }

  predicate WithinOffer(s: Selection, o: Offer) {
    && WithinLimits(s.limits, o.limits)
    && s.minor <= o.minor && s.major == o.major
    && s.features <= o.features
  }

  /** The most that both offers allow: every pair of limits within both is within the
      selection's, its features are exactly the common ones, and its minor version is the
      lower of the two. */
  ghost predicate GreatestWithin(s: Selection, a: Offer, b: Offer) {
    && (forall l: Limits :: WithinLimits(l, s.limits) <==> WithinLimits(l, a.limits) && WithinLimits(l, b.limits))
    && (forall bit: nat :: bit in s.features <==> bit in a.features && bit in b.features)
    && (s.minor == a.minor <= b.minor || s.minor == b.minor <= a.minor)
    && s.major == a.major == b.major
  }

  /** Whoever accepts derives the greatest selection within both offers, and learns who
      the other peer is. */
  lemma SelectionIsGreatest(mine: Offer, theirs: Offer)
    requires Negotiate(mine, theirs).Ok?
    ensures GreatestWithin(Negotiate(mine, theirs).value.selection, mine, theirs)
    ensures GreatestWithin(Negotiate(mine, theirs).value.selection, theirs, mine)
    ensures Negotiate(mine, theirs).value.remotePeer == theirs.peer
  {
  }

  /** There is only one such selection. */
  lemma GreatestIsUnique(s: Selection, t: Selection, a: Offer, b: Offer)
    requires GreatestWithin(s, a, b) && GreatestWithin(t, a, b)
    ensures s == t
  {
    assert WithinLimits(s.limits, t.limits) && WithinLimits(t.limits, s.limits);
    assert s.features == t.features by {
      forall bit: nat ensures bit in s.features <==> bit in t.features { }
    }
  }

  /** Two peers that both accept derive one selection, the greatest within both offers. */
  lemma BothSidesDeriveOneSelection(a: Offer, b: Offer)
    requires Negotiate(a, b).Ok? && Negotiate(b, a).Ok?
    ensures Negotiate(a, b).value.selection == Negotiate(b, a).value.selection
    ensures GreatestWithin(Negotiate(a, b).value.selection, a, b)
    ensures WithinOffer(Negotiate(a, b).value.selection, a)
    ensures WithinOffer(Negotiate(a, b).value.selection, b)
  {
    SelectionIsGreatest(a, b);
    SelectionIsGreatest(b, a);
    GreatestIsUnique(Negotiate(a, b).value.selection, Negotiate(b, a).value.selection, a, b);
  }

  /** One side accepts and the other refuses exactly when the accepting side's
      peer advertises a minor version it does not implement itself. */
  lemma AcceptanceIsMutualUpToLocalMinor(a: Offer, b: Offer)
    ensures Negotiate(a, b).Ok? && Negotiate(b, a).Err?
       <==> Negotiate(a, b).Ok? && b.minor > PROTOCOL_MINOR
  {
  }
}

/** The byte-bounded sinks a JSON serializer writes into. */
module SizedWriters {
  import opened ByteStrings

  /** What one serializer run writes: the pieces in order, and whether it then
      ended normally or stopped with an error of its own. */
  datatype Serialization = Serialization(chunks: seq<Bytes>, complete: bool) {
    function Text(): Bytes {
      Joined(chunks)
    }
  }

  datatype WriteOutcome = Written | LimitExceeded | SerializerFailed

  /** The outcome of a run against a limit, as a fact about the whole text only. */
  function Outcome(run: Serialization, limit: nat): WriteOutcome {
    if |run.Text()| > limit then LimitExceeded
    else if run.complete then Written
    else SerializerFailed
  }

  /** Splitting the same text differently never changes the outcome. */
  lemma SplittingIsIrrelevant(one: Serialization, other: Serialization, limit: nat)
    requires one.Text() == other.Text() && one.complete == other.complete
    ensures Outcome(one, limit) == Outcome(other, limit)
  {
  }

  lemma {:induction false} PrefixIsShorter(chunks: seq<Bytes>, i: nat)
    requires i <= |chunks|
    ensures |Joined(chunks[..i])| <= |Joined(chunks)|
  {
    assert chunks == chunks[..i] + chunks[i..];
    JoinedAppends(chunks[..i], chunks[i..]);
  }

  lemma JoinedGrows(chunks: seq<Bytes>, i: nat)
    requires i < |chunks|
    ensures Joined(chunks[..i + 1]) == Joined(chunks[..i]) + chunks[i]
    ensures |Joined(chunks[..i + 1])| <= |Joined(chunks)|
  {
    assert chunks[..i + 1][..i] == chunks[..i];
    PrefixIsShorter(chunks, i + 1);
  }

  /** Appends to a frame under construction without passing its ceiling. */
  class BoundedFrameWriter {
    var frame: Bytes
    const maxLen: nat
    var exceeded: bool

    constructor (start: Bytes, maxLen: nat)
      ensures frame == start && this.maxLen == maxLen && !exceeded
    {
      frame, this.maxLen, exceeded := start, maxLen, false;
    }

    method Write(bytes: Bytes) returns (ok: bool)
      modifies this
      ensures ok <==> |bytes| <= if |old(frame)| <= maxLen then maxLen - |old(frame)| else 0
      ensures ok ==> frame == old(frame) + bytes && exceeded == old(exceeded)
      ensures !ok ==> frame == old(frame) && exceeded
    {
      var remaining := if |frame| <= maxLen then maxLen - |frame| else 0;
      if |bytes| > remaining {
        exceeded := true;
        return false;
      }
      frame := frame + bytes;
      ok := true;
    }

    /** Drive one serializer run into the frame. */
    method Serialize(run: Serialization) returns (outcome: WriteOutcome)
      requires |frame| <= maxLen && !exceeded
      modifies this
      ensures outcome == Outcome(run, maxLen - |old(frame)|)
      ensures outcome.Written? ==> frame == old(frame) + run.Text()
      ensures exceeded <==> outcome.LimitExceeded?
    {
      var i := 0;
      assert frame == frame + Joined(run.chunks[..0]);
      while i < |run.chunks|
        invariant i <= |run.chunks| && !exceeded
        invariant frame == old(frame) + Joined(run.chunks[..i])
        invariant |frame| <= maxLen
      {
        JoinedGrows(run.chunks, i);
        var ok := Write(run.chunks[i]);
        if !ok { return LimitExceeded; }
        i := i + 1;
      }
      assert run.chunks[..i] == run.chunks;
      outcome := if run.complete then Written else SerializerFailed;
    }
  }

  /** Counts the bytes of a complete sidecar message against a payload limit. */
  class PayloadSizeLimiter {
    var written: nat
    const limit: nat

    constructor (limit: nat)
      ensures written == 0 && this.limit == limit
    {
      written, this.limit := 0, limit;
    }

    method Write(bytes: Bytes) returns (ok: bool)
      modifies this
      ensures ok <==> |bytes| <= if written <= limit then limit - old(written) else 0
      ensures written == if ok then old(written) + |bytes| else old(written)
    {
      var remaining := if written <= limit then limit - written else 0;
      if |bytes| > remaining { return false; }
      written := written + |bytes|;
      ok := true;
    }
  }

  /** Counts the bytes of a command result against the runtime's own limit. */
  class LimitWriter {
    var written: nat
    const maximum: nat

    constructor (maximum: nat)
      ensures written == 0 && this.maximum == maximum
    {
      written, this.maximum := 0, maximum;
    }

    /** `usizeMax` is the platform's largest length; a sum past it is refused. */
    method Write(bytes: Bytes, usizeMax: nat) returns (ok: bool)
      requires maximum <= usizeMax
      modifies this
      ensures ok <==> old(written) + |bytes| <= maximum
      ensures written == if ok then old(written) + |bytes| else old(written)
    {
      if written + |bytes| > usizeMax { return false; }
      var next := written + |bytes|;
      if next > maximum { return false; }
      written := next;
      ok := true;
    }
  }

  /** The size check used before a message is handed to the channel. */
  method RuntimeMessageWithinLimit(run: Serialization, limit: nat) returns (fits: bool)
    ensures fits <==> Outcome(run, limit).Written?
  {
    var sink := new PayloadSizeLimiter(limit);
    var i := 0;
    while i < |run.chunks|
      invariant i <= |run.chunks|
      invariant sink.limit == limit && sink.written == |Joined(run.chunks[..i])| <= limit
    {
      JoinedGrows(run.chunks, i);
      var ok := sink.Write(run.chunks[i]);
      if !ok { return false; }
      i := i + 1;
    }
    assert run.chunks[..i] == run.chunks;
    fits := run.complete;
  }

  /** The size check applied to handler parameters and results. */
  method SerializedJsonWithinLimit(run: Serialization, maximum: nat, usizeMax: nat) returns (fits: bool)
    requires maximum <= usizeMax
    ensures fits <==> Outcome(run, maximum).Written?
  {
    var sink := new LimitWriter(maximum);
    var i := 0;
    while i < |run.chunks|
      invariant i <= |run.chunks|
      invariant sink.maximum == maximum && sink.written == |Joined(run.chunks[..i])| <= maximum
    {
      JoinedGrows(run.chunks, i);
      var ok := sink.Write(run.chunks[i], usizeMax);
      if !ok { return false; }
      i := i + 1;
    }
    assert run.chunks[..i] == run.chunks;
    fits := run.complete;
  }
}

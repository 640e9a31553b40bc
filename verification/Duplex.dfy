/** Duplex invocation input and output: an ordered, byte-bounded input buffer, and
    output cut into numbered frames without cutting a character. */
module Duplex {
  import opened ByteStrings
  import Utf8

  // ---- input ----

  /** What a live invocation's buffer may hold. */
  const PENDING_INPUT_BYTES: nat := 64 * 1024

  datatype Frame = Frame(seqNo: U64, payload: Bytes)

  /** The buffer, with what was offered to it, what it took, and what was read. */
  datatype Input = Input(
    nextSeq: U64,
    queue: seq<Bytes>,
    bufferedBytes: nat,
    closed: bool,
    offered: seq<Frame>,
    accepted: seq<Frame>,
    received: seq<Bytes>)

  datatype Disposition = Accepted | Ignored | Overflow

  const EMPTY_INPUT := Input(0, [], 0, false, [], [], [])

  function SaturatingSuccessor(n: U64): U64 {
    if n < U64_MAX then n + 1 else U64_MAX
  }

  function TotalBytes(queue: seq<Bytes>): nat {
    if queue == [] then 0 else |queue[0]| + TotalBytes(queue[1..])
  }

  function PayloadsOf(frames: seq<Frame>): seq<Bytes> {
    if frames == [] then [] else PayloadsOf(frames[..|frames| - 1]) + [frames[|frames| - 1].payload]
  }

  function CloseStep(s: Input): Input {
    s.(closed := true, queue := [], bufferedBytes := 0)
  }

  function PushStep(s: Input, maximum: nat, seqNo: U64, payload: Bytes): (Input, Disposition) {
    var frame := Frame(seqNo, payload);
    var noted := s.(offered := s.offered + [frame]);
    if s.closed || seqNo < s.nextSeq then (noted, Ignored)
    else
      var advanced := noted.(nextSeq := SaturatingSuccessor(seqNo));
      if s.bufferedBytes + |payload| > U64_MAX || s.bufferedBytes + |payload| > maximum then
        (CloseStep(advanced), Overflow)
      else
        (advanced.(bufferedBytes := s.bufferedBytes + |payload|, queue := s.queue + [payload],
                   accepted := s.accepted + [frame]),
         Accepted)
  }

  datatype Reading = Payload(payload: Bytes) | EndOfInput | NothingYet

  function ReceiveStep(s: Input): (Input, Reading) {
    if s.queue != [] then
      var payload := s.queue[0];
      (s.(queue := s.queue[1..], bufferedBytes := Max(s.bufferedBytes - |payload|, 0),
          received := s.received + [payload]),
       Payload(payload))
    else (s, if s.closed then EndOfInput else NothingYet)
  }

  /** The least number still acceptable after these frames. */
  function NextAfter(offered: seq<Frame>): U64 {
    if offered == [] then 0
    else
      var before := NextAfter(offered[..|offered| - 1]);
      var last := offered[|offered| - 1].seqNo;
      if last < before then before else SaturatingSuccessor(last)
  }

  /** The frames that come in order: each numbered at least as required by those
      before it. */
  function InOrder(offered: seq<Frame>): seq<Frame> {
    if offered == [] then []
    else
      var before, last := offered[..|offered| - 1], offered[|offered| - 1];
      InOrder(before) + if last.seqNo < NextAfter(before) then [] else [last]
  }

  ghost predicate InputOk(s: Input, maximum: nat) {
    && s.bufferedBytes == TotalBytes(s.queue) <= maximum
    && (s.closed ==> s.queue == [])
    && s.accepted <= InOrder(s.offered)
    && (!s.closed ==>
          && s.nextSeq == NextAfter(s.offered) && s.accepted == InOrder(s.offered)
          && PayloadsOf(s.accepted) == s.received + s.queue)
    && s.received <= PayloadsOf(s.accepted)
  }

  datatype InputAction = Push(seqNo: U64, payload: Bytes) | Receive | Close

  function InputStep(s: Input, maximum: nat, a: InputAction): Input {
    match a
    case Push(seqNo, payload) => PushStep(s, maximum, seqNo, payload).0
    case Receive => ReceiveStep(s).0
    case Close => CloseStep(s)
  }

  lemma {:induction false} TotalAppends(queue: seq<Bytes>, last: Bytes)
    ensures TotalBytes(queue + [last]) == TotalBytes(queue) + |last|
  {
    if queue == [] {
      assert queue + [last] == [last];
    } else {
      assert (queue + [last])[1..] == queue[1..] + [last];
      TotalAppends(queue[1..], last);
    }
  }

  lemma PushKeepsInput(s: Input, maximum: nat, seqNo: U64, payload: Bytes)
    requires InputOk(s, maximum)
    ensures InputOk(PushStep(s, maximum, seqNo, payload).0, maximum)
  {
    var frame := Frame(seqNo, payload);
    assert (s.offered + [frame])[..|s.offered|] == s.offered;
    assert (s.accepted + [frame])[..|s.accepted|] == s.accepted;
    TotalAppends(s.queue, payload);
  }

  lemma ReceiveKeepsInput(s: Input, maximum: nat)
    requires InputOk(s, maximum)
    ensures InputOk(ReceiveStep(s).0, maximum)
  {
    if s.queue != [] {
      assert s.received + s.queue == s.received + [s.queue[0]] + s.queue[1..];
    }
  }

  function InputAfter(s: Input, maximum: nat, actions: seq<InputAction>): Input {
    if actions == [] then s
    else InputStep(InputAfter(s, maximum, actions[..|actions| - 1]), maximum, actions[|actions| - 1])
  }

  /** Whatever is pushed, read and closed, in whatever order: the byte count is the
      queue's and within the bound, a closed buffer is empty, what was read is a prefix
      of what was taken, and what was taken is, in order, the in-order part of what was
      offered: all of it while the buffer is open. */
  lemma {:induction false} InputRunsKeepOk(maximum: nat, actions: seq<InputAction>)
    ensures InputOk(InputAfter(EMPTY_INPUT, maximum, actions), maximum)
  {
    if actions != [] {
      var before := InputAfter(EMPTY_INPUT, maximum, actions[..|actions| - 1]);
      InputRunsKeepOk(maximum, actions[..|actions| - 1]);
      match actions[|actions| - 1]
      case Push(seqNo, payload) => PushKeepsInput(before, maximum, seqNo, payload);
      case Receive => ReceiveKeepsInput(before, maximum);
      case Close =>
    }
  }

  /** Once closed, always closed and empty, and nothing further is taken or read. */
  lemma ClosedStaysClosed(s: Input, maximum: nat, a: InputAction)
    requires s.closed && InputOk(s, maximum)
    ensures var s' := InputStep(s, maximum, a);
            s'.closed && s'.queue == [] && s'.accepted == s.accepted && s'.received == s.received
    ensures ReceiveStep(s).1 == EndOfInput
  {
  }

  /** A push overflows exactly when it comes in order and does not fit; it is ignored, and
      changes nothing but the record, exactly when the buffer is closed or it comes late;
      otherwise it is taken as the last. */
  lemma OverflowsExactlyWhen(s: Input, maximum: nat, seqNo: U64, payload: Bytes)
    requires InputOk(s, maximum) && maximum <= U64_MAX
    ensures PushStep(s, maximum, seqNo, payload).1.Overflow?
       <==> !s.closed && seqNo >= NextAfter(s.offered) && TotalBytes(s.queue + [payload]) > maximum
    ensures PushStep(s, maximum, seqNo, payload).1.Overflow? ==> PushStep(s, maximum, seqNo, payload).0.closed
    ensures PushStep(s, maximum, seqNo, payload).1.Ignored? <==> s.closed || seqNo < NextAfter(s.offered)
    ensures PushStep(s, maximum, seqNo, payload).1.Ignored? ==>
      PushStep(s, maximum, seqNo, payload).0 == s.(offered := s.offered + [Frame(seqNo, payload)])
    ensures PushStep(s, maximum, seqNo, payload).1.Accepted? ==>
      && PushStep(s, maximum, seqNo, payload).0.queue == s.queue + [payload]
      && PushStep(s, maximum, seqNo, payload).0.received == s.received
  {
    TotalAppends(s.queue, payload);
  }

  function Receives(s: Input, n: nat): Input
    decreases n
  {
    if n == 0 then s else Receives(ReceiveStep(s).0, n - 1)
  }

  /** Reading drains an open buffer: after as many receives as there are payloads waiting,
      every payload ever taken has been read, in order, and the next one has to wait. */
  lemma {:induction false} ReadingDrains(s: Input, maximum: nat)
    requires InputOk(s, maximum) && !s.closed
    ensures var end := Receives(s, |s.queue|);
            && end.received == PayloadsOf(s.accepted) && end.queue == [] && end.bufferedBytes == 0
            && end.accepted == s.accepted && ReceiveStep(end) == (end, NothingYet)
    decreases |s.queue|
  {
    if s.queue != [] {
      ReceiveKeepsInput(s, maximum);
      ReadingDrains(ReceiveStep(s).0, maximum);
    }
  }

  /** Each receive on a buffer with something in it yields the payload that is next. */
  lemma ReceiveYieldsTheNext(s: Input, maximum: nat)
    requires InputOk(s, maximum) && s.queue != []
    ensures ReceiveStep(s).1 == Payload(PayloadsOf(s.accepted)[|s.received|])
    ensures ReceiveStep(s).0.received == PayloadsOf(s.accepted)[..|s.received| + 1]
  {
    assert PayloadsOf(s.accepted)[|s.received|] == s.queue[0];
  }

  /** In-order frames rise strictly, except that the largest number may repeat. */
  lemma {:induction false} InOrderRises(offered: seq<Frame>)
    ensures forall i, j :: 0 <= i < j < |InOrder(offered)| ==>
      || InOrder(offered)[i].seqNo < InOrder(offered)[j].seqNo
      || InOrder(offered)[i].seqNo == InOrder(offered)[j].seqNo == U64_MAX
    ensures forall f :: f in InOrder(offered) ==> SaturatingSuccessor(f.seqNo) <= NextAfter(offered)
  {
    if offered != [] {
      var before, last := offered[..|offered| - 1], offered[|offered| - 1];
      InOrderRises(before);
      if last.seqNo >= NextAfter(before) {
        forall i | 0 <= i < |InOrder(before)|
          ensures InOrder(before)[i].seqNo < last.seqNo || InOrder(before)[i].seqNo == last.seqNo == U64_MAX
        {
          assert InOrder(before)[i] in InOrder(before);
        }
      }
    }
  }

  predicate RisesStrictly(frames: seq<Frame>) {
    forall i, j :: 0 <= i < j < |frames| ==> frames[i].seqNo < frames[j].seqNo
  }

  /** How many frames carry the largest number there is. */
  function NumberedLargest(frames: seq<Frame>): nat {
    if frames == [] then 0
    else NumberedLargest(frames[..|frames| - 1]) + if frames[|frames| - 1].seqNo == U64_MAX then 1 else 0
  }

  lemma {:induction false} NoneNumberedLargest(frames: seq<Frame>)
    ensures NumberedLargest(frames) == 0 <==> forall i :: 0 <= i < |frames| ==> frames[i].seqNo != U64_MAX
  {
    if frames != [] {
      var last := |frames| - 1;
      NoneNumberedLargest(frames[..last]);
      assert forall i :: 0 <= i < last ==> frames[..last][i] == frames[i];
    }
  }

  lemma RiseOneMore(frames: seq<Frame>, last: Frame)
    ensures RisesStrictly(frames + [last])
       <==> RisesStrictly(frames) && forall i :: 0 <= i < |frames| ==> frames[i].seqNo < last.seqNo
  {
    var all := frames + [last];
    if RisesStrictly(all) {
      forall i | 0 <= i < |frames| ensures frames[i].seqNo < last.seqNo {
        assert all[i].seqNo < all[|frames|].seqNo;
      }
      forall i, j | 0 <= i < j < |frames| ensures frames[i].seqNo < frames[j].seqNo {
        assert all[i].seqNo < all[j].seqNo;
      }
    }
  }

  /** A frame with the largest number is always in order, so all of them are; and the
      in-order frames rise strictly exactly when at most one was offered. */
  lemma {:induction false} InOrderRisesExactlyWhen(offered: seq<Frame>)
    ensures NumberedLargest(InOrder(offered)) == NumberedLargest(offered)
    ensures RisesStrictly(InOrder(offered)) <==> NumberedLargest(offered) <= 1
  {
    if offered != [] {
      var before, last := offered[..|offered| - 1], offered[|offered| - 1];
      var taken := InOrder(before);
      InOrderRisesExactlyWhen(before);
      if last.seqNo < NextAfter(before) {
        assert InOrder(offered) == taken;
      } else {
        assert (taken + [last])[..|taken|] == taken;
        InOrderRises(before);
        RiseOneMore(taken, last);
        NoneNumberedLargest(taken);
        forall i | 0 <= i < |taken| ensures taken[i].seqNo < last.seqNo || taken[i].seqNo == last.seqNo == U64_MAX {
          assert taken[i] in taken;
        }
      }
    }
  }

  /** The frames an open buffer has taken rise strictly exactly when at most one of the
      frames offered to it carried the largest number. */
  lemma TakenRiseStrictlyExactlyWhen(s: Input, maximum: nat)
    requires InputOk(s, maximum) && !s.closed
    ensures RisesStrictly(s.accepted) <==> NumberedLargest(s.offered) <= 1
  {
    InOrderRisesExactlyWhen(s.offered);
  }

  /** Where an in-order number stands to the frames already taken. */
  lemma NextIsAboveTaken(s: Input, maximum: nat, seqNo: U64)
    requires InputOk(s, maximum) && !s.closed && s.nextSeq <= seqNo
    ensures forall i :: 0 <= i < |s.accepted| ==>
      s.accepted[i].seqNo < seqNo || s.accepted[i].seqNo == seqNo == U64_MAX
  {
    InOrderRises(s.offered);
    forall i | 0 <= i < |s.accepted|
      ensures s.accepted[i].seqNo < seqNo || s.accepted[i].seqNo == seqNo == U64_MAX
    {
      assert s.accepted[i] in InOrder(s.offered);
    }
  }

  /** Before a push, in any state: it breaks the strict rise exactly when it carries the
      largest number, the buffer is open with room for it, and the last frame taken
      carried the largest number already. */
  lemma PushKeepsStrictRiseExactlyWhen(s: Input, maximum: nat, seqNo: U64, payload: Bytes)
    requires InputOk(s, maximum) && maximum <= U64_MAX && RisesStrictly(s.accepted)
    ensures RisesStrictly(PushStep(s, maximum, seqNo, payload).0.accepted)
       <==> !(&& seqNo == U64_MAX && !s.closed && s.bufferedBytes + |payload| <= maximum
              && s.accepted != [] && s.accepted[|s.accepted| - 1].seqNo == U64_MAX)
  {
    RiseOneMore(s.accepted, Frame(seqNo, payload));
    if !s.closed && s.nextSeq <= seqNo { NextIsAboveTaken(s, maximum, seqNo); }
  }

  /** A live buffer can take the largest number twice: its successor saturates. */
  lemma LargestNumberCanRepeat(payload: Bytes)
    requires 2 * |payload| <= PENDING_INPUT_BYTES
    ensures var push := Push(U64_MAX, payload);
            InputAfter(EMPTY_INPUT, PENDING_INPUT_BYTES, [push, push]).accepted
            == [Frame(U64_MAX, payload), Frame(U64_MAX, payload)]
  {
    var push := Push(U64_MAX, payload);
    assert [push, push][..1] == [push] && [push][..0] == [];
    var none := InputAfter(EMPTY_INPUT, PENDING_INPUT_BYTES, []);
    var one := InputAfter(EMPTY_INPUT, PENDING_INPUT_BYTES, [push]);
    assert one == InputStep(none, PENDING_INPUT_BYTES, push);
    assert one.accepted == [Frame(U64_MAX, payload)] && one.nextSeq == U64_MAX;
  }

  class InputBuffer {
    var nextSeq: U64
    var queue: seq<Bytes>
    var bufferedBytes: nat
    var closed: bool
    const maximumBytes: nat
    ghost var offered: seq<Frame>
    ghost var accepted: seq<Frame>
    ghost var received: seq<Bytes>

    ghost function View(): Input
      reads this
    {
      Input(nextSeq, queue, bufferedBytes, closed, offered, accepted, received)
    }

    ghost predicate Valid()
      reads this
    {
      InputOk(View(), maximumBytes)
    }

    constructor (maximumBytes: nat)
      ensures Valid() && View() == EMPTY_INPUT && this.maximumBytes == maximumBytes
    {
      this.maximumBytes := maximumBytes;
      nextSeq, queue, bufferedBytes, closed := 0, [], 0, false;
      offered, accepted, received := [], [], [];
    }

    method Push(seqNo: U64, payload: Bytes) returns (disposition: Disposition)
      requires Valid()
      modifies this
      ensures Valid() && (View(), disposition) == PushStep(old(View()), maximumBytes, seqNo, payload)
    {
      PushKeepsInput(View(), maximumBytes, seqNo, payload);
      disposition := PushLocked(seqNo, payload);
    }

    method PushLocked(seqNo: U64, payload: Bytes) returns (disposition: Disposition)
      modifies this
      ensures (View(), disposition) == PushStep(old(View()), maximumBytes, seqNo, payload)
    {
      offered := offered + [Frame(seqNo, payload)];
      if closed || seqNo < nextSeq { return Ignored; }
      nextSeq := SaturatingSuccessor(seqNo);
      if bufferedBytes + |payload| > U64_MAX {
        Close();
        return Overflow;
      }
      if bufferedBytes + |payload| > maximumBytes {
        Close();
        return Overflow;
      }
      bufferedBytes := bufferedBytes + |payload|;
      queue := queue + [payload];
      accepted := accepted + [Frame(seqNo, payload)];
      disposition := Accepted;
    }

    method Close()
      modifies this`closed, this`queue, this`bufferedBytes
      ensures View() == CloseStep(old(View()))
    {
      closed, queue, bufferedBytes := true, [], 0;
    }

    method Receive() returns (reading: Reading)
      requires Valid()
      modifies this
      ensures Valid() && (View(), reading) == ReceiveStep(old(View()))
    {
      ReceiveKeepsInput(View(), maximumBytes);
      if queue != [] {
        var payload := queue[0];
        queue := queue[1..];
        bufferedBytes := Max(bufferedBytes - |payload|, 0);
        received := received + [payload];
        return Payload(payload);
      }
      reading := if closed then EndOfInput else NothingYet;
    }
  }

  // ---- output ----

  const CHUNK_BYTES: nat := 16 * 1024

  /** The last place, at or before `split`, where the text may be cut. */
  function BoundaryAtOrBefore(text: Bytes, split: nat): (cut: nat)
    ensures cut <= split
  {
    if Utf8.IsBoundary(text, split) then split else BoundaryAtOrBefore(text, split - 1)
  }

  lemma {:induction false} BoundaryIsLast(text: Bytes, split: nat)
    ensures var cut := BoundaryAtOrBefore(text, split);
            && Utf8.IsBoundary(text, cut)
            && forall k: nat :: cut < k <= split ==> !Utf8.IsBoundary(text, k)
  {
    if !Utf8.IsBoundary(text, split) { BoundaryIsLast(text, split - 1); }
  }

  function PrefixLength(text: Bytes, maximum: nat): (cut: nat)
    ensures cut <= |text| && cut <= maximum
  {
    if |text| <= maximum then |text| else BoundaryAtOrBefore(text, maximum)
  }

  /** The longest prefix within the maximum that may be cut off. */
  lemma PrefixIsLongest(text: Bytes, maximum: nat)
    ensures var cut := PrefixLength(text, maximum);
            && Utf8.IsBoundary(text, cut)
            && forall k: nat :: cut < k <= |text| && k <= maximum ==> !Utf8.IsBoundary(text, k)
  {
    if |text| > maximum { BoundaryIsLast(text, maximum); }
  }

  method Utf8PrefixLength(text: Bytes, maximum: nat) returns (split: nat)
    ensures split == PrefixLength(text, maximum)
  {
    if |text| <= maximum { return |text|; }
    split := maximum;
    while !Utf8.IsBoundary(text, split)
      invariant split <= maximum
      invariant BoundaryAtOrBefore(text, split) == BoundaryAtOrBefore(text, maximum)
      decreases split
    {
      split := split - 1;
    }
  }

  /** A text's first chunk is never empty: a character has at most four bytes. */
  lemma FirstCutIsPositive(s: string)
    requires s != ""
    ensures PrefixLength(Utf8.Encode(s), CHUNK_BYTES) > 0
  {
    var text := Utf8.Encode(s);
    if |text| > CHUNK_BYTES {
      Utf8.BoundaryWithinFour(s, CHUNK_BYTES);
      PrefixIsLongest(text, CHUNK_BYTES);
    } else {
      assert text == Utf8.EncodeChar(s[0]) + Utf8.Encode(s[1..]);
    }
  }

  /** A whole prefix longer than the first cut does not fit a chunk. */
  lemma LongerPrefixDoesNotFit(s: string, k: nat)
    requires k <= |s| && |Utf8.Encode(s[..k])| > PrefixLength(Utf8.Encode(s), CHUNK_BYTES)
    ensures |Utf8.Encode(s[..k])| > CHUNK_BYTES
  {
    PrefixIsLongest(Utf8.Encode(s), CHUNK_BYTES);
    Utf8.WholePrefixEndsAtBoundary(s, k);
  }

  lemma OneMoreCharacter(s: string, k: nat)
    requires k < |s|
    ensures |Utf8.Encode(s[..k + 1])| > |Utf8.Encode(s[..k])|
  {
    assert s[..k + 1] == s[..k] + [s[k]];
    Utf8.EncodeAppends(s[..k], [s[k]]);
    assert Utf8.Encode([s[k]]) == Utf8.EncodeChar(s[k]) + Utf8.Encode([s[k]][1..]);
  }

  /** The first chunk of a text is never empty, ends between characters, and could not
      take one character more. */
  lemma FirstPiece(s: string) returns (k: nat)
    requires s != ""
    ensures 0 < k <= |s| && PrefixLength(Utf8.Encode(s), CHUNK_BYTES) == |Utf8.Encode(s[..k])|
    ensures var cut := PrefixLength(Utf8.Encode(s), CHUNK_BYTES);
            Utf8.Encode(s)[..cut] == Utf8.Encode(s[..k]) && Utf8.Encode(s)[cut..] == Utf8.Encode(s[k..])
    ensures k < |s| ==> |Utf8.Encode(s[..k + 1])| > CHUNK_BYTES
  {
    var text := Utf8.Encode(s);
    var cut := PrefixLength(text, CHUNK_BYTES);
    FirstCutIsPositive(s);
    PrefixIsLongest(text, CHUNK_BYTES);
    k := Utf8.BoundarySplitsText(s, cut);
    assert |text[..cut]| == cut;
    assert s[..0] == "" && Utf8.Encode("") == [];
    if k < |s| {
      OneMoreCharacter(s, k);
      LongerPrefixDoesNotFit(s, k + 1);
    }
  }

  lemma ChunkIsWhole(text: Bytes)
    requires Utf8.Valid(text) && text != []
    ensures var cut := PrefixLength(text, CHUNK_BYTES);
            0 < cut <= |text| && Utf8.Valid(text[..cut]) && Utf8.Valid(text[cut..])
  {
    var s: string :| text == Utf8.Encode(s);
    var k := FirstPiece(s);
  }

  /** A text, cut as the writer cuts it. Only bytes that are no text leave nothing to
      cut off before their end. */
  function Chunks(text: Bytes): (chunks: seq<Bytes>)
    decreases |text|
  {
    var cut := PrefixLength(text, CHUNK_BYTES);
    if cut == 0 then [] else [text[..cut]] + Chunks(text[cut..])
  }

  function EncodeAll(pieces: seq<string>): seq<Bytes> {
    if pieces == [] then [] else [Utf8.Encode(pieces[0])] + EncodeAll(pieces[1..])
  }

  /** The text in pieces, each taking as many whole characters as fit. */
  ghost predicate GreedyPieces(pieces: seq<string>, s: string)
    decreases |pieces|
  {
    if pieces == [] then s == ""
    else
      && pieces[0] != "" && pieces[0] <= s && |Utf8.Encode(pieces[0])| <= CHUNK_BYTES
      && (|pieces[0]| < |s| ==> |Utf8.Encode(s[..|pieces[0]| + 1])| > CHUNK_BYTES)
      && GreedyPieces(pieces[1..], s[|pieces[0]|..])
  }

  /** For every text: the chunks are whole characters, never empty, at most 16 KiB, as
      long as possible, and make up the text. */
  lemma {:induction false} ChunksAreGreedy(s: string) returns (pieces: seq<string>)
    ensures Utf8.Valid(Utf8.Encode(s)) && Chunks(Utf8.Encode(s)) == EncodeAll(pieces) && GreedyPieces(pieces, s)
    decreases |s|
  {
    if s == "" {
      pieces := [];
    } else {
      var k := FirstPiece(s);
      var rest := ChunksAreGreedy(s[k..]);
      assert Utf8.Encode(s) != [];
      pieces := [s[..k]] + rest;
      assert pieces[1..] == rest;
    }
  }

  lemma FirstChunk(text: Bytes)
    requires Utf8.Valid(text) && text != []
    ensures var cut := PrefixLength(text, CHUNK_BYTES);
            && 0 < cut <= |text| && cut <= CHUNK_BYTES && Utf8.Valid(text[..cut]) && Utf8.Valid(text[cut..])
            && Chunks(text) == [text[..cut]] + Chunks(text[cut..])
            && text == text[..cut] + text[cut..]
  {
    ChunkIsWhole(text);
  }

  lemma {:induction false} ChunksMakeUpText(text: Bytes)
    requires Utf8.Valid(text)
    ensures Joined(Chunks(text)) == text && |Chunks(text)| <= |text|
    ensures forall chunk :: chunk in Chunks(text) ==> 0 < |chunk| <= CHUNK_BYTES && Utf8.Valid(chunk)
    decreases |text|
  {
    if text != [] {
      FirstChunk(text);
      var cut := PrefixLength(text, CHUNK_BYTES);
      var head, rest := text[..cut], text[cut..];
      ChunksMakeUpText(rest);
      JoinedAppends([head], Chunks(rest));
      assert Joined([head]) == head;
    }
  }

  /** Any first few chunks carry a prefix of the text, and only all of them carry the
      whole. */
  lemma FirstChunksCarryPrefix(text: Bytes, n: nat)
    requires Utf8.Valid(text) && n <= |Chunks(text)|
    ensures Joined(Chunks(text)[..n]) <= text
    ensures n == |Chunks(text)| <==> Joined(Chunks(text)[..n]) == text
  {
    var chunks := Chunks(text);
    ChunksMakeUpText(text);
    assert chunks == chunks[..n] + chunks[n..];
    JoinedAppends(chunks[..n], chunks[n..]);
    if n == |chunks| {
      assert chunks[..n] == chunks;
    } else {
      assert chunks[n] in chunks;
      JoinedIsLonger(chunks[n..]);
    }
  }

  lemma JoinedIsLonger(chunks: seq<Bytes>)
    requires chunks != [] && chunks[0] != []
    ensures Joined(chunks) != []
  {
    assert chunks == [chunks[0]] + chunks[1..];
    JoinedAppends([chunks[0]], chunks[1..]);
    assert Joined([chunks[0]]) == chunks[0];
  }

  datatype ProgressFrame = ProgressFrame(seqNo: nat, chunk: Bytes)

  /** The output the frames carry, one piece each; heartbeats carry none. */
  function Carried(frames: seq<ProgressFrame>): seq<Bytes> {
    if frames == [] then []
    else
      var last := |frames| - 1;
      Carried(frames[..last]) + if frames[last].chunk == [] then [] else [frames[last].chunk]
  }

  /** What happens around one of the writer's sends: heartbeats that get in first,
      whether the invocation is then still live, and whether the Gateway acknowledges. */
  datatype Turn = Turn(heartbeats: nat, live: bool, acknowledged: bool) {
    predicate Good() {
      live && acknowledged
    }
  }

  /** The first `n` turns found the invocation live and their frames acknowledged. */
  predicate AllGood(turns: seq<Turn>, n: nat)
    requires n <= |turns|
  {
    forall i :: 0 <= i < n ==> turns[i].Good()
  }

  /** After `turn` good turns the writer has `remaining` left, and the output before it
      plus that many chunks have gone out. */
  ghost predicate Written(before: seq<Bytes>, text: Bytes, turns: seq<Turn>, turn: nat, remaining: Bytes, output: seq<Bytes>)
    requires Utf8.Valid(text) && |turns| >= |text|
  {
    && Utf8.Valid(remaining) && turn <= |Chunks(text)| <= |turns| && Chunks(text)[turn..] == Chunks(remaining)
    && output == before + Chunks(text)[..turn] && AllGood(turns, turn)
  }

  lemma StartWriting(before: seq<Bytes>, text: Bytes, turns: seq<Turn>)
    requires Utf8.Valid(text) && |turns| >= |text|
    ensures Written(before, text, turns, 0, text, before)
  {
    ChunksMakeUpText(text);
    assert Chunks(text)[0..] == Chunks(text) && before + Chunks(text)[..0] == before;
  }

  lemma WriteOneMore(
      before: seq<Bytes>, text: Bytes, turns: seq<Turn>, turn: nat, remaining: Bytes, output: seq<Bytes>)
    requires Utf8.Valid(text) && |turns| >= |text|
    requires Written(before, text, turns, turn, remaining, output) && remaining != []
    ensures var cut := PrefixLength(remaining, CHUNK_BYTES);
            && 0 < cut <= |remaining| && turn < |Chunks(text)| <= |turns|
            && (turns[turn].Good() ==>
                  Written(before, text, turns, turn + 1, remaining[cut..], output + [remaining[..cut]]))
  {
    var chunks := Chunks(text);
    FirstChunk(remaining);
    assert chunks[turn] == chunks[turn..][0] && chunks[turn + 1..] == chunks[turn..][1..];
    assert chunks[..turn + 1] == chunks[..turn] + [chunks[turn]];
  }

  lemma NothingLeft(before: seq<Bytes>, text: Bytes, turns: seq<Turn>, turn: nat, output: seq<Bytes>)
    requires Utf8.Valid(text) && |turns| >= |text| && Written(before, text, turns, turn, [], output)
    ensures turn == |Chunks(text)|
  {
    assert |Chunks(text)[turn..]| == 0;
  }

  class InvocationProgress {
    var nextSeq: nat
    var stopped: bool
    /** The acknowledged frames. */
    ghost var frames: seq<ProgressFrame>

    ghost predicate Valid()
      reads this
    {
      nextSeq == |frames| && forall i :: 0 <= i < |frames| ==> frames[i].seqNo == i
    }

    constructor ()
      ensures Valid() && frames == [] && !stopped
    {
      nextSeq, stopped, frames := 0, false, [];
    }

    method Send(chunk: Bytes, acknowledged: bool) returns (sent: bool)
      requires Valid()
      modifies this`nextSeq, this`frames
      ensures Valid()
      ensures sent <==> !stopped && acknowledged
      ensures frames == if sent then old(frames) + [ProgressFrame(|old(frames)|, chunk)] else old(frames)
    {
      if stopped { return false; }
      if !acknowledged { return false; }
      frames := frames + [ProgressFrame(nextSeq, chunk)];
      nextSeq := nextSeq + 1;
      sent := true;
    }

    method Heartbeat(acknowledged: bool) returns (sent: bool)
      requires Valid()
      modifies this`nextSeq, this`frames
      ensures Valid() && old(frames) <= frames && Carried(frames) == old(Carried(frames))
    {
      sent := Send([], acknowledged);
      if sent { assert frames[..|frames| - 1] == old(frames); }
    }

    method Stop()
      modifies this`stopped
      ensures stopped
    {
      stopped := true;
    }

    /** The heartbeats that get in before the writer's next send. */
    method Heartbeats(count: nat)
      requires Valid()
      modifies this`nextSeq, this`frames
      ensures Valid() && old(frames) <= frames && Carried(frames) == old(Carried(frames))
    {
      var beat := 0;
      while beat < count
        invariant Valid() && old(frames) <= frames && Carried(frames) == old(Carried(frames))
      {
        var _ := Heartbeat(true);
        beat := beat + 1;
      }
    }

    /** One turn of the writer with a non-empty chunk. */
    method TakeTurn(chunk: Bytes, turn: Turn) returns (sent: bool)
      requires Valid() && chunk != []
      modifies this
      ensures Valid() && old(frames) <= frames
      ensures sent <==> !old(stopped) && turn.Good()
      ensures sent ==> !stopped
      ensures Carried(frames) == old(Carried(frames)) + if sent then [chunk] else []
    {
      Heartbeats(turn.heartbeats);
      if !turn.live { Stop(); }
      ghost var before := frames;
      sent := Send(chunk, turn.acknowledged);
      if sent { assert frames[..|before|] == before; }
    }

    /** Writes the text chunk by chunk until it is out or a send fails. */
    method Write(text: Bytes, turns: seq<Turn>) returns (written: bool, ghost sent: nat)
      requires Valid() && Utf8.Valid(text) && |turns| >= |text|
      modifies this
      ensures Valid() && old(frames) <= frames && sent <= |Chunks(text)| <= |turns|
      ensures Carried(frames) == old(Carried(frames)) + Chunks(text)[..sent]
      ensures written <==> sent == |Chunks(text)|
      ensures AllGood(turns, sent)
      ensures !written ==> old(stopped) || !turns[sent].Good()
    {
      ghost var before := Carried(frames);
      StartWriting(before, text, turns);
      var remaining, turn := text, 0;
      while remaining != []
        invariant Valid() && old(frames) <= frames
        invariant Written(before, text, turns, turn, remaining, Carried(frames))
        invariant stopped ==> old(stopped)
        decreases |remaining|
      {
        WriteOneMore(before, text, turns, turn, remaining, Carried(frames));
        var split := Utf8PrefixLength(remaining, CHUNK_BYTES);
        var ok := TakeTurn(remaining[..split], turns[turn]);
        if !ok { return false, turn; }
        remaining := remaining[split..];
        turn := turn + 1;
      }
      NothingLeft(before, text, turns, turn, Carried(frames));
      return true, turn;
    }
  }
}

/** The gateway session's bounded retained-event log and its independent readers. */
module EventHub {
  import opened Wrappers
  import opened ByteStrings

  datatype RetainedEvent = RetainedEvent(index: nat, raw: Bytes)

  /** The published events small enough to be retained at all, with their indices. */
  function Candidates(log: seq<Bytes>, maxBytes: nat): seq<RetainedEvent> {
    if log == [] then []
    else
      var last := |log| - 1;
      Candidates(log[..last], maxBytes)
      + if |log[last]| > maxBytes then [] else [RetainedEvent(last, log[last])]
  }

  function BytesOf(frames: seq<RetainedEvent>): nat {
    if frames == [] then 0 else |frames[0].raw| + BytesOf(frames[1..])
  }

  predicate Fits(frames: seq<RetainedEvent>, capacity: nat, maxBytes: nat) {
    |frames| <= capacity && BytesOf(frames) <= maxBytes
  }

  function LongestFittingSuffix(frames: seq<RetainedEvent>, capacity: nat, maxBytes: nat): seq<RetainedEvent> {
    if Fits(frames, capacity, maxBytes) then frames
    else LongestFittingSuffix(frames[1..], capacity, maxBytes)
  }

  /** It is a suffix, it fits, and no longer suffix does. */
  lemma {:induction false} LongestSuffixIsLongest(frames: seq<RetainedEvent>, capacity: nat, maxBytes: nat)
    ensures var suffix := LongestFittingSuffix(frames, capacity, maxBytes);
            && |suffix| <= |frames| && suffix == frames[|frames| - |suffix|..] && Fits(suffix, capacity, maxBytes)
            && forall k: nat :: k < |frames| - |suffix| ==> !Fits(frames[k..], capacity, maxBytes)
  {
    if !Fits(frames, capacity, maxBytes) {
      LongestSuffixIsLongest(frames[1..], capacity, maxBytes);
      var suffix := LongestFittingSuffix(frames, capacity, maxBytes);
      forall k: nat | k < |frames| - |suffix| ensures !Fits(frames[k..], capacity, maxBytes) {
        assert frames[0..] == frames;
        if k > 0 { assert frames[k..] == frames[1..][k - 1..]; }
      }
    }
  }

  /** What a hub with these limits retains after these events. */
  function RetainedOf(log: seq<Bytes>, capacity: nat, maxBytes: nat): seq<RetainedEvent> {
    LongestFittingSuffix(Candidates(log, maxBytes), capacity, maxBytes)
  }

  lemma {:induction false} BytesAppend(frames: seq<RetainedEvent>, last: RetainedEvent)
    ensures BytesOf(frames + [last]) == BytesOf(frames) + |last.raw|
  {
    if frames != [] {
      BytesAppend(frames[1..], last);
      assert (frames + [last])[1..] == frames[1..] + [last];
    } else {
      assert frames + [last] == [last];
    }
  }

  /** Dropping from the front until one more event fits. */
  function Evict(frames: seq<RetainedEvent>, incoming: nat, capacity: nat, maxBytes: nat): seq<RetainedEvent> {
    if frames == [] || (|frames| < capacity && BytesOf(frames) + incoming <= maxBytes) then frames
    else Evict(frames[1..], incoming, capacity, maxBytes)
  }

  /** Evicting and appending is the same as looking for the longest suffix afresh. */
  lemma {:induction false} EvictionFindsLongestSuffix(
      frames: seq<RetainedEvent>, event: RetainedEvent, capacity: nat, maxBytes: nat)
    requires capacity >= 1 && |event.raw| <= maxBytes
    ensures LongestFittingSuffix(frames + [event], capacity, maxBytes)
         == Evict(LongestFittingSuffix(frames, capacity, maxBytes), |event.raw|, capacity, maxBytes) + [event]
  {
    var all := frames + [event];
    BytesAppend(frames, event);
    if frames == [] {
      assert all == [event] && BytesOf(all) == |event.raw|;
    } else {
      assert all[1..] == frames[1..] + [event];
      EvictionFindsLongestSuffix(frames[1..], event, capacity, maxBytes);
      if Fits(frames, capacity, maxBytes) && !Fits(all, capacity, maxBytes) {
        FittingTailFits(frames, capacity, maxBytes);
      }
    }
  }

  lemma FittingTailFits(frames: seq<RetainedEvent>, capacity: nat, maxBytes: nat)
    requires frames != [] && Fits(frames, capacity, maxBytes)
    ensures Fits(frames[1..], capacity, maxBytes)
    ensures LongestFittingSuffix(frames[1..], capacity, maxBytes) == frames[1..]
  {
  }

  /** One more event: nothing changes when it is oversized, otherwise the oldest go. */
  lemma PublishRefines(log: seq<Bytes>, raw: Bytes, capacity: nat, maxBytes: nat)
    requires capacity >= 1
    ensures RetainedOf(log + [raw], capacity, maxBytes)
         == if |raw| > maxBytes then RetainedOf(log, capacity, maxBytes)
            else Evict(RetainedOf(log, capacity, maxBytes), |raw|, capacity, maxBytes)
                 + [RetainedEvent(|log|, raw)]
  {
    assert (log + [raw])[..|log|] == log;
    var candidates := Candidates(log, maxBytes);
    if |raw| <= maxBytes {
      EvictionFindsLongestSuffix(candidates, RetainedEvent(|log|, raw), capacity, maxBytes);
    } else {
      assert candidates + [] == candidates;
    }
  }

  // ---- reading ----

  datatype Outcome =
    | Received(event: RetainedEvent)
    | Lagged(missed: nat)
    | ReaderClosed
    | Waiting

  function FirstFrom(frames: seq<RetainedEvent>, cursor: nat): Option<RetainedEvent> {
    if frames == [] then None
    else if frames[0].index >= cursor then Some(frames[0])
    else FirstFrom(frames[1..], cursor)
  }

  /** One look at the hub: what a reader at `cursor` gets, and where it stands afterwards. */
  function Poll(frames: seq<RetainedEvent>, nextIndex: nat, closed: bool, cursor: nat): (Outcome, nat) {
    match FirstFrom(frames, cursor)
    case Some(event) =>
      if event.index > cursor then (Lagged(event.index - cursor), event.index)
      else (Received(event), cursor + 1)
    case None =>
      if cursor < nextIndex then (Lagged(nextIndex - cursor), nextIndex)
      else if closed then (ReaderClosed, cursor)
      else (Waiting, cursor)
  }

  class EventHub {
    var frames: seq<RetainedEvent>
    var nextIndex: nat
    var retainedBytes: nat
    var closed: bool
    const capacity: nat
    const maxBytes: nat
    ghost var log: seq<Bytes>

    ghost predicate Valid()
      reads this
    {
      && capacity >= 1 && nextIndex == |log|
      && frames == RetainedOf(log, capacity, maxBytes) && retainedBytes == BytesOf(frames)
    }

    constructor (capacity: nat, maxBytes: nat)
      ensures Valid() && log == [] && !closed
      ensures this.capacity == Max(capacity, 1) && this.maxBytes == Max(maxBytes, 1)
    {
      this.capacity, this.maxBytes := Max(capacity, 1), Max(maxBytes, 1);
      frames, nextIndex, retainedBytes, closed, log := [], 0, 0, false, [];
    }

    /** The session's own reader, which starts with its first event. */
    method InitialSubscription() returns (cursor: nat)
      ensures cursor == 0
    {
      cursor := 0;
    }

    /** A reader that starts at the present. */
    method Subscribe() returns (cursor: nat)
      requires Valid()
      ensures cursor == |log|
    {
      cursor := nextIndex;
    }

    method Publish(raw: Bytes)
      requires Valid()
      modifies this
      ensures log == old(log) + [raw] && closed == old(closed)
      ensures Valid()
    {
      PublishRefines(log, raw, capacity, maxBytes);
      ghost var target := RetainedOf(log + [raw], capacity, maxBytes);
      var index := nextIndex;
      nextIndex := nextIndex + 1;
      log := log + [raw];
      if |raw| > maxBytes { return; }
      MakeRoom(|raw|);
      BytesAppend(frames, RetainedEvent(index, raw));
      retainedBytes := retainedBytes + |raw|;
      frames := frames + [RetainedEvent(index, raw)];
      assert frames == target;
    }

    /** The eviction loop; there is always something to evict when it asks for it. */
    method MakeRoom(incoming: nat)
      requires capacity >= 1 && incoming <= maxBytes && retainedBytes == BytesOf(frames)
      modifies this`frames, this`retainedBytes
      ensures frames == Evict(old(frames), incoming, capacity, maxBytes)
      ensures retainedBytes == BytesOf(frames)
    {
      while |frames| >= capacity || retainedBytes + incoming > maxBytes
        invariant retainedBytes == BytesOf(frames)
        invariant Evict(frames, incoming, capacity, maxBytes) == Evict(old(frames), incoming, capacity, maxBytes)
        decreases |frames|
      {
        if |frames| == 0 {
          assert false;
        } else {
          var evicted := frames[0];
          frames := frames[1..];
          retainedBytes := retainedBytes - |evicted.raw|;
        }
      }
    }

    method Close()
      modifies this`closed
      ensures closed
    {
      closed := true;
    }

    /** One pass of the receive loop under the hub's lock. */
    method Look(cursor: nat) returns (outcome: Outcome, after: nat)
      ensures (outcome, after) == Poll(frames, nextIndex, closed, cursor)
    {
      var i := 0;
      while i < |frames| && frames[i].index < cursor
        invariant i <= |frames|
        invariant FirstFrom(frames, cursor) == FirstFrom(frames[i..], cursor)
      {
        i := i + 1;
      }
      if i < |frames| {
        var event := frames[i];
        if event.index > cursor { return Lagged(event.index - cursor), event.index; }
        return Received(event), cursor + 1;
      }
      if cursor < nextIndex { return Lagged(nextIndex - cursor), nextIndex; }
      outcome, after := if closed then ReaderClosed else Waiting, cursor;
    }
  }

  // ---- many readers over one hub ----

  /** What one receive told a reader, with the indices it accounts for. */
  datatype Delivery = Got(index: nat, raw: Bytes) | Missed(from: nat, upTo: nat) | SawClose

  datatype Reader = Reader(start: nat, cursor: nat, history: seq<Delivery>)

  /** The hub as its log; the readers; and why the session ended, once it has. */
  datatype HubWorld = HubWorld(
    log: seq<Bytes>, capacity: nat, maxBytes: nat, closed: bool, cause: Option<string>, readers: map<nat, Reader>)
  {
    function Frames(): seq<RetainedEvent> {
      RetainedOf(log, capacity, maxBytes)
    }
  }

  datatype HubAction =
    | PublishEvent(raw: Bytes)
    | SetCause(reason: string)
    | CloseHub
    | JoinAtTheStart(reader: nat)   // the session's own first reader
    | Join(reader: nat)
    | Receive(reader: nat)

  /** The session publishes until it has a close cause, and closes the hub only then. */
  predicate HubEnabled(w: HubWorld, a: HubAction) {
    match a
    case PublishEvent(_) => w.cause.None?
    case SetCause(_) => w.cause.None?
    case CloseHub => w.cause.Some?
    case JoinAtTheStart(r) => r !in w.readers
    case Join(r) => r !in w.readers
    case Receive(r) => r in w.readers
  }

  function Deliver(w: HubWorld, r: Reader): Reader {
    match Poll(w.Frames(), |w.log|, w.closed, r.cursor)
    case (Received(event), after) => Reader(r.start, after, r.history + [Got(event.index, event.raw)])
    case (Lagged(_), after) => Reader(r.start, after, r.history + [Missed(r.cursor, after)])
    case (ReaderClosed, after) => Reader(r.start, after, r.history + [SawClose])
    case (Waiting, _) => r
  }

  function HubStep(w: HubWorld, a: HubAction): HubWorld
    requires HubEnabled(w, a)
  {
    match a
    case PublishEvent(raw) => w.(log := w.log + [raw])
    case SetCause(reason) => w.(cause := Some(reason))
    case CloseHub => w.(closed := true)
    case JoinAtTheStart(r) => w.(readers := w.readers[r := Reader(0, 0, [])])
    case Join(r) => w.(readers := w.readers[r := Reader(|w.log|, |w.log|, [])])
    case Receive(r) => w.(readers := w.readers[r := Deliver(w, w.readers[r])])
  }

  /** Whether a delivery accounts for this index. */
  predicate Covers(d: Delivery, i: nat) {
    match d
    case Got(index, _) => i == index
    case Missed(from, upTo) => from <= i < upTo
    case SawClose => false
  }

  /** The deliveries account for exactly the indices from `start` to `cursor`, in order. */
  predicate Tiles(history: seq<Delivery>, start: nat, cursor: nat) {
    if history == [] then start == cursor
    else
      var last := |history| - 1;
      match history[last]
      case Got(index, _) => cursor == index + 1 && Tiles(history[..last], start, index)
      case Missed(from, upTo) => cursor == upTo && from < upTo && Tiles(history[..last], start, from)
      case SawClose => Tiles(history[..last], start, cursor)
  }

  /** Tiling means every index is accounted for by exactly one delivery. */
  lemma {:induction false} TilesCoverOnce(history: seq<Delivery>, start: nat, cursor: nat, i: nat)
    requires Tiles(history, start, cursor)
    ensures start <= cursor
    ensures (exists k :: 0 <= k < |history| && Covers(history[k], i)) <==> start <= i < cursor
    ensures forall j, k :: 0 <= j < k < |history| ==> !(Covers(history[j], i) && Covers(history[k], i))
  {
    if history != [] {
      var last := |history| - 1;
      var before := history[..last];
      assert forall k :: 0 <= k < last ==> before[k] == history[k];
      var middle := match history[last] case Got(index, _) => index case Missed(from, _) => from case SawClose => cursor;
      TilesCoverOnce(before, start, middle, i);
      assert Covers(history[last], i) <==> middle <= i < cursor;
      if exists k :: 0 <= k < |before| && Covers(before[k], i) {
        var k :| 0 <= k < |before| && Covers(before[k], i);
        assert Covers(history[k], i);
      }
    }
  }

  predicate IsRetained(w: HubWorld, i: nat) {
    exists k :: 0 <= k < |w.Frames()| && w.Frames()[k].index == i
  }

  predicate DeliveryOk(w: HubWorld, d: Delivery) {
    match d
    case Got(index, raw) => index < |w.log| && w.log[index] == raw
    case Missed(from, upTo) => upTo <= |w.log| && forall i :: from <= i < upTo ==> !IsRetained(w, i)
    case SawClose => w.closed
  }

  predicate ReaderOk(w: HubWorld, r: Reader) {
    && r.cursor <= |w.log| && Tiles(r.history, r.start, r.cursor)
    && (forall k :: 0 <= k < |r.history| ==> DeliveryOk(w, r.history[k]))
    && (SawClose in r.history ==> r.cursor == |w.log|)
  }

  predicate HubOk(w: HubWorld) {
    && w.capacity >= 1 && (w.closed ==> w.cause.Some?)
    && forall id :: id in w.readers ==> ReaderOk(w, w.readers[id])
  }

  /** Retained events are the log's own, in index order. */
  lemma {:induction false} CandidatesAreTheLog(log: seq<Bytes>, maxBytes: nat)
    ensures forall k :: 0 <= k < |Candidates(log, maxBytes)| ==>
      var f := Candidates(log, maxBytes)[k]; f.index < |log| && log[f.index] == f.raw && |f.raw| <= maxBytes
    ensures forall j, k :: 0 <= j < k < |Candidates(log, maxBytes)| ==>
      Candidates(log, maxBytes)[j].index < Candidates(log, maxBytes)[k].index
  {
    if log != [] {
      CandidatesAreTheLog(log[..|log| - 1], maxBytes);
    }
  }

  lemma FramesAreTheLog(w: HubWorld)
    ensures forall k :: 0 <= k < |w.Frames()| ==>
      var f := w.Frames()[k]; f.index < |w.log| && w.log[f.index] == f.raw
    ensures forall j, k :: 0 <= j < k < |w.Frames()| ==> w.Frames()[j].index < w.Frames()[k].index
  {
    CandidatesAreTheLog(w.log, w.maxBytes);
    LongestSuffixIsLongest(Candidates(w.log, w.maxBytes), w.capacity, w.maxBytes);
  }

  lemma {:induction false} EvictIsSuffix(frames: seq<RetainedEvent>, incoming: nat, capacity: nat, maxBytes: nat)
    ensures var kept := Evict(frames, incoming, capacity, maxBytes);
            |kept| <= |frames| && kept == frames[|frames| - |kept|..]
  {
    if frames != [] && !(|frames| < capacity && BytesOf(frames) + incoming <= maxBytes) {
      EvictIsSuffix(frames[1..], incoming, capacity, maxBytes);
    }
  }

  /** What is not retained now never is again. */
  lemma PublishingNeverRevives(w: HubWorld, raw: Bytes, i: nat)
    requires w.capacity >= 1 && i < |w.log| && !IsRetained(w, i)
    ensures !IsRetained(w.(log := w.log + [raw]), i)
  {
    PublishRefines(w.log, raw, w.capacity, w.maxBytes);
    EvictIsSuffix(w.Frames(), |raw|, w.capacity, w.maxBytes);
    var before, after := w.Frames(), w.(log := w.log + [raw]).Frames();
    var kept := Evict(before, |raw|, w.capacity, w.maxBytes);
    forall k | 0 <= k < |after| ensures after[k].index != i {
      if |raw| > w.maxBytes {
        assert before[k].index != i;
      } else if k < |kept| {
        assert after[k] == kept[k] == before[|before| - |kept| + k];
        assert before[|before| - |kept| + k].index != i;
      } else {
        assert after[k] == RetainedEvent(|w.log|, raw);
      }
    }
  }

  lemma {:induction false} FirstFromFinds(frames: seq<RetainedEvent>, cursor: nat)
    requires forall j, k :: 0 <= j < k < |frames| ==> frames[j].index < frames[k].index
    ensures match FirstFrom(frames, cursor)
      case Some(event) =>
        && event in frames && event.index >= cursor
        && forall k :: 0 <= k < |frames| ==> frames[k].index < cursor || frames[k].index >= event.index
      case None => forall k :: 0 <= k < |frames| ==> frames[k].index < cursor
  {
    if frames != [] && frames[0].index < cursor {
      FirstFromFinds(frames[1..], cursor);
      assert forall k :: 0 < k < |frames| ==> frames[k] == frames[1..][k - 1];
    }
  }

  /** What one look means for a reader's place in the log. */
  lemma PollMoves(w: HubWorld, closed: bool, cursor: nat)
    requires cursor <= |w.log|
    ensures var (outcome, after) := Poll(w.Frames(), |w.log|, closed, cursor);
            match outcome
            case Received(event) => after == cursor + 1 && event.index == cursor < |w.log| && event.raw == w.log[cursor]
            case Lagged(missed) => cursor + missed == after && cursor < after <= |w.log|
                                   && (after == |w.log| || IsRetained(w, after))
                                   && forall i :: cursor <= i < after ==> !IsRetained(w, i)
            case ReaderClosed => closed && after == cursor == |w.log|
            case Waiting => !closed && after == cursor == |w.log|
  {
    var frames := w.Frames();
    FramesAreTheLog(w);
    FirstFromFinds(frames, cursor);
    var (outcome, after) := Poll(frames, |w.log|, closed, cursor);
    if outcome.Lagged? {
      if after != |w.log| {
        var event := FirstFrom(frames, cursor).value;
        var k :| 0 <= k < |frames| && frames[k] == event;
        assert frames[k].index == after;
      }
      forall i | cursor <= i < after ensures !IsRetained(w, i) {
        forall k | 0 <= k < |frames| ensures frames[k].index != i {
          assert frames[k].index < cursor || frames[k].index >= after;
        }
      }
    }
  }

  lemma DeliveryKeepsReader(w: HubWorld, r: Reader)
    requires w.capacity >= 1 && ReaderOk(w, r)
    ensures ReaderOk(w, Deliver(w, r))
  {
    PollMoves(w, w.closed, r.cursor);
    match Poll(w.Frames(), |w.log|, w.closed, r.cursor)
    case (Received(event), after) => AlsoDelivered(w, r, Got(event.index, event.raw), after);
    case (Lagged(_), after) => AlsoDelivered(w, r, Missed(r.cursor, after), after);
    case (ReaderClosed, after) => AlsoDelivered(w, r, SawClose, after);
    case (Waiting, _) =>
  }

  lemma AlsoDelivered(w: HubWorld, r: Reader, d: Delivery, after: nat)
    requires ReaderOk(w, r) && DeliveryOk(w, d)
    requires match d
             case Got(index, _) => index == r.cursor && after == index + 1
             case Missed(from, upTo) => from == r.cursor && from < upTo == after
             case SawClose => r.cursor == after == |w.log|
    ensures ReaderOk(w, Reader(r.start, after, r.history + [d]))
  {
    var history := r.history + [d];
    assert history[..|r.history|] == r.history;
    assert SawClose in history ==> d.SawClose? || SawClose in r.history;
  }

  lemma HubStepKeeps(w: HubWorld, a: HubAction)
    requires HubOk(w) && HubEnabled(w, a)
    ensures HubOk(HubStep(w, a))
  {
    var w' := HubStep(w, a);
    match a {
      case PublishEvent(raw) =>
        forall id | id in w'.readers ensures ReaderOk(w', w'.readers[id]) {
          PublishKeepsReader(w, w.readers[id], raw);
        }
      case Receive(r) => DeliveryKeepsReader(w, w.readers[r]);
      case _ =>
    }
    if !a.PublishEvent? {
      forall id | id in w'.readers ensures ReaderOk(w', w'.readers[id]) {
        if id in w.readers { SameLogSameVerdict(w, w', w'.readers[id]); }
      }
    }
  }

  lemma SameLogSameVerdict(w: HubWorld, w': HubWorld, r: Reader)
    requires ReaderOk(w, r) && w'.log == w.log && w'.capacity == w.capacity && w'.maxBytes == w.maxBytes
    requires w.closed ==> w'.closed
    ensures ReaderOk(w', r)
  {
    assert w'.Frames() == w.Frames();
    forall k | 0 <= k < |r.history| ensures DeliveryOk(w', r.history[k]) {
      assert DeliveryOk(w, r.history[k]);
      if r.history[k].Missed? {
        forall i | r.history[k].from <= i < r.history[k].upTo ensures !IsRetained(w', i) {
          assert !IsRetained(w, i);
        }
      }
    }
  }

  lemma PublishKeepsReader(w: HubWorld, r: Reader, raw: Bytes)
    requires HubOk(w) && ReaderOk(w, r) && w.cause.None?
    ensures ReaderOk(w.(log := w.log + [raw]), r)
  {
    var w' := w.(log := w.log + [raw]);
    forall k | 0 <= k < |r.history| ensures DeliveryOk(w', r.history[k]) {
      assert DeliveryOk(w, r.history[k]);
      if r.history[k].Missed? {
        forall i | r.history[k].from <= i < r.history[k].upTo ensures !IsRetained(w', i) {
          PublishingNeverRevives(w, raw, i);
        }
      }
    }
  }

  predicate IsHubRun(w: HubWorld, actions: seq<HubAction>)
    decreases |actions|
  {
    actions == [] || (HubEnabled(w, actions[0]) && IsHubRun(HubStep(w, actions[0]), actions[1..]))
  }

  function AfterHubRun(w: HubWorld, actions: seq<HubAction>): HubWorld
    requires IsHubRun(w, actions)
    decreases |actions|
  {
    if actions == [] then w else AfterHubRun(HubStep(w, actions[0]), actions[1..])
  }

  lemma {:induction false} HubRunsKeepOk(w: HubWorld, actions: seq<HubAction>)
    requires HubOk(w) && IsHubRun(w, actions)
    ensures HubOk(AfterHubRun(w, actions))
    decreases |actions|
  {
    if actions != [] {
      HubStepKeeps(w, actions[0]);
      HubRunsKeepOk(HubStep(w, actions[0]), actions[1..]);
    }
  }

  /** Under any interleaving of publishes and receives: each index a reader has
      passed was either received once, as the log has it, or counted in one lag and
      by then no longer retained; and close is seen only at the end of the log. */
  lemma EveryIndexIsAccountedForOnce(capacity: nat, maxBytes: nat, actions: seq<HubAction>, id: nat, i: nat)
    requires capacity >= 1 && IsHubRun(HubWorld([], capacity, maxBytes, false, None, map[]), actions)
    requires var w := AfterHubRun(HubWorld([], capacity, maxBytes, false, None, map[]), actions);
             id in w.readers && w.readers[id].start <= i < w.readers[id].cursor
    ensures var w := AfterHubRun(HubWorld([], capacity, maxBytes, false, None, map[]), actions);
            var h := w.readers[id].history;
            && (exists k :: 0 <= k < |h| && Covers(h[k], i) && (forall j :: 0 <= j < |h| && j != k ==> !Covers(h[j], i))
                            && (h[k].Got? ==> i < |w.log| && h[k].raw == w.log[i])
                            && (h[k].Missed? ==> !IsRetained(w, i)))
            && (SawClose in h ==> w.closed && w.cause.Some? && w.readers[id].cursor == |w.log|)
  {
    var w0 := HubWorld([], capacity, maxBytes, false, None, map[]);
    var w := AfterHubRun(w0, actions);
    HubRunsKeepOk(w0, actions);
    var r := w.readers[id];
    assert ReaderOk(w, r);
    TilesCoverOnce(r.history, r.start, r.cursor, i);
    var k :| 0 <= k < |r.history| && Covers(r.history[k], i);
    assert DeliveryOk(w, r.history[k]);
    if SawClose in r.history {
      var c :| 0 <= c < |r.history| && r.history[c] == SawClose;
      assert DeliveryOk(w, r.history[c]);
    }
  }

  lemma {:induction false} ReadersKeepTheirStart(w: HubWorld, actions: seq<HubAction>, id: nat, joined: nat)
    requires IsHubRun(w, actions) && id in w.readers && w.readers[id].start == joined
    ensures id in AfterHubRun(w, actions).readers && AfterHubRun(w, actions).readers[id].start == joined
    decreases |actions|
  {
    if actions != [] { ReadersKeepTheirStart(HubStep(w, actions[0]), actions[1..], id, joined); }
  }

  /** A reader that joins starts at the present and stays with that start: what was
      published before is not its own to receive or to miss. The session's first reader
      accounts for everything. */
  lemma ReadersStartWhereTheyJoin(w: HubWorld, id: nat, join: HubAction, rest: seq<HubAction>)
    requires (join == Join(id) || join == JoinAtTheStart(id)) && HubEnabled(w, join) && IsHubRun(HubStep(w, join), rest)
    ensures var end := AfterHubRun(HubStep(w, join), rest);
            id in end.readers && end.readers[id].start == if join.Join? then |w.log| else 0
  {
    ReadersKeepTheirStart(HubStep(w, join), rest, id, if join.Join? then |w.log| else 0);
  }

  /** Once the session has its cause nothing more is published; and once the hub is closed,
      which only comes after, it stays so. */
  lemma {:induction false} ClosingIsFinal(w: HubWorld, actions: seq<HubAction>)
    requires IsHubRun(w, actions) && w.cause.Some?
    ensures var end := AfterHubRun(w, actions);
            && end.log == w.log && end.cause == w.cause
            && (end.closed <==> w.closed || CloseHub in actions)
    decreases |actions|
  {
    if actions != [] {
      ClosingIsFinal(HubStep(w, actions[0]), actions[1..]);
      assert CloseHub in actions <==> actions[0].CloseHub? || CloseHub in actions[1..];
    }
  }

  /** How many receives a reader of a closed hub makes before the one that reports
      the close. */
  ghost function ReceivesUntilClosed(w: HubWorld, cursor: nat): (n: nat)
    requires cursor <= |w.log|
    ensures n <= |w.log| - cursor
    decreases |w.log| - cursor
  {
    PollMoves(w, true, cursor);
    if cursor == |w.log| then 0
    else 1 + ReceivesUntilClosed(w, Poll(w.Frames(), |w.log|, true, cursor).1)
  }

  function DeliverMany(w: HubWorld, r: Reader, n: nat): Reader
    decreases n
  {
    if n == 0 then r else DeliverMany(w, Deliver(w, r), n - 1)
  }

  /** A closed hub drains: within as many receives as there are indices left, a
      reader is told the session has closed. */
  lemma {:induction false} ClosedHubDrains(w: HubWorld, r: Reader)
    requires w.closed && r.cursor <= |w.log|
    ensures var n := ReceivesUntilClosed(w, r.cursor);
            && n <= |w.log| - r.cursor
            && DeliverMany(w, r, n).cursor == DeliverMany(w, r, n + 1).cursor == |w.log|
            && DeliverMany(w, r, n + 1).history == DeliverMany(w, r, n).history + [SawClose]
    decreases |w.log| - r.cursor
  {
    PollMoves(w, true, r.cursor);
    var n := ReceivesUntilClosed(w, r.cursor);
    var next := Deliver(w, r);
    if n == 0 {
      assert DeliverMany(w, r, 1) == DeliverMany(w, next, 0) == next;
    } else {
      ClosedHubDrains(w, next);
    }
  }

  /** And no receive before that one reports the close. */
  lemma {:induction false} NoEarlyClose(w: HubWorld, r: Reader, n: nat)
    requires w.closed && r.cursor <= |w.log| && n <= ReceivesUntilClosed(w, r.cursor)
    ensures multiset(DeliverMany(w, r, n).history)[SawClose] == multiset(r.history)[SawClose]
    decreases n
  {
    if n > 0 {
      PollMoves(w, true, r.cursor);
      NoEarlyClose(w, Deliver(w, r), n - 1);
    }
  }
}

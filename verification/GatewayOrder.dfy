/** In what order the session's requests go out. */
module GatewayOrder {
  import opened GatewaySession

  function RequestIds(queue: seq<Command>): seq<Id> {
    if queue == [] then [] else (if queue[0].Request? then [queue[0].id] else []) + RequestIds(queue[1..])
  }

  lemma {:induction false} RequestIdsAppend(queue: seq<Command>, last: Command)
    ensures RequestIds(queue + [last]) == RequestIds(queue) + if last.Request? then [last.id] else []
  {
    var longer := queue + [last];
    if queue == [] {
      assert longer[1..] == [];
      assert RequestIds(longer) == (if last.Request? then [last.id] else []) + RequestIds([]);
    } else {
      assert longer[0] == queue[0] && longer[1..] == queue[1..] + [last];
      RequestIdsAppend(queue[1..], last);
    }
  }

  lemma {:induction false} RequestIdsAreQueued(queue: seq<Command>, id: Id)
    ensures id in RequestIds(queue) <==> exists c :: c in queue && c.Request? && c.id == id
  {
    if queue != [] {
      RequestIdsAreQueued(queue[1..], id);
      assert queue == [queue[0]] + queue[1..];
    }
  }

  /** The request in hand that has not been handed to the socket yet. */
  function StillInHand(phase: Phase): seq<Id> {
    if phase.Sending? && !phase.handed then [phase.request.id] else []
  }

  /** What has gone out, what is about to, and what waits for its turn. */
  function Line(s: Table): seq<Id> {
    s.wire + (StillInHand(s.phase) + RequestIds(s.queue))
  }

  /** Wherever both stand, the first comes before the second. */
  predicate ComesBefore(line: seq<Id>, first: Id, second: Id) {
    forall p, q :: 0 <= p < |line| && 0 <= q < |line| && line[p] == first && line[q] == second ==> p < q
  }

  lemma LeavingKeepsOrder(a: seq<Id>, b: seq<Id>, c: seq<Id>, first: Id, second: Id)
    requires ComesBefore(a + (b + c), first, second)
    ensures ComesBefore(a + c, first, second)
  {
    var line, rest := a + (b + c), a + c;
    forall p, q | 0 <= p < |rest| && 0 <= q < |rest| && rest[p] == first && rest[q] == second ensures p < q {
      var p', q' := if p < |a| then p else p + |b|, if q < |a| then q else q + |b|;
      assert line[p'] == rest[p] && line[q'] == rest[q];
    }
  }

  lemma QueueingKeepsOrder(line: seq<Id>, id: Id, first: Id, second: Id)
    requires ComesBefore(line, first, second) && id != first
    ensures ComesBefore(line + [id], first, second)
  {
    var longer := line + [id];
    forall p, q | 0 <= p < |longer| && 0 <= q < |longer| && longer[p] == first && longer[q] == second ensures p < q {
      assert p < |line| && longer[p] == line[p];
    }
  }

  lemma LinesAppend(wire: seq<Id>, hand: seq<Id>, waiting: seq<Id>, id: Id)
    ensures wire + (hand + (waiting + [id])) == wire + (hand + waiting) + [id]
    ensures wire + ([] + waiting) == wire + waiting
    ensures wire + [id] + ([] + waiting) == wire + ([id] + waiting)
  {
  }

  /** A request enters the line at its end. */
  lemma QueueingMovesLine(s: Table, c: Command)
    ensures Line(s.(queue := s.queue + [c])) == Line(s) + if c.Request? then [c.id] else []
  {
    RequestIdsAppend(s.queue, c);
    if c.Request? {
      LinesAppend(s.wire, StillInHand(s.phase), RequestIds(s.queue), c.id);
    } else {
      assert RequestIds(s.queue) + [] == RequestIds(s.queue);
      assert Line(s) + [] == Line(s);
    }
  }

  /** Taking a command leaves the line as it is, unless a request leaves it for good. */
  lemma DequeueMovesLine(s: Table)
    requires s.phase.Waiting? && s.queue != []
    ensures var rest := RequestIds(s.queue[1..]);
            || Line(DequeueStep(s)) == Line(s)
            || (s.queue[0].Request? && Line(s) == s.wire + ([s.queue[0].id] + rest) && Line(DequeueStep(s)) == s.wire + rest)
  {
    var s', rest := DequeueStep(s), RequestIds(s.queue[1..]);
    DequeueLeavesWire(s);
    DequeueStaysOpen(s);
    DequeueTakesTheHead(s);
    LinesAppend(s.wire, [], rest, s.queue[0].id);
    assert [] + ([s.queue[0].id] + rest) == [s.queue[0].id] + rest;
  }

  lemma DequeueTakesTheHead(s: Table)
    requires s.queue != []
    ensures var s' := DequeueStep(s);
            && s'.queue == s.queue[1..] && (s.queue[0].CancelRequest? ==> !s'.phase.Sending?)
            && (s'.phase.Sending? ==> s'.phase.request == s.queue[0] && !s'.phase.handed)
  {
  }

  lemma FinishSendMovesLine(s: Table, outcome: SendOutcome)
    requires s.phase.Sending?
    ensures Line(FinishSendStep(s, outcome)) == s.wire + RequestIds(s.queue)
  {
    FinishSendLeavesWire(s, outcome);
    FinishSendClosesExactlyWhen(s, outcome);
    FinishSendLeavesQueue(s, outcome);
    LinesAppend(s.wire, [], RequestIds(s.queue), s.phase.request.id);
  }

  lemma FinishSendLeavesQueue(s: Table, outcome: SendOutcome)
    requires s.phase.Sending?
    ensures FinishSendStep(s, outcome).queue == s.queue
  {
  }

  lemma HandOverMovesLine(s: Table)
    requires Enabled(s, HandOver)
    ensures Line(Step(s, HandOver)) == Line(s)
  {
    LinesAppend(s.wire, [], RequestIds(s.queue), s.phase.request.id);
  }

  /** No other step touches the line. */
  lemma OthersLeaveLine(s: Table, a: Action)
    requires Enabled(s, a) && !a.Enqueue? && !a.SendCancel? && !a.Dequeue? && !a.FinishSend? && !a.HandOver? && !a.ForgetQueue?
    ensures Line(Step(s, a)) == Line(s)
  {
    WireUntouched(s, a);
    var s' := Step(s, a);
    assert s'.queue == s.queue && StillInHand(s'.phase) == StillInHand(s.phase);
  }

  lemma LeavingStepKeepsOrder(s: Table, a: Action, first: Id, second: Id)
    requires Enabled(s, a) && (a.Dequeue? || a.FinishSend? || a.ForgetQueue?) && ComesBefore(Line(s), first, second)
    ensures ComesBefore(Line(Step(s, a)), first, second)
  {
    var hand, waiting := StillInHand(s.phase), RequestIds(s.queue);
    match a
    case Dequeue =>
      DequeueMovesLine(s);
      if s.queue[0].Request? && Line(Step(s, a)) != Line(s) {
        LeavingKeepsOrder(s.wire, [s.queue[0].id], RequestIds(s.queue[1..]), first, second);
      }
    case FinishSend(outcome) =>
      FinishSendMovesLine(s, outcome);
      LeavingKeepsOrder(s.wire, hand, waiting, first, second);
    case ForgetQueue =>
      assert s.wire + (hand + waiting) == s.wire + ((hand + waiting) + []) && s.wire + [] == s.wire;
      LeavingKeepsOrder(s.wire, hand + waiting, [], first, second);
      assert Line(Step(s, a)) == s.wire + ([] + []);
  }

  lemma StepKeepsOrder(s: Table, a: Action, first: Id, second: Id)
    requires TableOk(s) && Enabled(s, a) && first in s.deadlines && ComesBefore(Line(s), first, second)
    ensures ComesBefore(Line(Step(s, a)), first, second) && first in Step(s, a).deadlines
  {
    if !a.Enqueue? && !a.HandOver? { WireUntouched(s, a); }
    match a
    case Enqueue(id, deadline) =>
      NotYetSent(s, id);
      QueueingMovesLine(s, Request(id, deadline));
      QueueingKeepsOrder(Line(s), id, first, second);
      assert Line(Step(s, a)) == Line(s.(queue := s.queue + [Request(id, deadline)]));
    case SendCancel(id) =>
      QueueingMovesLine(s, CancelRequest(id));
      assert Line(s) + [] == Line(s);
      assert Line(Step(s, a)) == Line(s);
    case HandOver => HandOverMovesLine(s);
    case Dequeue | FinishSend(_) | ForgetQueue => LeavingStepKeepsOrder(s, a, first, second);
    case _ => OthersLeaveLine(s, a);
  }

  lemma {:induction false} RunsKeepOrder(s: Table, actions: seq<Action>, first: Id, second: Id)
    requires TableOk(s) && IsRun(s, actions) && first in s.deadlines && ComesBefore(Line(s), first, second)
    ensures ComesBefore(Line(After(s, actions)), first, second)
    decreases |actions|
  {
    if actions != [] {
      StepKeepsOrder(s, actions[0], first, second);
      StepKeepsTable(s, actions[0]);
      RunsKeepOrder(Step(s, actions[0]), actions[1..], first, second);
    }
  }

  /** Requests go out in the order they were queued: whatever happens afterwards, one that
      was queued before another never reaches the wire after it. */
  lemma RequestsGoOutInOrder(s: Table, first: Id, second: Id, deadline: nat, rest: seq<Action>)
    requires TableOk(s) && first in s.deadlines && Enabled(s, Enqueue(second, deadline))
    requires IsRun(Step(s, Enqueue(second, deadline)), rest)
    ensures ComesBefore(After(Step(s, Enqueue(second, deadline)), rest).wire, first, second)
  {
    var queued := Step(s, Enqueue(second, deadline));
    NotYetSent(s, second);
    NotInLine(s, second);
    StepKeepsOrder(s, Enqueue(second, deadline), first, second);
    StepKeepsTable(s, Enqueue(second, deadline));
    RunsKeepOrder(queued, rest, first, second);
    var end := After(queued, rest);
    FrontKeepsOrder(end.wire, StillInHand(end.phase) + RequestIds(end.queue), first, second);
  }

  lemma FrontKeepsOrder(front: seq<Id>, back: seq<Id>, first: Id, second: Id)
    requires ComesBefore(front + back, first, second)
    ensures ComesBefore(front, first, second)
  {
    forall p | 0 <= p < |front| ensures front[p] == (front + back)[p] { }
  }

  lemma NotInLine(s: Table, id: Id)
    requires WireOk(s) && id !in s.deadlines
    ensures id !in Line(s)
  {
    RequestIdsAreQueued(s.queue, id);
    forall c | c in s.queue && c.Request? ensures c.id != id { assert CommandOk(s.deadlines, s.cancelled, s.wire, c); }
  }
}

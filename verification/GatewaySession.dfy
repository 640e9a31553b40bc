/** The gateway session's request table: callers, permits, the bounded command
    queue, the one request being written, and the requests awaiting a response.

    Every lock region and every arm of the session's select is one step; the sweep
    at the top of the loop looks at one pending request at a time, so callers may
    act in the middle of it. Times are plain numbers on one clock. */
module GatewaySession {
  import opened ByteStrings
  import opened Wrappers

  type Id = nat

  datatype Command =
    | Request(id: Id, deadline: nat)
    | CancelRequest(id: Id)

  datatype CloseCause = Closed(reason: string) | InvalidFrame(detail: string) | TransportFailed(detail: string) | WriteTimeout(operation: string)

  /** How a request's reply channel was used; `Dropped` is letting go of it unused. */
  datatype Reply =
    | Answered(body: Bytes)
    | TimedOut
    | Rejected
    | WriteFailed(cause: CloseCause)
    | SessionEnded(cause: CloseCause)
    | Dropped

  datatype Phase =
    | Sweeping(unseen: set<Id>, doomed: set<Id>)
    | Waiting
    | Sending(request: Command, deadlineWins: bool, until: nat, handed: bool)
    | Closing(cause: CloseCause)
    | Ended(cause: CloseCause)

  datatype Table = Table(
    limit: nat,
    writeTimeout: nat,
    now: nat,
    available: nat,
    nextId: Id,
    held: set<Id>,             // a permit, not yet in the queue
    abandoned: set<Id>,        // gave the permit back without reaching the queue
    queue: seq<Command>,
    phase: Phase,
    pending: map<Id, nat>,     // deadlines of the requests on the wire
    waiting: set<Id>,          // callers whose cancellation guard is armed
    cancelled: set<Id>,        // cancellation flags that are set
    dropping: set<Id>,         // flag set, cancel command not yet tried
    deadlines: map<Id, nat>,
    wire: seq<Id>,
    refused: set<Id>,          // turned away when taken from the queue
    settled: map<Id, Reply>)
  {
    predicate Open() { !phase.Ended? }

    function InHand(): set<Id> {
      if phase.Sending? then {phase.request.id} else {}
    }

    /** Where every permit and every identifier is. */
    function Books(): Ledger {
      Ledger(available, held, abandoned, Queued(queue), InHand(), pending.Keys, settled.Keys)
    }

    /** In how many places an identifier is to be found. */
    function Places(id: Id): nat {
      Books().Places(id)
    }
  }

  datatype Ledger = Ledger(
    available: nat, held: set<Id>, abandoned: set<Id>, queued: multiset<Id>, inHand: set<Id>, pending: set<Id>, settled: set<Id>)
  {
    function Permits(): nat {
      available + |held| + |queued| + |inHand| + |pending|
    }

    function Places(id: Id): nat {
      (if id in held then 1 else 0) + queued[id] + (if id in inHand then 1 else 0) + (if id in pending then 1 else 0)
      + (if id in settled then 1 else 0) + (if id in abandoned then 1 else 0)
    }
  }

  /** The requests, not the cancellations, waiting in a queue. */
  function Queued(queue: seq<Command>): multiset<Id> {
    if queue == [] then multiset{}
    else (if queue[0].Request? then multiset{queue[0].id} else multiset{}) + Queued(queue[1..])
  }

  lemma {:induction false} QueuedAppends(queue: seq<Command>, last: Command)
    ensures Queued(queue + [last]) == Queued(queue) + if last.Request? then multiset{last.id} else multiset{}
  {
    if queue == [] {
      assert queue + [last] == [last];
    } else {
      assert (queue + [last])[1..] == queue[1..] + [last];
      QueuedAppends(queue[1..], last);
    }
  }

  datatype SendOutcome = Sent | TimeoutWriting(operation: string) | GuardRejected | SocketFailed(detail: string)

  datatype Action =
    | Acquire
    | GiveUp(id: Id)
    | Enqueue(id: Id, deadline: nat)
    | Abandon(id: Id)
    | SendCancel(id: Id)
    | Collect(id: Id)
    | Tick(now: nat)
    | Scan(id: Id)
    | FinishSweep
    | Expire
    | Dequeue
    | HandOver
    | FinishSend(outcome: SendOutcome)
    | Response(id: Id, body: Bytes)
    | OtherTraffic
    | Stop(cause: CloseCause)
    | SettlePending
    | ForgetQueue

  predicate Enabled(s: Table, a: Action) {
    match a
    case Acquire => s.available > 0
    case GiveUp(id) => id in s.held
    case Enqueue(id, _) => id in s.held && s.Open() && |s.queue| < s.limit
    case Abandon(id) => id in s.waiting
    case SendCancel(id) => id in s.dropping
    case Collect(id) => id in s.waiting && id in s.settled
    case Tick(now) => s.now <= now
    case Scan(id) => s.phase.Sweeping? && id in s.phase.unseen
    case FinishSweep => s.phase.Sweeping? && s.phase.unseen == {}
    case Expire => s.phase.Waiting?
    case Dequeue => s.phase.Waiting? && s.queue != []
    case HandOver => s.phase.Sending? && !s.phase.handed
    case FinishSend(outcome) =>
      && s.phase.Sending?
      && (outcome.Sent? ==> s.phase.handed) && (outcome.GuardRejected? ==> !s.phase.handed)
      && (outcome.TimeoutWriting? ==> s.phase.until <= s.now)
    case Response(_, _) => s.phase.Waiting?
    case OtherTraffic => s.phase.Waiting?
    case Stop(_) => s.phase.Waiting?
    case SettlePending => s.phase.Closing? && s.pending != map[]
    case ForgetQueue => s.phase.Closing? && s.pending == map[]
  }

  /** Back to the top of the loop, where flagged requests are swept out. */
  function Top(s: Table): Table {
    s.(phase := Sweeping(s.pending.Keys, {}))
  }

  /** The session lets go of a request it owned: its reply is used or dropped and its
      permit returns. */
  function Settle(s: Table, id: Id, reply: Reply): Table {
    s.(settled := s.settled[id := reply], available := s.available + 1)
  }

  function Replied(settled: map<Id, Reply>, ids: set<Id>, reply: Reply): map<Id, Reply> {
    map id | id in settled.Keys + ids :: if id in ids then reply else settled[id]
  }

  lemma RepliedToOneMore(settled: map<Id, Reply>, ids: set<Id>, id: Id, reply: Reply)
    ensures Replied(settled, {}, reply) == settled
    ensures Replied(settled, {id}, reply) == settled[id := reply]
    ensures Replied(settled, ids + {id}, reply) == Replied(settled, ids, reply)[id := reply]
  {
    assert Replied(settled, {id}, reply).Keys == settled[id := reply].Keys;
    assert Replied(settled, ids + {id}, reply).Keys == Replied(settled, ids, reply)[id := reply].Keys;
  }

  /** The same for every pending request among `ids`. */
  function SettleAll(s: Table, ids: set<Id>, reply: Reply): Table {
    s.(settled := Replied(s.settled, ids, reply),
       pending := s.pending - ids,
       available := s.available + |ids|)
  }

  function Expired(s: Table): set<Id> {
    set id | id in s.pending && s.pending[id] <= s.now
  }

  /** One command off the queue. */
  function DequeueStep(s: Table): Table
    requires s.queue != []
  {
    var rest := s.(queue := s.queue[1..]);
    match s.queue[0]
    case CancelRequest(id) => Top(if id in s.pending then SettleAll(rest, {id}, Dropped) else rest)
    case Request(id, deadline) =>
      if id in s.cancelled then Top(Settle(rest, id, Dropped).(refused := s.refused + {id}))
      else if deadline <= s.now then Top(Settle(rest, id, TimedOut).(refused := s.refused + {id}))
      else
        var remaining := deadline - s.now;
        rest.(phase := Sending(s.queue[0], remaining <= s.writeTimeout, s.now + Min(s.writeTimeout, remaining), false))
  }

  function FinishSendStep(s: Table, outcome: SendOutcome): Table
    requires s.phase.Sending?
  {
    var id := s.phase.request.id;
    match outcome
    case Sent =>
      var deadline := if s.phase.request.Request? then s.phase.request.deadline else 0;
      Top(s.(pending := s.pending[id := deadline]))
    case TimeoutWriting(operation) =>
      Settle(s, id, if s.phase.deadlineWins then TimedOut else WriteFailed(WriteTimeout(operation)))
        .(phase := Closing(WriteTimeout(operation)))
    case GuardRejected => Top(Settle(s, id, Rejected))
    case SocketFailed(detail) =>
      Settle(s, id, WriteFailed(TransportFailed(detail))).(phase := Closing(TransportFailed(detail)))
  }

  /** The receiver goes away with whatever is still queued. */
  function ForgetQueueStep(s: Table): Table
    requires s.phase.Closing?
  {
    var ids := set id | id in Queued(s.queue);
    s.(phase := Ended(s.phase.cause), queue := [], available := s.available + |Queued(s.queue)|,
       settled := Replied(s.settled, ids, Dropped))
  }

  function Step(s: Table, a: Action): Table
    requires Enabled(s, a)
  {
    match a
    case Acquire => s.(available := s.available - 1, held := s.held + {s.nextId}, nextId := s.nextId + 1)
    case GiveUp(id) => s.(held := s.held - {id}, abandoned := s.abandoned + {id}, available := s.available + 1)
    case Enqueue(id, deadline) =>
      s.(held := s.held - {id}, queue := s.queue + [Request(id, deadline)], waiting := s.waiting + {id},
         deadlines := s.deadlines[id := deadline])
    case Abandon(id) =>
      s.(waiting := s.waiting - {id}, cancelled := s.cancelled + {id}, dropping := s.dropping + {id})
    case SendCancel(id) =>
      s.(dropping := s.dropping - {id},
         queue := if s.Open() && |s.queue| < s.limit then s.queue + [CancelRequest(id)] else s.queue)
    case Collect(id) => s.(waiting := s.waiting - {id})
    case Tick(now) => s.(now := now)
    case Scan(id) =>
      s.(phase := Sweeping(s.phase.unseen - {id}, if id in s.cancelled then s.phase.doomed + {id} else s.phase.doomed))
    case FinishSweep => SettleAll(s, s.phase.doomed, Dropped).(phase := Waiting)
    case Expire => Top(SettleAll(s, Expired(s), TimedOut))
    case Dequeue => DequeueStep(s)
    case HandOver => s.(phase := s.phase.(handed := true), wire := s.wire + [s.phase.request.id])
    case FinishSend(outcome) => FinishSendStep(s, outcome)
    case Response(id, body) => Top(if id in s.pending then SettleAll(s, {id}, Answered(body)) else s)
    case OtherTraffic => Top(s)
    case Stop(cause) => s.(phase := Closing(cause))
    case SettlePending => SettleAll(s, s.pending.Keys, SessionEnded(s.phase.cause))
    case ForgetQueue => ForgetQueueStep(s)
  }

  function Fresh(limit: nat, writeTimeout: nat): Table {
    Table(Max(limit, 1), writeTimeout, 0, Max(limit, 1), 0, {}, {}, [], Sweeping({}, {}), map[], {}, {}, {}, map[], [], {}, map[])
  }

  // ---- permits and identifiers ----

  /** Permits add up, and every identifier ever issued is in exactly one place. */
  ghost predicate Balanced(l: Ledger, limit: nat, nextId: Id) {
    && l.Permits() == limit
    && forall id: Id :: l.Places(id) == if id < nextId then 1 else 0
  }

  ghost predicate LedgerOk(s: Table) {
    Balanced(s.Books(), s.limit, s.nextId)
  }

  lemma IssuingBalances(l: Ledger, limit: nat, nextId: Id)
    requires Balanced(l, limit, nextId) && l.available > 0
    ensures Balanced(l.(available := l.available - 1, held := l.held + {nextId}), limit, nextId + 1)
  {
    var l' := l.(available := l.available - 1, held := l.held + {nextId});
    assert l.Places(nextId) == 0;
    forall x: Id ensures l'.Places(x) == l.Places(x) + if x == nextId then 1 else 0 { }
  }

  lemma GivingUpBalances(l: Ledger, limit: nat, nextId: Id, id: Id)
    requires Balanced(l, limit, nextId) && id in l.held
    ensures Balanced(l.(available := l.available + 1, held := l.held - {id}, abandoned := l.abandoned + {id}), limit, nextId)
  {
    var l' := l.(available := l.available + 1, held := l.held - {id}, abandoned := l.abandoned + {id});
    assert l.Places(id) == 1;
    forall x: Id ensures l'.Places(x) == l.Places(x) { }
  }

  lemma QueueingBalances(l: Ledger, limit: nat, nextId: Id, id: Id)
    requires Balanced(l, limit, nextId) && id in l.held
    ensures Balanced(l.(held := l.held - {id}, queued := l.queued + multiset{id}), limit, nextId)
  {
    var l' := l.(held := l.held - {id}, queued := l.queued + multiset{id});
    assert l.Places(id) == 1;
    forall x: Id ensures l'.Places(x) == l.Places(x) { }
  }

  /** The request at the head of the queue has one place to go from. */
  lemma HeadIsOnlyQueued(l: Ledger, limit: nat, nextId: Id, id: Id)
    requires Balanced(l.(queued := l.queued + multiset{id}), limit, nextId)
    ensures id !in l.settled && id !in l.pending && id !in l.inHand && l.queued[id] == 0
  {
    assert l.(queued := l.queued + multiset{id}).Places(id) == 1;
  }

  lemma TakingBalances(l: Ledger, limit: nat, nextId: Id, id: Id)
    requires Balanced(l.(queued := l.queued + multiset{id}), limit, nextId) && l.inHand == {}
    ensures Balanced(l.(inHand := {id}), limit, nextId)
  {
    HeadIsOnlyQueued(l, limit, nextId, id);
    forall x: Id ensures l.(inHand := {id}).Places(x) == l.(queued := l.queued + multiset{id}).Places(x) { }
  }

  lemma RefusingBalances(l: Ledger, limit: nat, nextId: Id, id: Id)
    requires Balanced(l.(queued := l.queued + multiset{id}), limit, nextId)
    ensures Balanced(l.(settled := l.settled + {id}, available := l.available + 1), limit, nextId)
  {
    var l' := l.(settled := l.settled + {id}, available := l.available + 1);
    HeadIsOnlyQueued(l, limit, nextId, id);
    forall x: Id ensures l'.Places(x) == l.(queued := l.queued + multiset{id}).Places(x) { }
  }

  lemma InsertingBalances(l: Ledger, limit: nat, nextId: Id, id: Id)
    requires Balanced(l, limit, nextId) && l.inHand == {id}
    ensures Balanced(l.(inHand := {}, pending := l.pending + {id}), limit, nextId)
  {
    var l' := l.(inHand := {}, pending := l.pending + {id});
    assert l.Places(id) == 1;
    forall x: Id ensures l'.Places(x) == l.Places(x) { }
  }

  lemma FailingBalances(l: Ledger, limit: nat, nextId: Id, id: Id)
    requires Balanced(l, limit, nextId) && l.inHand == {id}
    ensures Balanced(l.(inHand := {}, settled := l.settled + {id}, available := l.available + 1), limit, nextId)
  {
    var l' := l.(inHand := {}, settled := l.settled + {id}, available := l.available + 1);
    assert l.Places(id) == 1;
    forall x: Id ensures l'.Places(x) == l.Places(x) { }
  }

  lemma SettlingBalances(l: Ledger, limit: nat, nextId: Id, ids: set<Id>)
    requires Balanced(l, limit, nextId) && ids <= l.pending
    ensures Balanced(
      l.(pending := l.pending - ids, settled := l.settled + ids, available := l.available + |ids|), limit, nextId)
  {
    var l' := l.(pending := l.pending - ids, settled := l.settled + ids, available := l.available + |ids|);
    assert |l.pending| == |l.pending - ids| + |ids|;
    forall x: Id ensures l'.Places(x) == l.Places(x) {
      assert l.Places(x) <= 1;
    }
  }

  lemma ForgettingBalances(l: Ledger, limit: nat, nextId: Id, ids: set<Id>)
    requires Balanced(l, limit, nextId) && ids == set id | id in l.queued
    ensures Balanced(l.(queued := multiset{}, settled := l.settled + ids, available := l.available + |l.queued|), limit, nextId)
  {
    var l' := l.(queued := multiset{}, settled := l.settled + ids, available := l.available + |l.queued|);
    forall x: Id ensures l'.Places(x) == l.Places(x) {
      assert l.Places(x) <= 1;
    }
  }

  lemma RepliedKeys(settled: map<Id, Reply>, ids: set<Id>, reply: Reply)
    ensures Replied(settled, ids, reply).Keys == settled.Keys + ids
  {
  }

  lemma RemainingKeys(pending: map<Id, nat>, ids: set<Id>)
    ensures (pending - ids).Keys == pending.Keys - ids
  {
  }

  lemma UpdatedKeys<T>(m: map<Id, T>, id: Id, value: T)
    ensures m[id := value].Keys == m.Keys + {id}
  {
  }

  /** The session settles requests it held as pending. */
  lemma SettleAllKeepsLedger(s: Table, ids: set<Id>, reply: Reply)
    requires LedgerOk(s) && ids <= s.pending.Keys
    ensures LedgerOk(SettleAll(s, ids, reply))
  {
    SettlingBalances(s.Books(), s.limit, s.nextId, ids);
    SettleAllBooks(s, ids, reply);
  }

  lemma SettleAllBooks(s: Table, ids: set<Id>, reply: Reply)
    ensures var l := s.Books();
            SettleAll(s, ids, reply).Books()
            == l.(pending := l.pending - ids, settled := l.settled + ids, available := l.available + |ids|)
  {
    RemainingKeys(s.pending, ids);
    RepliedKeys(s.settled, ids, reply);
  }

  lemma TopBooks(s: Table)
    requires !s.phase.Sending?
    ensures Top(s).Books() == s.Books()
  {
  }

  lemma TopKeepsLedger(s: Table)
    requires LedgerOk(s) && !s.phase.Sending?
    ensures LedgerOk(Top(s))
  {
    TopBooks(s);
  }

  lemma DequeuedCancelKeepsLedger(s: Table)
    requires LedgerOk(s) && s.phase.Waiting? && s.queue != [] && s.queue[0].CancelRequest?
    ensures LedgerOk(DequeueStep(s))
  {
    var rest, id := s.(queue := s.queue[1..]), s.queue[0].id;
    assert Queued(s.queue) == Queued(rest.queue);
    assert rest.Books() == s.Books();
    if id in s.pending {
      SettleAllKeepsLedger(rest, {id}, Dropped);
      TopKeepsLedger(SettleAll(rest, {id}, Dropped));
    } else {
      TopKeepsLedger(rest);
    }
  }

  /** The books with the request at the head of the queue set aside. */
  lemma HeadSetAside(s: Table)
    requires s.queue != [] && s.queue[0].Request?
    ensures var rest := s.(queue := s.queue[1..]).Books();
            s.Books() == rest.(queued := rest.queued + multiset{s.queue[0].id})
  {
    assert Queued(s.queue) == Queued(s.queue[1..]) + multiset{s.queue[0].id};
  }

  lemma TakenKeepsLedger(s: Table)
    requires LedgerOk(s) && s.phase.Waiting? && s.queue != [] && s.queue[0].Request? && DequeueStep(s).phase.Sending?
    ensures LedgerOk(DequeueStep(s))
  {
    var rest := s.(queue := s.queue[1..]).Books();
    HeadSetAside(s);
    TakingBalances(rest, s.limit, s.nextId, s.queue[0].id);
    assert DequeueStep(s).Books() == rest.(inHand := {s.queue[0].id});
  }

  lemma RefusalBooks(rest: Table, id: Id, reply: Reply, refused: set<Id>)
    ensures var l := rest.Books();
            Settle(rest, id, reply).(refused := refused).Books()
            == l.(settled := l.settled + {id}, available := l.available + 1)
  {
    UpdatedKeys(rest.settled, id, reply);
  }

  /** What a refusal comes to, with the reason left open. */
  lemma RefusingKeepsLedger(s: Table, reply: Reply)
    requires LedgerOk(s) && s.phase.Waiting? && s.queue != [] && s.queue[0].Request?
    ensures LedgerOk(Top(Settle(s.(queue := s.queue[1..]), s.queue[0].id, reply).(refused := s.refused + {s.queue[0].id})))
  {
    var id, rest := s.queue[0].id, s.(queue := s.queue[1..]);
    HeadSetAside(s);
    RefusingBalances(rest.Books(), s.limit, s.nextId, id);
    RefusalBooks(rest, id, reply, s.refused + {id});
    TopBooks(Settle(rest, id, reply).(refused := s.refused + {id}));
  }

  lemma RefusedKeepsLedger(s: Table)
    requires LedgerOk(s) && s.phase.Waiting? && s.queue != [] && s.queue[0].Request? && !DequeueStep(s).phase.Sending?
    ensures LedgerOk(DequeueStep(s))
  {
    RefusingKeepsLedger(s, Dropped);
    RefusingKeepsLedger(s, TimedOut);
  }

  lemma DequeueKeepsLedger(s: Table)
    requires LedgerOk(s) && s.phase.Waiting? && s.queue != []
    ensures LedgerOk(DequeueStep(s))
  {
    if s.queue[0].CancelRequest? { DequeuedCancelKeepsLedger(s); }
    else if DequeueStep(s).phase.Sending? { TakenKeepsLedger(s); }
    else { RefusedKeepsLedger(s); }
  }

  lemma SentKeepsLedger(s: Table)
    requires LedgerOk(s) && s.phase.Sending? && s.phase.request.Request?
    ensures LedgerOk(FinishSendStep(s, Sent))
  {
    InsertingBalances(s.Books(), s.limit, s.nextId, s.phase.request.id);
    UpdatedKeys(s.pending, s.phase.request.id, s.phase.request.deadline);
  }

  lemma UnsentKeepsLedger(s: Table, outcome: SendOutcome)
    requires LedgerOk(s) && s.phase.Sending? && !outcome.Sent?
    ensures LedgerOk(FinishSendStep(s, outcome))
  {
    var id, s' := s.phase.request.id, FinishSendStep(s, outcome);
    FailingBalances(s.Books(), s.limit, s.nextId, id);
    UpdatedKeys(s.settled, id, s'.settled[id]);
    assert s'.settled == s.settled[id := s'.settled[id]];
  }

  lemma ForgetQueueKeepsLedger(s: Table)
    requires LedgerOk(s) && s.phase.Closing?
    ensures LedgerOk(ForgetQueueStep(s))
  {
    var ids := set id | id in Queued(s.queue);
    var l := s.Books();
    ForgettingBalances(l, s.limit, s.nextId, ids);
    RepliedKeys(s.settled, ids, Dropped);
    assert ForgetQueueStep(s).Books()
        == l.(queued := multiset{}, settled := l.settled + ids, available := l.available + |l.queued|);
  }

  lemma EnqueueKeepsLedger(s: Table, id: Id, deadline: nat)
    requires LedgerOk(s) && Enabled(s, Enqueue(id, deadline))
    ensures LedgerOk(Step(s, Enqueue(id, deadline)))
  {
    QueuedAppends(s.queue, Request(id, deadline));
    QueueingBalances(s.Books(), s.limit, s.nextId, id);
    assert Step(s, Enqueue(id, deadline)).Books()
        == s.Books().(held := s.held - {id}, queued := Queued(s.queue) + multiset{id});
  }

  lemma SendCancelKeepsLedger(s: Table, id: Id)
    requires LedgerOk(s) && Enabled(s, SendCancel(id))
    ensures LedgerOk(Step(s, SendCancel(id)))
  {
    CancellationsDoNotCount(s.queue, id);
    assert Queued(Step(s, SendCancel(id)).queue) == Queued(s.queue);
    assert Step(s, SendCancel(id)).Books() == s.Books();
  }

  lemma CancellationsDoNotCount(queue: seq<Command>, id: Id)
    ensures Queued(queue + [CancelRequest(id)]) == Queued(queue)
  {
    QueuedAppends(queue, CancelRequest(id));
  }

  lemma SweptKeepsLedger(s: Table)
    requires LedgerOk(s) && Enabled(s, FinishSweep) && s.phase.doomed <= s.pending.Keys
    ensures LedgerOk(Step(s, FinishSweep))
  {
    SettleAllKeepsLedger(s, s.phase.doomed, Dropped);
    assert Step(s, FinishSweep).Books() == SettleAll(s, s.phase.doomed, Dropped).Books();
  }

  lemma SettlingKeepsLedger(s: Table, a: Action)
    requires LedgerOk(s) && Enabled(s, a) && (a.Expire? || a.Response? || a.SettlePending?)
    ensures LedgerOk(Step(s, a))
  {
    match a
    case Expire =>
      SettleAllKeepsLedger(s, Expired(s), TimedOut);
      TopKeepsLedger(SettleAll(s, Expired(s), TimedOut));
    case Response(id, body) =>
      if id in s.pending {
        SettleAllKeepsLedger(s, {id}, Answered(body));
        TopKeepsLedger(SettleAll(s, {id}, Answered(body)));
      } else {
        TopKeepsLedger(s);
      }
    case SettlePending => SettleAllKeepsLedger(s, s.pending.Keys, SessionEnded(s.phase.cause));
  }

  lemma AcquireKeepsLedger(s: Table)
    requires LedgerOk(s) && s.available > 0
    ensures LedgerOk(Step(s, Acquire))
  {
    IssuingBalances(s.Books(), s.limit, s.nextId);
    assert Step(s, Acquire).Books() == s.Books().(available := s.available - 1, held := s.held + {s.nextId});
  }

  lemma GiveUpKeepsLedger(s: Table, id: Id)
    requires LedgerOk(s) && id in s.held
    ensures LedgerOk(Step(s, GiveUp(id)))
  {
    GivingUpBalances(s.Books(), s.limit, s.nextId, id);
    assert Step(s, GiveUp(id)).Books()
        == s.Books().(available := s.available + 1, held := s.held - {id}, abandoned := s.abandoned + {id});
  }

  lemma CallerKeepsLedger(s: Table, a: Action)
    requires LedgerOk(s) && Enabled(s, a) && (a.Acquire? || a.GiveUp? || a.Enqueue? || a.SendCancel?)
    ensures LedgerOk(Step(s, a))
  {
    match a
    case Acquire => AcquireKeepsLedger(s);
    case GiveUp(id) => GiveUpKeepsLedger(s, id);
    case Enqueue(id, deadline) => EnqueueKeepsLedger(s, id, deadline);
    case SendCancel(id) => SendCancelKeepsLedger(s, id);
  }

  lemma StepKeepsLedger(s: Table, a: Action)
    requires LedgerOk(s) && Enabled(s, a) && (s.phase.Sweeping? ==> s.phase.doomed <= s.pending.Keys)
    requires s.phase.Sending? ==> s.phase.request.Request?
    ensures LedgerOk(Step(s, a))
  {
    match a
    case Acquire | GiveUp(_) | Enqueue(_, _) | SendCancel(_) => CallerKeepsLedger(s, a);
    case Dequeue => DequeueKeepsLedger(s);
    case FinishSend(outcome) => if outcome.Sent? { SentKeepsLedger(s); } else { UnsentKeepsLedger(s, outcome); }
    case FinishSweep => SweptKeepsLedger(s);
    case Expire | Response(_, _) | SettlePending => SettlingKeepsLedger(s, a);
    case ForgetQueue => ForgetQueueKeepsLedger(s);
    case _ => assert Step(s, a).Books() == s.Books();
  }

  // ---- cancellation ----

  /** Someone or something will still notice this request's cancellation flag. */
  predicate WillBeNoticed(s: Table, id: Id) {
    Noticed(s.dropping, s.queue, s.phase, id)
  }

  predicate Noticed(dropping: set<Id>, queue: seq<Command>, phase: Phase, id: Id) {
    || id in dropping || queue != []
    || match phase
       case Sweeping(unseen, doomed) => id in unseen || id in doomed
       case Waiting => false
       case _ => true
  }

  ghost predicate FlagsFit(
      queue: seq<Command>, phase: Phase, pending: set<Id>, waiting: set<Id>, cancelled: set<Id>, dropping: set<Id>)
  {
    && (phase.Sending? ==> phase.request.Request?)
    && (phase.Sweeping? ==> phase.unseen + phase.doomed <= pending && phase.doomed <= cancelled)
    && dropping <= cancelled && waiting !! cancelled
    && forall id :: id in pending && id in cancelled ==> Noticed(dropping, queue, phase, id)
  }

  ghost predicate CancelOk(s: Table) {
    && s.limit >= 1 && |s.queue| <= s.limit
    && FlagsFit(s.queue, s.phase, s.pending.Keys, s.waiting, s.cancelled, s.dropping)
  }

  /** At the top of the loop every flag is about to be read. */
  lemma TopNoticesAll(s: Table)
    requires s.limit >= 1 && |s.queue| <= s.limit && s.dropping <= s.cancelled && s.waiting !! s.cancelled
    ensures CancelOk(Top(s))
  {
  }

  lemma AbandoningFits(
      queue: seq<Command>, phase: Phase, pending: set<Id>, waiting: set<Id>, cancelled: set<Id>, dropping: set<Id>, id: Id)
    requires FlagsFit(queue, phase, pending, waiting, cancelled, dropping)
    ensures FlagsFit(queue, phase, pending, waiting - {id}, cancelled + {id}, dropping + {id})
  {
    forall x | x in pending && x in cancelled + {id} ensures Noticed(dropping + {id}, queue, phase, x) {
      if x in cancelled { assert Noticed(dropping, queue, phase, x); }
    }
  }

  /** A guard that has tried the queue: either its command is in, or the queue was not
      empty, or the session is over. */
  lemma TryingFits(
      queue: seq<Command>, queue': seq<Command>, phase: Phase, pending: set<Id>, waiting: set<Id>, cancelled: set<Id>,
      dropping: set<Id>, id: Id)
    requires FlagsFit(queue, phase, pending, waiting, cancelled, dropping)
    requires queue' != [] || phase.Ended?
    ensures FlagsFit(queue', phase, pending, waiting, cancelled, dropping - {id})
  {
  }

  /** A caller that was never flagged joins or leaves. */
  lemma WaitingFits(
      queue: seq<Command>, queue': seq<Command>, phase: Phase, pending: set<Id>, waiting: set<Id>, waiting': set<Id>,
      cancelled: set<Id>, dropping: set<Id>)
    requires FlagsFit(queue, phase, pending, waiting, cancelled, dropping) && waiting' !! cancelled
    requires queue == [] || queue' != []
    ensures FlagsFit(queue', phase, pending, waiting', cancelled, dropping)
  {
    forall x | x in pending && x in cancelled ensures Noticed(dropping, queue', phase, x) {
      assert Noticed(dropping, queue, phase, x);
    }
  }

  lemma ScanningFits(
      queue: seq<Command>, phase: Phase, pending: set<Id>, waiting: set<Id>, cancelled: set<Id>, dropping: set<Id>, id: Id)
    requires FlagsFit(queue, phase, pending, waiting, cancelled, dropping) && phase.Sweeping? && id in phase.unseen
    ensures FlagsFit(queue, Sweeping(phase.unseen - {id}, if id in cancelled then phase.doomed + {id} else phase.doomed),
                     pending, waiting, cancelled, dropping)
  {
    var phase' := Sweeping(phase.unseen - {id}, if id in cancelled then phase.doomed + {id} else phase.doomed);
    forall x | x in pending && x in cancelled ensures Noticed(dropping, queue, phase', x) {
      assert Noticed(dropping, queue, phase, x);
    }
  }

  lemma SweptFits(
      queue: seq<Command>, phase: Phase, pending: set<Id>, waiting: set<Id>, cancelled: set<Id>, dropping: set<Id>)
    requires FlagsFit(queue, phase, pending, waiting, cancelled, dropping) && phase.Sweeping? && phase.unseen == {}
    ensures FlagsFit(queue, Waiting, pending - phase.doomed, waiting, cancelled, dropping)
  {
    forall x | x in pending - phase.doomed && x in cancelled ensures Noticed(dropping, queue, Waiting, x) {
      assert Noticed(dropping, queue, phase, x);
    }
  }

  /** While the session writes or winds up, nothing is waiting to be noticed. */
  lemma BusyFits(
      queue: seq<Command>, phase: Phase, pending: set<Id>, waiting: set<Id>, cancelled: set<Id>, dropping: set<Id>)
    requires dropping <= cancelled && waiting !! cancelled && !phase.Sweeping? && !phase.Waiting?
    requires phase.Sending? ==> phase.request.Request?
    ensures FlagsFit(queue, phase, pending, waiting, cancelled, dropping)
  {
  }

  lemma CallerKeepsCancel(s: Table, a: Action)
    requires CancelOk(s) && Enabled(s, a) && s.held !! s.cancelled
    requires a.Enqueue? || a.Abandon? || a.SendCancel? || a.Collect?
    ensures CancelOk(Step(s, a))
  {
    var s' := Step(s, a);
    match a
    case Abandon(id) => AbandoningFits(s.queue, s.phase, s.pending.Keys, s.waiting, s.cancelled, s.dropping, id);
    case SendCancel(id) => TryingFits(s.queue, s'.queue, s.phase, s.pending.Keys, s.waiting, s.cancelled, s.dropping, id);
    case Enqueue(_, _) =>
      WaitingFits(s.queue, s'.queue, s.phase, s.pending.Keys, s.waiting, s'.waiting, s.cancelled, s.dropping);
    case Collect(_) =>
      WaitingFits(s.queue, s.queue, s.phase, s.pending.Keys, s.waiting, s'.waiting, s.cancelled, s.dropping);
  }

  lemma SweepKeepsCancel(s: Table, a: Action)
    requires CancelOk(s) && Enabled(s, a) && (a.Scan? || a.FinishSweep?)
    ensures CancelOk(Step(s, a))
  {
    if a.Scan? {
      ScanningFits(s.queue, s.phase, s.pending.Keys, s.waiting, s.cancelled, s.dropping, a.id);
    } else {
      SweptFits(s.queue, s.phase, s.pending.Keys, s.waiting, s.cancelled, s.dropping);
      RemainingKeys(s.pending, s.phase.doomed);
    }
  }

  /** Taking a command or finishing a write ends at the top of the loop or in a phase
      that is busy. */
  lemma DequeueKeepsCancel(s: Table)
    requires CancelOk(s) && s.phase.Waiting? && s.queue != []
    ensures CancelOk(DequeueStep(s))
  {
    var s' := DequeueStep(s);
    assert s'.limit == s.limit && s'.queue == s.queue[1..] && s'.dropping == s.dropping && s'.cancelled == s.cancelled;
    assert s'.waiting == s.waiting;
    if s'.phase.Sweeping? {
      assert s' == Top(s');
      TopNoticesAll(s');
    } else {
      BusyFits(s'.queue, s'.phase, s'.pending.Keys, s'.waiting, s'.cancelled, s'.dropping);
    }
  }

  lemma FinishSendKeepsCancel(s: Table, outcome: SendOutcome)
    requires CancelOk(s) && s.phase.Sending?
    ensures CancelOk(FinishSendStep(s, outcome))
  {
    var s' := FinishSendStep(s, outcome);
    assert s'.limit == s.limit && s'.queue == s.queue && s'.dropping == s.dropping && s'.cancelled == s.cancelled;
    assert s'.waiting == s.waiting;
    if s'.phase.Sweeping? {
      assert s' == Top(s');
      TopNoticesAll(s');
    } else {
      BusyFits(s'.queue, s'.phase, s'.pending.Keys, s'.waiting, s'.cancelled, s'.dropping);
    }
  }

  lemma TrafficKeepsCancel(s: Table, a: Action)
    requires CancelOk(s) && Enabled(s, a) && (a.Response? || a.Expire? || a.OtherTraffic?)
    ensures CancelOk(Step(s, a))
  {
    var s' := Step(s, a);
    assert s' == Top(s');
    TopNoticesAll(s');
  }

  lemma WindingUpKeepsCancel(s: Table, a: Action)
    requires CancelOk(s) && Enabled(s, a) && (a.HandOver? || a.Stop? || a.SettlePending? || a.ForgetQueue?)
    ensures CancelOk(Step(s, a))
  {
    var s' := Step(s, a);
    BusyFits(s'.queue, s'.phase, s'.pending.Keys, s'.waiting, s'.cancelled, s'.dropping);
  }

  lemma StepKeepsCancel(s: Table, a: Action)
    requires CancelOk(s) && Enabled(s, a) && s.held !! s.cancelled
    ensures CancelOk(Step(s, a))
  {
    match a
    case Enqueue(_, _) | Abandon(_) | SendCancel(_) | Collect(_) => CallerKeepsCancel(s, a);
    case Acquire | GiveUp(_) | Tick(_) =>
    case Scan(_) | FinishSweep => SweepKeepsCancel(s, a);
    case Dequeue => DequeueKeepsCancel(s);
    case Response(_, _) | Expire | OtherTraffic => TrafficKeepsCancel(s, a);
    case FinishSend(outcome) => FinishSendKeepsCancel(s, outcome);
    case HandOver | Stop(_) | SettlePending | ForgetQueue => WindingUpKeepsCancel(s, a);
  }

  // ---- the wire and the replies ----

  predicate Distinct(ids: seq<Id>) {
    forall i, j :: 0 <= i < j < |ids| ==> ids[i] != ids[j]
  }

  /** The requests with deadlines are those that got as far as the queue. */
  ghost predicate IdsFit(deadlines: map<Id, nat>, nextId: Id, held: set<Id>, abandoned: set<Id>) {
    forall id: Id :: id in deadlines <==> id < nextId && id !in held && id !in abandoned
  }

  predicate CommandOk(deadlines: map<Id, nat>, cancelled: set<Id>, wire: seq<Id>, c: Command) {
    match c
    case Request(id, deadline) => id in deadlines && deadlines[id] == deadline && id !in wire
    case CancelRequest(id) => id in cancelled
  }

  ghost predicate QueueFits(queue: seq<Command>, deadlines: map<Id, nat>, cancelled: set<Id>, wire: seq<Id>) {
    forall c :: c in queue ==> CommandOk(deadlines, cancelled, wire, c)
  }

  ghost predicate PendingFits(pending: map<Id, nat>, deadlines: map<Id, nat>, wire: seq<Id>) {
    forall id :: id in pending ==> id in wire && id in deadlines && deadlines[id] == pending[id]
  }

  predicate HandFits(phase: Phase, deadlines: map<Id, nat>, wire: seq<Id>) {
    phase.Sending? ==>
      && phase.request.Request? && phase.request.id in deadlines
      && deadlines[phase.request.id] == phase.request.deadline
      && (phase.handed <==> phase.request.id in wire)
      && phase.until <= phase.request.deadline
      && (phase.deadlineWins <==> phase.until == phase.request.deadline)
  }

  ghost predicate SentFits(wire: seq<Id>, deadlines: map<Id, nat>) {
    Distinct(wire) && forall id :: id in wire ==> id in deadlines
  }

  ghost predicate RefusedFits(refused: set<Id>, settled: set<Id>, wire: seq<Id>) {
    refused <= settled && forall id :: id in refused ==> id !in wire
  }

  ghost predicate WireOk(s: Table) {
    && IdsFit(s.deadlines, s.nextId, s.held, s.abandoned) && s.waiting + s.cancelled <= s.deadlines.Keys
    && QueueFits(s.queue, s.deadlines, s.cancelled, s.wire) && PendingFits(s.pending, s.deadlines, s.wire)
    && HandFits(s.phase, s.deadlines, s.wire) && SentFits(s.wire, s.deadlines)
    && RefusedFits(s.refused, s.settled.Keys, s.wire)
  }

  /** What each kind of reply says about the request that got it. */
  predicate ReplyOk(s: Table, id: Id, reply: Reply) {
    match reply
    case Answered(_) => id in s.wire
    case TimedOut => id in s.deadlines && s.deadlines[id] <= s.now
    case Rejected => id !in s.wire
    case WriteFailed(cause) => s.phase == Closing(cause) || s.phase == Ended(cause)
    case SessionEnded(cause) => s.phase == Closing(cause) || s.phase == Ended(cause)
    case Dropped => id in s.cancelled || s.phase.Ended?
  }

  ghost predicate RepliesOk(s: Table) {
    forall id :: id in s.settled ==> ReplyOk(s, id, s.settled[id])
  }

  lemma {:induction false} QueuedCounts(queue: seq<Command>, c: Command)
    requires c in queue && c.Request?
    ensures Queued(queue)[c.id] >= 1
  {
    if queue[0] != c { QueuedCounts(queue[1..], c); }
  }

  ghost predicate TableOk(s: Table) {
    LedgerOk(s) && CancelOk(s) && WireOk(s) && RepliesOk(s)
  }

  lemma IssuingFits(deadlines: map<Id, nat>, nextId: Id, held: set<Id>, abandoned: set<Id>)
    requires IdsFit(deadlines, nextId, held, abandoned)
    ensures IdsFit(deadlines, nextId + 1, held + {nextId}, abandoned)
  {
  }

  lemma GivingUpFits(deadlines: map<Id, nat>, nextId: Id, held: set<Id>, abandoned: set<Id>, id: Id)
    requires IdsFit(deadlines, nextId, held, abandoned) && id in held
    ensures IdsFit(deadlines, nextId, held - {id}, abandoned + {id})
  {
  }

  lemma EnqueueingFits(deadlines: map<Id, nat>, nextId: Id, held: set<Id>, abandoned: set<Id>, id: Id, deadline: nat)
    requires IdsFit(deadlines, nextId, held, abandoned) && id in held && id < nextId && id !in abandoned
    ensures IdsFit(deadlines[id := deadline], nextId, held - {id}, abandoned)
  {
  }

  /** A new deadline for a request nobody has recorded disturbs nothing recorded. */
  lemma RecordingFits(s: Table, id: Id, deadline: nat)
    requires WireOk(s) && id !in s.deadlines
    ensures var deadlines := s.deadlines[id := deadline];
            && QueueFits(s.queue + [Request(id, deadline)], deadlines, s.cancelled, s.wire)
            && PendingFits(s.pending, deadlines, s.wire) && HandFits(s.phase, deadlines, s.wire)
            && SentFits(s.wire, deadlines)
  {
    var deadlines := s.deadlines[id := deadline];
    forall c | c in s.queue + [Request(id, deadline)] ensures CommandOk(deadlines, s.cancelled, s.wire, c) {
      if c in s.queue { assert CommandOk(s.deadlines, s.cancelled, s.wire, c); }
    }
  }

  /** A queue none of whose commands is new. */
  lemma ShorterQueueFits(
      queue: seq<Command>, queue': seq<Command>, deadlines: map<Id, nat>, cancelled: set<Id>, cancelled': set<Id>, wire: seq<Id>)
    requires QueueFits(queue, deadlines, cancelled, wire) && cancelled <= cancelled'
    requires forall c :: c in queue' ==> c in queue || (c.CancelRequest? && c.id in cancelled')
    ensures QueueFits(queue', deadlines, cancelled', wire)
  {
    forall c | c in queue' ensures CommandOk(deadlines, cancelled', wire, c) {
      if c in queue { assert CommandOk(deadlines, cancelled, wire, c); }
    }
  }

  lemma FewerPendingFit(pending: map<Id, nat>, ids: set<Id>, deadlines: map<Id, nat>, wire: seq<Id>)
    requires PendingFits(pending, deadlines, wire)
    ensures PendingFits(pending - ids, deadlines, wire)
  {
  }

  lemma NotYetSent(s: Table, id: Id)
    requires TableOk(s) && id in s.held
    ensures id !in s.deadlines && id < s.nextId && id !in s.wire && id !in s.abandoned && id !in s.cancelled
  {
    assert s.Places(id) == 1;
  }

  lemma CallerKeepsWire(s: Table, a: Action)
    requires TableOk(s) && Enabled(s, a) && (a.Acquire? || a.GiveUp? || a.Enqueue?)
    ensures WireOk(Step(s, a))
  {
    match a
    case Acquire => IssuingFits(s.deadlines, s.nextId, s.held, s.abandoned);
    case GiveUp(id) => GivingUpFits(s.deadlines, s.nextId, s.held, s.abandoned, id);
    case Enqueue(id, deadline) =>
      NotYetSent(s, id);
      EnqueueingFits(s.deadlines, s.nextId, s.held, s.abandoned, id, deadline);
      RecordingFits(s, id, deadline);
  }

  lemma WaiterKeepsWire(s: Table, a: Action)
    requires WireOk(s) && s.dropping <= s.cancelled && Enabled(s, a) && (a.Abandon? || a.SendCancel? || a.Collect?)
    ensures WireOk(Step(s, a))
  {
    var s' := Step(s, a);
    ShorterQueueFits(s.queue, s'.queue, s.deadlines, s.cancelled, s'.cancelled, s.wire);
  }

  lemma SettleAllKeepsWire(s: Table, ids: set<Id>, reply: Reply)
    requires WireOk(s)
    ensures WireOk(SettleAll(s, ids, reply))
  {
    FewerPendingFit(s.pending, ids, s.deadlines, s.wire);
    RepliedKeys(s.settled, ids, reply);
  }

  /** Requests of the session's own going; the phase is no longer, or not yet, a write. */
  lemma PhaseKeepsWire(s: Table, phase: Phase)
    requires WireOk(s) && !phase.Sending?
    ensures WireOk(s.(phase := phase))
  {
  }

  lemma SettlingKeepsWire(s: Table, a: Action)
    requires WireOk(s) && Enabled(s, a) && (a.FinishSweep? || a.Expire? || a.Response? || a.SettlePending?)
    ensures WireOk(Step(s, a))
  {
    match a
    case FinishSweep =>
      SettleAllKeepsWire(s, s.phase.doomed, Dropped);
      PhaseKeepsWire(SettleAll(s, s.phase.doomed, Dropped), Waiting);
    case Expire =>
      SettleAllKeepsWire(s, Expired(s), TimedOut);
      var mid := SettleAll(s, Expired(s), TimedOut);
      PhaseKeepsWire(mid, Sweeping(mid.pending.Keys, {}));
    case Response(id, body) =>
      SettleAllKeepsWire(s, {id}, Answered(body));
      var mid := if id in s.pending then SettleAll(s, {id}, Answered(body)) else s;
      PhaseKeepsWire(mid, Sweeping(mid.pending.Keys, {}));
    case SettlePending => SettleAllKeepsWire(s, s.pending.Keys, SessionEnded(s.phase.cause));
  }

  lemma ForgetQueueKeepsWire(s: Table)
    requires WireOk(s) && s.phase.Closing?
    ensures WireOk(ForgetQueueStep(s))
  {
    RepliedKeys(s.settled, (set id | id in Queued(s.queue)), Dropped);
  }

  /** The queue without its head. */
  lemma RestKeepsWire(s: Table)
    requires WireOk(s) && s.queue != []
    ensures WireOk(s.(queue := s.queue[1..])) && CommandOk(s.deadlines, s.cancelled, s.wire, s.queue[0])
  {
    ShorterQueueFits(s.queue, s.queue[1..], s.deadlines, s.cancelled, s.cancelled, s.wire);
  }

  lemma RefusingKeepsWire(s: Table, id: Id, reply: Reply)
    requires WireOk(s) && id !in s.wire
    ensures WireOk(Settle(s, id, reply).(refused := s.refused + {id}))
  {
    UpdatedKeys(s.settled, id, reply);
  }

  lemma DequeuedRequestKeepsWire(s: Table)
    requires WireOk(s) && s.phase.Waiting? && s.queue != [] && s.queue[0].Request?
    ensures WireOk(DequeueStep(s))
  {
    var rest, id := s.(queue := s.queue[1..]), s.queue[0].id;
    RestKeepsWire(s);
    RefusingKeepsWire(rest, id, Dropped);
    RefusingKeepsWire(rest, id, TimedOut);
  }

  lemma DequeuedCancelKeepsWire(s: Table)
    requires WireOk(s) && s.phase.Waiting? && s.queue != [] && s.queue[0].CancelRequest?
    ensures WireOk(DequeueStep(s))
  {
    var rest, id := s.(queue := s.queue[1..]), s.queue[0].id;
    RestKeepsWire(s);
    SettleAllKeepsWire(rest, {id}, Dropped);
    var mid := if id in s.pending then SettleAll(rest, {id}, Dropped) else rest;
    PhaseKeepsWire(mid, Sweeping(mid.pending.Keys, {}));
  }

  /** One more identifier on the wire, recorded but neither queued nor sent nor refused
      before. */
  lemma SendingFits(s: Table, id: Id)
    requires WireOk(s) && id in s.deadlines && id !in s.wire && id !in s.refused
    requires forall c :: c in s.queue && c.Request? ==> c.id != id
    ensures var wire := s.wire + [id];
            && QueueFits(s.queue, s.deadlines, s.cancelled, wire) && PendingFits(s.pending, s.deadlines, wire)
            && SentFits(wire, s.deadlines) && RefusedFits(s.refused, s.settled.Keys, wire)
  {
    forall c | c in s.queue ensures CommandOk(s.deadlines, s.cancelled, s.wire + [id], c) {
      assert CommandOk(s.deadlines, s.cancelled, s.wire, c);
    }
  }

  lemma HandOverKeepsWire(s: Table)
    requires TableOk(s) && Enabled(s, HandOver)
    ensures WireOk(Step(s, HandOver))
  {
    var id := s.phase.request.id;
    assert s.Places(id) == 1;
    forall c | c in s.queue && c.Request? ensures c.id != id { QueuedCounts(s.queue, c); }
    SendingFits(s, id);
  }

  lemma InsertingFits(pending: map<Id, nat>, id: Id, deadlines: map<Id, nat>, wire: seq<Id>)
    requires PendingFits(pending, deadlines, wire) && id in wire && id in deadlines
    ensures PendingFits(pending[id := deadlines[id]], deadlines, wire)
  {
  }

  lemma FinishSendKeepsWire(s: Table, outcome: SendOutcome)
    requires WireOk(s) && Enabled(s, FinishSend(outcome))
    ensures WireOk(FinishSendStep(s, outcome))
  {
    var id, s' := s.phase.request.id, FinishSendStep(s, outcome);
    if outcome.Sent? {
      InsertingFits(s.pending, id, s.deadlines, s.wire);
    } else {
      UpdatedKeys(s.settled, id, s'.settled[id]);
      assert s'.settled == s.settled[id := s'.settled[id]];
    }
  }

  lemma StepKeepsWire(s: Table, a: Action)
    requires TableOk(s) && Enabled(s, a)
    ensures WireOk(Step(s, a))
  {
    match a
    case Acquire | GiveUp(_) | Enqueue(_, _) => CallerKeepsWire(s, a);
    case Abandon(_) | SendCancel(_) | Collect(_) => WaiterKeepsWire(s, a);
    case Dequeue => if s.queue[0].Request? { DequeuedRequestKeepsWire(s); } else { DequeuedCancelKeepsWire(s); }
    case HandOver => HandOverKeepsWire(s);
    case FinishSend(outcome) => FinishSendKeepsWire(s, outcome);
    case FinishSweep | Expire | Response(_, _) | SettlePending => SettlingKeepsWire(s, a);
    case ForgetQueue => ForgetQueueKeepsWire(s);
    case Scan(_) | OtherTraffic | Stop(_) => PhaseKeepsWire(s, Step(s, a).phase);
    case Tick(_) =>
  }

  /** What a settled request is not. */
  lemma SettledIsElsewhere(s: Table, id: Id)
    requires LedgerOk(s) && id in s.settled
    ensures id !in s.pending && Queued(s.queue)[id] == 0 && id !in s.held && (s.phase.Sending? ==> s.phase.request.id != id)
  {
    assert s.Places(id) == 1;
  }

  lemma RepliedElsewhere(settled: map<Id, Reply>, ids: set<Id>, reply: Reply, id: Id)
    requires id in settled && id !in ids
    ensures id in Replied(settled, ids, reply) && Replied(settled, ids, reply)[id] == settled[id]
  {
  }

  lemma DequeueLeavesSettled(s: Table, id: Id)
    requires LedgerOk(s) && s.queue != [] && id in s.settled
    ensures id in DequeueStep(s).settled && DequeueStep(s).settled[id] == s.settled[id]
  {
    SettledIsElsewhere(s, id);
    if s.queue[0].CancelRequest? { RepliedElsewhere(s.settled, {s.queue[0].id} * s.pending.Keys, Dropped, id); }
  }

  lemma SettlingLeavesSettled(s: Table, a: Action, id: Id)
    requires LedgerOk(s) && Enabled(s, a) && id in s.settled && (s.phase.Sweeping? ==> s.phase.doomed <= s.pending.Keys)
    requires a.FinishSweep? || a.Expire? || a.Response? || a.SettlePending? || a.ForgetQueue?
    ensures id in Step(s, a).settled && Step(s, a).settled[id] == s.settled[id]
  {
    SettledIsElsewhere(s, id);
  }

  /** What has been settled stays as it is. */
  lemma SettledStays(s: Table, a: Action, id: Id)
    requires TableOk(s) && Enabled(s, a) && id in s.settled
    ensures id in Step(s, a).settled && Step(s, a).settled[id] == s.settled[id]
  {
    match a
    case Dequeue => DequeueLeavesSettled(s, id);
    case FinishSend(_) => SettledIsElsewhere(s, id);
    case FinishSweep | Expire | Response(_, _) | SettlePending | ForgetQueue => SettlingLeavesSettled(s, a, id);
    case _ =>
  }

  /** A verdict on a settled request carries over to a later state. */
  lemma ReplyCarries(s: Table, s': Table, id: Id, reply: Reply)
    requires ReplyOk(s, id, reply)
    requires id in s'.wire <==> id in s.wire
    requires id in s.deadlines ==> id in s'.deadlines && s'.deadlines[id] == s.deadlines[id]
    requires s.now <= s'.now && s.cancelled <= s'.cancelled
    requires s.phase.Closing? ==> s'.phase == s.phase || s'.phase == Ended(s.phase.cause)
    requires s.phase.Ended? ==> s'.phase == s.phase
    ensures ReplyOk(s', id, reply)
  {
  }

  lemma PhaseCarries(s: Table, a: Action)
    requires Enabled(s, a)
    ensures s.phase.Closing? ==> Step(s, a).phase == s.phase || Step(s, a).phase == Ended(s.phase.cause)
    ensures s.phase.Ended? ==> Step(s, a).phase == s.phase
    ensures s.now <= Step(s, a).now && s.cancelled <= Step(s, a).cancelled
  {
  }

  lemma WireCarries(s: Table, a: Action, id: Id)
    requires Enabled(s, a) && (s.phase.Sending? ==> s.phase.request.id != id) && id !in s.held
    ensures id in Step(s, a).wire <==> id in s.wire
    ensures id in s.deadlines ==> id in Step(s, a).deadlines && Step(s, a).deadlines[id] == s.deadlines[id]
  {
    if !a.HandOver? && !a.Enqueue? { WireUntouched(s, a); }
  }

  lemma WireUntouched(s: Table, a: Action)
    requires Enabled(s, a) && !a.HandOver? && !a.Enqueue?
    ensures Step(s, a).wire == s.wire && Step(s, a).deadlines == s.deadlines
  {
    match a
    case Dequeue => DequeueLeavesWire(s);
    case FinishSend(outcome) => FinishSendLeavesWire(s, outcome);
    case _ =>
  }

  lemma DequeueLeavesWire(s: Table)
    requires s.queue != []
    ensures DequeueStep(s).wire == s.wire && DequeueStep(s).deadlines == s.deadlines
  {
    var rest, id := s.(queue := s.queue[1..]), s.queue[0].id;
    if s.queue[0].CancelRequest? {
      assert DequeueStep(s) == Top(if id in s.pending then SettleAll(rest, {id}, Dropped) else rest);
    } else if id in s.cancelled {
      assert DequeueStep(s) == Top(Settle(rest, id, Dropped).(refused := s.refused + {id}));
    }
  }

  lemma FinishSendLeavesWire(s: Table, outcome: SendOutcome)
    requires s.phase.Sending?
    ensures FinishSendStep(s, outcome).wire == s.wire && FinishSendStep(s, outcome).deadlines == s.deadlines
  {
  }

  lemma ReplyStaysOk(s: Table, a: Action, id: Id)
    requires TableOk(s) && Enabled(s, a) && id in s.settled
    ensures ReplyOk(Step(s, a), id, s.settled[id])
  {
    assert s.Places(id) == 1;
    PhaseCarries(s, a);
    WireCarries(s, a, id);
    ReplyCarries(s, Step(s, a), id, s.settled[id]);
  }

  lemma DequeuedCancelReplies(s: Table, id: Id)
    requires Enabled(s, Dequeue) && s.queue[0].CancelRequest? && id !in s.settled && id in DequeueStep(s).settled
    ensures id == s.queue[0].id && DequeueStep(s).settled[id] == Dropped && DequeueStep(s).cancelled == s.cancelled
  {
    SettlesOne(s.(queue := s.queue[1..]), s.queue[0].id, Dropped);
  }

  lemma DequeuedRequestReplies(s: Table, id: Id)
    requires Enabled(s, Dequeue) && s.queue[0].Request? && id !in s.settled && id in DequeueStep(s).settled
    ensures id == s.queue[0].id && DequeueStep(s).settled[id] == if id in s.cancelled then Dropped else TimedOut
    ensures id !in s.cancelled ==> s.queue[0].deadline <= s.now
    ensures var s' := DequeueStep(s); s'.cancelled == s.cancelled && s'.now == s.now && s'.deadlines == s.deadlines
  {
  }

  lemma DequeueRepliesOk(s: Table, id: Id)
    requires WireOk(s) && Enabled(s, Dequeue) && id !in s.settled && id in DequeueStep(s).settled
    ensures ReplyOk(DequeueStep(s), id, DequeueStep(s).settled[id])
  {
    assert CommandOk(s.deadlines, s.cancelled, s.wire, s.queue[0]);
    if s.queue[0].Request? { DequeuedRequestReplies(s, id); } else { DequeuedCancelReplies(s, id); }
  }

  lemma FinishSendRepliesOk(s: Table, outcome: SendOutcome, id: Id)
    requires TableOk(s) && Enabled(s, FinishSend(outcome)) && id !in s.settled && id in FinishSendStep(s, outcome).settled
    ensures ReplyOk(FinishSendStep(s, outcome), id, FinishSendStep(s, outcome).settled[id])
  {
  }

  lemma StepKeepsReplies(s: Table, a: Action)
    requires TableOk(s) && Enabled(s, a)
    ensures RepliesOk(Step(s, a))
  {
    var s' := Step(s, a);
    forall id | id in s'.settled ensures ReplyOk(s', id, s'.settled[id]) {
      if id in s.settled {
        SettledStays(s, a, id);
        ReplyStaysOk(s, a, id);
      } else if a.Dequeue? {
        DequeueRepliesOk(s, id);
      } else if a.FinishSend? {
        FinishSendRepliesOk(s, a.outcome, id);
      }
    }
  }

  lemma StepKeepsTable(s: Table, a: Action)
    requires TableOk(s) && Enabled(s, a)
    ensures TableOk(Step(s, a))
  {
    StepKeepsLedger(s, a);
    forall id | id in s.held ensures id !in s.cancelled { NotYetSent(s, id); }
    StepKeepsCancel(s, a);
    StepKeepsWire(s, a);
    StepKeepsReplies(s, a);
  }

  // ---- runs ----

  predicate IsRun(s: Table, actions: seq<Action>)
    decreases |actions|
  {
    actions == [] || (Enabled(s, actions[0]) && IsRun(Step(s, actions[0]), actions[1..]))
  }

  function After(s: Table, actions: seq<Action>): Table
    requires IsRun(s, actions)
    decreases |actions|
  {
    if actions == [] then s else After(Step(s, actions[0]), actions[1..])
  }

  lemma FreshIsOk(limit: nat, writeTimeout: nat)
    ensures TableOk(Fresh(limit, writeTimeout))
  {
  }

  lemma {:induction false} RunsKeepTable(s: Table, actions: seq<Action>)
    requires TableOk(s) && IsRun(s, actions)
    ensures TableOk(After(s, actions))
    decreases |actions|
  {
    if actions != [] {
      StepKeepsTable(s, actions[0]);
      RunsKeepTable(Step(s, actions[0]), actions[1..]);
    }
  }

  /** Over every run, permits are conserved, the queue stays within its bound, and
      every identifier ever issued is in exactly one place: with a caller, in the
      queue, in hand, on the wire, settled, or given up before it was queued. */
  lemma EveryRunConserves(limit: nat, writeTimeout: nat, actions: seq<Action>, id: Id)
    requires IsRun(Fresh(limit, writeTimeout), actions)
    ensures var s := After(Fresh(limit, writeTimeout), actions);
            && s.available + |s.held| + |Queued(s.queue)| + (if s.phase.Sending? then 1 else 0) + |s.pending|
               == Max(limit, 1)
            && |s.queue| <= Max(limit, 1)
            && s.Places(id) == (if id < s.nextId then 1 else 0)
            && Distinct(s.wire)
  {
    FreshIsOk(limit, writeTimeout);
    RunsKeepTable(Fresh(limit, writeTimeout), actions);
    LimitsAreFixed(Fresh(limit, writeTimeout), actions);
  }

  lemma {:induction false} LimitsAreFixed(s: Table, actions: seq<Action>)
    requires IsRun(s, actions)
    ensures After(s, actions).limit == s.limit
    decreases |actions|
  {
    if actions != [] { LimitsAreFixed(Step(s, actions[0]), actions[1..]); }
  }

  /** Once a request has its reply, nothing that happens later changes it. */
  lemma {:induction false} SettledOnce(s: Table, actions: seq<Action>, id: Id)
    requires TableOk(s) && IsRun(s, actions) && id in s.settled
    ensures id in After(s, actions).settled && After(s, actions).settled[id] == s.settled[id]
    decreases |actions|
  {
    if actions != [] {
      SettledStays(s, actions[0], id);
      StepKeepsTable(s, actions[0]);
      SettledOnce(Step(s, actions[0]), actions[1..], id);
    }
  }

  /** A response settles the request with its identifier if that one is on the wire,
      and no other. */
  lemma ResponsesSettleTheirOwn(s: Table, id: Id, body: Bytes)
    requires TableOk(s) && Enabled(s, Response(id, body))
    ensures var s' := Step(s, Response(id, body));
            && s'.settled == (if id in s.pending then s.settled[id := Answered(body)] else s.settled)
            && s'.pending == s.pending - {id}
            && (id in s.pending ==> id !in s.settled && id in s.wire)
  {
    assert s.Places(id) <= 1;
    if id in s.pending {
      SettlesOne(s, id, Answered(body));
      assert Step(s, Response(id, body)).settled == SettleAll(s, {id}, Answered(body)).settled;
    }
  }

  lemma SettlesOne(s: Table, id: Id, reply: Reply)
    ensures SettleAll(s, {id}, reply).settled == s.settled[id := reply]
    ensures SettleAll(s, {id}, reply).pending == s.pending - {id}
  {
    RepliedToOneMore(s.settled, {}, id, reply);
  }

  /** No other step hands out an answer. */
  lemma AnswersAreResponses(s: Table, a: Action, id: Id)
    requires Enabled(s, a) && id !in s.settled
    ensures id in Step(s, a).settled && Step(s, a).settled[id].Answered? ==>
      a == Response(id, Step(s, a).settled[id].body) && id in s.pending
  {
    match a
    case Response(other, body) => if other in s.pending { SettlesOne(s, other, Answered(body)); }
    case Dequeue =>
      if s.queue[0].CancelRequest? && s.queue[0].id in s.pending {
        SettlesOne(s.(queue := s.queue[1..]), s.queue[0].id, Dropped);
      }
    case FinishSend(_) =>
    case _ =>
  }

  /** The timer takes exactly what is due: every expired request, and no other, leaves
      with a timeout. */
  lemma ExpireTakesExactlyTheDue(s: Table, id: Id)
    requires TableOk(s) && Enabled(s, Expire) && id in s.pending
    ensures var s' := Step(s, Expire);
            && (id in s'.pending <==> s.now < s.pending[id])
            && (id in s'.pending ==> s'.pending[id] == s.pending[id] && id !in s'.settled)
            && (id !in s'.pending ==> id !in s.settled && id in s'.settled && s'.settled[id] == TimedOut)
  {
    assert s.Places(id) == 1;
  }

  /** Putting a written request in the table never overwrites another. */
  lemma InsertNeverOverwrites(s: Table)
    requires TableOk(s) && Enabled(s, FinishSend(Sent))
    ensures s.phase.request.id !in s.pending && s.phase.request.id !in s.settled
    ensures Step(s, FinishSend(Sent)).pending == s.pending[s.phase.request.id := s.phase.request.deadline]
  {
    assert s.Places(s.phase.request.id) == 1;
  }

  /** When the session is over, nobody is left waiting: everything that was ever
      queued has its reply and every permit is back or with a caller that has not
      queued anything. */
  lemma EverythingSettlesAtTheEnd(limit: nat, writeTimeout: nat, actions: seq<Action>)
    requires IsRun(Fresh(limit, writeTimeout), actions)
    requires After(Fresh(limit, writeTimeout), actions).phase.Ended?
    ensures var s := After(Fresh(limit, writeTimeout), actions);
            && s.available + |s.held| == Max(limit, 1)
            && s.deadlines.Keys == s.settled.Keys && s.waiting <= s.settled.Keys
            && forall id :: id in s.settled && s.settled[id].SessionEnded? ==> s.settled[id].cause == s.phase.cause
  {
    var s := After(Fresh(limit, writeTimeout), actions);
    FreshIsOk(limit, writeTimeout);
    RunsKeepTable(Fresh(limit, writeTimeout), actions);
    LimitsAreFixed(Fresh(limit, writeTimeout), actions);
    EndedIsEmpty(Fresh(limit, writeTimeout), actions);
    forall id: Id ensures id in s.deadlines <==> id in s.settled {
      assert s.Places(id) == if id < s.nextId then 1 else 0;
    }
    forall id | id in s.settled ensures ReplyOk(s, id, s.settled[id]) { }
  }

  lemma {:induction false} EndedIsEmpty(s: Table, actions: seq<Action>)
    requires IsRun(s, actions) && (s.phase.Ended? ==> s.queue == [] && s.pending == map[])
    ensures After(s, actions).phase.Ended? ==> After(s, actions).queue == [] && After(s, actions).pending == map[]
    decreases |actions|
  {
    if actions != [] { EndedIsEmpty(Step(s, actions[0]), actions[1..]); }
  }

  /** No cancellation is lost, even one whose command found the queue full: while the
      session waits with nothing queued and nobody between raising a flag and trying
      the queue, no request on the wire has its flag set. */
  lemma CancellationIsNeverLost(limit: nat, writeTimeout: nat, actions: seq<Action>)
    requires IsRun(Fresh(limit, writeTimeout), actions)
    requires var s := After(Fresh(limit, writeTimeout), actions);
             s.phase.Waiting? && s.queue == [] && s.dropping == {}
    ensures var s := After(Fresh(limit, writeTimeout), actions);
            s.pending.Keys !! s.cancelled
  {
    var s := After(Fresh(limit, writeTimeout), actions);
    FreshIsOk(limit, writeTimeout);
    RunsKeepTable(Fresh(limit, writeTimeout), actions);
    forall id | id in s.pending.Keys ensures id !in s.cancelled {
      assert id in s.cancelled ==> WillBeNoticed(s, id);
    }
  }

  /** A request taken from the queue goes to the socket exactly when its caller still
      wants it and its deadline lies ahead; otherwise it is settled at once. */
  lemma DequeueSendsExactlyWhen(s: Table)
    requires TableOk(s) && Enabled(s, Dequeue) && s.queue[0].Request?
    ensures var id := s.queue[0].id;
            var s' := Step(s, Dequeue);
            && (s'.phase.Sending? <==> id !in s.cancelled && s.now < s.queue[0].deadline)
            && (s'.phase.Sending? ==>
                  && s'.phase.request == s.queue[0] && s'.settled == s.settled && !s'.phase.handed
                  && s'.phase.until == Min(s.queue[0].deadline, s.now + s.writeTimeout))
            && (!s'.phase.Sending? ==>
                  && id in s'.refused && id in s'.settled
                  && s'.settled[id] == if id in s.cancelled then Dropped else TimedOut)
  {
  }

  lemma {:induction false} RefusedStays(s: Table, actions: seq<Action>, id: Id)
    requires IsRun(s, actions) && id in s.refused
    ensures id in After(s, actions).refused
    decreases |actions|
  {
    if actions != [] { RefusedStays(Step(s, actions[0]), actions[1..], id); }
  }

  /** What was cancelled or had expired by then never reaches the wire, whatever
      happens afterwards. */
  lemma RefusedNeverReachesTheWire(s: Table, rest: seq<Action>)
    requires TableOk(s) && Enabled(s, Dequeue) && s.queue[0].Request?
    requires s.queue[0].id in s.cancelled || s.queue[0].deadline <= s.now
    requires IsRun(Step(s, Dequeue), rest)
    ensures s.queue[0].id !in After(Step(s, Dequeue), rest).wire
  {
    StepKeepsTable(s, Dequeue);
    RefusedStays(Step(s, Dequeue), rest, s.queue[0].id);
    RunsKeepTable(Step(s, Dequeue), rest);
  }

  /** What a caller hears of a write: nothing yet if it went out; a timeout of its own if
      its deadline is what ran out, else of the write; its guard's refusal, and then
      nothing has gone out; or why the socket failed. */
  lemma WriteOutcomeIsReported(s: Table, outcome: SendOutcome)
    requires TableOk(s) && Enabled(s, FinishSend(outcome))
    ensures var id, s' := s.phase.request.id, Step(s, FinishSend(outcome));
            match outcome
            case Sent => id in s'.wire && id in s'.pending && id !in s'.settled
            case TimeoutWriting(operation) =>
              && s.phase.until <= s.now && id in s'.settled
              && s'.settled[id] == if s.deadlines[id] == s.phase.until then TimedOut else WriteFailed(WriteTimeout(operation))
            case GuardRejected => id !in s'.wire && id in s'.settled && s'.settled[id] == Rejected
            case SocketFailed(detail) => id in s'.settled && s'.settled[id] == WriteFailed(TransportFailed(detail))
  {
    assert s.Places(s.phase.request.id) == 1;
  }

  // ---- when a session ends, and when a request leaves the wire ----

  /** What ends a session, and with what cause. */
  function ClosingCause(a: Action): Option<CloseCause> {
    match a
    case Stop(cause) => Some(cause)
    case FinishSend(TimeoutWriting(operation)) => Some(WriteTimeout(operation))
    case FinishSend(SocketFailed(detail)) => Some(TransportFailed(detail))
    case _ => None
  }

  predicate IsClosing(a: Action) {
    ClosingCause(a).Some?
  }

  predicate WindingUp(s: Table) {
    s.phase.Closing? || s.phase.Ended?
  }

  /** A session starts to wind up exactly on a stop, a write that timed out or a socket
      that failed, with that action's cause, and then only ever comes to its end. */
  lemma ClosesExactlyWhen(s: Table, a: Action)
    requires Enabled(s, a)
    ensures WindingUp(Step(s, a)) <==> WindingUp(s) || IsClosing(a)
    ensures IsClosing(a) ==> !WindingUp(s) && Step(s, a).phase == Closing(ClosingCause(a).value)
    ensures WindingUp(s) ==> Step(s, a).phase == if a.ForgetQueue? then Ended(s.phase.cause) else s.phase
  {
    match a
    case Dequeue => DequeueStaysOpen(s);
    case FinishSend(outcome) => FinishSendClosesExactlyWhen(s, outcome);
    case _ =>
  }

  lemma FinishSendClosesExactlyWhen(s: Table, outcome: SendOutcome)
    requires s.phase.Sending?
    ensures var s' := FinishSendStep(s, outcome);
            if IsClosing(FinishSend(outcome)) then s'.phase == Closing(ClosingCause(FinishSend(outcome)).value)
            else s'.phase == Sweeping(s'.pending.Keys, {})
  {
  }

  lemma DequeueStaysOpen(s: Table)
    requires s.queue != []
    ensures DequeueStep(s).phase.Sending? || DequeueStep(s).phase == Sweeping(DequeueStep(s).pending.Keys, {})
  {
  }

  /** Whatever arrives while the session waits, be it a response, other traffic, a due
      deadline or a command that is not written, it goes on to look through everything
      then pending; and so it does after a write that ended well or was refused. */
  lemma GoesRoundTheLoop(s: Table, a: Action)
    requires Enabled(s, a) && !IsClosing(a) && !Step(s, a).phase.Sending?
    requires a.Response? || a.OtherTraffic? || a.Expire? || a.Dequeue? || a.FinishSend?
    ensures Step(s, a).phase == Sweeping(Step(s, a).pending.Keys, {})
  {
    if a.Dequeue? { DequeueStaysOpen(s); }
  }

  /** Over every run, the session is winding up or over exactly if one of its actions
      was a closing one; there is at most one, and its cause is the session's. */
  lemma EndsExactlyWhen(limit: nat, writeTimeout: nat, actions: seq<Action>)
    requires IsRun(Fresh(limit, writeTimeout), actions)
    ensures var s := After(Fresh(limit, writeTimeout), actions);
            && (WindingUp(s) <==> exists k :: 0 <= k < |actions| && IsClosing(actions[k]))
            && forall k :: 0 <= k < |actions| && IsClosing(actions[k]) ==>
                 WindingUp(s) && s.phase.cause == ClosingCause(actions[k]).value
  {
    WindsUpWith(Fresh(limit, writeTimeout), actions);
  }

  lemma {:induction false} WindsUpWith(s: Table, actions: seq<Action>)
    requires IsRun(s, actions)
    ensures var end := After(s, actions);
            && (WindingUp(end) <==> WindingUp(s) || exists k :: 0 <= k < |actions| && IsClosing(actions[k]))
            && (WindingUp(s) ==> end.phase.cause == s.phase.cause)
            && forall k :: 0 <= k < |actions| && IsClosing(actions[k]) ==>
                 !WindingUp(s) && WindingUp(end) && end.phase.cause == ClosingCause(actions[k]).value
    decreases |actions|
  {
    if actions != [] {
      ClosesExactlyWhen(s, actions[0]);
      WindsUpWith(Step(s, actions[0]), actions[1..]);
      assert forall k :: 0 < k < |actions| ==> actions[k] == actions[1..][k - 1];
    }
  }

  /** The one reason for which a pending request can be taken off the wire by this action. */
  predicate TakesOffTheWire(s: Table, a: Action, id: Id)
    requires id in s.pending && Enabled(s, a)
  {
    match a
    case Response(of, _) => of == id
    case Expire => s.pending[id] <= s.now
    case Dequeue => s.queue[0] == CancelRequest(id)
    case FinishSweep => id in s.phase.doomed
    case SettlePending => true
    case _ => false
  }

  /** A request on the wire stays pending, deadline and all, through every action but its
      own response, its deadline, its cancellation and the end of the session. */
  lemma LeavesTheWireExactlyWhen(s: Table, a: Action, id: Id)
    requires TableOk(s) && Enabled(s, a) && id in s.pending
    ensures id in Step(s, a).pending <==> !TakesOffTheWire(s, a, id)
    ensures id in Step(s, a).pending ==> Step(s, a).pending[id] == s.pending[id] && id !in Step(s, a).settled
    ensures id !in Step(s, a).pending ==> id in Step(s, a).settled && Step(s, a).settled[id] == LeavingReply(s, a)
  {
    PendingIsNowhereElse(s, id);
    if id in Step(s, a).pending { StillUnsettled(s, a, id); }
    match a
    case Dequeue => DequeueLeavesTheWire(s, id);
    case FinishSend(outcome) => FinishSendLeavesPending(s, outcome, id);
    case Expire | Response(_, _) | FinishSweep | SettlePending => SettlingTakesOffTheWire(s, a, id);
    case _ =>
  }

  lemma PendingIsNowhereElse(s: Table, id: Id)
    requires LedgerOk(s) && id in s.pending
    ensures id !in s.settled && (s.phase.Sending? ==> s.phase.request.id != id)
  {
    assert s.Places(id) == 1;
  }

  lemma StillUnsettled(s: Table, a: Action, id: Id)
    requires TableOk(s) && Enabled(s, a) && id in Step(s, a).pending
    ensures id !in Step(s, a).settled
  {
    StepKeepsTable(s, a);
    PendingIsNowhereElse(Step(s, a), id);
  }

  lemma SettlingTakesOffTheWire(s: Table, a: Action, id: Id)
    requires Enabled(s, a) && id in s.pending && (a.Expire? || a.Response? || a.FinishSweep? || a.SettlePending?)
    ensures id in Step(s, a).pending <==> !TakesOffTheWire(s, a, id)
    ensures id in Step(s, a).pending ==> Step(s, a).pending[id] == s.pending[id]
    ensures id !in Step(s, a).pending ==> id in Step(s, a).settled && Step(s, a).settled[id] == LeavingReply(s, a)
  {
    if a.Response? && a.id in s.pending { SettlesOne(s, a.id, Answered(a.body)); }
  }

  lemma FinishSendLeavesPending(s: Table, outcome: SendOutcome, id: Id)
    requires s.phase.Sending? && id in s.pending && s.phase.request.id != id
    ensures id in FinishSendStep(s, outcome).pending && FinishSendStep(s, outcome).pending[id] == s.pending[id]
  {
  }

  lemma DequeueLeavesTheWire(s: Table, id: Id)
    requires s.queue != [] && id in s.pending
    ensures id in DequeueStep(s).pending <==> s.queue[0] != CancelRequest(id)
    ensures id in DequeueStep(s).pending ==> DequeueStep(s).pending[id] == s.pending[id]
    ensures s.queue[0] == CancelRequest(id) ==> id in DequeueStep(s).settled && DequeueStep(s).settled[id] == Dropped
  {
    var rest := s.(queue := s.queue[1..]);
    if s.queue[0].CancelRequest? && s.queue[0].id in s.pending { SettlesOne(rest, s.queue[0].id, Dropped); }
  }

  /** What a request that leaves the wire on this action is told. */
  function LeavingReply(s: Table, a: Action): Reply
    requires Enabled(s, a)
  {
    match a
    case Response(_, body) => Answered(body)
    case Expire => TimedOut
    case SettlePending => SessionEnded(s.phase.cause)
    case _ => Dropped
  }

  /** Time and flags only move forward. */
  lemma {:induction false} RunsMoveForward(s: Table, actions: seq<Action>)
    requires IsRun(s, actions)
    ensures s.now <= After(s, actions).now && s.cancelled <= After(s, actions).cancelled
    decreases |actions|
  {
    if actions != [] {
      PhaseCarries(s, actions[0]);
      RunsMoveForward(Step(s, actions[0]), actions[1..]);
    }
  }

  /** In a session that nothing ends, a request on the wire is still pending after any
      further run, or it was answered by a response with its own identifier, timed out
      because its deadline had come, or let go because its caller had cancelled it. */
  lemma {:induction false} PendingUntilItsOwnEnd(s: Table, actions: seq<Action>, id: Id)
    requires TableOk(s) && !WindingUp(s) && IsRun(s, actions) && id in s.pending
    requires forall k :: 0 <= k < |actions| ==> !IsClosing(actions[k])
    ensures var end := After(s, actions);
            if id in end.pending then end.pending[id] == s.pending[id] && id !in end.settled
            else
              && id in end.settled
              && match end.settled[id]
                 case Answered(body) => Response(id, body) in actions
                 case TimedOut => s.pending[id] <= end.now
                 case Dropped => id in end.cancelled
                 case _ => false
    decreases |actions|
  {
    assert s.Places(id) == 1;
    if actions != [] {
      var a, s', rest := actions[0], Step(s, actions[0]), actions[1..];
      StepKeepsTable(s, a);
      ClosesExactlyWhen(s, a);
      LeavesTheWireExactlyWhen(s, a, id);
      assert forall k :: 0 <= k < |rest| ==> rest[k] == actions[k + 1];
      if id in s'.pending {
        PendingUntilItsOwnEnd(s', rest, id);
      } else {
        SettledOnce(s', rest, id);
        RunsMoveForward(s', rest);
        RunsKeepTable(s', rest);
        SettledIsElsewhere(After(s', rest), id);
        assert ReplyOk(s', id, s'.settled[id]);
      }
    }
  }

  /** A closing session fails what is pending with its cause, and lets go unanswered of
      what is still queued. */
  lemma {:induction false} ClosingSettlesWhatIsLeft(s: Table, actions: seq<Action>, id: Id)
    requires TableOk(s) && s.phase.Closing? && IsRun(s, actions) && After(s, actions).phase.Ended?
    ensures var end := After(s, actions);
            && (id in s.pending ==> id in end.settled && end.settled[id] == SessionEnded(s.phase.cause))
            && (Queued(s.queue)[id] > 0 ==> id in end.settled && end.settled[id] == Dropped)
    decreases |actions|
  {
    var a, s', rest := actions[0], Step(s, actions[0]), actions[1..];
    StepKeepsTable(s, a);
    ClosesExactlyWhen(s, a);
    if id in s.pending { LeavesTheWireExactlyWhen(s, a, id); }
    if id in s'.settled { SettledOnce(s', rest, id); }
    if Queued(s.queue)[id] > 0 { QueueEmptiesAtTheEnd(s, a, id); }
    if s'.phase.Closing? { ClosingSettlesWhatIsLeft(s', rest, id); }
  }

  lemma QueueEmptiesAtTheEnd(s: Table, a: Action, id: Id)
    requires s.phase.Closing? && Enabled(s, a) && Queued(s.queue)[id] > 0
    ensures if a.ForgetQueue? then id in Step(s, a).settled && Step(s, a).settled[id] == Dropped
            else Queued(Step(s, a).queue)[id] > 0
  {
    match a
    case Enqueue(other, deadline) => QueuedAppends(s.queue, Request(other, deadline));
    case SendCancel(other) => QueuedAppends(s.queue, CancelRequest(other));
    case _ =>
  }
}

/** The session task's loop over its request table, one method per piece of the loop,
    each tied to the steps of the session's state machine. */
module GatewaySessionTask {
  import opened Wrappers
  import opened ByteStrings
  import opened GatewaySession

  lemma {:induction false} RunAppends(s: Table, actions: seq<Action>, last: Action)
    requires IsRun(s, actions) && Enabled(After(s, actions), last)
    ensures IsRun(s, actions + [last]) && After(s, actions + [last]) == Step(After(s, actions), last)
    decreases |actions|
  {
    if actions == [] {
      assert IsRun(Step(s, last), []);
      assert actions + [last] == [last] && [last][1..] == [];
    } else {
      var all := actions + [last];
      assert all[0] == actions[0] && all[1..] == actions[1..] + [last];
      RunAppends(Step(s, actions[0]), actions[1..], last);
    }
  }

  /** The part of the table a settling loop changes. */
  datatype Rows = Rows(pending: map<Id, nat>, replies: map<Id, Reply>, available: nat)

  /** All of `ids` but those left have been settled. */
  ghost predicate Settling(was: Rows, ids: set<Id>, left: set<Id>, reply: Reply, rows: Rows) {
    && left <= ids && ids - left <= was.pending.Keys
    && rows.pending == was.pending - (ids - left)
    && rows.replies == Replied(was.replies, ids - left, reply)
    && rows.available + |left| == was.available + |ids|
  }

  lemma NoneSettled(was: Rows, ids: set<Id>, reply: Reply)
    ensures Settling(was, ids, ids, reply, was)
  {
    assert ids - ids == {};
    assert was.pending - {} == was.pending;
    RepliedToOneMore(was.replies, {}, 0, reply);
  }

  lemma WithoutOneMore(pending: map<Id, nat>, done: set<Id>, id: Id)
    ensures pending - done - {id} == pending - (done + {id})
  {
  }

  lemma SettleOneMore(was: Rows, ids: set<Id>, left: set<Id>, reply: Reply, rows: Rows, id: Id)
    requires Settling(was, ids, left, reply, rows) && id in left && ids <= was.pending.Keys
    ensures Settling(was, ids, left - {id}, reply, Rows(rows.pending - {id}, rows.replies[id := reply], rows.available + 1))
  {
    assert ids - (left - {id}) == (ids - left) + {id};
    assert |left| == |left - {id}| + 1;
    WithoutOneMore(was.pending, ids - left, id);
    RepliedToOneMore(was.replies, ids - left, id, reply);
  }

  lemma AllSettled(was: Rows, ids: set<Id>, reply: Reply, rows: Rows)
    requires Settling(was, ids, {}, reply, rows)
    ensures rows == Rows(was.pending - ids, Replied(was.replies, ids, reply), was.available + |ids|)
  {
    assert ids - {} == ids;
  }

  lemma WithoutFlagged(pending: map<Id, nat>, flags: set<Id>)
    ensures pending - pending.Keys * flags == pending - flags
  {
  }

  /** The queue is dropped down to `commands`, and nothing else has changed hands. */
  ghost predicate PartlyForgotten(before: map<Id, Reply>, had: multiset<Id>, commands: seq<Command>, replies: map<Id, Reply>) {
    && Queued(commands) <= had && before.Keys <= replies.Keys
    && (forall id :: id in replies ==> id in before || id in had)
    && (forall id :: id in had && id !in Queued(commands) ==> id in replies && replies[id] == Dropped)
    && (forall id :: id in before && id !in had ==> replies[id] == before[id])
  }

  lemma ForgetOne(before: map<Id, Reply>, had: multiset<Id>, commands: seq<Command>, replies: map<Id, Reply>)
    requires commands != [] && PartlyForgotten(before, had, commands, replies)
    ensures var next := commands[0];
            && PartlyForgotten(before, had, commands[1..], if next.Request? then replies[next.id := Dropped] else replies)
            && |Queued(commands)| == |Queued(commands[1..])| + if next.Request? then 1 else 0
  {
  }

  lemma ForgottenAll(before: map<Id, Reply>, had: multiset<Id>, replies: map<Id, Reply>)
    requires PartlyForgotten(before, had, [], replies)
    ensures replies == Replied(before, (set id | id in had), Dropped)
  {
  }

  class SessionTask {
    const limit: nat
    const writeTimeout: nat
    var available: nat
    var commands: seq<Command>
    var pending: map<Id, nat>
    var replies: map<Id, Reply>
    ghost var phase: Phase
    ghost var refused: set<Id>
    /** The callers' side: who holds permits, which flags are set, what time it is. */
    var flags: set<Id>
    var clock: nat
    ghost var callers: Table

    ghost function View(): Table
      reads this
    {
      callers.(limit := limit, writeTimeout := writeTimeout, now := clock, available := available, queue := commands,
               phase := phase, pending := pending, cancelled := flags, refused := refused, settled := replies)
    }

    /** Removes these requests from the table one by one, replying to each. */
    method SettleEach(ids: set<Id>, reply: Reply)
      requires ids <= pending.Keys
      modifies this`available, this`pending, this`replies
      ensures pending == old(pending) - ids && available == old(available) + |ids|
      ensures replies == Replied(old(replies), ids, reply)
    {
      ghost var was := Rows(pending, replies, available);
      var left := ids;
      NoneSettled(was, ids, reply);
      while left != {}
        invariant Settling(was, ids, left, reply, Rows(pending, replies, available))
        decreases left
      {
        var id :| id in left;
        SettleOneMore(was, ids, left, reply, Rows(pending, replies, available), id);
        pending := pending - {id};
        replies := replies[id := reply];
        available := available + 1;
        left := left - {id};
      }
      AllSettled(was, ids, reply, Rows(pending, replies, available));
    }

    /** The same as one step of the table. */
    method ReplyToAll(ids: set<Id>, reply: Reply)
      requires ids <= pending.Keys
      modifies this`available, this`pending, this`replies
      ensures View() == SettleAll(old(View()), ids, reply)
      ensures pending == old(pending) - ids
    {
      SettleEach(ids, reply);
    }

    /** Every request whose flag is up by the time it is looked at. */
    method CollectFlagged() returns (doomed: set<Id>, ghost steps: seq<Action>)
      requires phase == Sweeping(pending.Keys, {})
      modifies this`phase
      ensures IsRun(old(View()), steps) && After(old(View()), steps) == View()
      ensures phase == Sweeping({}, doomed) && doomed == pending.Keys * flags
    {
      steps := [];
      var unseen := pending.Keys;
      doomed := {};
      ghost var start := View();
      while unseen != {}
        invariant phase == Sweeping(unseen, doomed) && unseen <= pending.Keys
        invariant doomed == (pending.Keys - unseen) * flags
        invariant IsRun(start, steps) && After(start, steps) == View() == start.(phase := phase)
        decreases unseen
      {
        var id :| id in unseen;
        RunAppends(start, steps, Scan(id));
        steps := steps + [Scan(id)];
        if id in flags { doomed := doomed + {id}; }
        unseen := unseen - {id};
        phase := Sweeping(unseen, doomed);
      }
    }

    /** The top of the loop: the flagged requests are let go. */
    method Sweep() returns (ghost steps: seq<Action>)
      requires phase == Sweeping(pending.Keys, {})
      modifies this`available, this`pending, this`replies, this`phase
      ensures IsRun(old(View()), steps) && After(old(View()), steps) == View()
      ensures phase == Waiting && pending == old(pending) - flags
    {
      var doomed;
      doomed, steps := CollectFlagged();
      RunAppends(old(View()), steps, FinishSweep);
      steps := steps + [FinishSweep];
      ReplyToAll(doomed, Dropped);
      phase := Waiting;
      WithoutFlagged(old(pending), flags);
    }

    /** The earliest deadline on the wire: what the timer is set to. */
    method NextDeadline() returns (next: Option<nat>)
      ensures next.None? <==> pending == map[]
      ensures next.Some? ==> (exists id :: id in pending && pending[id] == next.value)
      ensures next.Some? ==> forall id :: id in pending ==> next.value <= pending[id]
      ensures forall now :: (Expired(View().(now := now)) != {}) <==> (next.Some? && next.value <= now)
    {
      next := None;
      var left := pending.Keys;
      while left != {}
        invariant left <= pending.Keys
        invariant next.None? <==> left == pending.Keys
        invariant next.Some? ==> (exists id :: id in pending && pending[id] == next.value)
        invariant next.Some? ==> forall id :: id in pending && id !in left ==> next.value <= pending[id]
        decreases left
      {
        var id :| id in left;
        left := left - {id};
        next := Some(match next case None => pending[id] case Some(best) => Min(best, pending[id]));
      }
      forall now ensures (Expired(View().(now := now)) != {}) <==> (next.Some? && next.value <= now) {
        if next.Some? && next.value <= now {
          var id :| id in pending && pending[id] == next.value;
          assert id in Expired(View().(now := now));
        }
      }
    }

    /** The timer's arm. */
    method ExpireDue()
      requires phase == Waiting
      modifies this`available, this`pending, this`replies, this`phase
      ensures View() == Top(SettleAll(old(View()), Expired(old(View())), TimedOut))
    {
      var expired := set id | id in pending && pending[id] <= clock;
      assert expired == Expired(View());
      ReplyToAll(expired, TimedOut);
      phase := Sweeping(pending.Keys, {});
    }

    /** The command arm, up to the point where a request is about to be written. */
    method TakeCommand() returns (toSend: Option<Command>)
      requires phase == Waiting && commands != []
      modifies this
      ensures View() == DequeueStep(old(View())) && callers == old(callers)
      ensures toSend == if phase.Sending? then Some(phase.request) else None
    {
      match commands[0] {
        case CancelRequest(id) =>
          TakeCancel(id);
          toSend := None;
        case Request(id, deadline) => toSend := TakeRequest(id, deadline);
      }
    }

    method TakeCancel(id: Id)
      requires phase == Waiting && commands != [] && commands[0] == CancelRequest(id)
      modifies this`available, this`pending, this`replies, this`phase, this`commands
      ensures View() == DequeueStep(old(View())) && phase.Sweeping?
    {
      commands := commands[1..];
      if id in pending { ReplyToAll({id}, Dropped); }
      phase := Sweeping(pending.Keys, {});
    }

    method TakeRequest(id: Id, deadline: nat) returns (toSend: Option<Command>)
      requires phase == Waiting && commands != [] && commands[0] == Request(id, deadline)
      modifies this`available, this`replies, this`phase, this`commands, this`refused
      ensures View() == DequeueStep(old(View()))
      ensures toSend == if phase.Sending? then Some(phase.request) else None
    {
      commands := commands[1..];
      if id in flags {
        Refuse(id, Dropped);
        return None;
      }
      if deadline <= clock {
        Refuse(id, TimedOut);
        return None;
      }
      var remaining := deadline - clock;
      phase := Sending(Request(id, deadline), remaining <= writeTimeout, clock + Min(writeTimeout, remaining), false);
      toSend := Some(Request(id, deadline));
    }

    method Refuse(id: Id, reply: Reply)
      modifies this`available, this`replies, this`phase, this`refused
      ensures View() == Top(Settle(old(View()), id, reply).(refused := old(refused) + {id}))
      ensures phase.Sweeping?
    {
      replies, available, refused := replies[id := reply], available + 1, refused + {id};
      phase := Sweeping(pending.Keys, {});
    }

    /** The rest of the command arm, once the write has come to an end; returns the
        close cause if the session is over. */
    method FinishWrite(request: Command, requestDeadlineWins: bool, outcome: SendOutcome) returns (closing: Option<CloseCause>)
      requires request.Request? && phase.Sending? && phase.request == request
      requires requestDeadlineWins == phase.deadlineWins && Enabled(View(), FinishSend(outcome))
      modifies this`available, this`pending, this`replies, this`phase
      ensures View() == FinishSendStep(old(View()), outcome)
      ensures closing == if phase.Closing? then Some(phase.cause) else None
    {
      closing := None;
      ghost var want := FinishSendStep(View(), outcome);
      match outcome {
        case Sent =>
          pending := pending[request.id := request.deadline];
        case TimeoutWriting(operation) =>
          replies := replies[request.id := if requestDeadlineWins then TimedOut else WriteFailed(WriteTimeout(operation))];
          available := available + 1;
          closing := Some(WriteTimeout(operation));
        case GuardRejected =>
          replies, available := replies[request.id := Rejected], available + 1;
        case SocketFailed(detail) =>
          replies := replies[request.id := WriteFailed(TransportFailed(detail))];
          available := available + 1;
          closing := Some(TransportFailed(detail));
      }
      phase := if closing.Some? then Closing(closing.value) else Sweeping(pending.Keys, {});
      assert want.pending == pending;
      assert want.settled == replies;
      assert want.available == available;
      assert want.phase == phase;
      assert View() == want;
    }

    /** A response from the Gateway. */
    method OnResponse(id: Id, body: Bytes)
      requires phase == Waiting
      modifies this`available, this`pending, this`replies, this`phase
      ensures View() == Step(old(View()), Response(id, body))
    {
      ghost var want := Step(View(), Response(id, body));
      if id in pending { ReplyToAll({id}, Answered(body)); }
      phase := Sweeping(pending.Keys, {});
      assert View() == want;
    }

    /** After the loop: everything pending fails with the close cause, then the queue
        goes away with its receiver. */
    method End(cause: CloseCause) returns (ghost steps: seq<Action>)
      requires phase == Closing(cause)
      modifies this`available, this`pending, this`replies, this`phase, this`commands
      ensures IsRun(old(View()), steps) && After(old(View()), steps) == View()
      ensures phase == Ended(cause) && pending == map[] && commands == []
    {
      ghost var start := View();
      steps := [];
      if pending != map[] {
        RunAppends(start, steps, SettlePending);
        steps := [SettlePending];
        FailPending(cause);
      }
      RunAppends(start, steps, ForgetQueue);
      steps := steps + [ForgetQueue];
      ForgetCommands(cause);
    }

    method FailPending(cause: CloseCause)
      requires phase == Closing(cause)
      modifies this`available, this`pending, this`replies
      ensures View() == SettleAll(old(View()), old(pending.Keys), SessionEnded(cause)) && pending == map[]
    {
      ReplyToAll(pending.Keys, SessionEnded(cause));
    }

    /** The receiver goes: each queued request's reply channel is dropped unused. */
    method ForgetCommands(cause: CloseCause)
      requires phase == Closing(cause)
      modifies this`available, this`replies, this`phase, this`commands
      ensures View() == ForgetQueueStep(old(View())) && phase == Ended(cause) && commands == []
    {
      DropCommands();
      phase := Ended(cause);
    }

    method DropCommands()
      modifies this`available, this`replies, this`commands
      ensures commands == [] && available == old(available) + |Queued(old(commands))|
      ensures replies == Replied(old(replies), (set id | id in Queued(old(commands))), Dropped)
    {
      ghost var had := Queued(commands);
      while commands != []
        invariant available + |Queued(commands)| == old(available) + |had|
        invariant PartlyForgotten(old(replies), had, commands, replies)
        decreases |commands|
      {
        ForgetOne(old(replies), had, commands, replies);
        if commands[0].Request? {
          replies, available := replies[commands[0].id := Dropped], available + 1;
        }
        commands := commands[1..];
      }
      ForgottenAll(old(replies), had, replies);
    }
  }
}

/** How invocations end over whole runs of the loop: where each goes, which handlers run,
    what each is decided to be, and what stops the loop. */
module InvocationOutcomes {
  import opened Wrappers
  import opened ByteStrings
  import opened InvocationRuntime
  import Duplex
  import A = ActiveInvocations

  // ---- where an invocation goes ----

  /** Some live task has this id. */
  ghost predicate InUse(s: Loop, id: string) {
    exists u :: u in s.tasks && Live(s.tasks[u]) && s.tasks[u].id == id
  }

  /** How many handler lifecycles are out, here and elsewhere. */
  function Out(s: Loop): nat {
    |s.tasks| + s.elsewhere
  }

  /** An invocation gets a task exactly while fewer than the limit are out, and the task
      runs for it unless its id is in use; at the limit its overload result waits exactly
      while the worker lives and fewer than the limit wait; otherwise the loop stops. */
  lemma InvocationsGoWhereThereIsRoom(maximum: nat, actions: seq<Action>, id: string, node: string, duplex: bool)
    requires IsRun(Start(maximum), actions) && After(Start(maximum), actions).phase.Running?
    ensures var s := After(Start(maximum), actions);
            var i, limit, s' := |s.log|, Max(maximum, 1), Step(s, Receive(Invoked(id, node, duplex)));
            && (i in s'.tasks <==> Out(s) < limit)
            && (i in s'.tasks ==> s'.tasks[i].id == id && s'.tasks[i].node == node && s'.tasks[i].duplex == duplex
                                  && (s'.tasks[i].tracked <==> !InUse(s, id)))
            && (i in s'.queue <==> Out(s) == limit && s.workerAlive && |s.queue| < limit)
            && (i in s'.lost <==> Out(s) == limit && !(s.workerAlive && |s.queue| < limit))
            && (s'.phase.Running? <==> i !in s'.lost) && (i in s'.lost ==> s'.phase.Stopping?)
  {
    StartIsOk(maximum);
    RunsKeepLoop(Start(maximum), actions);
    LimitsAreFixed(Start(maximum), actions);
    var s := After(Start(maximum), actions);
    assert s.Places(|s.log|) == 0;
    assert |s.log| !in s.queue by { assert |s.log| in s.queue ==> multiset(s.queue)[|s.log|] > 0; }
  }

  // ---- what stops the loop ----

  /** No permit is free and no overload result can wait. */
  predicate NoRoom(s: Loop) {
    s.permits == 0 && !(s.workerAlive && |s.queue| < s.capacity)
  }

  /** A running loop stops exactly when the session fails, the worker has gone, a joined
      task's completion had failed, or an invocation finds neither a permit nor a place in
      the overload queue. */
  lemma StopsExactlyWhen(s: Loop, a: Action)
    requires Enabled(s, a) && s.phase.Running?
    ensures s.phase.Running? && Step(s, a).phase != Running
       <==> || a.SessionError? || a.NoticeWorker? || (a.Join? && s.tasks[a.t].phase == Done(false))
            || (a.Receive? && a.event.Invoked? && NoRoom(s))
    ensures Step(s, a).phase != Running ==> Step(s, a).phase == Stopping && Step(s, a).table.entries == map[]
  {
  }

  /** A task is done exactly as the session confirmed its completion. */
  lemma DoneAsConfirmed(s: Loop, a: Action, t: nat, ok: bool)
    requires LoopOk(s) && Enabled(s, a) && t in Step(s, a).tasks
    ensures Step(s, a).tasks[t].phase == Done(ok)
       <==> a == Confirm(t, ok) || (t in s.tasks && s.tasks[t].phase == Done(ok))
  {
    NextIsNew(s);
    PhaseIsDone(s, a, t, ok);
  }

  /** The next event names nothing that is there already. */
  lemma NextIsNew(s: Loop)
    requires LoopOk(s)
    ensures |s.log| !in s.tasks && |s.log| !in s.results
  {
    assert s.Places(|s.log|) == 0;
    assert !NamesInvocation(s.log, |s.log|);
  }

  lemma PhaseIsDone(s: Loop, a: Action, t: nat, ok: bool)
    requires |s.log| !in s.tasks && Enabled(s, a) && t in Step(s, a).tasks
    ensures Step(s, a).tasks[t].phase == Done(ok)
       <==> a == Confirm(t, ok) || (t in s.tasks && s.tasks[t].phase == Done(ok))
  {
    if !About(a, t) {
      OthersStay(s, a, t);
    } else if a.Admit? || a.Finish? || a.OverflowWins? {
      OutcomesAreNotDone(s, a, t);
    }
  }

  lemma OutcomesAreNotDone(s: Loop, a: Action, t: nat)
    requires Enabled(s, a) && (a.Admit? || a.Finish? || a.OverflowWins?) && a.t == t
    ensures t in Step(s, a).tasks && !Step(s, a).tasks[t].phase.Done? && !s.tasks[t].phase.Done?
  {
    match a
    case Admit(_, passes) => AdmissionIsNotDone(s, t, passes);
    case Finish(_, success) => assert FinishStep(s, t, success).tasks == At(s, t, Decided).tasks;
    case OverflowWins(_) =>
  }

  lemma AdmissionIsNotDone(s: Loop, t: nat, passes: bool)
    requires t in s.tasks
    ensures t in AdmitStep(s, t, passes).tasks && !AdmitStep(s, t, passes).tasks[t].phase.Done?
  {
  }

  /** The action is one of this task's own. */
  predicate About(a: Action, t: nat) {
    && (a.Admit? || a.Finish? || a.OverflowWins? || a.Submit? || a.Confirm? || a.Join? || a.AbortTask?)
    && a.t == t
  }

  lemma OthersStay(s: Loop, a: Action, t: nat)
    requires |s.log| !in s.tasks && Enabled(s, a) && !About(a, t)
    ensures t in s.tasks ==> t in Step(s, a).tasks && Step(s, a).tasks[t] == s.tasks[t]
    ensures t in Step(s, a).tasks && t !in s.tasks ==> !Step(s, a).tasks[t].phase.Done? && !Step(s, a).tasks[t].phase.Handling?
  {
    match a
    case Admit(u, passes) => AdmitLeavesOthers(s, u, passes, t);
    case _ =>
  }

  lemma AdmitLeavesOthers(s: Loop, u: nat, passes: bool, t: nat)
    requires u in s.tasks && t != u
    ensures var s' := AdmitStep(s, u, passes); (t in s'.tasks <==> t in s.tasks) && (t in s.tasks ==> s'.tasks[t] == s.tasks[t])
  {
  }

  // ---- which handlers run ----

  predicate IsHandling(s: Loop, t: nat) {
    t in s.tasks && s.tasks[t].phase.Handling?
  }

  /** Admission passes, and nothing has happened meanwhile that makes the handler pointless. */
  predicate Enters(s: Loop, a: Action, t: nat) {
    a == Admit(t, true) && t !in s.table.overflowed && t !in s.table.cancelled
  }

  predicate LeavesHandler(a: Action, t: nat) {
    ((a.AbortTask? || a.Finish?) && a.t == t) || a == OverflowWins(t)
  }

  /** A handler is entered exactly on an admission that passes for an invocation neither
      overflown nor cancelled, and runs until it finishes, overflows or is aborted. */
  lemma HandlerRunsExactlyWhen(s: Loop, a: Action, t: nat)
    requires LoopOk(s) && Enabled(s, a)
    ensures IsHandling(Step(s, a), t) <==> Enters(s, a, t) || (IsHandling(s, t) && !LeavesHandler(a, t))
  {
    NextIsNew(s);
    PhaseIsHandling(s, a, t);
  }

  lemma PhaseIsHandling(s: Loop, a: Action, t: nat)
    requires |s.log| !in s.tasks && Enabled(s, a)
    ensures IsHandling(Step(s, a), t) <==> Enters(s, a, t) || (IsHandling(s, t) && !LeavesHandler(a, t))
  {
    if !About(a, t) { OthersStay(s, a, t); }
  }

  // ---- what each is decided to be ----

  /** The state in which the k-th action of a run is taken. */
  function Before(s: Loop, actions: seq<Action>, k: nat): Loop
    requires IsRun(s, actions) && k <= |actions|
    decreases k
  {
    if k == 0 then s else Before(Step(s, actions[0]), actions[1..], k - 1)
  }

  predicate Succeeded(s: Loop, t: nat) {
    t in s.results && s.results[t]
  }

  predicate HasFailed(s: Loop, t: nat) {
    t in s.results && !s.results[t]
  }

  /** The handler returns a good result, with no overflow of its input to answer for. */
  predicate DecidesSuccess(s: Loop, a: Action, t: nat) {
    a == Finish(t, true) && t in s.tasks && (!s.tasks[t].duplex || t !in s.table.overflowed)
  }

  /** A duplicate; an admission refused or overtaken by an overflow or a cancellation; a
      handler that failed or whose input overflowed. */
  ghost predicate DecidesFailure(s: Loop, a: Action, t: nat) {
    match a
    case Receive(Invoked(id, _, _)) => t == |s.log| && s.permits > 0 && InUse(s, id)
    case Admit(of, passes) => of == t && (!passes || t in s.table.overflowed || t in s.table.cancelled)
    case Finish(of, success) =>
      of == t && (!success || (t in s.tasks && s.tasks[t].duplex && t in s.table.overflowed))
    case OverflowWins(of) => of == t
    case _ => false
  }

  lemma UndecidedHasNoResult(s: Loop, t: nat)
    requires LoopOk(s) && t in s.tasks && Undecided(s.tasks[t])
    ensures t !in s.results
  {
    assert TaskOk(s.log, t, s.tasks[t], s.completed, s.results);
  }

  lemma InUseExactlyWhen(s: Loop, id: string)
    requires LoopOk(s) && s.phase.Running?
    ensures InUse(s, id) <==> id in s.table.entries
  {
    if id in s.table.entries { assert LeadsToLive(s.tasks, id, s.table.entries[id]); }
  }

  /** What one step decides, it decides for the first time; what is decided stays. */
  lemma StepDecides(s: Loop, a: Action, t: nat)
    requires LoopOk(s) && Enabled(s, a)
    ensures Succeeded(Step(s, a), t) <==> Succeeded(s, t) || DecidesSuccess(s, a, t)
    ensures HasFailed(Step(s, a), t) <==> HasFailed(s, t) || DecidesFailure(s, a, t)
    ensures DecidesSuccess(s, a, t) || DecidesFailure(s, a, t) ==> t !in s.results
  {
    NextIsNew(s);
    if a.Receive? && a.event.Invoked? { InUseExactlyWhen(s, a.event.id); }
    if a.Admit? || a.Finish? || a.OverflowWins? { UndecidedHasNoResult(s, a.t); }
    ResultsMove(s, a, t);
  }

  lemma AdmissionMoves(s: Loop, u: nat, passes: bool, t: nat)
    requires u in s.tasks && u !in s.results
    ensures var s' := AdmitStep(s, u, passes);
            && (Succeeded(s', t) <==> Succeeded(s, t))
            && (HasFailed(s', t) <==> HasFailed(s, t) || DecidesFailure(s, Admit(u, passes), t))
  {
  }

  lemma ResultsMove(s: Loop, a: Action, t: nat)
    requires Enabled(s, a) && |s.log| !in s.results
    requires a.Receive? && a.event.Invoked? ==> (InUse(s, a.event.id) <==> a.event.id in s.table.entries)
    requires a.Admit? || a.Finish? || a.OverflowWins? ==> a.t !in s.results
    ensures Succeeded(Step(s, a), t) <==> Succeeded(s, t) || DecidesSuccess(s, a, t)
    ensures HasFailed(Step(s, a), t) <==> HasFailed(s, t) || DecidesFailure(s, a, t)
    ensures DecidesSuccess(s, a, t) || DecidesFailure(s, a, t) ==> t !in s.results
  {
    match a
    case Receive(event) =>
    case Admit(u, passes) => AdmissionMoves(s, u, passes, t);
    case Finish(_, _) | OverflowWins(_) =>
    case _ => assert Step(s, a).results == s.results;
  }

  ghost predicate SuccessTaken(s: Loop, actions: seq<Action>, t: nat)
    requires IsRun(s, actions)
  {
    exists k :: 0 <= k < |actions| && DecidesSuccess(Before(s, actions, k), actions[k], t)
  }

  ghost predicate FailureTaken(s: Loop, actions: seq<Action>, t: nat)
    requires IsRun(s, actions)
  {
    exists k :: 0 <= k < |actions| && DecidesFailure(Before(s, actions, k), actions[k], t)
  }

  lemma TakenFirstOrLater(s: Loop, actions: seq<Action>, t: nat)
    requires IsRun(s, actions) && actions != []
    ensures SuccessTaken(s, actions, t)
       <==> DecidesSuccess(s, actions[0], t) || SuccessTaken(Step(s, actions[0]), actions[1..], t)
    ensures FailureTaken(s, actions, t)
       <==> DecidesFailure(s, actions[0], t) || FailureTaken(Step(s, actions[0]), actions[1..], t)
  {
    var s', rest := Step(s, actions[0]), actions[1..];
    assert Before(s, actions, 0) == s;
    forall k | 0 <= k < |rest| ensures Before(s', rest, k) == Before(s, actions, k + 1) && rest[k] == actions[k + 1] { }
    if DecidesSuccess(s, actions[0], t) { assert DecidesSuccess(Before(s, actions, 0), actions[0], t); }
    if DecidesFailure(s, actions[0], t) { assert DecidesFailure(Before(s, actions, 0), actions[0], t); }
    if SuccessTaken(s', rest, t) {
      var k :| 0 <= k < |rest| && DecidesSuccess(Before(s', rest, k), rest[k], t);
      assert DecidesSuccess(Before(s, actions, k + 1), actions[k + 1], t);
    }
    if FailureTaken(s', rest, t) {
      var k :| 0 <= k < |rest| && DecidesFailure(Before(s', rest, k), rest[k], t);
      assert DecidesFailure(Before(s, actions, k + 1), actions[k + 1], t);
    }
    if SuccessTaken(s, actions, t) && !DecidesSuccess(s, actions[0], t) {
      var k :| 0 <= k < |actions| && DecidesSuccess(Before(s, actions, k), actions[k], t);
      assert DecidesSuccess(Before(s', rest, k - 1), rest[k - 1], t);
    }
    if FailureTaken(s, actions, t) && !DecidesFailure(s, actions[0], t) {
      var k :| 0 <= k < |actions| && DecidesFailure(Before(s, actions, k), actions[k], t);
      assert DecidesFailure(Before(s', rest, k - 1), rest[k - 1], t);
    }
  }

  lemma {:induction false} RunsDecide(s: Loop, actions: seq<Action>, t: nat)
    requires LoopOk(s) && IsRun(s, actions)
    ensures Succeeded(After(s, actions), t) <==> Succeeded(s, t) || SuccessTaken(s, actions, t)
    ensures HasFailed(After(s, actions), t) <==> HasFailed(s, t) || FailureTaken(s, actions, t)
    decreases |actions|
  {
    if actions != [] {
      StepDecides(s, actions[0], t);
      StepKeepsLoop(s, actions[0]);
      RunsDecide(Step(s, actions[0]), actions[1..], t);
      TakenFirstOrLater(s, actions, t);
    }
  }

  /** Over every run, an invocation's result is success exactly if its handler returned a
      good result while it was handling, and it was not a duplex invocation whose input had
      overflowed by then; and failure exactly if it was refused as a duplicate or at
      admission, had overflowed or been cancelled before its handler, or its handler failed
      or overflowed. Never both. */
  lemma SucceedsExactlyWhen(maximum: nat, actions: seq<Action>, t: nat)
    requires IsRun(Start(maximum), actions)
    ensures var s := After(Start(maximum), actions);
            && (t in s.results && s.results[t] <==> SuccessTaken(Start(maximum), actions, t))
            && (t in s.results && !s.results[t] <==> FailureTaken(Start(maximum), actions, t))
  {
    StartIsOk(maximum);
    RunsDecide(Start(maximum), actions, t);
  }

  // ---- the order of overload results ----

  predicate Ascends(items: seq<nat>) {
    forall i, j :: 0 <= i < j < |items| ==> items[i] < items[j]
  }

  lemma StepKeepsAscending(s: Loop, a: Action)
    requires Enabled(s, a) && Ascends(s.queue) && forall i :: i in s.queue ==> i < |s.log|
    ensures Ascends(Step(s, a).queue)
  {
    match a
    case Receive(event) =>
      if event.Invoked? {
        var queue := s.queue + [|s.log|];
        forall i, j | 0 <= i < j < |queue| ensures queue[i] < queue[j] {
          if j == |s.queue| { assert s.queue[i] in s.queue; }
        }
      }
    case _ =>
  }

  lemma {:induction false} QueueAscends(s: Loop, actions: seq<Action>)
    requires LoopOk(s) && IsRun(s, actions) && Ascends(s.queue)
    ensures Ascends(After(s, actions).queue)
    decreases |actions|
  {
    if actions != [] {
      forall i | i in s.queue ensures i < |s.log| { InQueueMeansPlaced(s, i); }
      StepKeepsAscending(s, actions[0]);
      StepKeepsLoop(s, actions[0]);
      QueueAscends(Step(s, actions[0]), actions[1..]);
    }
  }

  /** Overload results are submitted in the order their invocations came in. */
  lemma OverloadsGoOutInOrder(maximum: nat, actions: seq<Action>, i: nat)
    requires IsRun(Start(maximum), actions) && Enabled(After(Start(maximum), actions), WorkerTake)
    requires i in After(Start(maximum), actions).queue
    ensures var s := After(Start(maximum), actions);
            exists first :: first in s.queue && first <= i && Step(s, WorkerTake).completed == s.completed + [first]
  {
    StartIsOk(maximum);
    QueueAscends(Start(maximum), actions);
    var s := After(Start(maximum), actions);
    assert s.queue[0] in s.queue && s.queue[0] <= i;
  }

  // ---- one completion for whatever is settled ----

  predicate OwesNothing(phase: TaskPhase) {
    phase.Submitting? || phase.Done?
  }

  /** Whatever has been settled, or is about to be, has had its completion submitted. */
  ghost predicate CompletionsOk(s: Loop) {
    && (forall t :: t in s.tasks && OwesNothing(s.tasks[t].phase) ==> t in s.completed)
    && (forall i :: i in s.settled ==> i in s.completed)
    && (s.worker.Some? ==> s.worker.value in s.completed)
  }

  lemma CompletionsGrow(s: Loop, a: Action)
    requires Enabled(s, a)
    ensures s.completed <= Step(s, a).completed
    ensures a.Submit? ==> a.t in Step(s, a).completed
  {
    match a
    case Admit(u, passes) => assert AdmitStep(s, u, passes).completed == s.completed;
    case Receive(event) => assert ReceiveStep(s, event).completed == s.completed;
    case _ =>
  }

  lemma TasksKeepCompletions(s: Loop, a: Action, t: nat)
    requires CompletionsOk(s) && Enabled(s, a) && |s.log| !in s.tasks
    requires t in Step(s, a).tasks && OwesNothing(Step(s, a).tasks[t].phase)
    ensures t in Step(s, a).completed
  {
    CompletionsGrow(s, a);
    if !About(a, t) {
      OthersKeepTheirPhase(s, a, t);
    } else if a.Admit? {
      AdmissionOwes(s, t, a.passes);
    }
  }

  lemma OthersKeepTheirPhase(s: Loop, a: Action, t: nat)
    requires |s.log| !in s.tasks && Enabled(s, a) && !About(a, t)
    requires t in Step(s, a).tasks && OwesNothing(Step(s, a).tasks[t].phase)
    ensures t in s.tasks && s.tasks[t].phase == Step(s, a).tasks[t].phase
  {
    match a
    case Admit(u, passes) => AdmitLeavesOthers(s, u, passes, t);
    case _ =>
  }

  lemma AdmissionOwes(s: Loop, t: nat, passes: bool)
    requires t in s.tasks
    ensures t in AdmitStep(s, t, passes).tasks && !OwesNothing(AdmitStep(s, t, passes).tasks[t].phase)
  {
  }

  lemma SettlingKeepsCompletions(s: Loop, a: Action)
    requires CompletionsOk(s) && Enabled(s, a)
    ensures forall i :: i in Step(s, a).settled ==> i in Step(s, a).completed
    ensures Step(s, a).worker.Some? ==> Step(s, a).worker.value in Step(s, a).completed
  {
    CompletionsGrow(s, a);
    match a
    case Admit(u, passes) => assert AdmitStep(s, u, passes).settled == s.settled && AdmitStep(s, u, passes).worker == s.worker;
    case Receive(event) => assert ReceiveStep(s, event).settled == s.settled && ReceiveStep(s, event).worker == s.worker;
    case _ =>
  }

  lemma {:induction false} RunsKeepCompletions(s: Loop, actions: seq<Action>)
    requires LoopOk(s) && CompletionsOk(s) && IsRun(s, actions)
    ensures CompletionsOk(After(s, actions))
    decreases |actions|
  {
    if actions != [] {
      var s' := Step(s, actions[0]);
      NextIsNew(s);
      forall t | t in s'.tasks && OwesNothing(s'.tasks[t].phase) ensures t in s'.completed {
        TasksKeepCompletions(s, actions[0], t);
      }
      SettlingKeepsCompletions(s, actions[0]);
      StepKeepsLoop(s, actions[0]);
      RunsKeepCompletions(s', actions[1..]);
    }
  }

  /** Over every run, an invocation that is settled had exactly one completion submitted
      for it; once the loop has stopped, so every invocation event had exactly one, or
      was given up. */
  lemma SettledMeansCompletedOnce(maximum: nat, actions: seq<Action>, i: nat)
    requires IsRun(Start(maximum), actions)
    ensures var s := After(Start(maximum), actions);
            && (i in s.settled ==> multiset(s.completed)[i] == 1)
            && (s.phase.Stopped? && IsInvocation(s, i) ==> multiset(s.completed)[i] == 1 || i in s.lost)
  {
    var s := After(Start(maximum), actions);
    StartIsOk(maximum);
    RunsKeepCompletions(Start(maximum), actions);
    EveryRunIsBounded(maximum, actions, i);
    if s.phase.Stopped? { StoppedIsClean(maximum, actions); }
    assert i in s.completed ==> multiset(s.completed)[i] > 0;
  }

  // ---- who is settled, given up or cancelled, and when ----

  /** An invocation is settled exactly when its task is joined or the worker gets its
      overload result out; it is given up exactly when there is no room for it, its task is
      aborted, or the worker ends with it queued or in hand; and the worker ends exactly
      when a delivery fails or it is aborted. */
  lemma SettledOrLostExactlyWhen(s: Loop, a: Action, i: nat)
    requires Enabled(s, a)
    ensures i in Step(s, a).settled <==> i in s.settled || a == Join(i) || (a == WorkerDone(true) && s.worker == Some(i))
    ensures i in Step(s, a).lost
       <==> || i in s.lost || a == AbortTask(i)
            || (a.Receive? && a.event.Invoked? && NoRoom(s) && i == |s.log|)
            || ((a == WorkerDone(false) || a.AbortWorker?) && (i in s.queue || s.worker == Some(i)))
    ensures Step(s, a).workerAlive <==> s.workerAlive && a != WorkerDone(false) && !a.AbortWorker?
  {
    match a
    case Admit(t, passes) => AdmissionMovesNobody(s, t, passes);
    case _ =>
  }

  lemma AdmissionMovesNobody(s: Loop, t: nat, passes: bool)
    requires t in s.tasks
    ensures var s' := AdmitStep(s, t, passes);
            s'.settled == s.settled && s'.lost == s.lost && s'.workerAlive == s.workerAlive
  {
  }

  /** The loop stops, and cancels whoever the map still names. */
  predicate Stops(s: Loop, a: Action) {
    || a.SessionError? || a.NoticeWorker? || (a.Receive? && a.event.Invoked? && NoRoom(s))
    || (a.Join? && s.phase.Running? && a.t in s.tasks && s.tasks[a.t].phase == Done(false))
  }

  /** This action cancels that invocation: the Gateway says so or its input overflows; it
      is refused admission; it is decided as overflown; its completion fails or its task is
      aborted while it is tracked; or the loop stops over it. */
  predicate Cancels(s: Loop, a: Action, t: nat) {
    || (Stops(s, a) && t in A.Owners(s.table.entries))
    || match a
       case Receive(CancelEvent(id)) => id in s.table.entries && s.table.entries[id].owner == t
       case Receive(InputEvent(id, node, seqNo, payload)) =>
         && id in s.table.entries && s.table.entries[id].owner == t && s.table.entries[id].node == node
         && t in s.table.buffers && Duplex.PushStep(s.table.buffers[t], Duplex.PENDING_INPUT_BYTES, seqNo, payload).1.Overflow?
       case Admit(u, passes) => u == t && (!passes || t in s.table.overflowed)
       case Finish(u, _) => u == t && t in s.tasks && s.tasks[t].duplex && t in s.table.overflowed
       case OverflowWins(u) => u == t
       case Confirm(u, ok) => u == t && t in s.tasks && s.tasks[t].tracked && !ok
       case AbortTask(u) => u == t && t in s.tasks && s.tasks[t].tracked
       case _ => false
  }

  /** An invocation's handler is told to give up exactly on those occasions; in particular
      never by another invocation's, and not by a completion that went through. */
  lemma CancelledExactlyWhen(s: Loop, a: Action, t: nat)
    requires Enabled(s, a)
    ensures t in Step(s, a).table.cancelled <==> t in s.table.cancelled || Cancels(s, a, t)
  {
    match a
    case Receive(event) => ReceivingCancels(s, event, t);
    case Admit(u, passes) => AdmissionCancels(s, u, passes, t);
    case _ =>
  }

  lemma ReceivingCancels(s: Loop, event: Event, t: nat)
    requires s.phase.Running?
    ensures t in ReceiveStep(s, event).table.cancelled <==> t in s.table.cancelled || Cancels(s, Receive(event), t)
  {
  }

  lemma AdmissionCancels(s: Loop, u: nat, passes: bool, t: nat)
    requires u in s.tasks
    ensures t in AdmitStep(s, u, passes).table.cancelled <==> t in s.table.cancelled || Cancels(s, Admit(u, passes), t)
  {
  }

  /** While the loop runs, those the map names are the live invocations, so a stop cancels
      every one of them, and closes its input. */
  lemma StoppingCancelsTheLive(s: Loop, a: Action, t: nat)
    requires LoopOk(s) && Enabled(s, a) && s.phase.Running? && Step(s, a).phase.Stopping?
    requires t in s.tasks && Live(s.tasks[t])
    ensures t in Step(s, a).table.cancelled
    ensures t in s.table.buffers ==> t in Step(s, a).table.buffers && Step(s, a).table.buffers[t].closed
  {
    StopsExactlyWhen(s, a);
    var id := s.tasks[t].id;
    assert id in s.table.entries && s.table.entries[id].owner == t;
    assert t in A.Owners(s.table.entries);
    CancelledExactlyWhen(s, a, t);
  }

  // ---- reading ----

  /** One read: the next payload if there is one, else nothing. */
  predicate ReadOne(buffer: Duplex.Input, after: Duplex.Input) {
    var taken := Duplex.PayloadsOf(buffer.accepted);
    && after.accepted == buffer.accepted
    && (!buffer.closed ==> taken == buffer.received + buffer.queue)
    && if buffer.queue == [] then after == buffer
       else |buffer.received| < |taken| && after.received == taken[..|buffer.received| + 1]
  }

  lemma ReceivingReadsOne(buffer: Duplex.Input)
    requires Duplex.InputOk(buffer, Duplex.PENDING_INPUT_BYTES)
    ensures ReadOne(buffer, Duplex.ReceiveStep(buffer).0)
  {
    if buffer.queue != [] { Duplex.ReceiveYieldsTheNext(buffer, Duplex.PENDING_INPUT_BYTES); }
  }

  /** A handler that reads gets the payload that is next among those taken for it, and
      loses nothing: whatever was taken has been read or still waits, while its input is
      open. */
  lemma ReadingGetsTheNext(maximum: nat, actions: seq<Action>, t: nat)
    requires IsRun(Start(maximum), actions) && t in After(Start(maximum), actions).table.buffers
    ensures var s := After(Start(maximum), actions);
            var buffer, after := s.table.buffers[t], Step(s, Read(t)).table.buffers[t];
            ReadOne(buffer, after)
  {
    StartIsOk(maximum);
    RunsKeepLoop(Start(maximum), actions);
    var s := After(Start(maximum), actions);
    BuffersAreOk(s, t);
    ReadIsAReceive(s, t);
    ReceivingReadsOne(s.table.buffers[t]);
  }

  lemma BuffersAreOk(s: Loop, t: nat)
    requires LoopOk(s) && t in s.table.buffers
    ensures Duplex.InputOk(s.table.buffers[t], Duplex.PENDING_INPUT_BYTES)
  {
    assert BufferOk(s.log, t, s.table.buffers[t], Reachable(s.phase.Running?, s.tasks, t));
  }

  lemma ReadIsAReceive(s: Loop, t: nat)
    requires t in s.table.buffers
    ensures Step(s, Read(t)).table.buffers[t] == Duplex.ReceiveStep(s.table.buffers[t]).0
  {
  }
}

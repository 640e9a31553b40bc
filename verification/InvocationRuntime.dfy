/** The invocation loop of one session: handler tasks under permits, a bounded queue
    of overload results with its worker, and events routed to live invocations.

    Each arm of the loop's select, each step of a handler task and each step of the
    worker is one step. An invocation is named by its place in the event log. */
module InvocationRuntime {
  import opened Wrappers
  import opened ByteStrings
  import Duplex
  import A = ActiveInvocations

  datatype Event =
    | Invoked(id: string, node: string, duplex: bool)
    | InputEvent(id: string, node: string, seqNo: U64, payload: Bytes)
    | CancelEvent(id: string)

  datatype TaskPhase =
    | Admitting
    | Handling
    | Decided
    | Submitting
    | Done(ok: bool)

  datatype Task = Task(id: string, node: string, duplex: bool, tracked: bool, phase: TaskPhase)

  datatype LoopPhase = Running | Stopping | Stopped

  datatype Loop = Loop(
    maximum: nat,
    capacity: nat,
    permits: nat,
    elsewhere: nat,            // permits out to one-shot dispatches and other sessions
    log: seq<Event>,
    tasks: map<nat, Task>,
    queue: seq<nat>,
    worker: Option<nat>,
    workerAlive: bool,
    table: A.Table,
    completed: seq<nat>,       // completions submitted to the session, in order
    results: map<nat, bool>,   // whether a task decided on success
    settled: set<nat>,
    lost: set<nat>,
    phase: LoopPhase)
  {
    /** In how many places an invocation event is to be found. */
    function Places(i: nat): nat {
      (if i in tasks then 1 else 0) + multiset(queue)[i] + (if worker == Some(i) then 1 else 0)
      + (if i in settled then 1 else 0) + (if i in lost then 1 else 0)
    }
  }

  datatype Action =
    | Receive(event: Event)
    | SessionError
    | Admit(t: nat, passes: bool)
    | Finish(t: nat, success: bool)
    | OverflowWins(t: nat)
    | Submit(t: nat)
    | Confirm(t: nat, ok: bool)
    | Join(t: nat)
    | Read(t: nat)
    | WorkerTake
    | WorkerDone(ok: bool)
    | NoticeWorker
    | AbortTask(t: nat)
    | AbortWorker
    | EndStop
    | Borrow
    | Return

  predicate Enabled(s: Loop, a: Action) {
    match a
    case Receive(_) => s.phase.Running?
    case SessionError => s.phase.Running?
    case Admit(t, _) => t in s.tasks && s.tasks[t].phase.Admitting?
    case Finish(t, _) => t in s.tasks && s.tasks[t].phase.Handling?
    case OverflowWins(t) =>
      t in s.tasks && s.tasks[t].phase.Handling? && s.tasks[t].duplex && t in s.table.overflowed
    case Submit(t) => t in s.tasks && s.tasks[t].phase.Decided?
    case Confirm(t, _) => t in s.tasks && s.tasks[t].phase.Submitting?
    case Join(t) => t in s.tasks && s.tasks[t].phase.Done? && !s.phase.Stopped?
    case Read(t) => t in s.table.buffers
    case WorkerTake => s.workerAlive && s.worker.None? && s.queue != []
    case WorkerDone(_) => s.worker.Some?
    case NoticeWorker => s.phase.Running? && !s.workerAlive
    case AbortTask(t) => s.phase.Stopping? && t in s.tasks && !s.tasks[t].phase.Done?
    case AbortWorker => s.phase.Stopping? && s.workerAlive
    case EndStop => s.phase.Stopping? && s.tasks == map[] && !s.workerAlive
    case Borrow => s.permits > 0
    case Return => s.elsewhere > 0
  }

  function Stop(s: Loop): Loop {
    s.(phase := Stopping, table := A.CancelAllStep(s.table))
  }

  /** An invocation: a task if a permit is free, else the overload queue, else the end. */
  function InvokeStep(s: Loop, event: Event): Loop
    requires event.Invoked?
  {
    var i := |s.log|;
    var logged := s.(log := s.log + [event]);
    if s.permits > 0 then
      var (table, tracked) := A.TrackStep(s.table, i, event.id, event.node, event.duplex);
      var task := Task(event.id, event.node, event.duplex, tracked, if tracked then Admitting else Decided);
      logged.(permits := s.permits - 1, table := table, tasks := s.tasks[i := task],
              results := if tracked then s.results else s.results[i := false])
    else if s.workerAlive && |s.queue| < s.capacity then logged.(queue := s.queue + [i])
    else Stop(logged.(lost := s.lost + {i}))
  }

  function ReceiveStep(s: Loop, event: Event): Loop {
    match event
    case Invoked(_, _, _) => InvokeStep(s, event)
    case InputEvent(id, node, seqNo, payload) =>
      s.(log := s.log + [event], table := A.RouteInputStep(s.table, id, node, seqNo, payload))
    case CancelEvent(id) => s.(log := s.log + [event], table := A.CancelStep(s.table, id))
  }

  function At(s: Loop, t: nat, phase: TaskPhase): Loop
    requires t in s.tasks
  {
    s.(tasks := s.tasks[t := s.tasks[t].(phase := phase)])
  }

  function Decide(s: Loop, t: nat, success: bool, cancel: bool): Loop
    requires t in s.tasks
  {
    At(s, t, Decided).(results := s.results[t := success],
                       table := if cancel then s.table.(cancelled := s.table.cancelled + {t}) else s.table)
  }

  /** After admission: input may have overflowed or the invocation been cancelled. */
  function AdmitStep(s: Loop, t: nat, passes: bool): Loop
    requires t in s.tasks
  {
    if !passes then Decide(s, t, false, true)
    else if t in s.table.overflowed then Decide(s, t, false, true)
    else if t in s.table.cancelled then Decide(s, t, false, false)
    else At(s, t, Handling)
  }

  /** The handler is ready; on a duplex invocation the overflow flag is looked at first. */
  function FinishStep(s: Loop, t: nat, success: bool): Loop
    requires t in s.tasks
  {
    if s.tasks[t].duplex && t in s.table.overflowed then Decide(s, t, false, true)
    else Decide(s, t, success, false)
  }

  /** The tracking goes with the task. */
  function ReleaseTracking(s: Loop, t: nat, armed: bool): A.Table
    requires t in s.tasks
  {
    if s.tasks[t].tracked && !s.tasks[t].phase.Done? then A.DropStep(s.table, t, s.tasks[t].id, armed) else s.table
  }

  function JoinStep(s: Loop, t: nat): Loop
    requires t in s.tasks
  {
    var joined := s.(tasks := s.tasks - {t}, permits := s.permits + 1, settled := s.settled + {t});
    if s.phase.Running? && s.tasks[t].phase == Done(false) then Stop(joined) else joined
  }

  function WorkerEnds(s: Loop): Loop {
    s.(workerAlive := false, worker := None, queue := [],
       lost := s.lost + (set i | i in s.queue) + if s.worker.Some? then {s.worker.value} else {})
  }

  function Step(s: Loop, a: Action): Loop
    requires Enabled(s, a)
  {
    match a
    case Receive(event) => ReceiveStep(s, event)
    case SessionError => Stop(s)
    case Admit(t, passes) => AdmitStep(s, t, passes)
    case Finish(t, success) => FinishStep(s, t, success)
    case OverflowWins(t) => Decide(s, t, false, true)
    case Submit(t) => At(s, t, Submitting).(completed := s.completed + [t])
    case Confirm(t, ok) => At(s, t, Done(ok)).(table := ReleaseTracking(s, t, !ok))
    case Join(t) => JoinStep(s, t)
    case Read(t) => s.(table := s.table.(buffers := s.table.buffers[t := Duplex.ReceiveStep(s.table.buffers[t]).0]))
    case WorkerTake => s.(worker := Some(s.queue[0]), queue := s.queue[1..], completed := s.completed + [s.queue[0]])
    case WorkerDone(ok) => if ok then s.(worker := None, settled := s.settled + {s.worker.value}) else WorkerEnds(s)
    case NoticeWorker => Stop(s)
    case AbortTask(t) =>
      s.(table := ReleaseTracking(s, t, true), tasks := s.tasks - {t}, permits := s.permits + 1, lost := s.lost + {t})
    case AbortWorker => WorkerEnds(s)
    case EndStop => s.(phase := Stopped)
    case Borrow => s.(permits := s.permits - 1, elsewhere := s.elsewhere + 1)
    case Return => s.(permits := s.permits + 1, elsewhere := s.elsewhere - 1)
  }

  /** The overload queue has as many slots as there are permits. */
  function Start(maximum: nat): Loop {
    Loop(Max(maximum, 1), Max(maximum, 1), Max(maximum, 1), 0, [], map[], [], None, true, A.EMPTY_TABLE, [], map[], {}, {}, Running)
  }

  // ---- bounds and conservation ----

  predicate NamesInvocation(log: seq<Event>, i: nat) {
    i < |log| && log[i].Invoked?
  }

  predicate IsInvocation(s: Loop, i: nat) {
    NamesInvocation(s.log, i)
  }

  ghost predicate BoundsOk(s: Loop) {
    && s.permits + s.elsewhere + |s.tasks| == s.maximum
    && |s.queue| <= s.capacity
    && (s.worker.Some? ==> s.workerAlive) && (!s.workerAlive ==> s.queue == [])
    && forall i: nat :: s.Places(i) == if IsInvocation(s, i) then 1 else 0
  }

  /** A new invocation event takes its one place. */
  lemma PlacingKeepsBounds(s: Loop, s': Loop, event: Event)
    requires BoundsOk(s) && event.Invoked? && s'.log == s.log + [event] && s'.settled == s.settled && s'.worker == s.worker
    requires s'.workerAlive == s.workerAlive && s'.elsewhere == s.elsewhere
    requires s'.maximum == s.maximum && s'.capacity == s.capacity
    requires || (s'.tasks.Keys == s.tasks.Keys + {|s.log|} && s'.queue == s.queue && s'.lost == s.lost && s'.permits + 1 == s.permits)
             || (s'.tasks == s.tasks && s'.permits == s.permits && s'.lost == s.lost
                 && s'.queue == s.queue + [|s.log|] && |s'.queue| <= s'.capacity && s'.workerAlive)
             || (s'.tasks == s.tasks && s'.permits == s.permits && s'.lost == s.lost + {|s.log|} && s'.queue == s.queue)
    ensures BoundsOk(s')
  {
    var i := |s.log|;
    assert s.Places(i) == 0;
    assert |s'.tasks| == |s'.tasks.Keys| && |s.tasks| == |s.tasks.Keys|;
    forall x: nat ensures s'.Places(x) == if IsInvocation(s', x) then 1 else 0 {
      assert IsInvocation(s', x) <==> x == i || IsInvocation(s, x);
    }
  }

  lemma InvokeKeepsBounds(s: Loop, event: Event)
    requires BoundsOk(s) && event.Invoked?
    ensures BoundsOk(InvokeStep(s, event))
  {
    PlacingKeepsBounds(s, InvokeStep(s, event), event);
  }

  lemma WorkerKeepsBounds(s: Loop, a: Action)
    requires BoundsOk(s) && Enabled(s, a) && (a.WorkerTake? || a.WorkerDone? || a.AbortWorker?)
    ensures BoundsOk(Step(s, a))
  {
    var s' := Step(s, a);
    if a.WorkerTake? {
      assert s.queue == [s.queue[0]] + s.queue[1..];
    }
    forall x: nat ensures s'.Places(x) == s.Places(x) {
      assert s.Places(x) <= 1;
    }
  }

  lemma SameBounds(s: Loop, s': Loop)
    requires BoundsOk(s)
    requires s'.tasks.Keys == s.tasks.Keys && s'.queue == s.queue && s'.worker == s.worker && s'.settled == s.settled
    requires s'.lost == s.lost && s'.workerAlive == s.workerAlive && s'.capacity == s.capacity && s'.maximum == s.maximum
    requires s'.permits + s'.elsewhere == s.permits + s.elsewhere
    requires forall i: nat :: IsInvocation(s', i) <==> IsInvocation(s, i)
    ensures BoundsOk(s')
  {
    assert |s'.tasks| == |s'.tasks.Keys| && |s.tasks| == |s.tasks.Keys|;
    forall x: nat ensures s'.Places(x) == s.Places(x) { }
  }

  lemma RemovalKeepsBounds(s: Loop, s': Loop, t: nat)
    requires BoundsOk(s) && t in s.tasks && s'.tasks == s.tasks - {t}
    requires (s'.settled == s.settled + {t} && s'.lost == s.lost) || (s'.settled == s.settled && s'.lost == s.lost + {t})
    requires s'.queue == s.queue && s'.worker == s.worker && s'.log == s.log
    requires s'.workerAlive == s.workerAlive && s'.capacity == s.capacity && s'.maximum == s.maximum
    requires s'.permits == s.permits + 1 && s'.elsewhere == s.elsewhere
    ensures BoundsOk(s')
  {
    assert s.Places(t) == 1;
    assert s'.tasks.Keys == s.tasks.Keys - {t};
    assert |s'.tasks| == |s'.tasks.Keys| && |s.tasks| == |s.tasks.Keys|;
    forall x: nat ensures s'.Places(x) == s.Places(x) { }
  }

  lemma StepKeepsBounds(s: Loop, a: Action)
    requires BoundsOk(s) && Enabled(s, a)
    ensures BoundsOk(Step(s, a))
  {
    match a
    case Receive(event) => if event.Invoked? { InvokeKeepsBounds(s, event); } else { SameBounds(s, ReceiveStep(s, event)); }
    case WorkerTake | WorkerDone(_) | AbortWorker => WorkerKeepsBounds(s, a);
    case Join(_) | AbortTask(_) => LeavingKeepsBounds(s, a);
    case Admit(_, _) | Finish(_, _) | OverflowWins(_) | Submit(_) | Confirm(_, _) => TaskKeepsBounds(s, a);
    case _ => OtherKeepsBounds(s, a);
  }

  lemma LeavingKeepsBounds(s: Loop, a: Action)
    requires BoundsOk(s) && Enabled(s, a) && (a.Join? || a.AbortTask?)
    ensures BoundsOk(Step(s, a))
  {
    RemovalKeepsBounds(s, Step(s, a), a.t);
  }

  lemma OtherKeepsBounds(s: Loop, a: Action)
    requires BoundsOk(s) && Enabled(s, a)
    requires a.SessionError? || a.Read? || a.NoticeWorker? || a.EndStop? || a.Borrow? || a.Return?
    ensures BoundsOk(Step(s, a))
  {
    SameBounds(s, Step(s, a));
  }

  /** A task has moved on; nothing has changed places. */
  lemma MoveKeepsBounds(s: Loop, s': Loop, t: nat)
    requires BoundsOk(s) && t in s.tasks && t in s'.tasks && s'.tasks == s.tasks[t := s'.tasks[t]]
    requires s'.queue == s.queue && s'.worker == s.worker && s'.settled == s.settled && s'.lost == s.lost
    requires s'.workerAlive == s.workerAlive && s'.capacity == s.capacity && s'.maximum == s.maximum
    requires s'.permits == s.permits && s'.elsewhere == s.elsewhere && s'.log == s.log
    ensures BoundsOk(s')
  {
    SameBounds(s, s');
  }

  lemma TaskKeepsBounds(s: Loop, a: Action)
    requires BoundsOk(s) && Enabled(s, a)
    requires a.Admit? || a.Finish? || a.OverflowWins? || a.Submit? || a.Confirm?
    ensures BoundsOk(Step(s, a))
  {
    match a
    case Admit(t, passes) => MoveKeepsBounds(s, AdmitStep(s, t, passes), t);
    case Finish(t, success) => MoveKeepsBounds(s, FinishStep(s, t, success), t);
    case OverflowWins(t) => MoveKeepsBounds(s, Decide(s, t, false, true), t);
    case Submit(t) => MoveKeepsBounds(s, Step(s, a), t);
    case Confirm(t, _) => MoveKeepsBounds(s, Step(s, a), t);
  }

  // ---- one completion each ----

  predicate Undecided(task: Task) {
    task.phase.Admitting? || task.phase.Handling?
  }

  /** Tracked, and not yet finished with its tracking. */
  predicate Live(task: Task) {
    task.tracked && !task.phase.Done?
  }

  predicate TaskOk(log: seq<Event>, t: nat, task: Task, completed: seq<nat>, results: map<nat, bool>) {
    && t < |log| && log[t] == Invoked(task.id, task.node, task.duplex)
    && (Undecided(task) ==> task.tracked && t !in results)
    && (!Undecided(task) ==> t in results)
    && (Undecided(task) || task.phase.Decided? ==> t !in completed)
  }

  /** Tasks are their events', a result is there exactly once decided, and nothing has
      two completions. */
  ghost predicate JobsOk(
      log: seq<Event>, tasks: map<nat, Task>, queue: seq<nat>, completed: seq<nat>, results: map<nat, bool>)
  {
    && (forall t :: t in tasks ==> TaskOk(log, t, tasks[t], completed, results))
    && (forall i, j :: 0 <= i < j < |completed| ==> completed[i] != completed[j])
    && (forall i :: i in completed ==> NamesInvocation(log, i))
    && (forall i :: i in queue ==> i !in completed)
    && (forall i :: i in results ==> NamesInvocation(log, i))
  }

  ghost predicate TasksOk(s: Loop) {
    JobsOk(s.log, s.tasks, s.queue, s.completed, s.results)
  }

  lemma InQueueMeansPlaced(s: Loop, i: nat)
    requires BoundsOk(s)
    ensures i in s.queue ==> i !in s.tasks && IsInvocation(s, i) && s.worker != Some(i)
    ensures i in s.tasks ==> IsInvocation(s, i)
  {
    assert i in s.queue <==> multiset(s.queue)[i] > 0;
    assert s.Places(i) == if IsInvocation(s, i) then 1 else 0;
  }

  lemma LoggingKeepsJobs(
      log: seq<Event>, event: Event, tasks: map<nat, Task>, queue: seq<nat>, completed: seq<nat>, results: map<nat, bool>)
    requires JobsOk(log, tasks, queue, completed, results)
    ensures JobsOk(log + [event], tasks, queue, completed, results)
  {
    forall t | t in tasks ensures TaskOk(log + [event], t, tasks[t], completed, results) {
      assert TaskOk(log, t, tasks[t], completed, results);
    }
  }

  /** A task for the last event of the log. */
  lemma SpawningKeepsJobs(
      log: seq<Event>, task: Task, tasks: map<nat, Task>, queue: seq<nat>, completed: seq<nat>, results: map<nat, bool>)
    requires log != [] && log[|log| - 1] == Invoked(task.id, task.node, task.duplex)
    requires JobsOk(log, tasks, queue, completed, results) && |log| - 1 !in completed && |log| - 1 !in results
    requires if task.tracked then task.phase.Admitting? else task.phase.Decided?
    ensures JobsOk(log, tasks[|log| - 1 := task], queue, completed,
                   if task.tracked then results else results[|log| - 1 := false])
  {
    var results' := if task.tracked then results else results[|log| - 1 := false];
    forall t | t in tasks && t != |log| - 1 ensures TaskOk(log, t, tasks[t], completed, results') {
      assert TaskOk(log, t, tasks[t], completed, results);
    }
  }

  /** Items taken off the queue, or put on it before anything was completed for them. */
  lemma QueueingKeepsJobs(
      log: seq<Event>, tasks: map<nat, Task>, queue: seq<nat>, queue': seq<nat>, completed: seq<nat>, results: map<nat, bool>)
    requires JobsOk(log, tasks, queue, completed, results)
    requires forall i :: i in queue' ==> i in queue || i !in completed
    ensures JobsOk(log, tasks, queue', completed, results)
  {
  }

  lemma DecidingKeepsJobs(
      log: seq<Event>, tasks: map<nat, Task>, queue: seq<nat>, completed: seq<nat>, results: map<nat, bool>,
      t: nat, success: bool)
    requires JobsOk(log, tasks, queue, completed, results) && t in tasks && Undecided(tasks[t])
    ensures JobsOk(log, tasks[t := tasks[t].(phase := Decided)], queue, completed, results[t := success])
  {
    var tasks', results' := tasks[t := tasks[t].(phase := Decided)], results[t := success];
    assert TaskOk(log, t, tasks[t], completed, results);
    forall u | u in tasks' ensures TaskOk(log, u, tasks'[u], completed, results') {
      assert TaskOk(log, u, tasks[u], completed, results);
    }
  }

  lemma AdvancingKeepsJobs(
      log: seq<Event>, tasks: map<nat, Task>, queue: seq<nat>, completed: seq<nat>, results: map<nat, bool>,
      t: nat, phase: TaskPhase)
    requires JobsOk(log, tasks, queue, completed, results) && t in tasks
    requires (phase.Handling? && Undecided(tasks[t])) || (phase.Done? && tasks[t].phase.Submitting?)
    ensures JobsOk(log, tasks[t := tasks[t].(phase := phase)], queue, completed, results)
  {
    var tasks' := tasks[t := tasks[t].(phase := phase)];
    forall u | u in tasks' ensures TaskOk(log, u, tasks'[u], completed, results) {
      assert TaskOk(log, u, tasks[u], completed, results);
    }
  }

  lemma LeavingKeepsJobs(
      log: seq<Event>, tasks: map<nat, Task>, queue: seq<nat>, completed: seq<nat>, results: map<nat, bool>, t: nat)
    requires JobsOk(log, tasks, queue, completed, results)
    ensures JobsOk(log, tasks - {t}, queue, completed, results)
  {
    forall u | u in tasks - {t} ensures TaskOk(log, u, tasks[u], completed, results) { }
  }

  /** One more completion, for something that is neither queued nor a task that still
      owes one. */
  lemma CompletingKeepsJobs(
      log: seq<Event>, tasks: map<nat, Task>, queue: seq<nat>, completed: seq<nat>, results: map<nat, bool>, i: nat)
    requires JobsOk(log, tasks, queue, completed, results)
    requires NamesInvocation(log, i) && i !in completed && i !in queue
    requires i in tasks ==> tasks[i].phase.Submitting? || tasks[i].phase.Done?
    ensures JobsOk(log, tasks, queue, completed + [i], results)
  {
    forall t | t in tasks ensures TaskOk(log, t, tasks[t], completed + [i], results) {
      assert TaskOk(log, t, tasks[t], completed, results);
    }
  }

  lemma InvokeKeepsTasks(s: Loop, event: Event)
    requires TasksOk(s) && event.Invoked?
    ensures TasksOk(InvokeStep(s, event))
  {
    var i, s' := |s.log|, InvokeStep(s, event);
    assert !NamesInvocation(s.log, i);
    LoggingKeepsJobs(s.log, event, s.tasks, s.queue, s.completed, s.results);
    if s.permits > 0 {
      assert s'.tasks == s.tasks[i := s'.tasks[i]];
      SpawningKeepsJobs(s'.log, s'.tasks[i], s.tasks, s.queue, s.completed, s.results);
    } else {
      QueueingKeepsJobs(s'.log, s.tasks, s.queue, s'.queue, s.completed, s.results);
    }
  }

  lemma DecideKeepsTasks(s: Loop, t: nat, success: bool, cancel: bool)
    requires TasksOk(s) && t in s.tasks && Undecided(s.tasks[t])
    ensures TasksOk(Decide(s, t, success, cancel))
  {
    DecidingKeepsJobs(s.log, s.tasks, s.queue, s.completed, s.results, t, success);
  }

  lemma AdmitKeepsTasks(s: Loop, t: nat, passes: bool)
    requires TasksOk(s) && t in s.tasks && Undecided(s.tasks[t])
    ensures TasksOk(AdmitStep(s, t, passes))
  {
    DecideKeepsTasks(s, t, false, true);
    DecideKeepsTasks(s, t, false, false);
    AdvancingKeepsJobs(s.log, s.tasks, s.queue, s.completed, s.results, t, Handling);
  }

  lemma OutcomeKeepsTasks(s: Loop, a: Action)
    requires TasksOk(s) && Enabled(s, a) && (a.Admit? || a.Finish? || a.OverflowWins?)
    ensures TasksOk(Step(s, a))
  {
    match a
    case Admit(t, passes) => AdmitKeepsTasks(s, t, passes);
    case Finish(t, success) =>
      DecideKeepsTasks(s, t, false, true);
      DecideKeepsTasks(s, t, success, false);
    case OverflowWins(t) => DecideKeepsTasks(s, t, false, true);
  }

  lemma SubmitKeepsTasks(s: Loop, t: nat)
    requires BoundsOk(s) && TasksOk(s) && Enabled(s, Submit(t))
    ensures TasksOk(Step(s, Submit(t)))
  {
    assert TaskOk(s.log, t, s.tasks[t], s.completed, s.results);
    var tasks' := At(s, t, Submitting).tasks;
    forall u | u in tasks' ensures TaskOk(s.log, u, tasks'[u], s.completed, s.results) {
      assert TaskOk(s.log, u, s.tasks[u], s.completed, s.results);
    }
    InQueueMeansPlaced(s, t);
    CompletingKeepsJobs(s.log, tasks', s.queue, s.completed, s.results, t);
  }

  lemma HeadOfQueueIsPlaced(s: Loop)
    requires BoundsOk(s) && s.queue != []
    ensures var head := s.queue[0]; head !in s.queue[1..] && head !in s.tasks && NamesInvocation(s.log, head)
  {
    var head := s.queue[0];
    assert head in s.queue;
    InQueueMeansPlaced(s, head);
    assert s.queue == [head] + s.queue[1..];
    assert s.Places(head) == 1;
    assert multiset(s.queue)[head] == 1 + multiset(s.queue[1..])[head];
  }

  lemma WorkerTakeKeepsTasks(s: Loop)
    requires BoundsOk(s) && TasksOk(s) && Enabled(s, WorkerTake)
    ensures TasksOk(Step(s, WorkerTake))
  {
    HeadOfQueueIsPlaced(s);
    assert s.queue[0] in s.queue;
    QueueingKeepsJobs(s.log, s.tasks, s.queue, s.queue[1..], s.completed, s.results);
    CompletingKeepsJobs(s.log, s.tasks, s.queue[1..], s.completed, s.results, s.queue[0]);
  }

  lemma WorkerEndsKeepsTasks(s: Loop)
    requires TasksOk(s)
    ensures TasksOk(WorkerEnds(s))
  {
    QueueingKeepsJobs(s.log, s.tasks, s.queue, [], s.completed, s.results);
  }

  lemma StepKeepsTasks(s: Loop, a: Action)
    requires BoundsOk(s) && TasksOk(s) && Enabled(s, a)
    ensures TasksOk(Step(s, a))
  {
    match a
    case Receive(event) => ReceiveKeepsTasks(s, event);
    case Admit(_, _) | Finish(_, _) | OverflowWins(_) => OutcomeKeepsTasks(s, a);
    case Confirm(t, ok) => AdvancingKeepsJobs(s.log, s.tasks, s.queue, s.completed, s.results, t, Done(ok));
    case Submit(t) => SubmitKeepsTasks(s, t);
    case WorkerTake => WorkerTakeKeepsTasks(s);
    case WorkerDone(_) | AbortWorker => WorkerEndsKeepsTasks(s);
    case Join(_) | AbortTask(_) => LeaveKeepsTasks(s, a);
    case _ =>
  }

  lemma ReceiveKeepsTasks(s: Loop, event: Event)
    requires TasksOk(s)
    ensures TasksOk(ReceiveStep(s, event))
  {
    if event.Invoked? { InvokeKeepsTasks(s, event); }
    LoggingKeepsJobs(s.log, event, s.tasks, s.queue, s.completed, s.results);
  }

  lemma LeaveKeepsTasks(s: Loop, a: Action)
    requires TasksOk(s) && Enabled(s, a) && (a.Join? || a.AbortTask?)
    ensures TasksOk(Step(s, a))
  {
    LeavingKeepsJobs(s.log, s.tasks, s.queue, s.completed, s.results, a.t);
  }

  // ---- the map of live invocations, and where input goes ----

  function Matching(events: seq<Event>, id: string, node: string): seq<Duplex.Frame> {
    if events == [] then []
    else
      var last := events[|events| - 1];
      Matching(events[..|events| - 1], id, node)
      + if last.InputEvent? && last.id == id && last.node == node then [Duplex.Frame(last.seqNo, last.payload)] else []
  }

  lemma MatchingAppends(log: seq<Event>, t: nat, event: Event, id: string, node: string)
    requires t < |log|
    ensures Matching((log + [event])[t + 1..], id, node)
         == Matching(log[t + 1..], id, node)
            + if event.InputEvent? && event.id == id && event.node == node
              then [Duplex.Frame(event.seqNo, event.payload)] else []
  {
    var after := (log + [event])[t + 1..];
    assert after == log[t + 1..] + [event];
    assert after[..|after| - 1] == log[t + 1..];
  }

  /** Until the loop stops, the map leads from each id to the one live task that has it. */
  ghost predicate EntriesOk(running: bool, tasks: map<nat, Task>, entries: map<string, A.Entry>) {
    && (!running ==> entries == map[])
    && (forall id :: id in entries ==> LeadsToLive(tasks, id, entries[id]))
    && (running ==> forall t :: t in tasks && Live(tasks[t]) ==>
          tasks[t].id in entries && entries[tasks[t].id].owner == t)
  }

  predicate LeadsToLive(tasks: map<nat, Task>, id: string, entry: A.Entry) {
    entry.owner in tasks && Live(tasks[entry.owner])
    && tasks[entry.owner].id == id && tasks[entry.owner].node == entry.node
  }

  ghost predicate MapOk(s: Loop) {
    EntriesOk(s.phase.Running?, s.tasks, s.table.entries)
  }

  lemma TrackingKeepsEntries(tasks: map<nat, Task>, entries: map<string, A.Entry>, t: nat, task: Task)
    requires EntriesOk(true, tasks, entries) && t !in tasks && task.id !in entries && Live(task)
    ensures EntriesOk(true, tasks[t := task], entries[task.id := A.Entry(t, task.node)])
  {
  }

  lemma RefusingKeepsEntries(tasks: map<nat, Task>, entries: map<string, A.Entry>, t: nat, task: Task)
    requires EntriesOk(true, tasks, entries) && t !in tasks && !Live(task)
    ensures EntriesOk(true, tasks[t := task], entries)
  {
  }

  lemma AdvancingKeepsEntries(running: bool, tasks: map<nat, Task>, entries: map<string, A.Entry>, t: nat, phase: TaskPhase)
    requires EntriesOk(running, tasks, entries) && t in tasks && !phase.Done? && !tasks[t].phase.Done?
    ensures EntriesOk(running, tasks[t := tasks[t].(phase := phase)], entries)
  {
    var tasks' := tasks[t := tasks[t].(phase := phase)];
    forall id | id in entries ensures LeadsToLive(tasks', id, entries[id]) {
      assert LeadsToLive(tasks, id, entries[id]);
    }
  }

  lemma FinishingKeepsEntries(running: bool, tasks: map<nat, Task>, entries: map<string, A.Entry>, t: nat, ok: bool)
    requires EntriesOk(running, tasks, entries) && t in tasks && !tasks[t].phase.Done?
    ensures EntriesOk(running, tasks[t := tasks[t].(phase := Done(ok))],
                      if tasks[t].tracked then entries - {tasks[t].id} else entries)
  {
    var tasks' := tasks[t := tasks[t].(phase := Done(ok))];
    var entries' := if tasks[t].tracked then entries - {tasks[t].id} else entries;
    forall id | id in entries' ensures LeadsToLive(tasks', id, entries'[id]) {
      assert LeadsToLive(tasks, id, entries[id]);
    }
  }

  lemma LeavingKeepsEntries(running: bool, tasks: map<nat, Task>, entries: map<string, A.Entry>, t: nat)
    requires EntriesOk(running, tasks, entries) && t in tasks && !Live(tasks[t])
    ensures EntriesOk(running, tasks - {t}, entries)
  {
    forall id | id in entries ensures LeadsToLive(tasks - {t}, id, entries[id]) {
      assert LeadsToLive(tasks, id, entries[id]);
    }
  }

  /** Once the loop stops there are no entries, whatever the tasks do. */
  lemma NoEntriesAreOk(tasks: map<nat, Task>)
    ensures EntriesOk(false, tasks, map[])
  {
  }

  lemma InvokeKeepsMap(s: Loop, event: Event)
    requires BoundsOk(s) && MapOk(s) && s.phase.Running? && event.Invoked?
    ensures MapOk(InvokeStep(s, event))
  {
    var i, s' := |s.log|, InvokeStep(s, event);
    assert s.Places(i) == 0;
    if s.permits > 0 {
      var task := s'.tasks[i];
      if task.tracked { TrackingKeepsEntries(s.tasks, s.table.entries, i, task); }
      else { RefusingKeepsEntries(s.tasks, s.table.entries, i, task); }
    } else {
      NoEntriesAreOk(s.tasks);
    }
  }

  lemma RouteKeepsEntries(s: Loop, event: Event)
    requires !event.Invoked?
    ensures ReceiveStep(s, event).table.entries == s.table.entries
  {
  }

  lemma AtKeepsMap(s: Loop, t: nat, phase: TaskPhase)
    requires MapOk(s) && t in s.tasks && !phase.Done? && !s.tasks[t].phase.Done?
    ensures MapOk(At(s, t, phase))
  {
    AdvancingKeepsEntries(s.phase.Running?, s.tasks, s.table.entries, t, phase);
  }

  lemma DecideKeepsMap(s: Loop, t: nat, success: bool, cancel: bool)
    requires MapOk(s) && t in s.tasks && !s.tasks[t].phase.Done?
    ensures MapOk(Decide(s, t, success, cancel))
  {
    AdvancingKeepsEntries(s.phase.Running?, s.tasks, s.table.entries, t, Decided);
  }

  lemma AdvanceKeepsMap(s: Loop, a: Action)
    requires MapOk(s) && Enabled(s, a) && (a.Admit? || a.Finish? || a.OverflowWins? || a.Submit?)
    ensures MapOk(Step(s, a))
  {
    DecideKeepsMap(s, a.t, false, true);
    match a
    case Admit(t, _) =>
      DecideKeepsMap(s, t, false, false);
      AtKeepsMap(s, t, Handling);
    case Finish(t, success) => DecideKeepsMap(s, t, success, false);
    case OverflowWins(_) =>
    case Submit(t) => AtKeepsMap(s, t, Submitting);
  }

  lemma LeaveKeepsMap(s: Loop, a: Action)
    requires MapOk(s) && Enabled(s, a) && (a.Join? || a.AbortTask?)
    ensures MapOk(Step(s, a))
  {
    NoEntriesAreOk(s.tasks - {a.t});
    if a.Join? { LeavingKeepsEntries(s.phase.Running?, s.tasks, s.table.entries, a.t); }
  }

  lemma StepKeepsMap(s: Loop, a: Action)
    requires BoundsOk(s) && MapOk(s) && Enabled(s, a)
    ensures MapOk(Step(s, a))
  {
    match a
    case Receive(event) => if event.Invoked? { InvokeKeepsMap(s, event); } else { RouteKeepsEntries(s, event); }
    case Confirm(t, ok) => FinishingKeepsEntries(s.phase.Running?, s.tasks, s.table.entries, t, ok);
    case Admit(_, _) | Finish(_, _) | OverflowWins(_) | Submit(_) => AdvanceKeepsMap(s, a);
    case Join(_) | AbortTask(_) => LeaveKeepsMap(s, a);
    case SessionError | NoticeWorker | EndStop => NoEntriesAreOk(s.tasks);
    case _ =>
  }

  // ---- buffers ----

  /** A buffer has been offered nothing but its invocation's own input, in order, and
      all of it while the invocation lives. */
  ghost predicate BufferOk(log: seq<Event>, t: nat, buffer: Duplex.Input, live: bool) {
    && NamesInvocation(log, t) && log[t].duplex
    && Duplex.InputOk(buffer, Duplex.PENDING_INPUT_BYTES)
    && buffer.offered <= Matching(log[t + 1..], log[t].id, log[t].node)
    && (live ==> buffer.offered == Matching(log[t + 1..], log[t].id, log[t].node))
  }

  /** Whether input can still reach a buffer. */
  predicate Reachable(running: bool, tasks: map<nat, Task>, t: nat) {
    running && t in tasks && Live(tasks[t])
  }

  ghost predicate BuffersFit(running: bool, log: seq<Event>, tasks: map<nat, Task>, buffers: map<nat, Duplex.Input>) {
    && (forall t :: t in buffers ==> BufferOk(log, t, buffers[t], Reachable(running, tasks, t)))
    && (forall t :: t in tasks && Live(tasks[t]) && tasks[t].duplex ==> t in buffers)
  }

  ghost predicate BuffersOk(s: Loop) {
    BuffersFit(s.phase.Running?, s.log, s.tasks, s.table.buffers)
  }

  /** The tasks that live were alive before, as they are. */
  ghost predicate NobodyNew(tasks: map<nat, Task>, tasks': map<nat, Task>) {
    forall t :: t in tasks' && Live(tasks'[t]) ==> t in tasks && Live(tasks[t]) && tasks'[t].duplex == tasks[t].duplex
  }

  /** Some buffers closed, some invocations no longer alive. */
  lemma ClosingKeepsBuffers(
      running: bool, running': bool, log: seq<Event>, tasks: map<nat, Task>, tasks': map<nat, Task>,
      buffers: map<nat, Duplex.Input>, owners: set<A.Tracking>)
    requires BuffersFit(running, log, tasks, buffers) && NobodyNew(tasks, tasks') && (running' ==> running)
    ensures BuffersFit(running', log, tasks', A.Closed(buffers, owners))
  {
    var buffers' := A.Closed(buffers, owners);
    forall t | t in buffers' ensures BufferOk(log, t, buffers'[t], Reachable(running', tasks', t)) {
      assert BufferOk(log, t, buffers[t], Reachable(running, tasks, t));
      CloseKeepsInput(buffers[t]);
    }
  }

  lemma CloseKeepsInput(buffer: Duplex.Input)
    requires Duplex.InputOk(buffer, Duplex.PENDING_INPUT_BYTES)
    ensures Duplex.InputOk(Duplex.CloseStep(buffer), Duplex.PENDING_INPUT_BYTES)
  {
  }

  lemma NothingClosed(buffers: map<A.Tracking, Duplex.Input>)
    ensures A.Closed(buffers, {}) == buffers
  {
  }

  lemma LoggingKeepsBuffer(log: seq<Event>, event: Event, t: nat, buffer: Duplex.Input, live: bool)
    requires BufferOk(log, t, buffer, live)
    requires live ==> !event.InputEvent? || event.id != log[t].id || event.node != log[t].node
    ensures BufferOk(log + [event], t, buffer, live)
  {
    MatchingAppends(log, t, event, log[t].id, log[t].node);
    assert (log + [event])[t] == log[t];
  }

  lemma LoggingKeepsBuffers(running: bool, log: seq<Event>, event: Event, tasks: map<nat, Task>, buffers: map<nat, Duplex.Input>)
    requires BuffersFit(running, log, tasks, buffers) && !event.InputEvent?
    ensures BuffersFit(running, log + [event], tasks, buffers)
  {
    forall t | t in buffers ensures BufferOk(log + [event], t, buffers[t], Reachable(running, tasks, t)) {
      LoggingKeepsBuffer(log, event, t, buffers[t], Reachable(running, tasks, t));
    }
  }

  /** A fresh buffer for the last event of the log. */
  lemma FreshBufferIsOk(log: seq<Event>, live: bool)
    requires log != [] && log[|log| - 1].Invoked? && log[|log| - 1].duplex
    ensures BufferOk(log, |log| - 1, Duplex.EMPTY_INPUT, live)
  {
    assert log[|log|..] == [];
  }

  lemma TrackingKeepsBuffers(log: seq<Event>, tasks: map<nat, Task>, buffers: map<nat, Duplex.Input>, task: Task)
    requires log != [] && log[|log| - 1] == Invoked(task.id, task.node, task.duplex)
    requires BuffersFit(true, log, tasks, buffers) && |log| - 1 !in tasks
    ensures BuffersFit(true, log, tasks[|log| - 1 := task],
                       if task.duplex then buffers[|log| - 1 := Duplex.EMPTY_INPUT] else buffers)
  {
    var i := |log| - 1;
    var tasks' := tasks[i := task];
    var buffers' := if task.duplex then buffers[i := Duplex.EMPTY_INPUT] else buffers;
    forall t | t in buffers' ensures BufferOk(log, t, buffers'[t], Reachable(true, tasks', t)) {
      if t == i && task.duplex {
        FreshBufferIsOk(log, Reachable(true, tasks', i));
      } else {
        assert BufferOk(log, t, buffers[t], Reachable(true, tasks, t));
      }
    }
  }

  lemma InvokeKeepsBuffers(s: Loop, event: Event)
    requires BoundsOk(s) && BuffersOk(s) && s.phase.Running? && event.Invoked?
    ensures BuffersOk(InvokeStep(s, event))
  {
    var i, s' := |s.log|, InvokeStep(s, event);
    assert s.Places(i) == 0;
    LoggingKeepsBuffers(true, s.log, event, s.tasks, s.table.buffers);
    if s.permits > 0 && event.id !in s.table.entries {
      TrackingKeepsBuffers(s'.log, s.tasks, s.table.buffers, s'.tasks[i]);
    } else {
      NothingClosed(s.table.buffers);
      var closing := if s'.phase.Running? then {} else A.Owners(s.table.entries);
      ClosingKeepsBuffers(true, s'.phase.Running?, s'.log, s.tasks, s'.tasks, s.table.buffers, closing);
    }
  }

  /** Whether an input event reaches this tracking's buffer. */
  predicate Reaches(s: Loop, event: Event, t: nat) {
    && event.InputEvent? && event.id in s.table.entries
    && s.table.entries[event.id] == A.Entry(t, event.node)
  }

  lemma ReachedBufferTakesInput(s: Loop, event: Event, t: nat)
    requires t in s.table.buffers && Reaches(s, event, t)
    ensures t in ReceiveStep(s, event).table.buffers
    ensures var (after, disposition) :=
              Duplex.PushStep(s.table.buffers[t], Duplex.PENDING_INPUT_BYTES, event.seqNo, event.payload);
            ReceiveStep(s, event).table.buffers[t] == if disposition.Overflow? then Duplex.CloseStep(after) else after
  {
  }

  lemma OtherBuffersKeepStill(s: Loop, event: Event, t: nat)
    requires t in s.table.buffers && event.InputEvent? && !Reaches(s, event, t)
    ensures t in ReceiveStep(s, event).table.buffers && ReceiveStep(s, event).table.buffers[t] == s.table.buffers[t]
  {
  }

  /** A buffer that is offered the next input that names it. */
  lemma OfferingKeepsBuffer(log: seq<Event>, event: Event, t: nat, buffer: Duplex.Input, live: bool)
    requires BufferOk(log, t, buffer, true) && event.InputEvent? && event.id == log[t].id && event.node == log[t].node
    ensures var (after, disposition) := Duplex.PushStep(buffer, Duplex.PENDING_INPUT_BYTES, event.seqNo, event.payload);
            BufferOk(log + [event], t, if disposition.Overflow? then Duplex.CloseStep(after) else after, live)
  {
    MatchingAppends(log, t, event, log[t].id, log[t].node);
    assert (log + [event])[t] == log[t];
    var after := Duplex.PushStep(buffer, Duplex.PENDING_INPUT_BYTES, event.seqNo, event.payload).0;
    Duplex.PushKeepsInput(buffer, Duplex.PENDING_INPUT_BYTES, event.seqNo, event.payload);
    CloseKeepsInput(after);
    assert after.offered == buffer.offered + [Duplex.Frame(event.seqNo, event.payload)];
  }

  /** Input goes to the live invocation it names, if there is one on that node, and to
      no other. */
  lemma InputKeepsBuffer(s: Loop, event: Event, t: nat)
    requires TasksOk(s) && MapOk(s) && BuffersOk(s) && s.phase.Running? && event.InputEvent?
    requires t in s.table.buffers
    ensures t in ReceiveStep(s, event).table.buffers
    ensures BufferOk(s.log + [event], t, ReceiveStep(s, event).table.buffers[t], Reachable(true, s.tasks, t))
  {
    var live := Reachable(true, s.tasks, t);
    assert BufferOk(s.log, t, s.table.buffers[t], live);
    if live { assert TaskOk(s.log, t, s.tasks[t], s.completed, s.results); }
    if Reaches(s, event, t) {
      assert LeadsToLive(s.tasks, event.id, s.table.entries[event.id]);
      ReachedBufferTakesInput(s, event, t);
      OfferingKeepsBuffer(s.log, event, t, s.table.buffers[t], live);
    } else {
      OtherBuffersKeepStill(s, event, t);
      if live {
        assert LeadsToLive(s.tasks, s.tasks[t].id, s.table.entries[s.tasks[t].id]);
        assert !(event.id == s.log[t].id && event.node == s.log[t].node);
      }
      LoggingKeepsBuffer(s.log, event, t, s.table.buffers[t], live);
    }
  }

  lemma InputKeepsBuffers(s: Loop, event: Event)
    requires TasksOk(s) && MapOk(s) && BuffersOk(s) && s.phase.Running? && event.InputEvent?
    ensures BuffersOk(ReceiveStep(s, event))
  {
    var buffers' := ReceiveStep(s, event).table.buffers;
    assert buffers'.Keys == s.table.buffers.Keys;
    forall t | t in buffers' ensures BufferOk(s.log + [event], t, buffers'[t], Reachable(true, s.tasks, t)) {
      InputKeepsBuffer(s, event, t);
    }
  }

  lemma CancelKeepsBuffers(s: Loop, event: Event)
    requires BuffersOk(s) && s.phase.Running? && event.CancelEvent?
    ensures BuffersOk(ReceiveStep(s, event))
  {
    LoggingKeepsBuffers(true, s.log, event, s.tasks, s.table.buffers);
    NothingClosed(s.table.buffers);
    var closing := if event.id in s.table.entries then {s.table.entries[event.id].owner} else {};
    ClosingKeepsBuffers(true, true, s.log + [event], s.tasks, s.tasks, s.table.buffers, closing);
  }

  lemma ReceiveKeepsBuffers(s: Loop, event: Event)
    requires BoundsOk(s) && TasksOk(s) && MapOk(s) && BuffersOk(s) && s.phase.Running?
    ensures BuffersOk(ReceiveStep(s, event))
  {
    match event
    case Invoked(_, _, _) => InvokeKeepsBuffers(s, event);
    case InputEvent(_, _, _, _) => InputKeepsBuffers(s, event);
    case CancelEvent(_) => CancelKeepsBuffers(s, event);
  }

  lemma ReadingKeepsBuffers(running: bool, log: seq<Event>, tasks: map<nat, Task>, buffers: map<nat, Duplex.Input>, t: nat)
    requires BuffersFit(running, log, tasks, buffers) && t in buffers
    ensures BuffersFit(running, log, tasks, buffers[t := Duplex.ReceiveStep(buffers[t]).0])
  {
    var buffers' := buffers[t := Duplex.ReceiveStep(buffers[t]).0];
    forall u | u in buffers' ensures BufferOk(log, u, buffers'[u], Reachable(running, tasks, u)) {
      assert BufferOk(log, u, buffers[u], Reachable(running, tasks, u));
      if u == t { Duplex.ReceiveKeepsInput(buffers[t], Duplex.PENDING_INPUT_BYTES); }
    }
  }

  /** Whose buffer goes with a task's tracking. */
  function OwnerUnder(s: Loop, t: nat): set<A.Tracking>
    requires t in s.tasks
  {
    if s.tasks[t].tracked && !s.tasks[t].phase.Done? && s.tasks[t].id in s.table.entries
    then {s.table.entries[s.tasks[t].id].owner} else {}
  }

  lemma ReleasingCloses(s: Loop, t: nat, armed: bool)
    requires t in s.tasks
    ensures ReleaseTracking(s, t, armed).buffers == A.Closed(s.table.buffers, OwnerUnder(s, t))
  {
    NothingClosed(s.table.buffers);
  }

  lemma ReleaseKeepsBuffers(s: Loop, a: Action)
    requires BuffersOk(s) && Enabled(s, a) && (a.Confirm? || a.AbortTask?)
    ensures BuffersOk(Step(s, a))
  {
    var s' := Step(s, a);
    ReleasingCloses(s, a.t, if a.Confirm? then !a.ok else true);
    ClosingKeepsBuffers(s.phase.Running?, s.phase.Running?, s.log, s.tasks, s'.tasks, s.table.buffers, OwnerUnder(s, a.t));
  }

  /** The loop stops, or a task moves on, and nothing else. */
  lemma QuietKeepsBuffers(s: Loop, s': Loop)
    requires BuffersOk(s) && s'.log == s.log && NobodyNew(s.tasks, s'.tasks)
    requires s'.table.buffers == s.table.buffers && (s'.phase.Running? ==> s.phase.Running?)
    ensures BuffersOk(s')
  {
    NothingClosed(s.table.buffers);
    ClosingKeepsBuffers(s.phase.Running?, s'.phase.Running?, s.log, s.tasks, s'.tasks, s.table.buffers, {});
  }

  lemma StopKeepsBuffers(s: Loop)
    requires BuffersOk(s)
    ensures BuffersOk(Stop(s))
  {
    ClosingKeepsBuffers(s.phase.Running?, false, s.log, s.tasks, s.tasks, s.table.buffers, A.Owners(s.table.entries));
  }

  lemma JoinKeepsBuffers(s: Loop, t: nat)
    requires BuffersOk(s) && t in s.tasks
    ensures BuffersOk(JoinStep(s, t))
  {
    var joined := s.(tasks := s.tasks - {t}, permits := s.permits + 1, settled := s.settled + {t});
    QuietKeepsBuffers(s, joined);
    StopKeepsBuffers(joined);
  }

  lemma AtKeepsBuffers(s: Loop, t: nat, phase: TaskPhase)
    requires BuffersOk(s) && t in s.tasks && (!phase.Done? ==> !s.tasks[t].phase.Done?)
    ensures BuffersOk(At(s, t, phase))
  {
    QuietKeepsBuffers(s, At(s, t, phase));
  }

  lemma DecideKeepsBuffers(s: Loop, t: nat, success: bool, cancel: bool)
    requires BuffersOk(s) && t in s.tasks && !s.tasks[t].phase.Done?
    ensures BuffersOk(Decide(s, t, success, cancel))
  {
    AtKeepsBuffers(s, t, Decided);
    QuietKeepsBuffers(At(s, t, Decided), Decide(s, t, success, cancel));
  }

  lemma AdvanceKeepsBuffers(s: Loop, a: Action)
    requires BuffersOk(s) && Enabled(s, a) && (a.Admit? || a.Finish? || a.OverflowWins? || a.Submit?)
    ensures BuffersOk(Step(s, a))
  {
    DecideKeepsBuffers(s, a.t, false, true);
    match a
    case Admit(t, _) =>
      DecideKeepsBuffers(s, t, false, false);
      AtKeepsBuffers(s, t, Handling);
    case Finish(t, success) => DecideKeepsBuffers(s, t, success, false);
    case OverflowWins(_) =>
    case Submit(t) => AtKeepsBuffers(s, t, Submitting);
  }

  lemma StepKeepsBuffers(s: Loop, a: Action)
    requires BoundsOk(s) && TasksOk(s) && MapOk(s) && BuffersOk(s) && Enabled(s, a)
    ensures BuffersOk(Step(s, a))
  {
    match a
    case Receive(event) => ReceiveKeepsBuffers(s, event);
    case Read(t) => ReadingKeepsBuffers(s.phase.Running?, s.log, s.tasks, s.table.buffers, t);
    case SessionError | NoticeWorker => StopKeepsBuffers(s);
    case Confirm(_, _) | AbortTask(_) => ReleaseKeepsBuffers(s, a);
    case Join(t) => JoinKeepsBuffers(s, t);
    case Admit(_, _) | Finish(_, _) | OverflowWins(_) | Submit(_) => AdvanceKeepsBuffers(s, a);
    case EndStop => QuietKeepsBuffers(s, Step(s, a));
    case _ =>
  }

  // ---- runs ----

  ghost predicate LoopOk(s: Loop) {
    BoundsOk(s) && TasksOk(s) && MapOk(s) && BuffersOk(s)
  }

  lemma StepKeepsLoop(s: Loop, a: Action)
    requires LoopOk(s) && Enabled(s, a)
    ensures LoopOk(Step(s, a))
  {
    StepKeepsBounds(s, a);
    StepKeepsTasks(s, a);
    StepKeepsMap(s, a);
    StepKeepsBuffers(s, a);
  }

  predicate IsRun(s: Loop, actions: seq<Action>)
    decreases |actions|
  {
    actions == [] || (Enabled(s, actions[0]) && IsRun(Step(s, actions[0]), actions[1..]))
  }

  function After(s: Loop, actions: seq<Action>): Loop
    requires IsRun(s, actions)
    decreases |actions|
  {
    if actions == [] then s else After(Step(s, actions[0]), actions[1..])
  }

  lemma StartIsOk(maximum: nat)
    ensures LoopOk(Start(maximum))
  {
  }

  lemma {:induction false} RunsKeepLoop(s: Loop, actions: seq<Action>)
    requires LoopOk(s) && IsRun(s, actions)
    ensures LoopOk(After(s, actions))
    decreases |actions|
  {
    if actions != [] {
      StepKeepsLoop(s, actions[0]);
      RunsKeepLoop(Step(s, actions[0]), actions[1..]);
    }
  }

  lemma {:induction false} LimitsAreFixed(s: Loop, actions: seq<Action>)
    requires IsRun(s, actions)
    ensures After(s, actions).maximum == s.maximum && After(s, actions).capacity == s.capacity
    decreases |actions|
  {
    if actions != [] { LimitsAreFixed(Step(s, actions[0]), actions[1..]); }
  }

  /** Over every event stream and every interleaving: handler lifecycles, running or not
      yet joined, never exceed the limit; undelivered overload results never exceed the
      queue and the one in the worker; every invocation event is in exactly one place;
      and no event has two completions submitted for it. */
  lemma EveryRunIsBounded(maximum: nat, actions: seq<Action>, i: nat)
    requires IsRun(Start(maximum), actions)
    ensures var s := After(Start(maximum), actions);
            && |s.tasks| <= Max(maximum, 1) && s.permits + s.elsewhere + |s.tasks| == Max(maximum, 1)
            && |s.queue| + (if s.worker.Some? then 1 else 0) <= Max(maximum, 1) + 1
            && s.Places(i) == (if IsInvocation(s, i) then 1 else 0)
            && multiset(s.completed)[i] <= 1
  {
    StartIsOk(maximum);
    RunsKeepLoop(Start(maximum), actions);
    LimitsAreFixed(Start(maximum), actions);
    AtMostOnce(After(Start(maximum), actions).completed, i);
  }

  lemma {:induction false} AtMostOnce(items: seq<nat>, i: nat)
    requires forall j, k :: 0 <= j < k < |items| ==> items[j] != items[k]
    ensures multiset(items)[i] <= 1
  {
    if items != [] {
      var last := |items| - 1;
      AtMostOnce(items[..last], i);
      assert items == items[..last] + [items[last]];
      assert items[last] !in items[..last];
    }
  }

  /** When the loop has stopped, no permit of its own is out, nobody is in the map, and
      every invocation event was either settled or given up. */
  lemma StoppedIsClean(maximum: nat, actions: seq<Action>)
    requires IsRun(Start(maximum), actions) && After(Start(maximum), actions).phase.Stopped?
    ensures var s := After(Start(maximum), actions);
            && s.permits + s.elsewhere == Max(maximum, 1) && s.table.entries == map[]
            && forall i :: 0 <= i < |s.log| && s.log[i].Invoked? ==> (i in s.settled) != (i in s.lost)
  {
    var s := After(Start(maximum), actions);
    StartIsOk(maximum);
    RunsKeepLoop(Start(maximum), actions);
    LimitsAreFixed(Start(maximum), actions);
    StoppedIsEmpty(Start(maximum), actions);
    forall i | 0 <= i < |s.log| && s.log[i].Invoked? ensures (i in s.settled) != (i in s.lost) {
      assert IsInvocation(s, i) && s.Places(i) == 1;
    }
  }

  predicate StoppedOk(s: Loop) {
    s.phase.Stopped? ==> s.tasks == map[] && !s.workerAlive && s.worker.None? && s.queue == []
  }

  lemma StepKeepsStopped(s: Loop, a: Action)
    requires StoppedOk(s) && Enabled(s, a) && (a.EndStop? ==> BoundsOk(s))
    ensures StoppedOk(Step(s, a))
  {
  }

  lemma {:induction false} StoppedIsEmpty(s: Loop, actions: seq<Action>)
    requires LoopOk(s) && IsRun(s, actions) && StoppedOk(s)
    ensures StoppedOk(After(s, actions))
    decreases |actions|
  {
    if actions != [] {
      StepKeepsStopped(s, actions[0]);
      StepKeepsLoop(s, actions[0]);
      StoppedIsEmpty(Step(s, actions[0]), actions[1..]);
    }
  }

  /** While the loop runs, the ids in the map are exactly those of the live invocations,
      and each leads to its own; a duplicate is refused and leaves the map as it was. */
  lemma MapNamesLiveInvocations(maximum: nat, actions: seq<Action>, id: string)
    requires IsRun(Start(maximum), actions) && After(Start(maximum), actions).phase.Running?
    ensures var s := After(Start(maximum), actions);
            && (id in s.table.entries <==> exists t :: t in s.tasks && Live(s.tasks[t]) && s.tasks[t].id == id)
            && (forall t, u | t in s.tasks && u in s.tasks && Live(s.tasks[t]) && Live(s.tasks[u]) ::
                  s.tasks[t].id == s.tasks[u].id ==> t == u)
            && (id in s.table.entries && s.permits > 0 ==> forall node, duplex ::
                  var s' := Step(s, Receive(Invoked(id, node, duplex)));
                  s'.table == s.table && !s'.tasks[|s.log|].tracked)
  {
    StartIsOk(maximum);
    RunsKeepLoop(Start(maximum), actions);
  }

  /** From the input events to the handler: what a duplex handler has read is a prefix
      of the payloads taken, those are the in-order part of what was offered, and what
      was offered is a prefix of the input that named this invocation on its node since
      it was admitted: all of it while the invocation lives. */
  lemma HandlersReadTheirOwnInput(maximum: nat, actions: seq<Action>, t: nat)
    requires IsRun(Start(maximum), actions) && t in After(Start(maximum), actions).table.buffers
    ensures var s := After(Start(maximum), actions);
            var buffer := s.table.buffers[t];
            && IsInvocation(s, t)
            && buffer.received <= Duplex.PayloadsOf(buffer.accepted)
            && buffer.accepted <= Duplex.InOrder(buffer.offered)
            && buffer.offered <= Matching(s.log[t + 1..], s.log[t].id, s.log[t].node)
            && (s.phase.Running? && t in s.tasks && Live(s.tasks[t]) ==>
                  buffer.offered == Matching(s.log[t + 1..], s.log[t].id, s.log[t].node))
            && buffer.bufferedBytes == Duplex.TotalBytes(buffer.queue) <= Duplex.PENDING_INPUT_BYTES
  {
    StartIsOk(maximum);
    RunsKeepLoop(Start(maximum), actions);
    var s := After(Start(maximum), actions);
    assert BufferOk(s.log, t, s.table.buffers[t], Reachable(s.phase.Running?, s.tasks, t));
  }

  // ---- overflow ----

  /** An overflow was flagged before this invocation's outcome, which is not success. */
  ghost predicate Overflown(s: Loop, t: nat) {
    && t < |s.log| && t in s.table.overflowed
    && (t in s.results ==> !s.results[t])
    && (t in s.tasks && Undecided(s.tasks[t]) ==> s.tasks[t].duplex)
  }

  lemma DecideKeepsOverflown(s: Loop, u: nat, success: bool, cancel: bool, t: nat)
    requires Overflown(s, t) && u in s.tasks && (u == t ==> !success)
    ensures Overflown(Decide(s, u, success, cancel), t)
  {
  }

  lemma AtKeepsOverflown(s: Loop, u: nat, phase: TaskPhase, t: nat)
    requires Overflown(s, t) && u in s.tasks && (phase.Admitting? || phase.Handling? ==> Undecided(s.tasks[u]))
    ensures Overflown(At(s, u, phase), t)
  {
  }

  lemma InvokeKeepsOverflown(s: Loop, event: Event, t: nat)
    requires Overflown(s, t) && event.Invoked?
    ensures Overflown(InvokeStep(s, event), t)
  {
  }

  lemma RouteKeepsOverflown(s: Loop, event: Event, t: nat)
    requires Overflown(s, t) && !event.Invoked?
    ensures Overflown(ReceiveStep(s, event), t)
  {
  }

  lemma OutcomeKeepsOverflown(s: Loop, a: Action, t: nat)
    requires Overflown(s, t) && Enabled(s, a) && (a.Admit? || a.Finish? || a.OverflowWins?)
    ensures Overflown(Step(s, a), t)
  {
    DecideKeepsOverflown(s, a.t, false, true, t);
    DecideKeepsOverflown(s, a.t, false, false, t);
    if a.Admit? { AtKeepsOverflown(s, a.t, Handling, t); }
    if a.Finish? && a.t != t { DecideKeepsOverflown(s, a.t, a.success, false, t); }
  }

  /** What depends on neither flags, results nor tasks, or only removes tasks. */
  lemma QuietKeepsOverflown(s: Loop, s': Loop, t: nat)
    requires Overflown(s, t) && s'.log == s.log && s'.results == s.results && s'.table.overflowed == s.table.overflowed
    requires t in s'.tasks ==> t in s.tasks && s'.tasks[t] == s.tasks[t]
    ensures Overflown(s', t)
  {
  }

  lemma StepKeepsOverflown(s: Loop, a: Action, t: nat)
    requires Enabled(s, a) && Overflown(s, t)
    ensures Overflown(Step(s, a), t)
  {
    match a
    case Receive(event) => if event.Invoked? { InvokeKeepsOverflown(s, event, t); } else { RouteKeepsOverflown(s, event, t); }
    case Admit(_, _) | Finish(_, _) | OverflowWins(_) => OutcomeKeepsOverflown(s, a, t);
    case Submit(u) => AtKeepsOverflown(s, u, Submitting, t);
    case Confirm(u, ok) => AtKeepsOverflown(s, u, Done(ok), t);
    case _ => QuietKeepsOverflown(s, Step(s, a), t);
  }

  /** An overflow flagged before the handler's outcome is decided never ends in success,
      whatever else happens. */
  lemma {:induction false} OverflowNeverSucceeds(s: Loop, actions: seq<Action>, t: nat)
    requires LoopOk(s) && IsRun(s, actions) && Overflown(s, t)
    ensures t in After(s, actions).results ==> !After(s, actions).results[t]
    decreases |actions|
  {
    if actions != [] {
      StepKeepsOverflown(s, actions[0], t);
      StepKeepsLoop(s, actions[0]);
      OverflowNeverSucceeds(Step(s, actions[0]), actions[1..], t);
    }
  }

  /** In particular from any point at which an undecided duplex task has its flag set. */
  lemma FlaggedTasksAreOverflown(s: Loop, t: nat)
    requires LoopOk(s) && t in s.tasks && Undecided(s.tasks[t]) && t in s.table.overflowed && s.tasks[t].duplex
    ensures Overflown(s, t)
  {
    assert TaskOk(s.log, t, s.tasks[t], s.completed, s.results);
  }
}

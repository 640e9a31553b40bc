/** The invocation loop as a program: one method per arm of its select and for its
    shutdown, each tied to the steps of the loop's state machine. */
module InvocationLoop {
  import opened ByteStrings
  import opened InvocationRuntime
  import A = ActiveInvocations

  lemma {:induction false} RunAppends(s: Loop, actions: seq<Action>, last: Action)
    requires IsRun(s, actions) && Enabled(After(s, actions), last)
    ensures IsRun(s, actions + [last]) && After(s, actions + [last]) == Step(After(s, actions), last)
    decreases |actions|
  {
    if actions == [] {
      assert IsRun(Step(s, last), []);
      assert actions + [last] == [last] && [last][1..] == [];
    } else {
      var all := actions + [last];
      assert all[0] == actions[0] && all[1..] == actions[1..] + [last];
      RunAppends(Step(s, actions[0]), actions[1..], last);
    }
  }

  class InvocationLoop {
    const maximum: nat
    const active: A.ActiveInvocations
    var permits: nat
    var tasks: map<nat, Task>
    var overload: seq<nat>
    var workerAlive: bool
    var phase: LoopPhase
    /** The number of events so far, which names the next invocation. */
    var events: nat
    /** What the loop itself does not touch, and what it keeps no record of. */
    ghost var rest: Loop

    constructor (maximum: nat)
      ensures Valid() && View() == Start(maximum) && fresh(active)
    {
      this.maximum := Max(maximum, 1);
      active := new A.ActiveInvocations();
      permits, tasks, overload, workerAlive := Max(maximum, 1), map[], [], true;
      phase, events, rest := Running, 0, Start(maximum);
    }

    ghost function View(): Loop
      reads this, active
    {
      rest.(maximum := maximum, capacity := maximum, permits := permits, tasks := tasks, queue := overload,
            workerAlive := workerAlive, phase := phase, table := active.View())
    }

    ghost predicate Valid()
      reads this
    {
      events == |rest.log|
    }

    /** An invocation event: a task while a permit is free, else the overload queue,
        else the loop stops. */
    method OnInvocation(id: string, node: string, duplex: bool)
      requires Valid() && phase == Running
      modifies this, active
      ensures Valid() && View() == InvokeStep(old(View()), Invoked(id, node, duplex))
    {
      ghost var want := InvokeStep(View(), Invoked(id, node, duplex));
      var i := events;
      events := events + 1;
      rest := rest.(log := rest.log + [Invoked(id, node, duplex)]);
      if permits > 0 {
        SpawnHandlerTask(i, id, node, duplex);
      } else if workerAlive && |overload| < maximum {
        overload := overload + [i];
      } else {
        rest := rest.(lost := rest.lost + {i});
        active.CancelAll();
        phase := Stopping;
      }
      assert View() == want;
    }

    /** The tracking is taken before anything else is routed; a duplicate id gets a task
        that has already been decided. */
    method SpawnHandlerTask(i: nat, id: string, node: string, duplex: bool)
      requires permits > 0
      modifies this`permits, this`tasks, this`rest, active
      ensures var (table, tracked) := A.TrackStep(old(active.View()), i, id, node, duplex);
              View() == old(View()).(permits := old(permits) - 1, table := table,
                tasks := old(tasks)[i := Task(id, node, duplex, tracked, if tracked then Admitting else Decided)],
                results := if tracked then old(rest).results else old(rest).results[i := false])
      ensures rest.log == old(rest).log
    {
      permits := permits - 1;
      var tracked := active.Track(i, id, node, duplex);
      tasks := tasks[i := Task(id, node, duplex, tracked, if tracked then Admitting else Decided)];
      if !tracked { rest := rest.(results := rest.results[i := false]); }
    }

    /** Input and cancellation events. */
    method OnControl(event: Event)
      requires Valid() && phase == Running && !event.Invoked?
      modifies this, active
      ensures Valid() && View() == Step(old(View()), Receive(event))
    {
      ghost var want := Step(View(), Receive(event));
      events := events + 1;
      rest := rest.(log := rest.log + [event]);
      match event {
        case InputEvent(id, node, seqNo, payload) => active.RouteInput(id, node, seqNo, payload);
        case CancelEvent(id) => active.Cancel(id);
      }
      assert View() == want;
    }

    /** A handler task has been joined; a failed completion stops the loop. */
    method OnJoined(t: nat)
      requires Valid() && t in tasks && tasks[t].phase.Done? && phase != Stopped
      modifies this, active
      ensures Valid() && View() == Step(old(View()), Join(t)) && tasks == old(tasks) - {t}
    {
      ghost var want := Step(View(), Join(t));
      var failed := tasks[t].phase == Done(false);
      tasks := tasks - {t};
      permits := permits + 1;
      rest := rest.(settled := rest.settled + {t});
      if failed && phase == Running {
        active.CancelAll();
        phase := Stopping;
      }
      assert View() == want;
    }

    /** An aborted task is dropped where it stands, and its tracking and permit with it. */
    method Abort(t: nat)
      requires Valid() && t in tasks && !tasks[t].phase.Done? && phase == Stopping
      modifies this, active
      ensures Valid() && View() == Step(old(View()), AbortTask(t)) && tasks == old(tasks) - {t} && phase == Stopping
    {
      ghost var want := Step(View(), AbortTask(t));
      if tasks[t].tracked { active.Drop(t, tasks[t].id, true); }
      tasks := tasks - {t};
      permits := permits + 1;
      rest := rest.(lost := rest.lost + {t});
      assert View() == want;
    }

    /** Aborts what still runs and joins what has finished, until no task is left. */
    method StopHandlerTasks() returns (ghost steps: seq<Action>)
      requires Valid() && phase == Stopping
      modifies this, active
      ensures Valid() && IsRun(old(View()), steps) && After(old(View()), steps) == View()
      ensures tasks == map[] && phase == Stopping
    {
      ghost var start := View();
      steps := [];
      while tasks != map[]
        invariant Valid() && phase == Stopping
        invariant IsRun(start, steps) && After(start, steps) == View()
        decreases tasks.Keys
      {
        var t :| t in tasks;
        ghost var before := tasks;
        if tasks[t].phase.Done? {
          RunAppends(start, steps, Join(t));
          steps := steps + [Join(t)];
          OnJoined(t);
        } else {
          RunAppends(start, steps, AbortTask(t));
          steps := steps + [AbortTask(t)];
          Abort(t);
        }
        assert t in before.Keys && tasks.Keys == before.Keys - {t};
      }
    }
  }
}

/** The worker reconcile as sequential code: the phase loop with its callback, which patches the
  * annotation after each phase.  For everything that can happen around it, with crashes at any call, the
  * code goes exactly where the step machine goes. */
module WorkerReconciler {
  import opened Text
  import opened Phases
  import opened Worker

  class Reconciler {
    var last: Option<int>
    var joined: bool
    ghost var log: seq<Entry>                // the host
    var todo: seq<Event>                     // what is still going to happen
    ghost const final: State                 // where the machine will be after it
    ghost const total: nat                   // how many reconciles will have ended by then
    ghost var pc: PC
    ghost var returned: nat                  // reconciles that have ended

    ghost function View(): State
      reads this
    {
      State(last, joined, pc, log)
    }

    /** The machine, going on from here with what is still going to happen, ends where it was to end,
      * after as many reconciles. */
    ghost predicate Tracks()
      reads this
    {
      Run(View(), todo) == final && returned + Returns(View(), todo) == total
    }

    ghost predicate Waiting(at: PC)
      reads this
    {
      Tracks() && pc == at
    }

    /** The reconcile that was running has ended, and no other; or nothing more happens outside. */
    ghost predicate Done(was: nat)
      reads this
    {
      Tracks() && ((pc == Idle && returned == was + 1) || (todo == [] && returned == was))
    }

    /** The outside answers next with e. */
    ghost predicate Answering(e: Event)
      reads this
    {
      todo != [] && todo[0] == e && e.Answer?
    }

    constructor (script: seq<Event>)
      ensures Waiting(Idle) && todo == script && returned == 0
      ensures final == Run(INIT, script) && total == Returns(INIT, script)
    {
      last, joined, log, pc := None, false, [], Idle;
      todo, returned := script, 0;
      final, total := Run(INIT, script), Returns(INIT, script);
    }

    /** The next thing has happened, and the code has done its part of it. */
    method Took(ghost prev: State)
      requires Run(prev, todo) == final && returned + Returns(prev, todo) == total
      requires todo != [] && View() == Next(prev, todo[0]).(pc := pc)
      modifies this`pc, this`todo, this`returned
      ensures Waiting(Next(prev, old(todo[0])).pc) && todo == old(todo[1..])
      ensures returned == old(returned) + if Ends(prev, old(todo[0])) then 1 else 0
    {
      pc := Next(prev, todo[0]).pc;
      returned := returned + if Ends(prev, todo[0]) then 1 else 0;
      todo := todo[1..];
    }

    /** The answer to an outside call; instead of it the controller may crash, or nothing more may
      * happen. */
    method Await() returns (alive: bool, e: Event)
      requires Tracks()
      modifies this`pc, this`todo, this`returned
      ensures if alive then Waiting(old(pc)) && Answering(e) && returned == old(returned) else Done(old(returned))
    {
      alive, e := false, Crash;
      if todo != [] {
        if todo[0].Crash? {
          Took(View());
        } else {
          alive, e := true, todo[0];
        }
      }
    }

    /** One reconcile: it takes up exactly what happens until the machine's reconcile ends, and ends where
      * that does. */
    method ReconcileWorker()
      requires Waiting(Idle)
      modifies this
      ensures Done(old(returned))
    {
      var alive, e := Await();
      if alive {
        Took(View());
        if !joined {
          ConnectAndJoin();
        }
      }
    }

    method ConnectAndJoin()
      requires Waiting(Connect)
      modifies this
      ensures Done(old(returned))
    {
      var alive, e := Await();
      if alive {
        Took(View());
        if e.ok {
          var workerStartPhase := 0;
          if last.Some? && last.value >= 0 {
            workerStartPhase := last.value + 1;
          }
          JoinWorkerNode(workerStartPhase);
        }
      }
    }

    method JoinWorkerNode(startPhase: nat)
      requires Waiting(InPhase(startPhase, false))
      modifies this
      ensures Done(old(returned))
    {
      var next := startPhase;
      for i := 0 to PHASES
        invariant next == if i < startPhase then startPhase else i
        invariant Waiting(InPhase(next, false)) && returned == old(returned)
      {
        if i < startPhase {
          continue;
        }
        var ok := RunPhase(i);
        if !ok {
          return;
        }
        ok := OnPhaseComplete(i);
        if !ok {
          return;
        }
        next := i + 1;
      }
      FinishJoin(next);
    }

    method RunPhase(i: nat) returns (ok: bool)
      requires i < PHASES && Waiting(InPhase(i, false))
      modifies this
      ensures if ok then Waiting(Report(i)) && returned == old(returned) else Done(old(returned))
    {
      var alive, e := Await();
      if !alive {
        return false;
      }
      ghost var prev := View();
      log := log + [Started(i)];
      Took(prev);
      alive, e := Await();
      if !alive {
        return false;
      }
      prev := View();
      if e.ok {
        log := log + [Succeeded(i)];
      }
      Took(prev);
      return e.ok;
    }

    /** The callback: a failed patch is only logged. */
    method OnPhaseComplete(i: nat) returns (alive: bool)
      requires Waiting(Report(i))
      modifies this
      ensures if alive then Waiting(InPhase(i + 1, false)) && returned == old(returned) else Done(old(returned))
    {
      var e;
      alive, e := Await();
      if alive {
        ghost var prev := View();
        if e.ok || e.lost {
          last := Some(i);
        }
        Took(prev);
      }
    }

    /** Node lookup and labels, then the write that marks the worker as joined. */
    method FinishJoin(next: nat)
      requires next >= PHASES && Waiting(InPhase(next, false))
      modifies this
      ensures Done(old(returned))
    {
      var alive, e := Await();
      if alive {
        Took(View());
        if e.ok {
          MarkWorkerJoined();
        }
      }
    }

    method MarkWorkerJoined()
      requires Waiting(MarkJoined)
      modifies this
      ensures Done(old(returned))
    {
      var alive, e := Await();
      if alive {
        ghost var prev := View();
        if e.ok || e.lost {
          last, joined := Some(-1), true;
        }
        Took(prev);
      }
    }
  }

  /** A controller of one worker, for everything that can happen around it: it ends up exactly where the
    * machine does, so a worker it marks as joined has been through all phases. */
  method Serve(script: seq<Event>) returns (r: Reconciler)
    ensures fresh(r) && r.View() == Run(INIT, script)
    ensures DoneUpTo(r.log, Index(r.last)) && NoSkip(r.log)
    ensures r.joined ==> DoneUpTo(r.log, PHASES - 1)
  {
    r := new Reconciler(script);
    while r.todo != []
      invariant fresh(r) && r.Tracks() && r.final == Run(INIT, script)
      invariant r.todo == [] || r.pc == Idle
      decreases if r.todo == [] then 0 else 1 + r.total - r.returned
    {
      r.ReconcileWorker();
    }
    ResumeSound(script);
  }
}

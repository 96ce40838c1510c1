/** The control-plane reconcile as sequential code over the annotations, the status field and the two
  * in-memory maps.  For everything that can happen around it, with jobs working between any two calls
  * and crashes at any call, the code goes exactly where the step machine goes. */
module ControlPlaneReconciler {
  import opened Text
  import opened Phases
  import opened ControlPlane

  class Reconciler {
    const key: string
    // The cluster object: annotations and status
    var last: Option<int>
    var complete: bool
    var cache: string
    var join: string
    // Memory: channels by cluster, and the jobs behind them
    var controlPlaneJobs: map<string, nat>
    var controlPlaneProgress: map<string, nat>
    var routines: seq<Routine>
    ghost var log: seq<Entry>                // the host
    var todo: seq<Event>                     // what is still going to happen
    ghost const final: State                 // where the machine will be after it
    ghost const total: nat                   // how many reconciles will have ended by then
    ghost var pc: PC
    ghost var returned: nat                  // reconciles that have ended

    ghost function View(): State
      reads this
    {
      State(Cluster(last, complete, cache, join),
            if key in controlPlaneJobs then Some(controlPlaneJobs[key]) else None,
            if key in controlPlaneProgress then Some(controlPlaneProgress[key]) else None,
            routines, pc, log)
    }

    /** The machine, going on from here with what is still going to happen, ends where it was to end,
      * after as many reconciles. */
    ghost predicate Tracks()
      reads this
    {
      Run(View(), todo) == final && returned + Returns(View(), todo) == total
    }

    ghost predicate Waiting(at: PC)
      reads this
    {
      Tracks() && pc == at
    }

    /** The reconcile that was running has ended, and no other; or nothing more happens outside. */
    ghost predicate Done(was: nat)
      reads this
    {
      Tracks() && ((pc == Idle && returned == was + 1) || (todo == [] && returned == was))
    }

    /** The outside answers next with e. */
    ghost predicate Answering(e: Event)
      reads this
    {
      todo != [] && todo[0] == e && e.Reconcile?
    }

    constructor (key: string, script: seq<Event>)
      ensures Waiting(Idle) && todo == script && returned == 0
      ensures final == Run(INIT, script) && total == Returns(INIT, script)
    {
      this.key := key;
      last, complete, cache, join := None, false, "", "";
      controlPlaneJobs, controlPlaneProgress, routines := map[], map[], [];
      log, pc := [], Idle;
      todo, returned := script, 0;
      final, total := Run(INIT, script), Returns(INIT, script);
    }

    /** The next thing has happened, and the code has done its part of it. */
    method Took(ghost prev: State)
      requires Run(prev, todo) == final && returned + Returns(prev, todo) == total
      requires todo != [] && View() == Next(prev, todo[0]).(pc := pc)
      modifies this`pc, this`todo, this`returned
      ensures Waiting(Next(prev, old(todo[0])).pc) && todo == old(todo[1..])
      ensures returned == old(returned) + if Ends(prev, old(todo[0])) then 1 else 0
    {
      pc := Next(prev, todo[0]).pc;
      returned := returned + if Ends(prev, todo[0]) then 1 else 0;
      todo := todo[1..];
    }

    // ── The jobs ───────────────────────────────────────────────────────────

    /** A job reaches its next boundary. */
    method Boundary(id: nat, ok: bool, cmd: string)
      requires Tracks() && todo != [] && todo[0] == Work(id, ok, cmd)
      modifies this`routines, this`controlPlaneProgress, this`log, this`pc, this`todo, this`returned
      ensures Waiting(old(pc)) && returned == old(returned) && todo == old(todo[1..])
    {
      ghost var prev := View();
      if id < |routines| && routines[id].stage.Working? {
        var r := routines[id];
        var at, begun := r.stage.at, r.stage.begun;
        if at >= PHASES {
          routines := routines[id := r.(stage := Sent(if ok && cmd != "" then Some(cmd) else None))];
        } else if !ok {
          routines := routines[id := r.(stage := Sent(None))];
        } else if !begun {
          routines := routines[id := r.(stage := Working(at, true))];
          log := log + [Started(at)];
        } else {
          routines := routines[id := r.(stage := Working(at + 1, false))];
          controlPlaneProgress := controlPlaneProgress[key := at];
          log := log + [Succeeded(at)];
        }
      }
      Took(prev);
    }

    method LoseMemory()
      requires Tracks() && todo != [] && todo[0].Crash?
      modifies this`routines, this`controlPlaneJobs, this`controlPlaneProgress, this`log,
        this`pc, this`todo, this`returned
      ensures Done(old(returned))
    {
      ghost var prev := View();
      controlPlaneJobs, controlPlaneProgress := map[], map[];
      routines := seq(|routines|, i requires 0 <= i < |routines| reads this => Lost(routines[i]));
      Took(prev);
    }

    /** The answer to an outside call.  Before it jobs may go on; instead of it the controller may crash,
      * or nothing more may happen. */
    method Await() returns (alive: bool, e: Event)
      requires Tracks()
      modifies this`routines, this`controlPlaneJobs, this`controlPlaneProgress, this`log,
        this`pc, this`todo, this`returned
      ensures if alive then Waiting(old(pc)) && Answering(e) && returned == old(returned) else Done(old(returned))
    {
      alive, e := false, Crash;
      while todo != [] && todo[0].Work?
        invariant Waiting(old(pc)) && returned == old(returned)
        decreases |todo|
      {
        Boundary(todo[0].id, todo[0].ok, todo[0].cmd);
      }
      if todo != [] {
        if todo[0].Crash? {
          LoseMemory();
        } else {
          alive, e := true, todo[0];
        }
      }
    }

    // ── The reconcile ──────────────────────────────────────────────────────

    method Call(e: Event, ghost after: PC)
      requires Tracks() && Answering(e) && Next(View(), e) == View().(pc := after)
      modifies this`pc, this`todo, this`returned
      ensures if after == Idle then Done(old(returned)) else Waiting(after) && returned == old(returned)
    {
      Took(View());
    }

    /** One reconcile, on the path its first event says: it takes up exactly what happens until the
      * machine's reconcile ends, and ends where that does. */
    method Reconcile()
      requires Waiting(Idle)
      modifies this
      ensures Done(old(returned))
    {
      var alive, e := Await();
      if alive {
        if e.refresh {
          RefreshJoinToken(e);
        } else {
          ReconcileControlPlane(e);
        }
      }
    }

    method ReconcileControlPlane(e: Event)
      requires Waiting(Idle) && Answering(e) && !e.refresh
      modifies this
      ensures Done(old(returned))
    {
      if join != "" {
        Call(e, Idle);
      } else if complete {
        var joinCommand := cache;
        Call(e, PostInit(joinCommand));
        CompleteControlPlane(joinCommand);
      } else if key !in controlPlaneJobs {
        Call(e, Spawn);
        SpawnJob();
      } else {
        PollJob(e);
      }
    }

    method SpawnJob()
      requires Waiting(Spawn)
      modifies this
      ensures Done(old(returned))
    {
      var alive, e := Await();
      if alive {
        if e.ok {
          StartJob(e);
        } else {
          Call(e, Idle);
        }
      }
    }

    method StartJob(e: Event)
      requires Waiting(Spawn) && Answering(e) && e.ok
      modifies this
      ensures Done(old(returned))
    {
      ghost var prev := View();
      var startPhase := 0;
      if last.Some? && last.value >= 0 {
        startPhase := last.value + 1;
      }
      controlPlaneJobs := controlPlaneJobs[key := |routines|];
      routines := routines + [Routine(Working(startPhase, false), 0)];
      Took(prev);
    }

    /** A non-blocking read of the channel. */
    method PollJob(e: Event)
      requires Waiting(Idle) && Answering(e) && !e.refresh && join == "" && !complete
      requires key in controlPlaneJobs
      modifies this
      ensures Done(old(returned))
    {
      var id := controlPlaneJobs[key];
      if id < |routines| && routines[id].stage.Sent? {
        ConsumeResult(e, id);
      } else {
        FlushProgress(e);
      }
    }

    method FlushProgress(e: Event)
      requires Waiting(Idle) && Answering(e) && !e.refresh && join == "" && !complete
      requires key in controlPlaneJobs
      requires !(controlPlaneJobs[key] < |routines| && routines[controlPlaneJobs[key]].stage.Sent?)
      modifies this
      ensures Done(old(returned))
    {
      if key !in controlPlaneProgress || last == Some(controlPlaneProgress[key]) {
        Call(e, Idle);
      } else {
        var lastPhase := controlPlaneProgress[key];
        Call(e, Flush(lastPhase));
        PatchProgress(lastPhase);
      }
    }

    method PatchProgress(lastPhase: nat)
      requires Waiting(Flush(lastPhase))
      modifies this
      ensures Done(old(returned))
    {
      var alive, e := Await();
      if alive {
        ghost var prev := View();
        if e.ok || e.lost {
          last := Some(lastPhase);
        }
        Took(prev);
      }
    }

    /** The result leaves the channel together with the entries of both maps; the progress is persisted
      * before the outcome is looked at. */
    method ConsumeResult(e: Event, id: nat)
      requires Waiting(Idle) && Answering(e) && !e.refresh && join == "" && !complete
      requires key in controlPlaneJobs && controlPlaneJobs[key] == id < |routines| && routines[id].stage.Sent?
      modifies this
      ensures Done(old(returned))
    {
      var result, lastPhase := TakeResult(e, id);
      if lastPhase.Some? {
        PersistProgress(result, lastPhase.value);
      } else if result.Some? {
        MarkInitComplete(result.value);
      }
    }

    method TakeResult(e: Event, id: nat) returns (result: Option<string>, lastPhase: Option<nat>)
      requires Waiting(Idle) && Answering(e) && !e.refresh && join == "" && !complete
      requires key in controlPlaneJobs && controlPlaneJobs[key] == id < |routines| && routines[id].stage.Sent?
      modifies this
      ensures result == old(routines)[id].stage.result
      ensures lastPhase == if key in old(controlPlaneProgress) then Some(old(controlPlaneProgress)[key]) else None
      ensures controlPlaneJobs == old(controlPlaneJobs) - {key}
      ensures controlPlaneProgress == old(controlPlaneProgress) - {key}
      ensures
        if lastPhase.Some? then Waiting(Persist(result, lastPhase.value)) && returned == old(returned)
        else if result.Some? then Waiting(MarkComplete(result.value)) && returned == old(returned)
        else Done(old(returned))
    {
      ghost var prev := View();
      var r := routines[id];
      result := r.stage.result;
      lastPhase := if key in controlPlaneProgress then Some(controlPlaneProgress[key]) else None;
      controlPlaneJobs := controlPlaneJobs - {key};
      controlPlaneProgress := controlPlaneProgress - {key};
      routines := routines[id := r.(taken := r.taken + 1)];
      Took(prev);
    }

    method PersistProgress(result: Option<string>, lastPhase: nat)
      requires Waiting(Persist(result, lastPhase))
      modifies this
      ensures Done(old(returned))
    {
      var alive, e := Await();
      if alive {
        ghost var prev := View();
        if e.ok || e.lost {
          last := Some(lastPhase);
        }
        Took(prev);
        if result.Some? {
          MarkInitComplete(result.value);
        }
      }
    }

    /** The patch that clears the index and caches the command; its failure is only logged. */
    method MarkInitComplete(joinCommand: string)
      requires Waiting(MarkComplete(joinCommand))
      modifies this
      ensures Done(old(returned))
    {
      var alive, e := Await();
      if alive {
        ghost var prev := View();
        if e.ok || e.lost {
          last, complete, cache := Some(-1), true, joinCommand;
        }
        Took(prev);
        CompleteControlPlane(joinCommand);
      }
    }

    method CompleteControlPlane(joinCommand: string)
      requires Waiting(PostInit(joinCommand))
      modifies this
      ensures Done(old(returned))
    {
      var alive, e := Await();
      if alive {
        Call(e, if e.ok then WriteReady(joinCommand) else Idle);
        if e.ok {
          FlipToReady(joinCommand);
        }
      }
    }

    method FlipToReady(joinCommand: string)
      requires Waiting(WriteReady(joinCommand))
      modifies this
      ensures Done(old(returned))
    {
      var alive, e := Await();
      if alive {
        ghost var prev := View();
        if e.ok || e.lost {
          join := joinCommand;
        }
        Took(prev);
        if e.ok {
          ClearInitFlags();
        }
      }
    }

    method ClearInitFlags()
      requires Waiting(ClearFlags)
      modifies this
      ensures Done(old(returned))
    {
      var alive, e := Await();
      if alive {
        ghost var prev := View();
        if e.ok || e.lost {
          complete, cache := false, "";
        }
        Took(prev);
      }
    }

    /** refreshJoinToken of a ready cluster. */
    method RefreshJoinToken(e: Event)
      requires Waiting(Idle) && Answering(e) && e.refresh
      modifies this
      ensures Done(old(returned))
    {
      if join == "" {
        Call(e, Idle);
      } else {
        Call(e, NewToken);
        CreateToken();
      }
    }

    method CreateToken()
      requires Waiting(NewToken)
      modifies this
      ensures Done(old(returned))
    {
      var alive, e := Await();
      if alive {
        var made := e.ok && e.cmd != "";
        Call(e, if made then WriteToken(e.cmd) else Idle);
        if made {
          StoreToken(e.cmd);
        }
      }
    }

    method StoreToken(newJoinCmd: string)
      requires Waiting(WriteToken(newJoinCmd))
      modifies this
      ensures Done(old(returned))
    {
      var alive, e := Await();
      if alive {
        ghost var prev := View();
        if e.ok || e.lost {
          join := newJoinCmd;
        }
        Took(prev);
      }
    }
  }

  /** A controller of one cluster, for everything that can happen around it: it ends up exactly where the
    * machine does. */
  method Serve(key: string, script: seq<Event>) returns (r: Reconciler)
    ensures fresh(r) && r.View() == Run(INIT, script)
    ensures DoneUpTo(r.log, Index(r.last)) && NoSkip(r.log)
  {
    r := new Reconciler(key, script);
    while r.todo != []
      invariant fresh(r) && r.Tracks() && r.final == Run(INIT, script)
      invariant r.todo == [] || r.pc == Idle
      decreases if r.todo == [] then 0 else 1 + r.total - r.returned
    {
      r.Reconcile();
    }
    ResumeSound(script);
  }
}

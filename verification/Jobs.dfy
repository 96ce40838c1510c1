/** Background provisioning jobs: one goroutine and one result channel per object key. */
module Jobs {

  /** Working: has not sent its result.  Sent: the result is in its channel.  Exited: its deferred
    * calls have run too.  Killed: lost in a crash. */
  datatype Stage = Working | Sent | Exited | Killed

  datatype Routine = Routine(key: string, stage: Stage, consumed: nat)

  /** Goroutines and channels are numbered in the order they were made. */
  datatype State = State(
    table: map<string, nat>,                 // onPremJobs: key to channel
    progress: map<string, nat>,              // onPremProgress: key to the job that wrote last
    preparing: set<string>,                  // reconciles between their check and their store
    routines: seq<Routine>)

  datatype Event =
    | Begin(key: string)                     // the check at the start of provisioning
    | Launch(key: string)                    // store the channel, start the goroutine
    | GiveUp(key: string)
    | Tell(id: nat)                          // a job reports a step
    | Send(id: nat)
    | Exit(id: nat)                          // its deferred delete of the progress entry
    | Poll(key: string)
    | Crash

  const INIT := State(map[], map[], {}, [])

  function At(s: State, id: nat, stage: Stage): bool {
    id < |s.routines| && s.routines[id].stage == stage
  }

  function Move(s: State, id: nat, stage: Stage): State
    requires id < |s.routines|
  {
    s.(routines := s.routines[id := s.routines[id].(stage := stage)])
  }

  function Dead(r: Routine): Routine {
    if r.stage.Working? || (r.stage.Sent? && r.consumed == 0) || (r.stage.Exited? && r.consumed == 0)
    then r.(stage := Killed) else r
  }

  function Next(s: State, e: Event): State {
    match e
    case Begin(key) =>
      if key in s.table || key in s.preparing then s else s.(preparing := s.preparing + {key})
    case Launch(key) =>
      if key !in s.preparing then s
      else s.(table := s.table[key := |s.routines|], preparing := s.preparing - {key},
              routines := s.routines + [Routine(key, Working, 0)])
    case GiveUp(key) => s.(preparing := s.preparing - {key})
    case Tell(id) => if At(s, id, Working) then s.(progress := s.progress[s.routines[id].key := id]) else s
    case Send(id) => if At(s, id, Working) then Move(s, id, Sent) else s
    case Exit(id) =>
      if At(s, id, Sent) then Move(s.(progress := s.progress - {s.routines[id].key}), id, Exited) else s
    case Poll(key) =>
      if key in s.preparing || key !in s.table || s.table[key] >= |s.routines| then s
      else
        var id := s.table[key];
        var r := s.routines[id];
        if r.stage.Sent? || r.stage.Exited? then
          s.(table := s.table - {key}, routines := s.routines[id := r.(consumed := r.consumed + 1)])
        else s
    case Crash =>
      State(map[], map[], {}, seq(|s.routines|, i requires 0 <= i < |s.routines| => Dead(s.routines[i])))
  }

  function Run(s: State, es: seq<Event>): State
    decreases |es|
  {
    if es == [] then s else Run(Next(s, es[0]), es[1..])
  }

  // ── Invariant ────────────────────────────────────────────────────────────

  predicate Registered(s: State, id: nat)
    requires id < |s.routines|
  {
    s.routines[id].key in s.table && s.table[s.routines[id].key] == id
  }

  /** A job is lost, or still in the table with its result unread, or read exactly once. */
  ghost predicate Accounted(s: State, id: nat)
    requires id < |s.routines|
  {
    var r := s.routines[id];
    match r.stage
    case Killed => r.consumed == 0 && !Registered(s, id)
    case Working => r.consumed == 0 && Registered(s, id)
    case _ => if Registered(s, id) then r.consumed == 0 else r.consumed == 1
  }

  ghost predicate Inv(s: State) {
    && (forall key | key in s.table :: s.table[key] < |s.routines| && s.routines[s.table[key]].key == key)
    && (forall key | key in s.preparing :: key !in s.table)
    && (forall id | 0 <= id < |s.routines| :: Accounted(s, id))
  }

  lemma KeepPoll(s: State, e: Event)
    requires Inv(s) && e.Poll?
    ensures Inv(Next(s, e))
  {
    var t := Next(s, e);
    forall id | 0 <= id < |t.routines|
      ensures Accounted(t, id)
    {
      assert Accounted(s, id);
    }
  }

  lemma KeepMove(s: State, e: Event)
    requires Inv(s) && (e.Send? || e.Exit? || e.Tell?)
    ensures Inv(Next(s, e))
  {
    var t := Next(s, e);
    forall id | 0 <= id < |t.routines|
      ensures Accounted(t, id)
    {
      assert Accounted(s, id);
    }
  }

  lemma KeepLaunch(s: State, e: Event)
    requires Inv(s) && (e.Begin? || e.Launch? || e.GiveUp?)
    ensures Inv(Next(s, e))
  {
    var t := Next(s, e);
    forall id | 0 <= id < |t.routines|
      ensures Accounted(t, id)
    {
      if id < |s.routines| {
        assert Accounted(s, id);
      }
    }
  }

  lemma KeepCrash(s: State)
    requires Inv(s)
    ensures Inv(Next(s, Crash))
  {
    var t := Next(s, Crash);
    forall id | 0 <= id < |t.routines|
      ensures Accounted(t, id)
    {
      assert Accounted(s, id);
    }
  }

  lemma Keep(s: State, e: Event)
    requires Inv(s)
    ensures Inv(Next(s, e))
  {
    match e
    case Poll(_) => KeepPoll(s, e);
    case Send(_) => KeepMove(s, e);
    case Exit(_) => KeepMove(s, e);
    case Tell(_) => KeepMove(s, e);
    case Crash => KeepCrash(s);
    case _ => KeepLaunch(s, e);
  }

  lemma {:induction false} RunKeeps(s: State, es: seq<Event>)
    requires Inv(s)
    ensures Inv(Run(s, es))
    decreases |es|
  {
    if es != [] {
      Keep(s, es[0]);
      RunKeeps(Next(s, es[0]), es[1..]);
    }
  }

  /** In every run: per key at most one job is working, and a result is read at most once. */
  lemma OneJobPerKey(es: seq<Event>, i: nat, j: nat)
    requires
      var s := Run(INIT, es);
      At(s, i, Working) && At(s, j, Working) && s.routines[i].key == s.routines[j].key
    ensures i == j
  {
    RunKeeps(INIT, es);
    var s := Run(INIT, es);
    assert Accounted(s, i) && Accounted(s, j);
  }

  /** In every run: once a later job of the same key exists, the earlier one was lost in a crash or
    * its result was read exactly once. */
  lemma ReadOnceBeforeNext(es: seq<Event>, i: nat, j: nat)
    requires
      var s := Run(INIT, es);
      i < j < |s.routines| && s.routines[i].key == s.routines[j].key
    ensures
      var s := Run(INIT, es);
      if s.routines[i].stage.Killed? then s.routines[i].consumed == 0 else s.routines[i].consumed == 1
  {
    RunKeeps(INIT, es);
    LaterWins(INIT, es);
    var s := Run(INIT, es);
    assert Accounted(s, i);
  }

  /** The table names the latest job of a key. */
  ghost predicate Latest(s: State) {
    forall key, id | key in s.table && 0 <= id < |s.routines| && s.routines[id].key == key :: id <= s.table[key]
  }

  lemma {:induction false} LaterWins(s: State, es: seq<Event>)
    requires Inv(s) && Latest(s)
    ensures Latest(Run(s, es))
    decreases |es|
  {
    if es != [] {
      Keep(s, es[0]);
      LaterWins(Next(s, es[0]), es[1..]);
    }
  }

  /** Without a crash nothing is lost. */
  lemma {:induction false} NothingLost(s: State, es: seq<Event>)
    requires forall e | e in es :: !e.Crash?
    requires forall r | r in s.routines :: !r.stage.Killed?
    ensures forall r | r in Run(s, es).routines :: !r.stage.Killed?
    decreases |es|
  {
    if es != [] {
      NothingLost(Next(s, es[0]), es[1..]);
    }
  }

  /** A job's own progress entry is removed by another job's exit exactly when that job was of the
    * same key: its deferred delete can run after its result was read and the next job reported. */
  lemma ProgressWipedIff(s: State, id: nat, other: nat)
    requires Inv(s) && At(s, id, Working) && At(s, other, Sent)
    requires s.routines[id].key in s.progress && s.progress[s.routines[id].key] == id
    ensures s.routines[id].key !in Next(s, Exit(other)).progress <==> s.routines[other].key == s.routines[id].key
  {
  }

  lemma Unroll(s: State, es: seq<Event>)
    requires es != []
    ensures Run(s, es) == Run(Next(s, es[0]), es[1..])
  {
  }

  lemma FirstJob(key: string, rest: seq<Event>)
    ensures Run(INIT, [Begin(key), Launch(key), Send(0), Poll(key)] + rest)
      == Run(State(map[], map[], {}, [Routine(key, Sent, 1)]), rest)
  {
    var es := [Begin(key), Launch(key), Send(0), Poll(key)] + rest;
    var a := State(map[], map[], {key}, []);
    var b := State(map[key := 0], map[], {}, [Routine(key, Working, 0)]);
    var c := State(map[key := 0], map[], {}, [Routine(key, Sent, 0)]);
    var empty: map<string, nat>, none: set<string> := map[], {};
    assert none + {key} == {key} && {key} - {key} == none && map[key := 0] - {key} == empty;
    assert Next(INIT, es[0]) == a && Next(a, es[1]) == b && Next(b, es[2]) == c;
    assert Next(c, es[3]) == State(map[], map[], {}, [Routine(key, Sent, 1)]);
    Unroll(INIT, es);
    Unroll(a, es[1..]);
    Unroll(b, es[2..]);
    Unroll(c, es[3..]);
    assert es[1..][1..] == es[2..] && es[2..][1..] == es[3..] && es[3..][1..] == rest;
  }

  lemma SecondJob(key: string)
    ensures Run(State(map[], map[], {}, [Routine(key, Sent, 1)]), [Begin(key), Launch(key), Tell(1)])
      == State(map[key := 1], map[key := 1], {}, [Routine(key, Sent, 1), Routine(key, Working, 0)])
  {
    var es := [Begin(key), Launch(key), Tell(1)];
    var d := State(map[], map[], {}, [Routine(key, Sent, 1)]);
    var f := State(map[], map[], {key}, [Routine(key, Sent, 1)]);
    var g := State(map[key := 1], map[], {}, [Routine(key, Sent, 1), Routine(key, Working, 0)]);
    var none: set<string> := {};
    assert none + {key} == {key} && {key} - {key} == none;
    assert Next(d, es[0]) == f && Next(f, es[1]) == g;
    Unroll(d, es);
    Unroll(f, es[1..]);
    Unroll(g, es[2..]);
    assert es[1..][1..] == es[2..] && es[2..][1..] == [];
  }

  /** Checks that fail leave the object free for the next reconcile, which can start its job. */
  lemma GivenUpStartsAgain(s: State, key: string)
    requires key !in s.table && key !in s.preparing
    ensures Next(Next(s, Begin(key)), GiveUp(key)) == s
    ensures
      var t := Next(Next(s, Begin(key)), Launch(key));
      && t == s.(table := s.table[key := |s.routines|], routines := s.routines + [Routine(key, Working, 0)])
  {
    var a := Next(s, Begin(key));
    assert a == s.(preparing := s.preparing + {key});
    assert s.preparing + {key} - {key} == s.preparing;
  }

  /** A run that gets there. */
  lemma ProgressCanBeWiped(key: string)
    ensures
      var s := Run(INIT, [Begin(key), Launch(key), Send(0), Poll(key), Begin(key), Launch(key), Tell(1)]);
      && At(s, 1, Working) && At(s, 0, Sent) && key in s.progress && s.progress[key] == 1
      && key !in Next(s, Exit(0)).progress
  {
    FirstJob(key, [Begin(key), Launch(key), Tell(1)]);
    SecondJob(key);
    assert [Begin(key), Launch(key), Send(0), Poll(key)] + [Begin(key), Launch(key), Tell(1)]
      == [Begin(key), Launch(key), Send(0), Poll(key), Begin(key), Launch(key), Tell(1)];
  }

  // ── The controller's side ────────────────────────────────────────────────

  class Controller {
    var onPremJobs: map<string, nat>
    var onPremProgress: map<string, nat>
    var routines: seq<Routine>
    ghost var preparing: set<string>

    ghost function View(): State
      reads this
    {
      State(onPremJobs, onPremProgress, preparing, routines)
    }

    constructor ()
      ensures View() == INIT
    {
      onPremJobs, onPremProgress, routines, preparing := map[], map[], [], {};
    }

    /** reconcileOnPremProvisioning; `ready`: its checks and status writes let it get to the launch. */
    method Provision(key: string, ready: bool) returns (launched: bool)
      requires key !in preparing
      modifies this
      ensures launched <==> ready && key !in old(onPremJobs)
      ensures View() == Next(Next(old(View()), Begin(key)), if launched then Launch(key) else GiveUp(key))
      ensures preparing == old(preparing)
    {
      if key in onPremJobs {
        return false;
      }
      if !ready {
        return false;
      }
      onPremJobs := onPremJobs[key := |routines|];
      routines := routines + [Routine(key, Working, 0)];
      return true;
    }

    /** pollOnPremBootstrap for a node without a VPN address: a channel that is empty leaves
      * everything alone, a result is taken out together with the map entry. */
    method PollBootstrap(key: string, ready: bool) returns (taken: bool)
      requires Inv(View()) && key !in preparing
      modifies this
      ensures taken ==> View() == Next(old(View()), Poll(key)) && key !in onPremJobs
      ensures !taken && key in old(onPremJobs) ==> View() == old(View()) == Next(old(View()), Poll(key))
      ensures key !in old(onPremJobs) ==>
        View() == Next(Next(old(View()), Begin(key)), if ready then Launch(key) else GiveUp(key))
      ensures Inv(View())
    {
      ghost var before := View();
      if key !in onPremJobs {
        Keep(before, Begin(key));
        Keep(Next(before, Begin(key)), if ready then Launch(key) else GiveUp(key));
        var _ := Provision(key, ready);
        return false;
      }
      Keep(before, Poll(key));
      var id := onPremJobs[key];
      var r := routines[id];
      if r.stage == Sent || r.stage == Exited {
        onPremJobs := onPremJobs - {key};
        routines := routines[id := r.(consumed := r.consumed + 1)];
        return true;
      }
      return false;
    }
  }
}

/** Control-plane initialisation: a background job runs numbered phases on the host while
  * reconciles persist its progress, and everything in memory is lost in a crash.
  *
  * One step is one outside call of the reconciler, one phase boundary of the job, or a crash. */
module ControlPlane {
  import opened Text
  import opened Phases

  /** Phases 0 to 12; phase 0 is Cleanup, which resets kubeadm. */
  const PHASES := 13

  // ── State ────────────────────────────────────────────────────────────────

  /** The annotations and the status field the code resumes from. */
  datatype Cluster = Cluster(last: Option<int>, complete: bool, cache: string, join: string)

  /** A background job: working its way through the phases (PHASES: asking for the join command), done
    * with its result in its channel (None: an error), or lost in a crash. */
  datatype Stage = Working(at: nat, begun: bool) | Sent(result: Option<string>) | Killed

  /** `taken`: how often its result was taken out of the channel. */
  datatype Routine = Routine(stage: Stage, taken: nat)

  datatype PC =
    | Idle
    | Spawn                                  // SSH connection and runtime config for a new job
    | Flush(phase: nat)                      // progress patch while the job runs
    | Persist(result: Option<string>, phase: nat)
    | MarkComplete(cmd: string)              // the "-1, complete, cached command" patch
    | PostInit(cmd: string)                  // SSH, cluster repo, network config
    | WriteReady(cmd: string)
    | ClearFlags
    | NewToken | WriteToken(cmd: string)     // token refresh of a ready cluster

  /** Reconcile: the answer to the reconciler's pending call; a lost answer leaves the call's effect.
    * `refresh`: an idle reconciler takes the token-refresh path.  Work: a job's next boundary. */
  datatype Event =
    | Reconcile(ok: bool, lost: bool, cmd: string, refresh: bool)
    | Work(id: nat, ok: bool, cmd: string)
    | Crash

  /** Jobs and their channels are numbered as they are made.  `table`, `progress`: the cluster's entries
    * in controlPlaneJobs and controlPlaneProgress. */
  datatype State = State(
    cr: Cluster, table: Option<nat>, progress: Option<nat>, routines: seq<Routine>, pc: PC, log: seq<Entry>)

  const INIT := State(Cluster(None, false, "", ""), None, None, [], Idle, [])

  predicate Sealed(s: State) {
    s.cr.complete || s.cr.join != ""
  }

  // ── Steps ────────────────────────────────────────────────────────────────

  function Began(s: State, e: Event): State
    requires e.Reconcile?
  {
    if e.refresh then (if s.cr.join != "" then s.(pc := NewToken) else s)
    else if s.cr.join != "" then s
    else if s.cr.complete then s.(pc := PostInit(s.cr.cache))
    else if s.table.None? then s.(pc := Spawn)
    else if s.table.value < |s.routines| && s.routines[s.table.value].stage.Sent? then Consumed(s, s.table.value)
    else if s.progress.Some? && s.cr.last != Some(s.progress.value) then s.(pc := Flush(s.progress.value))
    else s
  }

  /** The result is taken out of the channel, and the entries of both maps go with it. */
  function Consumed(s: State, id: nat): State
    requires id < |s.routines| && s.routines[id].stage.Sent?
  {
    var r := s.routines[id];
    var t := s.(table := None, progress := None, routines := s.routines[id := r.(taken := r.taken + 1)]);
    if s.progress.Some? then t.(pc := Persist(r.stage.result, s.progress.value)) else AfterPersist(t, r.stage.result)
  }

  function AfterPersist(s: State, result: Option<string>): State {
    s.(pc := if result.Some? then MarkComplete(result.value) else Idle)
  }

  function NextReconcile(s: State, e: Event): State
    requires e.Reconcile?
  {
    var applied := e.ok || e.lost;
    match s.pc
    case Idle => Began(s, e)
    case Spawn =>
      if e.ok then
        s.(table := Some(|s.routines|), routines := s.routines + [Routine(Working(StartPhase(s.cr.last), false), 0)],
           pc := Idle)
      else s.(pc := Idle)
    case Flush(p) => s.(cr := if applied then s.cr.(last := Some(p)) else s.cr, pc := Idle)
    case Persist(result, p) =>
      AfterPersist(s.(cr := if applied then s.cr.(last := Some(p)) else s.cr), result)
    case MarkComplete(cmd) =>
      s.(cr := if applied then s.cr.(last := Some(-1), complete := true, cache := cmd) else s.cr, pc := PostInit(cmd))
    case PostInit(cmd) => s.(pc := if e.ok then WriteReady(cmd) else Idle)
    case WriteReady(cmd) =>
      s.(cr := if applied then s.cr.(join := cmd) else s.cr, pc := if e.ok then ClearFlags else Idle)
    case ClearFlags => s.(cr := if applied then s.cr.(complete := false, cache := "") else s.cr, pc := Idle)
    case NewToken => s.(pc := if e.ok && e.cmd != "" then WriteToken(e.cmd) else Idle)
    case WriteToken(cmd) => s.(cr := if applied then s.cr.(join := cmd) else s.cr, pc := Idle)
  }

  function SetStage(s: State, id: nat, stage: Stage): State
    requires id < |s.routines|
  {
    s.(routines := s.routines[id := s.routines[id].(stage := stage)])
  }

  function NextWork(s: State, e: Event): State
    requires e.Work?
  {
    if e.id >= |s.routines| || !s.routines[e.id].stage.Working? then s
    else
      var at, begun := s.routines[e.id].stage.at, s.routines[e.id].stage.begun;
      if at >= PHASES then SetStage(s, e.id, Sent(if e.ok && e.cmd != "" then Some(e.cmd) else None))
      else if !e.ok then SetStage(s, e.id, Sent(None))
      else if !begun then SetStage(s, e.id, Working(at, true)).(log := s.log + [Started(at)])
      else SetStage(s, e.id, Working(at + 1, false)).(log := s.log + [Succeeded(at)], progress := Some(at))
  }

  /** A crash loses whatever has not been read. */
  function Lost(r: Routine): Routine {
    if r.taken == 0 then r.(stage := Killed) else r
  }

  function Next(s: State, e: Event): State {
    match e
    case Reconcile(_, _, _, _) => NextReconcile(s, e)
    case Work(_, _, _) => NextWork(s, e)
    case Crash =>
      State(s.cr, None, None, seq(|s.routines|, i requires 0 <= i < |s.routines| => Lost(s.routines[i])), Idle, s.log)
  }

  function Run(s: State, es: seq<Event>): State
    decreases |es|
  {
    if es == [] then s else Run(Next(s, es[0]), es[1..])
  }

  /** A step that ends a reconcile: the reconciler is idle after it, and not just because it was and
    * a job went on. */
  predicate Ends(s: State, e: Event) {
    Next(s, e).pc == Idle && (s.pc != Idle || !e.Work?)
  }

  /** How many reconciles a run ends. */
  function Returns(s: State, es: seq<Event>): (n: nat)
    decreases |es|
  {
    if es == [] then 0 else (if Ends(s, es[0]) then 1 else 0) + Returns(Next(s, es[0]), es[1..])
  }

  // ── Invariant ────────────────────────────────────────────────────────────

  predicate AtWork(s: State) {
    s.table.Some? && s.table.value < |s.routines| && s.routines[s.table.value].stage.Working?
  }

  /** How far the working job is. */
  function Progressed(s: State): Stage
    requires AtWork(s)
  {
    s.routines[s.table.value].stage
  }

  /** A job is lost, or in the table with its result unread, or read exactly once. */
  ghost predicate Accounted(s: State, id: nat)
    requires id < |s.routines|
  {
    var r := s.routines[id];
    match r.stage
    case Working(_, _) => s.table == Some(id) && r.taken == 0
    case Sent(_) => r.taken == if s.table == Some(id) then 0 else 1
    case Killed => s.table != Some(id) && r.taken == 0
  }

  /** Every job is accounted for, and the table names the latest one. */
  ghost predicate JobsOk(s: State) {
    && (s.table.Some? ==> s.table.value == |s.routines| - 1)
    && forall id | 0 <= id < |s.routines| :: Accounted(s, id)
  }

  ghost predicate CmdsOk(s: State) {
    && (s.cr.complete ==> s.cr.cache != "")
    && (forall r | r in s.routines :: r.stage.Sent? && r.stage.result.Some? ==> r.stage.result.value != "")
    && match s.pc
       case Persist(result, _) => result.Some? ==> result.value != ""
       case MarkComplete(cmd) => cmd != ""
       case PostInit(cmd) => cmd != ""
       case WriteReady(cmd) => cmd != ""
       case ClearFlags => s.cr.join != ""
       case NewToken => s.cr.join != ""
       case WriteToken(cmd) => cmd != "" && s.cr.join != ""
       case _ => true
  }

  /** What a progress number on its way to the annotation stands for. */
  predicate Trusted(s: State, p: nat) {
    p < PHASES && Index(s.cr.last) <= p && DoneUpTo(s.log, p)
  }

  ghost predicate Sound(s: State) {
    && NoSkip(s.log)
    && -1 <= Index(s.cr.last) < PHASES && DoneUpTo(s.log, Index(s.cr.last))
    && (s.progress.Some? ==> s.table.Some? && Trusted(s, s.progress.value))
    && (AtWork(s) ==>
          && Index(s.cr.last) < Progressed(s).at <= PHASES && DoneUpTo(s.log, Progressed(s).at - 1)
          && (s.progress.Some? ==> s.progress.value == Progressed(s).at - 1))
    && match s.pc
       case Flush(p) => Trusted(s, p) && s.table.Some? && s.progress.Some? && p <= s.progress.value
       case Persist(_, p) => Trusted(s, p) && s.table.None?
       case _ => true
  }

  /** A sealed cluster has no job, and is not about to get one. */
  ghost predicate Quiet(s: State) {
    && (Sealed(s) ==> s.table.None?)
    && match s.pc
       case Spawn => !Sealed(s) && s.table.None?
       case Flush(_) => !Sealed(s)
       case Persist(_, _) => !Sealed(s) && s.table.None?
       case MarkComplete(_) => s.table.None? && !Sealed(s)
       case PostInit(_) => s.table.None?
       case WriteReady(_) => s.table.None?
       case _ => true
  }

  ghost predicate Inv(s: State) {
    JobsOk(s) && CmdsOk(s) && Sound(s) && Quiet(s)
  }

  // ── Steps keep the invariant ─────────────────────────────────────────────

  /** Nothing happens unless the job of the table is at work. */
  lemma OnlyTableWorks(s: State, e: Event)
    requires JobsOk(s) && e.Work? && !(AtWork(s) && e.id == s.table.value)
    ensures NextWork(s, e) == s
  {
    assert e.id < |s.routines| ==> Accounted(s, e.id);
  }

  lemma KeepJob(s: State, e: Event, id: nat)
    requires Inv(s) && id < |s.routines|
    ensures id < |Next(s, e).routines| && Accounted(Next(s, e), id)
  {
    assert Accounted(s, id);
  }

  lemma KeepJobs(s: State, e: Event)
    requires Inv(s)
    ensures JobsOk(Next(s, e))
  {
    var t := Next(s, e);
    forall id | 0 <= id < |t.routines|
      ensures Accounted(t, id)
    {
      if id < |s.routines| {
        KeepJob(s, e, id);
      }
    }
  }

  lemma KeepBoundary(s: State, e: Event)
    requires Inv(s) && e.Work?
    ensures CmdsOk(Next(s, e)) && Sound(Next(s, e)) && Quiet(Next(s, e))
  {
    if AtWork(s) && e.id == s.table.value {
      var at, begun := Progressed(s).at, Progressed(s).begun;
      if at < PHASES && e.ok {
        var entry := if begun then Succeeded(at) else Started(at);
        SinceAppend(s.log, entry);
        NoSkipAppend(s.log, entry);
      }
    } else {
      OnlyTableWorks(s, e);
    }
  }

  lemma KeepCmds(s: State, e: Event)
    requires Inv(s) && e.Reconcile?
    ensures CmdsOk(Next(s, e))
  {
  }

  lemma KeepQuiet(s: State, e: Event)
    requires Inv(s) && e.Reconcile?
    ensures Quiet(Next(s, e))
  {
  }

  lemma KeepSound(s: State, e: Event)
    requires Inv(s) && e.Reconcile?
    ensures Sound(Next(s, e))
  {
  }

  lemma KeepCrash(s: State)
    requires Inv(s)
    ensures CmdsOk(Next(s, Crash)) && Sound(Next(s, Crash)) && Quiet(Next(s, Crash))
  {
  }

  lemma Keep(s: State, e: Event)
    requires Inv(s)
    ensures Inv(Next(s, e))
  {
    KeepJobs(s, e);
    match e
    case Reconcile(_, _, _, _) =>
      KeepCmds(s, e);
      KeepQuiet(s, e);
      KeepSound(s, e);
    case Work(_, _, _) => KeepBoundary(s, e);
    case Crash => KeepCrash(s);
  }

  lemma {:induction false} RunKeeps(s: State, es: seq<Event>)
    requires Inv(s)
    ensures Inv(Run(s, es))
    decreases |es|
  {
    if es != [] {
      Keep(s, es[0]);
      RunKeeps(Next(s, es[0]), es[1..]);
    }
  }

  // ── Main results ─────────────────────────────────────────────────────────

  /** In every run, whatever fails and crashes: a persisted index n means that phases 0 to n have all
    * succeeded since the last Cleanup, and no phase was ever skipped. */
  lemma ResumeSound(es: seq<Event>)
    ensures
      var s := Run(INIT, es);
      DoneUpTo(s.log, Index(s.cr.last)) && NoSkip(s.log)
  {
    RunKeeps(INIT, es);
  }

  /** One step takes the index down only by the write that also sets init-complete. */
  lemma IndexStep(s: State, e: Event)
    requires Inv(s)
    ensures Index(Next(s, e).cr.last) >= Index(s.cr.last) ||
      (Index(Next(s, e).cr.last) == -1 && Next(s, e).cr.complete && Next(s, e).cr.cache != "" && s.pc.MarkComplete?)
  {
  }

  /** Past the point where Cleanup could run again: progress persisted, or sealed. */
  ghost predicate Committed(s: State) {
    Index(s.cr.last) >= 0 || Sealed(s)
  }

  lemma StaysCommitted(s: State, e: Event)
    requires Inv(s) && Committed(s)
    ensures Committed(Next(s, e))
    ensures Next(s, e).log == s.log ||
      (|Next(s, e).log| == |s.log| + 1 && s.log <= Next(s, e).log && Next(s, e).log[|s.log|] != Started(0))
  {
    if e.Work? && !(AtWork(s) && e.id == s.table.value) {
      OnlyTableWorks(s, e);
    }
  }

  /** Once any progress is persisted, Cleanup never runs again. */
  lemma {:induction false} CleanupNeverAgain(s: State, es: seq<Event>)
    requires Inv(s) && Committed(s)
    ensures s.log <= Run(s, es).log
    ensures forall k | |s.log| <= k < |Run(s, es).log| :: Run(s, es).log[k] != Started(0)
    decreases |es|
  {
    if es != [] {
      var t := Next(s, es[0]);
      Keep(s, es[0]);
      StaysCommitted(s, es[0]);
      CleanupNeverAgain(t, es[1..]);
      assert s.log <= t.log && |t.log| <= |s.log| + 1;
    }
  }

  lemma StaysSealed(s: State, e: Event)
    requires Inv(s) && Sealed(s)
    ensures Sealed(Next(s, e)) && Next(s, e).log == s.log && Next(s, e).table.None?
    ensures |Next(s, e).routines| == |s.routines|
  {
    if e.Work? {
      OnlyTableWorks(s, e);
    }
  }

  /** Once init-complete with its cached command is persisted, or a join command is in the status,
    * no step ever starts another init run, and the host is not touched by one. */
  lemma {:induction false} SealedForever(s: State, es: seq<Event>)
    requires Inv(s) && Sealed(s)
    ensures Sealed(Run(s, es)) && Run(s, es).log == s.log && Run(s, es).table.None?
    ensures |Run(s, es).routines| == |s.routines|
    decreases |es|
  {
    if es != [] {
      Keep(s, es[0]);
      StaysSealed(s, es[0]);
      SealedForever(Next(s, es[0]), es[1..]);
    }
  }

  /** In no run does the index go down before the cluster is sealed. */
  lemma {:induction false} IndexMonotone(s: State, es: seq<Event>)
    requires Inv(s)
    ensures Index(Run(s, es).cr.last) >= Index(s.cr.last) || Sealed(Run(s, es))
    decreases |es|
  {
    if es != [] {
      var t := Next(s, es[0]);
      Keep(s, es[0]);
      IndexStep(s, es[0]);
      IndexMonotone(t, es[1..]);
      if Sealed(t) {
        SealedForever(t, es[1..]);
      }
    }
  }

  /** In every run: after init-complete was set, it is still set or a join command is in the status;
    * and a join command in the status is never replaced by an empty one. */
  lemma {:induction false} ClearedOnlyJoined(s: State, es: seq<Event>)
    requires Inv(s)
    ensures s.cr.complete ==> Run(s, es).cr.complete || Run(s, es).cr.join != ""
    ensures s.cr.join != "" ==> Run(s, es).cr.join != ""
    decreases |es|
  {
    if es != [] {
      Keep(s, es[0]);
      ClearedOnlyJoined(Next(s, es[0]), es[1..]);
    }
  }

  /** Reconciled without a job and unsealed, a cluster begins its next run at Cleanup exactly when
    * no progress was persisted; otherwise at the first phase after the persisted one. */
  lemma RestartIff(s: State)
    requires Inv(s) && s.table.None? && s.pc == Idle && !Sealed(s) && Index(s.cr.last) < PHASES - 1
    ensures
      var e, w := Reconcile(true, false, "", false), Work(|s.routines|, true, "");
      var t := Run(s, [e, e, w]);
      && |t.log| == |s.log| + 1 && t.log[|s.log|] == Started(Index(s.cr.last) + 1)
      && (t.log[|s.log|] == Started(0) <==> Index(s.cr.last) == -1)
  {
    var e, w := Reconcile(true, false, "", false), Work(|s.routines|, true, "");
    var a := Next(s, e);
    var b := Next(a, e);
    assert [e, e, w][1..] == [e, w] && [e, w][1..] == [w] && [w][1..] == [];
    assert Run(s, [e, e, w]) == Run(a, [e, w]) == Run(b, [w]) == Next(b, w);
  }

  // ── The job as the loop runs it ──────────────────────────────────────────

  /** Two boundaries a phase: its start and its success. */
  function Steady(id: nat, k: nat): (es: seq<Event>) {
    if k == 0 then [] else Steady(id, k - 1) + [Work(id, true, ""), Work(id, true, "")]
  }

  lemma {:induction false} RunAppend(s: State, es: seq<Event>, fs: seq<Event>)
    ensures Run(s, es + fs) == Run(Run(s, es), fs)
    decreases |es|
  {
    if es == [] {
      assert es + fs == fs;
    } else {
      assert (es + fs)[0] == es[0] && (es + fs)[1..] == es[1..] + fs;
      RunAppend(Next(s, es[0]), es[1..], fs);
    }
  }

  predicate Starting(s: State, id: nat, at: nat) {
    id < |s.routines| && s.routines[id].stage == Working(at, false)
  }

  lemma TwoSteps(s: State, a: Event, b: Event)
    ensures Run(s, [a, b]) == Next(Next(s, a), b)
  {
    assert [a, b][1..] == [b] && [b][1..] == [];
    assert Run(s, [a, b]) == Run(Next(s, a), [b]);
  }

  /** A job that started at phase `at` of state s, after k phases. */
  function Through(s: State, id: nat, at: nat, k: nat): State
    requires id < |s.routines|
  {
    SetStage(s, id, Working(at + k, false)).(
      log := s.log + Trace(at, at + k),
      progress := if k == 0 then s.progress else Some(at + k - 1))
  }

  lemma OnePhaseMore(s: State, id: nat, at: nat, k: nat)
    requires Starting(s, id, at) && at + k < PHASES
    ensures
      var w := Work(id, true, "");
      Run(Through(s, id, at, k), [w, w]) == Through(s, id, at, k + 1)
  {
    var t, w := Through(s, id, at, k), Work(id, true, "");
    TwoSteps(t, w, w);
    assert t.log + [Started(at + k)] + [Succeeded(at + k)] == s.log + Trace(at, at + k + 1);
  }

  /** Left alone, a job does to the host and to the progress what RunPhases does, phase by phase. */
  lemma {:induction false} JobRunsPhases(s: State, id: nat, at: nat, k: nat)
    requires Starting(s, id, at) && at + k <= PHASES
    ensures Run(s, Steady(id, k)) == Through(s, id, at, k)
    decreases k
  {
    if k == 0 {
      assert s.log + Trace(at, at) == s.log;
      assert s.routines[id := s.routines[id]] == s.routines;
    } else {
      JobRunsPhases(s, id, at, k - 1);
      RunAppend(s, Steady(id, k - 1), [Work(id, true, ""), Work(id, true, "")]);
      OnePhaseMore(s, id, at, k - 1);
    }
  }

  /** And as RunPhases ends: with the failure of the phase it stops at, or, after the last phase, with
    * the join command. */
  lemma JobIsRunPhases(s: State, id: nat, at: nat, stop: nat, cmd: string)
    requires Starting(s, id, at) && at <= stop <= PHASES && cmd != ""
    ensures
      var k := stop - at;
      var ending := if stop < PHASES then [Work(id, true, ""), Work(id, false, "")] else [Work(id, true, cmd)];
      var t := Run(s, Steady(id, k) + ending);
      && t.log == s.log + Trace(at, stop) + (if stop == PHASES then [] else [Started(stop)])
      && id < |t.routines| && t.routines[id].stage == Sent(if stop == PHASES then Some(cmd) else None)
      && t.progress == if stop == at then s.progress else Some(stop - 1)
  {
    var k := stop - at;
    JobRunsPhases(s, id, at, k);
    var t := Run(s, Steady(id, k));
    if stop < PHASES {
      RunAppend(s, Steady(id, k), [Work(id, true, ""), Work(id, false, "")]);
      TwoSteps(t, Work(id, true, ""), Work(id, false, ""));
    } else {
      var e := Work(id, true, cmd);
      RunAppend(s, Steady(id, k), [e]);
      assert [e][1..] == [] && Run(t, [e]) == Next(t, e);
    }
  }

  // ── One job at a time ────────────────────────────────────────────────────

  /** In every run at most one job of the cluster is working. */
  lemma OneJob(es: seq<Event>, i: nat, j: nat)
    requires
      var s := Run(INIT, es);
      i < |s.routines| && j < |s.routines| && s.routines[i].stage.Working? && s.routines[j].stage.Working?
    ensures i == j
  {
    RunKeeps(INIT, es);
    assert Accounted(Run(INIT, es), i) && Accounted(Run(INIT, es), j);
  }

  /** In every run: once a later job was started, the earlier one was lost in a crash, or its result was
    * read exactly once. */
  lemma ReadOnceBeforeNext(es: seq<Event>, i: nat)
    requires i + 1 < |Run(INIT, es).routines|
    ensures
      var r := Run(INIT, es).routines[i];
      if r.stage.Killed? then r.taken == 0 else r.taken == 1
  {
    RunKeeps(INIT, es);
    assert Accounted(Run(INIT, es), i);
  }

  /** Without a crash no job is lost. */
  lemma {:induction false} NothingLost(s: State, es: seq<Event>)
    requires forall e | e in es :: !e.Crash?
    requires forall r | r in s.routines :: !r.stage.Killed?
    ensures forall r | r in Run(s, es).routines :: !r.stage.Killed?
    decreases |es|
  {
    if es != [] {
      NothingLost(Next(s, es[0]), es[1..]);
    }
  }

  /** The progress that goes with a result is that job's own: it names the last phase the job reported
    * or nothing, and no later job has written it. */
  lemma ProgressIsOwn(es: seq<Event>)
    ensures
      var s := Run(INIT, es);
      s.progress.Some? ==> s.table == Some(|s.routines| - 1) && DoneUpTo(s.log, s.progress.value)
  {
    RunKeeps(INIT, es);
  }
}

/** What a run of the control-plane machine leaves behind for the next one: progress reaches the
  * annotation, the next job goes on after it, and a ready cluster has been through everything. */
module ControlPlaneProgress {
  import opened Text
  import opened Phases
  import opened ControlPlane

  // ── How far the latest job has come, by the host's log ───────────────────

  /** The last phase that has succeeded since the latest job was started. */
  function Reached(d: Option<nat>, s: State, t: State): Option<nat> {
    if |t.routines| > |s.routines| then None
    else if |t.log| > |s.log| && t.log[|t.log| - 1].Succeeded? then Some(t.log[|t.log| - 1].phase)
    else d
  }

  function RunReached(d: Option<nat>, s: State, es: seq<Event>): Option<nat>
    decreases |es|
  {
    if es == [] then d else RunReached(Reached(d, s, Next(s, es[0])), Next(s, es[0]), es[1..])
  }

  /** Memory and log agree on it for as long as the job's result is unread, and the reconcile that has read
    * it is about to persist it. */
  ghost predicate Kept(s: State, d: Option<nat>) {
    && Inv(s)
    && (s.table.Some? ==> s.progress == d)
    && (s.pc.Persist? ==> d == Some(s.pc.phase))
  }

  lemma KeptStep(s: State, e: Event, d: Option<nat>)
    requires Kept(s, d)
    ensures Kept(Next(s, e), Reached(d, s, Next(s, e)))
  {
    Keep(s, e);
    if e.Work? && !(AtWork(s) && e.id == s.table.value) {
      OnlyTableWorks(s, e);
    }
  }

  lemma {:induction false} KeptRun(s: State, es: seq<Event>, d: Option<nat>)
    requires Kept(s, d)
    ensures Kept(Run(s, es), RunReached(d, s, es))
    decreases |es|
  {
    if es != [] {
      KeptStep(s, es[0], d);
      KeptRun(Next(s, es[0]), es[1..], Reached(d, s, Next(s, es[0])));
    }
  }

  // ── It is persisted ──────────────────────────────────────────────────────

  predicate OnlyWork(ws: seq<Event>) {
    forall w | w in ws :: w.Work?
  }

  /** While a reconcile waits for its patch, jobs go on. */
  lemma {:induction false} WorkWaits(s: State, ws: seq<Event>)
    requires OnlyWork(ws)
    ensures Run(s, ws).pc == s.pc && Run(s, ws).cr == s.cr
    decreases |ws|
  {
    if ws != [] {
      assert ws[0] in ws;
      WorkWaits(Next(s, ws[0]), ws[1..]);
    }
  }

  /** Without a job in the table nothing is at work. */
  lemma {:induction false} NothingWorks(s: State, ws: seq<Event>)
    requires OnlyWork(ws) && JobsOk(s) && s.table.None?
    ensures Run(s, ws) == s
    decreases |ws|
  {
    if ws != [] {
      assert ws[0] in ws;
      OnlyTableWorks(s, ws[0]);
      NothingWorks(s, ws[1..]);
    }
  }

  lemma Unrolled(s: State, e: Event, ws: seq<Event>, f: Event)
    ensures Run(s, [e] + ws + [f]) == Next(Run(Next(s, e), ws), f)
  {
    assert [e] + ws + [f] == [e] + (ws + [f]) && ([e] + (ws + [f]))[1..] == ws + [f];
    RunAppend(Next(s, e), ws, [f]);
    assert [f][1..] == [] && Run(Run(Next(s, e), ws), [f]) == Next(Run(Next(s, e), ws), f);
  }

  predicate Patches(f: Event) {
    f.Reconcile? && (f.ok || f.lost)
  }

  /** A reconcile finds a result in the channel, of a job that failed or not. */
  predicate Finished(s: State) {
    s.pc == Idle && s.table.Some? && s.table.value < |s.routines| && s.routines[s.table.value].stage.Sent?
  }

  predicate Failed(s: State) {
    Finished(s) && s.routines[s.table.value].stage.result.None?
  }

  /** In every run: once a job's result has been read and the patch after it is applied, the index is the
    * last phase in which the job succeeded, whether it failed or not. */
  lemma ReadIsPersisted(es: seq<Event>, e: Event, ws: seq<Event>, f: Event, n: nat)
    requires Finished(Run(INIT, es)) && RunReached(None, INIT, es) == Some(n)
    requires e.Reconcile? && !e.refresh && OnlyWork(ws) && Patches(f)
    ensures
      var s := Run(INIT, es);
      var t := Run(s, [e] + ws + [f]);
      && t.cr.last == Some(n) && t.log == s.log && t.table.None? && t.progress.None? && !Sealed(t)
      && (Failed(s) ==> t.pc == Idle)
  {
    var s := Run(INIT, es);
    KeptRun(INIT, es, None);
    Keep(s, e);
    var a := Next(s, e);
    NothingWorks(a, ws);
    Unrolled(s, e, ws, f);
  }

  /** In every run: a reconcile that finds the job at work and the index behind flushes; once that patch is
    * applied the index is the phase the job had come to. */
  lemma FlushIsPersisted(es: seq<Event>, e: Event, ws: seq<Event>, f: Event, n: nat)
    requires Run(INIT, es).pc == Idle && AtWork(Run(INIT, es)) && RunReached(None, INIT, es) == Some(n)
    requires e.Reconcile? && !e.refresh && OnlyWork(ws) && Patches(f)
    ensures
      var s := Run(INIT, es);
      if s.cr.last == Some(n) then Next(s, e) == s
      else Run(s, [e] + ws + [f]).cr.last == Some(n) && Run(s, [e] + ws + [f]).pc == Idle
  {
    var s := Run(INIT, es);
    KeptRun(INIT, es, None);
    WorkWaits(Next(s, e), ws);
    Unrolled(s, e, ws, f);
  }

  // ── And the next job goes on after it ────────────────────────────────────

  /** Nothing has happened on the host since index k was persisted, and a job that is already there has not
    * begun its first phase. */
  ghost predicate Resting(s: State, k: int) {
    && !Sealed(s) && -1 <= k < PHASES - 1 && Index(s.cr.last) == k && s.progress.None?
    && (s.pc == Idle || (s.pc == Spawn && s.table.None?))
    && (AtWork(s) ==> Progressed(s) == Working(k + 1, false))
    && (Finished(s) ==> Failed(s))
  }

  lemma RestingStep(s: State, e: Event, k: int)
    requires Inv(s) && Resting(s, k)
    ensures Next(s, e).log == s.log + [Started(k + 1)] || (Next(s, e).log == s.log && Resting(Next(s, e), k))
  {
    if e.Work? && !(AtWork(s) && e.id == s.table.value) {
      OnlyTableWorks(s, e);
    }
  }

  lemma {:induction false} LogGrows(s: State, es: seq<Event>)
    ensures s.log <= Run(s, es).log
    decreases |es|
  {
    if es != [] {
      var t := Next(s, es[0]);
      LogGrows(t, es[1..]);
      assert s.log <= t.log;
    }
  }

  /** Whatever follows, with any crashes, failed connections and failed jobs: the next thing that happens on
    * the host, if anything does, is the start of the phase after the persisted one. */
  lemma {:induction false} NextStarts(s: State, es: seq<Event>, k: int)
    requires Inv(s) && Resting(s, k)
    ensures s.log <= Run(s, es).log && (Run(s, es).log != s.log ==> Run(s, es).log[|s.log|] == Started(k + 1))
    decreases |es|
  {
    if es != [] {
      var t := Next(s, es[0]);
      RestingStep(s, es[0], k);
      if t.log == s.log {
        Keep(s, es[0]);
        NextStarts(t, es[1..], k);
      } else {
        LogGrows(t, es[1..]);
        assert t.log[|s.log|] == Started(k + 1);
      }
    }
  }

  /** So after a job that failed behind phase n: its result read and the patch applied, the next phase to
    * start in any continuation is n + 1. */
  lemma FailedJobResumes(es: seq<Event>, e: Event, ws: seq<Event>, f: Event, n: nat, gs: seq<Event>)
    requires Failed(Run(INIT, es)) && RunReached(None, INIT, es) == Some(n) && n < PHASES - 1
    requires e.Reconcile? && !e.refresh && OnlyWork(ws) && Patches(f)
    ensures
      var s := Run(INIT, es);
      var t := Run(INIT, es + ([e] + ws + [f]) + gs);
      s.log <= t.log && (t.log != s.log ==> t.log[|s.log|] == Started(n + 1))
  {
    var more := [e] + ws + [f];
    var t := Run(Run(INIT, es), more);
    ReadIsPersisted(es, e, ws, f, n);
    RunAppend(INIT, es, more);
    RunAppend(INIT, es + more, gs);
    RunKeeps(INIT, es + more);
    NextStarts(t, gs, n);
  }

  /** And after a flush and a crash, the next phase to start is the one after the flushed one, even when the
    * lost job had gone on meanwhile. */
  lemma FlushThenCrashResumes(es: seq<Event>, e: Event, ws: seq<Event>, f: Event, n: nat, gs: seq<Event>)
    requires Run(INIT, es).pc == Idle && AtWork(Run(INIT, es)) && RunReached(None, INIT, es) == Some(n)
    requires Run(INIT, es).cr.last != Some(n) && n < PHASES - 1
    requires e.Reconcile? && !e.refresh && OnlyWork(ws) && Patches(f)
    ensures
      var s := Run(INIT, es + ([e] + ws + [f]) + [Crash]);
      var t := Run(INIT, es + ([e] + ws + [f]) + [Crash] + gs);
      s.log <= t.log && (t.log != s.log ==> t.log[|s.log|] == Started(n + 1))
  {
    var more := [e] + ws + [f];
    var t := Run(INIT, es + more);
    FlushIsPersisted(es, e, ws, f, n);
    RunAppend(INIT, es, more);
    RunAppend(INIT, es + more, [Crash]);
    assert [Crash][1..] == [] && Run(t, [Crash]) == Next(t, Crash);
    RunAppend(INIT, es + more + [Crash], gs);
    RunKeeps(INIT, es + more + [Crash]);
    RunKeeps(INIT, es);
    KeptRun(INIT, es, None);
    Unsealed(Run(INIT, es), e, ws, f);
    NextStarts(Next(t, Crash), gs, n);
  }

  lemma Unsealed(s: State, e: Event, ws: seq<Event>, f: Event)
    requires Inv(s) && s.pc == Idle && AtWork(s) && e.Reconcile? && !e.refresh && OnlyWork(ws) && Patches(f)
    requires Next(s, e).pc.Flush?
    ensures !Sealed(Run(s, [e] + ws + [f]))
  {
    WorkWaits(Next(s, e), ws);
    Unrolled(s, e, ws, f);
  }

  // ── What a ready cluster stands on ───────────────────────────────────────

  /** On the way to ready, and once it is, all phases have succeeded since the last Cleanup. */
  ghost predicate Complete(s: State) {
    && Inv(s)
    && (Sealed(s) || (Finished(s.(pc := Idle)) && !Failed(s.(pc := Idle))) || Completing(s.pc) ==>
          DoneUpTo(s.log, PHASES - 1))
  }

  predicate Completing(pc: PC) {
    (pc.Persist? && pc.result.Some?) || pc.MarkComplete? || pc.PostInit? || pc.WriteReady?
  }

  lemma CompleteStep(s: State, e: Event)
    requires Complete(s)
    ensures Complete(Next(s, e))
  {
    Keep(s, e);
    if e.Work? && !(AtWork(s) && e.id == s.table.value) {
      OnlyTableWorks(s, e);
    }
  }

  lemma {:induction false} CompleteRun(s: State, es: seq<Event>)
    requires Complete(s)
    ensures Complete(Run(s, es))
    decreases |es|
  {
    if es != [] {
      CompleteStep(s, es[0]);
      CompleteRun(Next(s, es[0]), es[1..]);
    }
  }

  /** In every run, an initialised or ready cluster has been through all phases since the last Cleanup. */
  lemma SealedIsDone(es: seq<Event>)
    ensures Sealed(Run(INIT, es)) ==> DoneUpTo(Run(INIT, es).log, PHASES - 1)
  {
    CompleteRun(INIT, es);
  }

  lemma Run4(s: State, e: Event)
    ensures Run(s, [e, e] + [e, e]) == Next(Next(Next(Next(s, e), e), e), e)
  {
    RunAppend(s, [e, e], [e, e]);
    TwoSteps(s, e, e);
    TwoSteps(Run(s, [e, e]), e, e);
  }

  /** Once kubeadm has finished, whatever was lost after it: the next reconcile in which every call succeeds makes
    * the cluster ready with the cached command, without another job, and clears the flags. */
  lemma CompletesFromCache(s: State)
    requires s.pc == Idle && s.cr.complete && s.cr.join == ""
    ensures
      var e := Reconcile(true, false, "", false);
      Run(s, [e, e] + [e, e]) == s.(cr := s.cr.(join := s.cr.cache, complete := false, cache := ""))
  {
    Run4(s, Reconcile(true, false, "", false));
  }

  /** A token refresh of a ready cluster in which every call succeeds stores the new command and changes nothing
    * else; one that gets no command changes nothing. */
  lemma RefreshStores(s: State, cmd: string)
    requires s.pc == Idle && s.cr.join != ""
    ensures
      var begin, token, done :=
        Reconcile(true, false, "", true), Reconcile(true, false, cmd, false), Reconcile(true, false, "", false);
      if cmd != "" then Next(Next(Next(s, begin), token), done) == s.(cr := s.cr.(join := cmd))
      else Next(Next(s, begin), token) == s
  {
  }

  /** A connection that fails before a job, a post-init step that fails, a token that is refused and a write that
    * is refused end the reconcile, and nothing changes. */
  lemma FailedCallReturns(s: State, e: Event)
    requires e.Reconcile? && !e.ok && !e.lost
    requires s.pc.Spawn? || s.pc.PostInit? || s.pc.NewToken? || s.pc.WriteReady? || s.pc.WriteToken? || s.pc.Flush?
    ensures Next(s, e) == s.(pc := Idle)
  {
  }

  /** A patch that is refused persists nothing, and the reconcile goes on without it: after the index comes the
    * result, after the completion the post-init steps. */
  lemma RefusedPatch(s: State, e: Event)
    requires e.Reconcile? && !e.ok && !e.lost && (s.pc.Persist? || s.pc.MarkComplete? || s.pc.ClearFlags?)
    ensures Next(s, e) == s.(pc :=
      if s.pc.Persist? && s.pc.result.Some? then MarkComplete(s.pc.result.value)
      else if s.pc.MarkComplete? then PostInit(s.pc.cmd) else Idle)
  {
  }

  /** The commands that were answered: by a job at its end, or by a token refresh. */
  function Answered(es: seq<Event>): (cmds: set<string>) {
    set e | e in es && !e.Crash? && e.ok && e.cmd != "" :: e.cmd
  }

  ghost predicate CmdsFrom(s: State, cmds: set<string>) {
    && (s.cr.join == "" || s.cr.join in cmds)
    && (s.cr.complete ==> s.cr.cache in cmds)
    && (forall r | r in s.routines :: r.stage.Sent? && r.stage.result.Some? ==> r.stage.result.value in cmds)
    && match s.pc
       case Persist(result, _) => result.Some? ==> result.value in cmds
       case MarkComplete(cmd) => cmd in cmds
       case PostInit(cmd) => cmd in cmds
       case WriteReady(cmd) => cmd in cmds
       case WriteToken(cmd) => cmd in cmds
       case _ => true
  }

  lemma CmdsStep(s: State, e: Event, cmds: set<string>)
    requires CmdsFrom(s, cmds) && (!e.Crash? && e.ok && e.cmd != "" ==> e.cmd in cmds)
    ensures CmdsFrom(Next(s, e), cmds)
  {
  }

  lemma {:induction false} CmdsRun(s: State, es: seq<Event>, cmds: set<string>)
    requires CmdsFrom(s, cmds) && Answered(es) <= cmds
    ensures CmdsFrom(Run(s, es), cmds)
    decreases |es|
  {
    if es != [] {
      assert es[0] in es;
      assert !es[0].Crash? && es[0].ok && es[0].cmd != "" ==> es[0].cmd in Answered(es);
      forall cmd | cmd in Answered(es[1..])
        ensures cmd in Answered(es)
      {
      }
      CmdsStep(s, es[0], cmds);
      CmdsRun(Next(s, es[0]), es[1..], cmds);
    }
  }

  /** The join command in the status is one that a job or a token refresh was answered with in this run. */
  lemma CommandWasAnswered(es: seq<Event>)
    ensures
      var join := Run(INIT, es).cr.join;
      join != "" ==> exists e :: e in es && !e.Crash? && e.ok && e.cmd == join
  {
    CmdsRun(INIT, es, Answered(es));
  }
}

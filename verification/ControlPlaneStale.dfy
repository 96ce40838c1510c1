/** A reconcile that reads an old copy of the cluster object: the one way to another init run of a
  * cluster that is initialised already. */
module ControlPlaneStale {
  import opened Text
  import opened Phases
  import opened ControlPlane

  const ON := Reconcile(true, false, "", false)

  /** How a reconcile begins that has read `copy`. */
  function BeginWith(s: State, copy: Cluster): State {
    Began(s.(cr := copy), ON).(cr := s.cr)
  }

  predicate StartsInit(s: State, copy: Cluster) {
    s.pc == Idle && BeginWith(s, copy).pc == Spawn
  }

  /** The job it starts when its next calls succeed: the start phase is the copy's. */
  function StartWith(s: State, copy: Cluster): State {
    s.(table := Some(|s.routines|), routines := s.routines + [Routine(Working(StartPhase(copy.last), false), 0)])
  }

  lemma SealedHasNoJob(es: seq<Event>)
    requires Sealed(Run(INIT, es))
    ensures Run(INIT, es).table.None?
  {
    RunKeeps(INIT, es);
  }

  /** With a copy of any earlier moment, a reconcile of an initialised cluster starts another init job
    * exactly when the copy is from before init-complete was persisted. */
  lemma StaleStartsIff(es: seq<Event>, fs: seq<Event>)
    requires Sealed(Run(INIT, es + fs)) && Run(INIT, es + fs).pc == Idle
    ensures StartsInit(Run(INIT, es + fs), Run(INIT, es).cr) <==> !Sealed(Run(INIT, es))
  {
    SealedHasNoJob(es + fs);
  }

  /** That job begins after the phase the copy names, and so resets the host, with Cleanup, exactly when
    * the copy is older than all persisted progress. */
  lemma StaleStartPhase(es: seq<Event>, fs: seq<Event>)
    ensures
      var s, copy := Run(INIT, es + fs), Run(INIT, es).cr;
      var t := Next(StartWith(s, copy), Work(|s.routines|, true, ""));
      && t.log == s.log + (if Index(copy.last) < PHASES - 1 then [Started(StartPhase(copy.last))] else [])
      && (t.log == s.log + [Started(0)] <==> Index(copy.last) == -1)
  {
    RunKeeps(INIT, es);
    var s, copy := Run(INIT, es + fs), Run(INIT, es).cr;
    var t := Next(StartWith(s, copy), Work(|s.routines|, true, ""));
    if t.log != s.log {
      assert t.log[|s.log|] == Started(StartPhase(copy.last));
    }
  }

  // ── It happens ───────────────────────────────────────────────────────────

  function Provisioning(): (es: seq<Event>) {
    [ON, ON] + Steady(0, PHASES) + [Work(0, true, "join"), ON]
  }

  /** A run in which everything succeeds, until the cluster is ready. */
  function Initialisation(): (es: seq<Event>) {
    Provisioning() + [ON, ON, ON, ON, ON]
  }

  const STARTED := INIT.(table := Some(0), routines := [Routine(Working(0, false), 0)])

  lemma JobEnds()
    ensures Run(INIT, Provisioning()).pc == Persist(Some("join"), PHASES - 1)
    ensures Run(INIT, Provisioning()).table.None? && Run(INIT, Provisioning()).cr == INIT.cr
    ensures Run(INIT, Provisioning()).log == Trace(0, PHASES)
  {
    var start, work, ending := [ON, ON], Steady(0, PHASES), [Work(0, true, "join"), ON];
    TwoSteps(INIT, ON, ON);
    assert Run(INIT, start) == STARTED && [] + Trace(0, PHASES) == Trace(0, PHASES);
    RunAppend(INIT, start, work);
    JobRunsPhases(STARTED, 0, 0, PHASES);
    var done := Through(STARTED, 0, 0, PHASES);
    RunAppend(INIT, start + work, ending);
    TwoSteps(done, Work(0, true, "join"), ON);
  }

  /** One more step. */
  lemma Onward(es: seq<Event>, e: Event)
    ensures Run(INIT, es + [e]) == Next(Run(INIT, es), e)
  {
    RunAppend(INIT, es, [e]);
    assert [e][1..] == [] && Run(Run(INIT, es), [e]) == Next(Run(INIT, es), e);
  }

  lemma PersistPasses()
    ensures
      var p, q := Run(INIT, Provisioning()), Run(INIT, Provisioning() + [ON]);
      && q == p.(cr := p.cr.(last := Some(PHASES - 1)), pc := MarkComplete("join"))
      && DoneUpTo(q.log, PHASES - 1)
  {
    JobEnds();
    Onward(Provisioning(), ON);
    ResumeSound(Provisioning() + [ON]);
  }

  lemma Finishes(q: State)
    requires q.pc == MarkComplete("join")
    ensures
      var s := Run(q, [ON, ON] + [ON, ON]);
      s == q.(cr := Cluster(Some(-1), false, "", "join"), pc := Idle)
  {
    RunAppend(q, [ON, ON], [ON, ON]);
    TwoSteps(q, ON, ON);
    TwoSteps(Run(q, [ON, ON]), ON, ON);
  }

  lemma GoesOn(es: seq<Event>)
    requires Run(INIT, es + [ON]).pc == MarkComplete("join")
    ensures Run(INIT, es + [ON, ON, ON, ON, ON])
      == Run(INIT, es + [ON]).(cr := Cluster(Some(-1), false, "", "join"), pc := Idle)
  {
    assert es + [ON, ON, ON, ON, ON] == es + [ON] + ([ON, ON] + [ON, ON]);
    RunAppend(INIT, es + [ON], [ON, ON] + [ON, ON]);
    Finishes(Run(INIT, es + [ON]));
  }

  /** Left to succeed, a new cluster has every phase run once and in order, and is then ready with the job's join
    * command, its index and flags cleared. */
  lemma InitialisesInOneRun()
    ensures
      var s := Run(INIT, Initialisation());
      && s.cr == Cluster(Some(-1), false, "", "join") && s.log == Trace(0, PHASES)
      && s.pc == Idle && s.table.None?
  {
    JobEnds();
    PersistPasses();
    GoesOn(Provisioning());
  }

  /** A reconcile with the copy of a new cluster. */
  lemma Restarts(s: State)
    requires s.pc == Idle && s.table.None?
    ensures
      var t := Next(StartWith(s, INIT.cr), Work(|s.routines|, true, ""));
      StartsInit(s, INIT.cr) && t.log == s.log + [Started(0)] && !DoneUpTo(t.log, 0)
  {
    SinceAppend(s.log, Started(0));
    assert 0 !in Since(s.log + [Started(0)]);
  }

  /** The run ends with the cluster ready and every phase done; a reconcile with the copy of its beginning
    * starts another job all the same, and that job's first step undoes them. */
  lemma StaleReadTearsDown()
    ensures
      var s := Run(INIT, Initialisation());
      var t := Next(StartWith(s, INIT.cr), Work(|s.routines|, true, ""));
      && s.cr.join != "" && DoneUpTo(s.log, PHASES - 1)
      && StartsInit(s, INIT.cr) && t.log == s.log + [Started(0)] && !DoneUpTo(t.log, 0)
  {
    JobEnds();
    PersistPasses();
    GoesOn(Provisioning());
    Restarts(Run(INIT, Initialisation()));
  }
}

/** Safety of the NodeProvision machine over whole runs. */
module NodeLifecycleSafety {
  import opened NodeLifecycle

  // ── What only one step does ──────────────────────────────────────────────

  lemma UnchangedPrepare(s: State, e: Event)
    requires Wf(s) && e.Answer? && Preparing(s.pc)
    ensures Cur(NextPrepare(s, e)).finalizer == Cur(s).finalizer
    ensures NextPrepare(s, e).Count() == s.Count()
  {
  }

  lemma UnchangedLaunch(s: State, e: Event)
    requires Wf(s) && e.Answer? && Launching(s.pc)
    ensures Cur(NextLaunch(s, e)).finalizer == Cur(s).finalizer
    ensures s.pc != Launch ==> NextLaunch(s, e).Count() == s.Count()
  {
  }

  lemma UnchangedJoin(s: State, e: Event)
    requires Wf(s) && e.Answer? && InJoin(s.pc)
    ensures Cur(NextJoin(s, e)).finalizer == Cur(s).finalizer
    ensures NextJoin(s, e).Count() == s.Count()
  {
  }

  lemma UnchangedRetry(s: State, e: Event)
    requires Wf(s) && e.Answer? && InRetry(s.pc)
    ensures Cur(NextRetry(s, e)).finalizer == Cur(s).finalizer
    ensures NextRetry(s, e).Count() == s.Count()
  {
  }

  lemma UnchangedDelete(s: State, e: Event)
    requires Wf(s) && e.Answer? && InDelete(s.pc)
    ensures s.pc != DelFinalizer ==> Cur(NextDelete(s, e)).finalizer == Cur(s).finalizer
    ensures NextDelete(s, e).Count() == s.Count()
  {
  }

  /** Only DelFinalizer takes the finalizer off, only Launch launches. */
  lemma OnlyStep(s: State, e: Event)
    requires Wf(s)
    ensures Cur(s).finalizer && !Cur(Next(s, e)).finalizer ==> e.Answer? && s.pc == DelFinalizer && s.rv == Last(s.api)
    ensures Launches(s, e) ==> e.Answer? && s.pc == Launch && e.ok && e.name != "" && e.addr != ""
    ensures Next(s, e).Count() <= s.Count() + 1
  {
    if e.Answer? && s.pc != Idle && s.pc != AddFinalizer {
      if Preparing(s.pc) { UnchangedPrepare(s, e); }
      else if Launching(s.pc) { UnchangedLaunch(s, e); }
      else if InJoin(s.pc) { UnchangedJoin(s, e); }
      else if InRetry(s.pc) { UnchangedRetry(s, e); }
      else { UnchangedDelete(s, e); }
    }
  }

  // ── At most one launch ───────────────────────────────────────────────────

  /** The next reconciles that read `o` can reach another launch. */
  predicate Relaunchable(o: Object, gone: bool) {
    && !gone && !o.deleting && o.status.instanceId == ""
    && (Startable(o.status.phase) || o.status.phase == Failed)
  }

  /** No continuation with current reads launches anything. */
  ghost predicate Settled(s: State)
    requires Wf(s)
  {
    && !Relaunchable(Cur(s), s.api.gone)
    && (s.pc == Secret(false) ==> s.np.status.instanceId != "")
    && (Preparing(s.pc) ==> s.pc.Secret? || s.pc.Advance?)
    && !s.pc.Launch? && !s.pc.FailWrite?
    && (s.pc.Record? ==> s.pc.id != "")
    && (s.pc.Refetch? ==> s.pc.id != "")
    && (s.pc.FinalWrite? ==> s.pc.id != "")
    && (s.pc.RetryWrite? ==> s.np.status.instanceId != "" || Cur(s).deleting)
    && (InDelete(s.pc) && !s.pc.DelMark? ==> s.np.status.phase == Deleting)
    && (s.pc.JoinWrite? ==> s.pc.target.Ready? || s.pc.target.PrePullingImages?)
  }

  predicate Writing(s: State) {
    PendingWrite(s.pc, s.np.status).Intent?
  }

  /** A write of a status that opens no way to a launch, leading to points that open none. */
  ghost predicate QuietWrite(s: State, w: Intent)
    requires Wf(s) && w.Intent?
  {
    && !Relaunchable(Cur(s).(status := w.st), s.api.gone)
    && w.onOk == w.onErr && (w.onOk == Idle || w.onOk == DelNode || w.onOk == DelVpn)
    && (w.onOk != Idle ==> w.st.phase == Deleting)
  }

  lemma SettledIntent(s: State)
    requires Wf(s) && Settled(s) && Writing(s)
    ensures QuietWrite(s, PendingWrite(s.pc, s.np.status))
  {
  }

  lemma SettledStatus(s: State, w: Intent, e: Event)
    requires Wf(s) && !Relaunchable(Cur(s), s.api.gone) && e.Answer? && w.Intent? && QuietWrite(s, w)
    ensures
      var t := WriteStatus(s, w.st, e, w.onOk, w.onErr);
      Settled(t) && t.Count() == s.Count()
  {
  }

  lemma SettledWrite(s: State, e: Event)
    requires Wf(s) && Settled(s) && e.Answer? && Writing(s)
    ensures Settled(Next(s, e)) && Next(s, e).Count() == s.Count()
  {
    SettledIntent(s);
    SettledStatus(s, PendingWrite(s.pc, s.np.status), e);
    NextWrites(s, e);
  }

  lemma SettledPrepare(s: State, e: Event)
    requires Wf(s) && Settled(s) && ReadsCurrent(s, e) && e.Answer? && Preparing(s.pc) && !Writing(s)
    ensures Settled(NextPrepare(s, e)) && NextPrepare(s, e).Count() == s.Count()
  {
  }

  lemma SettledLaunch(s: State, e: Event)
    requires Wf(s) && Settled(s) && ReadsCurrent(s, e) && e.Answer? && Launching(s.pc) && !Writing(s)
    ensures Settled(NextLaunch(s, e)) && NextLaunch(s, e).Count() == s.Count()
  {
  }

  lemma SettledJoin(s: State, e: Event)
    requires Wf(s) && Settled(s) && e.Answer? && InJoin(s.pc) && !Writing(s)
    ensures Settled(NextJoin(s, e)) && NextJoin(s, e).Count() == s.Count()
  {
  }

  lemma SettledReread(s: State, e: Event)
    requires Wf(s) && Settled(s) && ReadsCurrent(s, e) && e.Answer? && (s.pc.RetryVpn? || s.pc.RetryGet?)
    ensures Settled(NextRetry(s, e)) && NextRetry(s, e).Count() == s.Count()
  {
  }

  lemma SettledImages(s: State, e: Event)
    requires Wf(s) && Settled(s) && ReadsCurrent(s, e) && e.Answer? && (s.pc.PullImages? || s.pc.ReadyGet?)
    ensures Settled(NextRetry(s, e)) && NextRetry(s, e).Count() == s.Count()
  {
  }

  lemma SettledTerminate(s: State, e: Event)
    requires Wf(s) && Settled(s) && e.Answer? && (s.pc.DelTerminate? || s.pc.DelVpn?)
    ensures Settled(NextDelete(s, e)) && NextDelete(s, e).Count() == s.Count()
  {
  }

  lemma SettledRelease(s: State, e: Event)
    requires Wf(s) && Settled(s) && e.Answer? && (s.pc.DelNode? || s.pc.DelFinalizer?)
    ensures Settled(NextDelete(s, e)) && NextDelete(s, e).Count() == s.Count()
  {
  }

  lemma SettledElsewhere(s: State, e: Event)
    requires Wf(s) && Settled(s) && ReadsCurrent(s, e) && (!e.Answer? || s.pc == Idle || s.pc == AddFinalizer)
    ensures Settled(Next(s, e)) && Next(s, e).Count() == s.Count()
  {
  }

  lemma SettledStep(s: State, e: Event)
    requires Wf(s) && Settled(s) && ReadsCurrent(s, e)
    ensures Settled(Next(s, e)) && Next(s, e).Count() == s.Count()
  {
    if !e.Answer? || s.pc == Idle || s.pc == AddFinalizer { SettledElsewhere(s, e); }
    else if Writing(s) { SettledWrite(s, e); }
    else if Preparing(s.pc) { SettledPrepare(s, e); }
    else if Launching(s.pc) { SettledLaunch(s, e); }
    else if InJoin(s.pc) { SettledJoin(s, e); }
    else if s.pc.RetryVpn? || s.pc.RetryGet? { SettledReread(s, e); }
    else if InRetry(s.pc) { SettledImages(s, e); }
    else if s.pc.DelTerminate? || s.pc.DelVpn? { SettledTerminate(s, e); }
    else { SettledRelease(s, e); }
  }

  lemma {:induction false} SettledRun(s: State, es: seq<Event>)
    requires Wf(s) && Settled(s) && CurrentReads(s, es)
    ensures Settled(Run(s, es)) && Run(s, es).Count() == s.Count()
    decreases |es|
  {
    if es != [] {
      SettledStep(s, es[0]);
      SettledRun(Next(s, es[0]), es[1..]);
    }
  }

  lemma MarkedLaunchSettles(s: State, e: Event)
    requires Wf(s) && Launches(s, e) && Marker(Cur(s).status.phase)
    ensures Settled(Next(s, e)) && Next(s, e).Count() == s.Count() + 1
  {
    OnlyStep(s, e);
    assert Next(s, e) == NextLaunch(s, e);
  }

  lemma {:induction false} OneLaunchFrom(s: State, es: seq<Event>)
    requires Wf(s) && CurrentReads(s, es) && MarkedLaunches(s, es)
    ensures Run(s, es).Count() <= s.Count() + 1
    decreases |es|
  {
    if es != [] {
      var t := Next(s, es[0]);
      if Launches(s, es[0]) {
        MarkedLaunchSettles(s, es[0]);
        SettledRun(t, es[1..]);
      } else {
        OneLaunchFrom(t, es[1..]);
      }
    }
  }

  /** Over every run with current reads in which each launch found a marker phase persisted,
    * whatever crashes, failed launches, retries and lost writes it holds, at most one instance
    * is launched. */
  lemma AtMostOneLaunch(es: seq<Event>)
    requires CurrentReads(INIT, es) && MarkedLaunches(INIT, es)
    ensures Run(INIT, es).Count() <= 1
  {
    OneLaunchFrom(INIT, es);
  }

  // ── Exactly when another launch is possible ──────────────────────────────

  /** Some continuation with current reads brings the launch count to `n`. */
  ghost predicate CanReach(s: State, n: nat)
    requires Wf(s)
  {
    exists es :: CurrentReads(s, es) && Run(s, es).Count() >= n
  }

  ghost predicate CanLaunchAgain(s: State)
    requires Wf(s)
  {
    CanReach(s, s.Count() + 1)
  }

  lemma Onward(s: State, e: Event, n: nat)
    requires Wf(s) && ReadsCurrent(s, e) && CanReach(Next(s, e), n)
    ensures CanReach(s, n)
  {
    var t := Next(s, e);
    var es :| CurrentReads(t, es) && Run(t, es).Count() >= n;
    assert ([e] + es)[1..] == es;
    assert CurrentReads(s, [e] + es) && Run(s, [e] + es).Count() >= n;
  }

  /** An outside call that succeeds, answering Gets with the current version. */
  function Yes(s: State): (e: Event) {
    Answer(true, false, |s.api.versions|, false, "i", "a")
  }

  const NO := Answer(false, false, 0, false, "", "")

  /** The running reconcile's copy is current and waits at `pc`. */
  ghost predicate At(s: State, pc: PC) {
    Wf(s) && !s.api.gone && s.pc == pc && s.rv == Last(s.api)
  }

  lemma LaunchAt(s: State)
    requires At(s, Launch)
    ensures CanLaunchAgain(s)
  {
    var t := Next(s, Yes(s));
    assert CurrentReads(t, []) && Run(t, []).Count() >= s.Count() + 1;
    Onward(s, Yes(s), s.Count() + 1);
  }

  lemma CreateAt(s: State)
    requires At(s, Mark(CreatingInstance))
    ensures CanLaunchAgain(s)
  {
    var t := Next(s, Yes(s));
    var u := Next(t, Yes(t));
    LaunchAt(u);
    Onward(t, Yes(t), s.Count() + 1);
    Onward(s, Yes(s), s.Count() + 1);
  }

  lemma ConfigureAt(s: State)
    requires At(s, Mark(ConfiguringVPN))
    ensures CanLaunchAgain(s)
  {
    var t := Next(s, Yes(s));
    var u := Next(t, Yes(t));
    CreateAt(u);
    Onward(t, Yes(t), s.Count() + 1);
    Onward(s, Yes(s), s.Count() + 1);
  }

  lemma ValidateAt(s: State)
    requires At(s, Mark(Validating))
    ensures CanLaunchAgain(s)
  {
    var t := Next(s, Yes(s));
    var u := Next(t, Yes(t));
    ConfigureAt(u);
    Onward(t, Yes(t), s.Count() + 1);
    Onward(s, Yes(s), s.Count() + 1);
  }

  lemma StartAt(s: State)
    requires At(s, Secret(false)) && s.np.status.instanceId == ""
    ensures CanLaunchAgain(s)
  {
    var t := Next(s, Yes(s));
    var u := Next(t, Yes(t));
    ValidateAt(u);
    Onward(t, Yes(t), s.Count() + 1);
    Onward(s, Yes(s), s.Count() + 1);
  }

  ghost predicate Idling(s: State) {
    Wf(s) && s.pc == Idle && Relaunchable(Cur(s), s.api.gone)
  }

  lemma ReadyToStart(s: State)
    requires Idling(s) && Cur(s).finalizer && Cur(s).status.phase != Failed
    ensures CanLaunchAgain(s)
  {
    StartAt(Next(s, Yes(s)));
    Onward(s, Yes(s), s.Count() + 1);
  }

  /** The retry of a failed object, from its clean-up to the write that resets it. */
  lemma ResetAt(s: State)
    requires At(s, RetryVpn) && s.np == Cur(s) && Relaunchable(Cur(s), false)
    requires Cur(s).finalizer && Cur(s).status.phase == Failed
    ensures CanLaunchAgain(s)
  {
    var n, b, c := s.Count() + 1, s.(pc := RetryGet), s.(pc := RetryWrite);
    assert Next(b, Yes(b)) == c;
    ReadyToStart(Next(c, Yes(c)));
    Onward(c, Yes(c), n);
    Onward(b, Yes(b), n);
    Onward(s, Yes(s), n);
  }

  lemma FailedRetries(s: State)
    requires Idling(s) && Cur(s).finalizer
    ensures CanLaunchAgain(s)
  {
    if Cur(s).status.phase != Failed {
      ReadyToStart(s);
    } else {
      ResetAt(Next(s, Yes(s)));
      Onward(s, Yes(s), s.Count() + 1);
    }
  }

  lemma IdleLaunches(s: State)
    requires Idling(s)
    ensures CanLaunchAgain(s)
  {
    if Cur(s).finalizer {
      FailedRetries(s);
    } else {
      var a := Next(s, Yes(s));
      assert At(a, AddFinalizer);
      FailedRetries(Next(a, Yes(a)));
      Onward(a, Yes(a), s.Count() + 1);
      Onward(s, Yes(s), s.Count() + 1);
    }
  }

  /** Between reconciles, some continuation with current reads launches an instance exactly when
    * the current object exists, is not being deleted, records no instance, and is in a starting
    * phase or Failed. */
  lemma LaunchPossibleIff(s: State)
    requires Wf(s) && s.pc == Idle
    ensures CanLaunchAgain(s) <==> Relaunchable(Cur(s), s.api.gone)
  {
    if Relaunchable(Cur(s), s.api.gone) {
      IdleLaunches(s);
    } else {
      forall es | CurrentReads(s, es)
        ensures Run(s, es).Count() == s.Count()
      {
        SettledRun(s, es);
      }
    }
  }

  /** The marker is what the guarantee rests on: when a launch is followed by a crash, another
    * launch can follow exactly when no marker phase had been persisted. */
  lemma CrashAfterLaunchIff(s: State, e: Event)
    requires Wf(s) && Launches(s, e)
    requires !s.api.gone && !Cur(s).deleting && Cur(s).status.instanceId == ""
    requires Startable(Cur(s).status.phase) || Marker(Cur(s).status.phase)
    ensures CanLaunchAgain(Next(Next(s, e), Crash)) <==> !Marker(Cur(s).status.phase)
  {
    OnlyStep(s, e);
    assert Next(s, e).api == s.api;
    LaunchPossibleIff(Next(Next(s, e), Crash));
  }

  /** A progress write refused and the object re-fetched: on to the next call, nothing persisted. */
  lemma RefusedMark(s: State, p: Phase, n: nat)
    requires At(s, Mark(p))
    requires CanReach(s.(np := Cur(s), pc := AfterMark(p)), n)
    ensures CanReach(s, n)
  {
    var t := Next(s, NO);
    assert t.pc == Remark(p) && Next(t, Yes(t)) == s.(np := Cur(s), pc := AfterMark(p));
    Onward(t, Yes(t), n);
    Onward(s, NO, n);
  }

  /** The launch succeeds, the controller crashes, and a later reconcile launches again. */
  lemma LaunchThenCrash(l: State)
    requires At(l, Launch) && Relaunchable(Cur(l), false)
    ensures CanReach(l, l.Count() + 2)
  {
    var m := Next(l, Yes(l));
    IdleLaunches(Next(m, Crash));
    Onward(m, Crash, l.Count() + 2);
    Onward(l, Yes(l), l.Count() + 2);
  }

  /** The calls between two progress writes. */
  predicate Between(at: PC, after: PC) {
    match at
    case NetConfig => after == Mark(ConfiguringVPN)
    case Connect => after == Mark(CreatingInstance)
    case Credentials => after == Launch
    case _ => false
  }

  lemma CallSucceeds(v: State, at: PC, after: PC, n: nat)
    requires Wf(v) && Between(at, after) && CanReach(v.(pc := after), n)
    ensures CanReach(v.(pc := at), n)
  {
    var c := v.(pc := at);
    assert Next(c, Yes(c)) == v.(pc := after);
    Onward(c, Yes(c), n);
  }

  lemma RefusedCreate(v: State)
    requires At(v, Mark(CreatingInstance)) && v.np == Cur(v) && Relaunchable(Cur(v), false)
    ensures CanReach(v, v.Count() + 2)
  {
    LaunchThenCrash(v.(pc := Launch));
    CallSucceeds(v, Credentials, Launch, v.Count() + 2);
    RefusedMark(v, CreatingInstance, v.Count() + 2);
  }

  lemma RefusedConfigure(v: State)
    requires At(v, Mark(ConfiguringVPN)) && v.np == Cur(v) && Relaunchable(Cur(v), false)
    ensures CanReach(v, v.Count() + 2)
  {
    RefusedCreate(v.(pc := Mark(CreatingInstance)));
    CallSucceeds(v, Connect, Mark(CreatingInstance), v.Count() + 2);
    RefusedMark(v, ConfiguringVPN, v.Count() + 2);
  }

  /** From the first progress write on: all of them refused, the launch succeeds, then a crash. */
  lemma UnmarkedLaunch(v: State)
    requires At(v, Mark(Validating)) && v.np == Cur(v) && Relaunchable(Cur(v), false)
    ensures CanReach(v, v.Count() + 2)
  {
    RefusedConfigure(v.(pc := Mark(ConfiguringVPN)));
    CallSucceeds(v, NetConfig, Mark(ConfiguringVPN), v.Count() + 2);
    RefusedMark(v, Validating, v.Count() + 2);
  }

  /** Without a persisted marker the guarantee fails: from a fresh object, with current reads,
    * every progress write is refused, the launch succeeds, the controller crashes, and a later
    * reconcile launches a second instance. */
  lemma UnmarkedRunLaunchesTwice() returns (es: seq<Event>)
    ensures CurrentReads(INIT, es) && Run(INIT, es).Count() >= 2
  {
    var a := Next(INIT, Yes(INIT));
    var b := Next(a, Yes(a));
    var c := Next(b, Yes(b));
    var d := Next(c, Yes(c));
    UnmarkedLaunch(Next(d, Yes(d)));
    Onward(d, Yes(d), 2);
    Onward(c, Yes(c), 2);
    Onward(b, Yes(b), 2);
    Onward(a, Yes(a), 2);
    Onward(INIT, Yes(INIT), 2);
    es :| CurrentReads(INIT, es) && Run(INIT, es).Count() >= 2;
  }

  // ── Finalizer removal, under stale reads too ─────────────────────────────

  /** How the reconciler's copy relates to the version it was read from; no read need be current. */
  ghost predicate Grounded(s: State) {
    && Wf(s) && s.rv < |s.api.versions|
    && (s.pc == Idle ||
        var base := s.api.versions[s.rv].status;
        && (s.np.status.instanceId == base.instanceId
            || (s.np.status.instanceId == "" && base.instanceId in s.terminated && DeletingPast(s.pc)))
        && (s.np.status.nodeName == base.nodeName || s.pc == ImageList || s.pc.JoinWrite?)
        && (NodeSettled(s.pc) ==> s.np.status.nodeName == "" || s.np.status.nodeName in s.nodesGone)
        && (DeletingPast(s.pc) ==> s.np.status.instanceId == ""))
  }

  predicate DeletingPast(pc: PC) {
    pc.DelClear? || pc.DelVpn? || pc.DelFinalizer?
  }

  predicate NodeSettled(pc: PC) {
    pc.DelTerminate? || DeletingPast(pc)
  }

  lemma GroundedMark(s: State, e: Event)
    requires Grounded(s) && e.Answer?
    requires s.pc.Mark? || s.pc.Remark? || s.pc.Advance?
    ensures Grounded(NextPrepare(s, e))
  {
  }

  lemma GroundedPrepare(s: State, e: Event)
    requires Grounded(s) && e.Answer? && Preparing(s.pc)
    ensures Grounded(NextPrepare(s, e))
  {
    if s.pc.Mark? || s.pc.Remark? || s.pc.Advance? {
      GroundedMark(s, e);
    }
  }

  lemma GroundedLaunch(s: State, e: Event)
    requires Grounded(s) && e.Answer? && Launching(s.pc)
    ensures Grounded(NextLaunch(s, e))
  {
  }

  lemma GroundedJoin(s: State, e: Event)
    requires Grounded(s) && e.Answer? && InJoin(s.pc)
    ensures Grounded(NextJoin(s, e))
  {
  }

  lemma GroundedRetry(s: State, e: Event)
    requires Grounded(s) && e.Answer? && InRetry(s.pc)
    ensures Grounded(NextRetry(s, e))
  {
  }

  lemma GroundedDelete(s: State, e: Event)
    requires Grounded(s) && e.Answer? && InDelete(s.pc)
    ensures Grounded(NextDelete(s, e))
  {
  }

  lemma GroundedStep(s: State, e: Event)
    requires Grounded(s)
    ensures Grounded(Next(s, e))
  {
    if e.Answer? && s.pc != Idle && s.pc != AddFinalizer {
      if Preparing(s.pc) { GroundedPrepare(s, e); }
      else if Launching(s.pc) { GroundedLaunch(s, e); }
      else if InJoin(s.pc) { GroundedJoin(s, e); }
      else if InRetry(s.pc) { GroundedRetry(s, e); }
      else { GroundedDelete(s, e); }
    }
  }

  lemma {:induction false} GroundedRun(s: State, es: seq<Event>)
    requires Grounded(s)
    ensures Grounded(Run(s, es))
    decreases |es|
  {
    if es != [] {
      GroundedStep(s, es[0]);
      GroundedRun(Next(s, es[0]), es[1..]);
    }
  }

  /** Reads may be stale.  Whenever a step of any run takes the finalizer off the current object,
    * the node that object records was seen gone and the instance it records was terminated. */
  lemma FinalizerRemovedAfterCleanup(es: seq<Event>, e: Event)
    ensures
      var s := Run(INIT, es);
      Cur(s).finalizer && !Cur(Next(s, e)).finalizer ==>
        && (Cur(s).status.nodeName == "" || Cur(s).status.nodeName in s.nodesGone)
        && (Cur(s).status.instanceId == "" || Cur(s).status.instanceId in s.terminated)
  {
    GroundedRun(INIT, es);
    OnlyStep(Run(INIT, es), e);
  }

  // ── Every persisted status ───────────────────────────────────────────────

  predicate Early(p: Phase) {
    Startable(p) || Marker(p) || p == Failed
  }

  predicate Joinable(p: Phase) {
    p.Bootstrapping? || p.Joining? || p.RegisteringNode? || p.VerifyingHealth?
  }

  predicate HasInstance(p: Phase) {
    Joinable(p) || p.WaitingForInstance? || p.PrePullingImages? || p.Ready?
  }

  predicate WellFormed(st: Status) {
    && (HasInstance(st.phase) ==> st.instanceId != "" && st.vpnIp != "" && st.ipAddress == st.vpnIp)
    && (st.phase.PrePullingImages? || st.phase.Ready? ==> st.nodeName != "")
    && (st.phase == Ready ==> st.progress == 100 && st.completed)
  }

  predicate Sound(st: Status) {
    WellFormed(st) && (Early(st.phase) ==> st.instanceId == "")
  }

  /** What each point of a reconcile knows when reads are current: the reconciler is the only
    * writer of the status. */
  ghost predicate Knows(pc: PC, st: Status, now: Phase) {
    match pc
    case Advance => false
    case Secret(poll) =>
      Sound(st) && (if poll then st.phase == WaitingForInstance else st.instanceId == "" && Early(now))
    case Mark(p) => st.instanceId == "" && Early(now) && (p == Validating || Marker(p))
    case Remark(p) => Early(now) && (p == Validating || Marker(p))
    case Defaults | NetConfig | Connect | Credentials | Launch | FailWrite => st.instanceId == "" && Early(now)
    case Record(id) => st.instanceId == "" && Early(now) && (id != "" ==> st.vpnIp != "")
    case Refetch(id, addr) => id != "" && addr != "" && Early(now)
    case FinalWrite(id, addr) => id != "" && addr != "" && Early(now)
    case Poll | PollWrite => Sound(st) && st.phase == WaitingForInstance
    case ListNodes | RegisterWrite => Sound(st) && Joinable(st.phase)
    case Stamp(node) => Sound(st) && Joinable(st.phase) && node != ""
    case ImageList => Sound(st) && Joinable(st.phase) && st.nodeName != ""
    case JoinWrite(p) => Sound(st) && Joinable(st.phase) && st.nodeName != "" && (p.Ready? || p.PrePullingImages?)
    case PullImages | ReadyGet => now == PrePullingImages
    case ReadyWrite => Sound(st) && st.phase == PrePullingImages
    case RetryWrite => Sound(st) && st.phase == Failed
    case DelNode | DelTerminate | DelClear | DelVpn | DelFinalizer => st.phase == Deleting
    case _ => true
  }

  ghost predicate Healthy(s: State) {
    Wf(s) && Sound(Cur(s).status) && Knows(s.pc, s.np.status, Cur(s).status.phase)
  }

  /** A step persists nothing, or one more version. */
  ghost predicate Extends(s: State, t: State)
    requires Wf(t)
  {
    t.api.versions == s.api.versions || t.api.versions == s.api.versions + [Cur(t)]
  }

  /** A write of a status, leading to points that are sound whether it is refused or applied. */
  ghost predicate SoundWrite(now: Phase, w: Intent)
    requires w.Intent?
  {
    && Sound(w.st)
    && Knows(w.onOk, w.st, w.st.phase)
    && Knows(w.onErr, w.st, w.st.phase) && Knows(w.onErr, w.st, now)
  }

  /** Every write a reconcile makes is one. */
  lemma SoundEarly(s: State)
    requires Healthy(s) && Writing(s) && (Preparing(s.pc) || Launching(s.pc))
    ensures SoundWrite(Cur(s).status.phase, PendingWrite(s.pc, s.np.status))
  {
  }

  lemma SoundJoin(s: State)
    requires Healthy(s) && Writing(s) && InJoin(s.pc)
    ensures SoundWrite(Cur(s).status.phase, PendingWrite(s.pc, s.np.status))
  {
  }

  lemma SoundRetry(s: State)
    requires Healthy(s) && Writing(s) && InRetry(s.pc)
    ensures SoundWrite(Cur(s).status.phase, PendingWrite(s.pc, s.np.status))
  {
  }

  lemma SoundDelete(s: State)
    requires Healthy(s) && Writing(s) && InDelete(s.pc)
    ensures SoundWrite(Cur(s).status.phase, PendingWrite(s.pc, s.np.status))
  {
  }

  lemma HealthyStatus(s: State, w: Intent, e: Event)
    requires Wf(s) && Sound(Cur(s).status) && e.Answer?
    requires w.Intent? && SoundWrite(Cur(s).status.phase, w)
    ensures
      var t := WriteStatus(s, w.st, e, w.onOk, w.onErr);
      Healthy(t) && Extends(s, t)
  {
  }

  lemma HealthyWrite(s: State, e: Event)
    requires Healthy(s) && e.Answer? && Writing(s)
    ensures Healthy(Next(s, e)) && Extends(s, Next(s, e))
  {
    if Preparing(s.pc) || Launching(s.pc) {
      SoundEarly(s);
    } else if InJoin(s.pc) {
      SoundJoin(s);
    } else if InRetry(s.pc) {
      SoundRetry(s);
    } else {
      SoundDelete(s);
    }
    HealthyStatus(s, PendingWrite(s.pc, s.np.status), e);
    NextWrites(s, e);
  }

  /** A step that persists nothing is as sound as the point it leads to. */
  lemma HealthyPoint(s: State, t: State)
    requires Healthy(s) && t.api == s.api && Knows(t.pc, t.np.status, Cur(s).status.phase)
    ensures Healthy(t) && Extends(s, t)
  {
  }

  lemma HealthyPrepare(s: State, e: Event)
    requires Healthy(s) && ReadsCurrent(s, e) && e.Answer? && Preparing(s.pc) && !Writing(s)
    ensures Healthy(NextPrepare(s, e)) && Extends(s, NextPrepare(s, e))
  {
  }

  lemma HealthyLaunch(s: State, e: Event)
    requires Healthy(s) && ReadsCurrent(s, e) && e.Answer? && Launching(s.pc) && !Writing(s)
    ensures Healthy(NextLaunch(s, e)) && Extends(s, NextLaunch(s, e))
  {
  }

  lemma HealthySearch(s: State, e: Event)
    requires Healthy(s) && e.Answer? && (s.pc.Poll? || s.pc.ListNodes?)
    ensures Healthy(NextJoin(s, e)) && Extends(s, NextJoin(s, e))
  {
  }

  lemma HealthyStamp(s: State, e: Event)
    requires Healthy(s) && e.Answer? && (s.pc.Stamp? || s.pc.ImageList?)
    ensures Healthy(NextJoin(s, e)) && Extends(s, NextJoin(s, e))
  {
  }

  lemma HealthyReread(s: State, e: Event)
    requires Healthy(s) && ReadsCurrent(s, e) && e.Answer? && (s.pc.RetryVpn? || s.pc.RetryGet?)
    ensures Healthy(NextRetry(s, e)) && Extends(s, NextRetry(s, e))
  {
  }

  lemma HealthyImages(s: State, e: Event)
    requires Healthy(s) && ReadsCurrent(s, e) && e.Answer? && (s.pc.PullImages? || s.pc.ReadyGet?)
    ensures Healthy(NextRetry(s, e)) && Extends(s, NextRetry(s, e))
  {
  }

  lemma HealthyTerminate(s: State, e: Event)
    requires Healthy(s) && e.Answer? && (s.pc.DelTerminate? || s.pc.DelVpn?)
    ensures Healthy(NextDelete(s, e)) && Extends(s, NextDelete(s, e))
  {
    assert s.np.status.phase == Deleting;
    HealthyPoint(s, NextDelete(s, e));
  }

  lemma HealthyNodeGone(s: State, e: Event)
    requires Healthy(s) && e.Answer? && s.pc.DelNode?
    ensures Healthy(NextDelete(s, e)) && Extends(s, NextDelete(s, e))
  {
    assert s.np.status.phase == Deleting;
    HealthyPoint(s, NextDelete(s, e));
  }

  lemma HealthyRelease(s: State, e: Event)
    requires Healthy(s) && e.Answer? && s.pc.DelFinalizer?
    ensures Healthy(NextDelete(s, e)) && Extends(s, NextDelete(s, e))
  {
  }

  /** What a reconcile knows right after reading the current object. */
  lemma HealthyDispatch(o: Object)
    requires Sound(o.status)
    ensures Knows(Dispatch(o), o.status, o.status.phase)
  {
  }

  lemma HealthyRead(s: State, e: Event)
    requires Healthy(s) && ReadsCurrent(s, e) && e.Answer? && s.pc == Idle
    ensures Healthy(Next(s, e)) && Extends(s, Next(s, e))
  {
    HealthyDispatch(Cur(s));
  }

  lemma HealthyElsewhere(s: State, e: Event)
    requires Healthy(s) && (!e.Answer? || s.pc == AddFinalizer)
    ensures Healthy(Next(s, e)) && Extends(s, Next(s, e))
  {
  }

  lemma HealthyStep(s: State, e: Event)
    requires Healthy(s) && ReadsCurrent(s, e)
    ensures Healthy(Next(s, e)) && Extends(s, Next(s, e))
  {
    if !e.Answer? || s.pc == AddFinalizer { HealthyElsewhere(s, e); }
    else if s.pc == Idle { HealthyRead(s, e); }
    else if Writing(s) { HealthyWrite(s, e); }
    else if Preparing(s.pc) { HealthyPrepare(s, e); }
    else if Launching(s.pc) { HealthyLaunch(s, e); }
    else if s.pc.Poll? || s.pc.ListNodes? { HealthySearch(s, e); }
    else if InJoin(s.pc) { HealthyStamp(s, e); }
    else if s.pc.RetryVpn? || s.pc.RetryGet? { HealthyReread(s, e); }
    else if InRetry(s.pc) { HealthyImages(s, e); }
    else if s.pc.DelTerminate? || s.pc.DelVpn? { HealthyTerminate(s, e); }
    else if s.pc.DelNode? { HealthyNodeGone(s, e); }
    else { HealthyRelease(s, e); }
  }

  ghost predicate AllSound(vs: seq<Object>) {
    forall i | 0 <= i < |vs| :: Sound(vs[i].status)
  }

  lemma {:induction false} HealthyRun(s: State, es: seq<Event>)
    requires Healthy(s) && AllSound(s.api.versions) && CurrentReads(s, es)
    ensures Healthy(Run(s, es)) && AllSound(Run(s, es).api.versions)
    decreases |es|
  {
    if es != [] {
      HealthyStep(s, es[0]);
      HealthyRun(Next(s, es[0]), es[1..]);
    }
  }

  /** With current reads, every version of the object ever persisted is well formed, through every
    * crash, refused or lost write, retry and deletion. */
  lemma EveryVersionWellFormed(es: seq<Event>, i: nat)
    requires CurrentReads(INIT, es) && i < |Run(INIT, es).api.versions|
    ensures WellFormed(Run(INIT, es).api.versions[i].status)
  {
    HealthyRun(INIT, es);
    assert Sound(Run(INIT, es).api.versions[i].status);
  }

  // ── No recorded instance is forgotten ────────────────────────────────────

  ghost predicate Accounted(s: State)
    requires Wf(s)
  {
    forall i | 0 <= i < |s.api.versions| ::
      var id := s.api.versions[i].status.instanceId;
      id == "" || id == Cur(s).status.instanceId || id in s.terminated
  }

  /** Whether a new current status still accounts for the instance recorded now. */
  ghost predicate Keeps(s: State, t: State)
    requires Wf(s) && Wf(t)
  {
    && s.terminated <= t.terminated
    && (t.api.versions == s.api.versions || (
        && t.api.versions == s.api.versions + [Cur(t)]
        && (Cur(s).status.instanceId in {"", Cur(t).status.instanceId} || Cur(s).status.instanceId in t.terminated)))
  }

  lemma KeepsAccounted(s: State, t: State)
    requires Wf(s) && Wf(t) && Accounted(s) && Keeps(s, t)
    ensures Accounted(t)
  {
  }

  lemma KeepsPrepare(s: State, e: Event)
    requires Healthy(s) && Grounded(s) && e.Answer? && Preparing(s.pc)
    ensures Keeps(s, NextPrepare(s, e))
  {
  }

  lemma KeepsLaunch(s: State, e: Event)
    requires Healthy(s) && Grounded(s) && e.Answer? && Launching(s.pc)
    ensures Keeps(s, NextLaunch(s, e))
  {
  }

  lemma KeepsJoin(s: State, e: Event)
    requires Healthy(s) && Grounded(s) && e.Answer? && InJoin(s.pc)
    ensures Keeps(s, NextJoin(s, e))
  {
  }

  lemma KeepsRetry(s: State, e: Event)
    requires Healthy(s) && Grounded(s) && e.Answer? && InRetry(s.pc)
    ensures Keeps(s, NextRetry(s, e))
  {
  }

  lemma KeepsDelete(s: State, e: Event)
    requires Healthy(s) && Grounded(s) && e.Answer? && InDelete(s.pc)
    ensures Keeps(s, NextDelete(s, e))
  {
  }

  lemma AccountedStep(s: State, e: Event)
    requires Healthy(s) && Grounded(s) && Accounted(s) && ReadsCurrent(s, e)
    ensures Accounted(Next(s, e))
  {
    if e.Answer? && s.pc != Idle && s.pc != AddFinalizer {
      if Preparing(s.pc) { KeepsPrepare(s, e); }
      else if Launching(s.pc) { KeepsLaunch(s, e); }
      else if InJoin(s.pc) { KeepsJoin(s, e); }
      else if InRetry(s.pc) { KeepsRetry(s, e); }
      else { KeepsDelete(s, e); }
    } else {
      assert Keeps(s, Next(s, e));
    }
    KeepsAccounted(s, Next(s, e));
  }

  lemma {:induction false} AccountedRun(s: State, es: seq<Event>)
    requires Healthy(s) && Grounded(s) && Accounted(s) && CurrentReads(s, es)
    ensures Accounted(Run(s, es))
    decreases |es|
  {
    if es != [] {
      HealthyStep(s, es[0]);
      GroundedStep(s, es[0]);
      AccountedStep(s, es[0]);
      AccountedRun(Next(s, es[0]), es[1..]);
    }
  }

  /** With current reads, when the finalizer comes off, every instance ID that any version ever
    * recorded has been terminated. */
  lemma RecordedInstancesTerminated(es: seq<Event>, e: Event, i: nat)
    requires CurrentReads(INIT, es) && i < |Run(INIT, es).api.versions|
    requires Cur(Run(INIT, es)).finalizer && !Cur(Next(Run(INIT, es), e)).finalizer
    ensures
      var s := Run(INIT, es);
      var id := s.api.versions[i].status.instanceId;
      id == "" || id in s.terminated
  {
    HealthyRun(INIT, es);
    AccountedRun(INIT, es);
    FinalizerRemovedAfterCleanup(es, e);
  }
}

/** Joining a worker: the phases run inside the reconcile, and each one that succeeds is patched into
  * an annotation before the next one starts. */
module Worker {
  import opened Text
  import opened Phases

  /** Phases 0 to 8; phase 0 is Cleanup, phase 8 the kubeadm join. */
  const PHASES := 9

  datatype PC =
    | Idle
    | Connect                                // SSH connections and runtime config
    | InPhase(at: nat, begun: bool)          // PHASES: node lookup and labels
    | Report(phase: nat)
    | MarkJoined

  datatype Event = Answer(ok: bool, lost: bool) | Crash

  datatype State = State(last: Option<int>, joined: bool, pc: PC, log: seq<Entry>)

  const INIT := State(None, false, Idle, [])

  function Next(s: State, e: Event): State {
    if e.Crash? then s.(pc := Idle)
    else match s.pc
      case Idle => if s.joined then s else s.(pc := Connect)
      case Connect => s.(pc := if e.ok then InPhase(StartPhase(s.last), false) else Idle)
      case InPhase(at, begun) =>
        if at >= PHASES then s.(pc := if e.ok then MarkJoined else Idle)
        else if !begun then s.(pc := InPhase(at, true), log := s.log + [Started(at)])
        else if e.ok then s.(pc := Report(at), log := s.log + [Succeeded(at)])
        else s.(pc := Idle)
      case Report(phase) =>
        s.(last := if e.ok || e.lost then Some(phase) else s.last, pc := InPhase(phase + 1, false))
      case MarkJoined =>
        if e.ok || e.lost then s.(last := Some(-1), joined := true, pc := Idle) else s.(pc := Idle)
  }

  function Run(s: State, es: seq<Event>): State
    decreases |es|
  {
    if es == [] then s else Run(Next(s, es[0]), es[1..])
  }

  /** A step that ends a reconcile: the reconciler is idle after it. */
  predicate Ends(s: State, e: Event) {
    Next(s, e).pc == Idle
  }

  /** How many reconciles a run ends. */
  function Returns(s: State, es: seq<Event>): (n: nat)
    decreases |es|
  {
    if es == [] then 0 else (if Ends(s, es[0]) then 1 else 0) + Returns(Next(s, es[0]), es[1..])
  }

  ghost predicate Inv(s: State) {
    && NoSkip(s.log)
    && -1 <= Index(s.last) < PHASES && DoneUpTo(s.log, Index(s.last))
    && (s.joined ==> DoneUpTo(s.log, PHASES - 1) && s.pc == Idle)
    && match s.pc
       case InPhase(at, _) => Index(s.last) < at <= PHASES && DoneUpTo(s.log, at - 1)
       case Report(phase) => Index(s.last) < phase < PHASES && DoneUpTo(s.log, phase)
       case MarkJoined => DoneUpTo(s.log, PHASES - 1)
       case _ => true
  }

  lemma Keep(s: State, e: Event)
    requires Inv(s)
    ensures Inv(Next(s, e))
  {
    if s.pc.InPhase? && s.pc.at < PHASES {
      var entry := if s.pc.begun then Succeeded(s.pc.at) else Started(s.pc.at);
      SinceAppend(s.log, entry);
      NoSkipAppend(s.log, entry);
    }
  }

  lemma {:induction false} RunKeeps(s: State, es: seq<Event>)
    requires Inv(s)
    ensures Inv(Run(s, es))
    decreases |es|
  {
    if es != [] {
      Keep(s, es[0]);
      RunKeeps(Next(s, es[0]), es[1..]);
    }
  }

  /** In every run: a persisted index n means phases 0 to n have succeeded since the last Cleanup, a
    * worker marked as joined has been through all of them, and none was ever skipped. */
  lemma ResumeSound(es: seq<Event>)
    ensures
      var s := Run(INIT, es);
      && DoneUpTo(s.log, Index(s.last)) && NoSkip(s.log)
      && (s.joined ==> DoneUpTo(s.log, PHASES - 1))
  {
    RunKeeps(INIT, es);
  }

  /** In no run does the index go down before the write that marks the worker as joined clears it. */
  lemma {:induction false} IndexMonotone(s: State, es: seq<Event>)
    requires Inv(s)
    ensures Index(Run(s, es).last) >= Index(s.last) || Run(s, es).joined
    decreases |es|
  {
    if es != [] {
      Keep(s, es[0]);
      IndexMonotone(Next(s, es[0]), es[1..]);
      if Next(s, es[0]).joined {
        StaysJoined(Next(s, es[0]), es[1..]);
      }
    }
  }

  lemma {:induction false} StaysJoined(s: State, es: seq<Event>)
    requires Inv(s) && s.joined
    ensures Run(s, es).joined
    decreases |es|
  {
    if es != [] {
      Keep(s, es[0]);
      StaysJoined(Next(s, es[0]), es[1..]);
    }
  }

  ghost predicate Committed(s: State) {
    Index(s.last) >= 0 || s.joined
  }

  /** Once progress is persisted or the worker is joined, Cleanup never runs again; once joined, no
    * phase does. */
  lemma {:induction false} CleanupNeverAgain(s: State, es: seq<Event>)
    requires Inv(s) && Committed(s)
    ensures s.log <= Run(s, es).log
    ensures forall k | |s.log| <= k < |Run(s, es).log| :: Run(s, es).log[k] != Started(0)
    ensures s.joined ==> Run(s, es).log == s.log && Run(s, es).joined
    decreases |es|
  {
    if es != [] {
      var t := Next(s, es[0]);
      Keep(s, es[0]);
      CleanupNeverAgain(t, es[1..]);
      assert s.log <= t.log && |t.log| <= |s.log| + 1;
    }
  }

  // ── Progress and the next attempt ────────────────────────────────────────

  /** Nothing more has happened on the host since index k, or the phase it names, was reached. */
  ghost predicate Resting(s: State, k: int) {
    && !s.joined && -1 <= k < PHASES - 1
    && match s.pc
       case Idle => Index(s.last) == k
       case Connect => Index(s.last) == k
       case InPhase(at, begun) => at == k + 1 && !begun && Index(s.last) == k
       case _ => false
  }

  lemma RestingStep(s: State, e: Event, k: int)
    requires Resting(s, k)
    ensures Next(s, e).log == s.log + [Started(k + 1)] || (Next(s, e).log == s.log && Resting(Next(s, e), k))
  {
  }

  lemma {:induction false} LogGrows(s: State, es: seq<Event>)
    ensures s.log <= Run(s, es).log
    decreases |es|
  {
    if es != [] {
      var t := Next(s, es[0]);
      LogGrows(t, es[1..]);
      assert s.log <= t.log;
    }
  }

  /** Whatever follows, with any crashes and failed connections: the next thing that happens on the host, if
    * anything does, is the start of the phase after the persisted one. */
  lemma {:induction false} NextStarts(s: State, es: seq<Event>, k: int)
    requires Resting(s, k)
    ensures s.log <= Run(s, es).log && (Run(s, es).log != s.log ==> Run(s, es).log[|s.log|] == Started(k + 1))
    decreases |es|
  {
    if es != [] {
      var t := Next(s, es[0]);
      RestingStep(s, es[0], k);
      if t.log == s.log {
        NextStarts(t, es[1..], k);
      } else {
        LogGrows(t, es[1..]);
        assert t.log[|s.log|] == Started(k + 1);
      }
    }
  }

  lemma Unroll2(s: State, e: Event, f: Event, gs: seq<Event>)
    ensures Run(s, [e, f] + gs) == Run(Next(Next(s, e), f), gs)
  {
    assert ([e, f] + gs)[1..] == [f] + gs && ([f] + gs)[1..] == gs;
  }

  /** From any state: when phase n has just succeeded on the host and the patch after it is applied, its reply
    * lost or not, the index is n; and in any continuation, crashes included, the next phase to start is
    * n + 1. */
  lemma ReportResumes(s: State, e: Event, f: Event, gs: seq<Event>, n: nat)
    requires Inv(s) && Next(s, e).log == s.log + [Succeeded(n)] && f.Answer? && (f.ok || f.lost)
    ensures
      var a, t := Next(Next(s, e), f), Run(s, [e, f] + gs);
      && a.last == Some(n) && !a.joined && a.log == s.log + [Succeeded(n)]
      && (n < PHASES - 1 ==> a.log <= t.log && (t.log != a.log ==> t.log[|a.log|] == Started(n + 1)))
  {
    assert (s.log + [Succeeded(n)])[|s.log|] == Succeeded(n);
    Unroll2(s, e, f, gs);
    var a := Next(Next(s, e), f);
    if n < PHASES - 1 {
      NextStarts(a, gs, n);
    }
  }

  /** A crash at a boundary between two phases loses nothing: the next reconcile goes on with the phase the crash
    * came before. */
  lemma CrashResumes(s: State, k: int)
    requires Resting(s, k)
    ensures
      var t := Run(s, [Crash, Answer(true, false)] + [Answer(true, false), Answer(true, false)]);
      t.log == s.log + [Started(k + 1)] && t.last == s.last && t.pc == InPhase(k + 1, true)
  {
    var ok := Answer(true, false);
    Unroll2(s, Crash, ok, [ok, ok]);
    var a := s.(pc := Connect);
    assert Next(Next(s, Crash), ok) == a;
    Unroll2(a, ok, ok, []);
    assert [ok, ok] + [] == [ok, ok];
  }

  /** A patch of the index that is refused leaves it as it was, and the next phase runs nevertheless. */
  lemma RefusedReport(s: State)
    requires s.pc.Report?
    ensures Next(s, Answer(false, false)) == s.(pc := InPhase(s.pc.phase + 1, false))
  {
  }

  /** A connection, a phase or a node lookup that fails ends the reconcile; of these only a phase has left its
    * start on the host. */
  lemma FailedCallReturns(s: State, e: Event)
    requires e.Answer? && !e.ok && !e.lost
    requires s.pc.Connect? || s.pc.MarkJoined? || (s.pc.InPhase? && (s.pc.begun || s.pc.at >= PHASES))
    ensures Next(s, e) == s.(pc := Idle)
  {
  }

  // ── A run in which everything succeeds ───────────────────────────────────

  function Good(n: nat): (es: seq<Event>) {
    seq(n, _ => Answer(true, false))
  }

  lemma GoodStep(s: State, n: nat)
    ensures Run(s, Good(n + 1)) == Run(Next(s, Answer(true, false)), Good(n))
  {
    assert Good(n + 1)[0] == Answer(true, false) && Good(n + 1)[1..] == Good(n);
  }

  lemma {:induction false} TraceHead(start: nat, stop: nat)
    requires start < stop
    ensures Trace(start, stop) == [Started(start), Succeeded(start)] + Trace(start + 1, stop)
    decreases stop
  {
    if start + 1 < stop {
      TraceHead(start, stop - 1);
    }
  }

  /** The state one phase further. */
  function Further(s: State, at: nat): State {
    State(Some(at), false, InPhase(at + 1, false), s.log + [Started(at), Succeeded(at)])
  }

  lemma Regroup(a: seq<Entry>, b: seq<Entry>, c: seq<Entry>)
    ensures a + b + c == a + (b + c)
  {
  }

  lemma OnePhase(s: State, at: nat, n: nat)
    requires at < PHASES && s.pc == InPhase(at, false) && !s.joined
    ensures Run(s, Good(n + 3)) == Run(Further(s, at), Good(n))
  {
    var ok := Answer(true, false);
    var a := Next(s, ok);
    var b := Next(a, ok);
    GoodStep(s, n + 2);
    GoodStep(a, n + 1);
    GoodStep(b, n);
    assert s.log + [Started(at)] + [Succeeded(at)] == s.log + [Started(at), Succeeded(at)];
  }

  lemma {:induction false} PhasesRun(s: State, k: nat, n: nat)
    requires k <= PHASES && n == k + k + k && s.pc == InPhase(PHASES - k, false) && !s.joined
    ensures Run(s, Good(n)).pc == InPhase(PHASES, false) && !Run(s, Good(n)).joined
    ensures Run(s, Good(n)).log == s.log + Trace(PHASES - k, PHASES)
    decreases k
  {
    if k == 0 {
      assert Good(0) == [] && s.log + [] == s.log;
    } else {
      var at := PHASES - k;
      OnePhase(s, at, n - 3);
      PhasesRun(Further(s, at), k - 1, n - 3);
      TraceHead(at, PHASES);
      Regroup(s.log, [Started(at), Succeeded(at)], Trace(at + 1, PHASES));
    }
  }

  lemma {:induction false} GoodMore(s: State, m: nat, n: nat)
    ensures Run(s, Good(m + n)) == Run(Run(s, Good(m)), Good(n))
    decreases m
  {
    if m == 0 {
      assert Good(0) == [];
    } else {
      GoodStep(s, m - 1 + n);
      GoodStep(s, m - 1);
      GoodMore(Next(s, Answer(true, false)), m - 1, n);
    }
  }

  /** A worker whose every call succeeds goes through all phases once and in order, and is then joined with
    * its index cleared. */
  lemma JoinsInOneRun()
    ensures Run(INIT, Good(3 * PHASES + 4)) == State(Some(-1), true, Idle, Trace(0, PHASES))
  {
    var ok := Answer(true, false);
    var s := Next(Next(INIT, ok), ok);
    GoodStep(INIT, 3 * PHASES + 3);
    GoodStep(Next(INIT, ok), 3 * PHASES + 2);
    PhasesRun(s, PHASES, 3 * PHASES);
    GoodMore(s, 3 * PHASES, 2);
    var t := Run(s, Good(3 * PHASES));
    GoodStep(t, 1);
    GoodStep(Next(t, ok), 0);
    assert Good(0) == [] && s.log + Trace(0, PHASES) == Trace(0, PHASES);
  }
}

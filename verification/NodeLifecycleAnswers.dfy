/** Where the fields of the persisted statuses come from: everything a version of the object says was
  * answered to some call of the run. */
module NodeLifecycleAnswers {
  import opened NodeLifecycle
  import opened NodeLifecycleSafety

  /** What calls have answered so far: launches with instance and address, instances reported running, node
    * names found and node names stamped, image lists that named images, image lists that named none (or could
    * not be read) or images reported pulled, and answers on which provisioning gives up. */
  datatype Past = Past(
    launched: set<(string, string)>, running: set<string>, listed: set<string>, stamped: set<string>,
    images: bool, noneLeft: bool, refused: bool)

  const NOTHING := Past({}, {}, {}, {}, false, false, false)

  function Heard(h: Past, s: State, e: Event): Past {
    if !e.Answer? then h
    else match s.pc
      case Launch =>
        if e.ok && e.name != "" && e.addr != "" then h.(launched := h.launched + {(e.name, e.addr)})
        else h.(refused := true)
      case Defaults => if e.ok then h else h.(refused := true)
      case Credentials => if e.ok then h else h.(refused := true)
      case Poll => if e.ok && e.found then h.(running := h.running + {s.np.status.instanceId}) else h
      case ListNodes => if e.ok && e.found && e.name != "" then h.(listed := h.listed + {e.name}) else h
      case Stamp(node) => if e.ok then h.(stamped := h.stamped + {node}) else h
      case ImageList => if e.ok && e.found then h.(images := true) else h.(noneLeft := true)
      case PullImages => if e.ok && e.found then h.(noneLeft := true) else h
      case _ => h
  }

  function RunHeard(h: Past, s: State, es: seq<Event>): Past
    requires Wf(s)
    decreases |es|
  {
    if es == [] then h else RunHeard(Heard(h, s, es[0]), Next(s, es[0]), es[1..])
  }

  /** Every instance ID stands with the address of the same launch, what counts as up was reported running,
    * a node name was found and stamped, and each phase that an answer decides was decided so. */
  ghost predicate Backed(h: Past, st: Status) {
    && (st.instanceId != "" ==> (st.instanceId, st.vpnIp) in h.launched && st.ipAddress == st.vpnIp)
    && (Joinable(st.phase) || st.phase.PrePullingImages? || st.phase.Ready? ==> st.instanceId in h.running)
    && (st.nodeName != "" ==> st.nodeName in h.listed && st.nodeName in h.stamped)
    && (st.phase.PrePullingImages? ==> h.images)
    && (st.phase.Ready? ==> h.noneLeft)
    && (st.phase.Failed? ==> h.refused)
  }

  /** What a point of a reconcile carries besides its copy. */
  ghost predicate Carries(h: Past, pc: PC, st: Status) {
    match pc
    case Record(id) => if id != "" then (id, st.vpnIp) in h.launched else h.refused
    case Refetch(id, addr) => (id, addr) in h.launched
    case FinalWrite(id, addr) => (id, addr) in h.launched
    case FailWrite => h.refused
    case PollWrite => st.instanceId in h.running
    case Stamp(node) => node in h.listed
    case JoinWrite(target) => if target.Ready? then h.noneLeft else h.images
    case ReadyGet => h.noneLeft
    case ReadyWrite => h.noneLeft
    case _ => true
  }

  ghost predicate VersionsBacked(h: Past, vs: seq<Object>) {
    forall i | 0 <= i < |vs| :: Backed(h, vs[i].status)
  }

  ghost predicate Traced(h: Past, s: State) {
    && Healthy(s)
    && VersionsBacked(h, s.api.versions)
    && (s.pc != Idle ==> Backed(h, s.np.status) && Carries(h, s.pc, s.np.status))
  }

  lemma HeardKeeps(h: Past, s: State, e: Event)
    requires Traced(h, s)
    ensures Traced(Heard(h, s, e), s)
  {
    var k := Heard(h, s, e);
    assert h.launched <= k.launched && h.running <= k.running && h.listed <= k.listed && h.stamped <= k.stamped;
    assert (h.images ==> k.images) && (h.noneLeft ==> k.noneLeft) && (h.refused ==> k.refused);
    forall i | 0 <= i < |s.api.versions|
      ensures Backed(k, s.api.versions[i].status)
    {
      assert Backed(h, s.api.versions[i].status);
    }
  }

  // ── The writes ───────────────────────────────────────────────────────────

  ghost predicate BackedWrite(h: Past, w: Intent)
    requires w.Intent?
  {
    Backed(h, w.st) && Carries(h, w.onOk, w.st) && Carries(h, w.onErr, w.st)
  }

  lemma BackedEarly(h: Past, s: State)
    requires Traced(h, s) && Writing(s) && (Preparing(s.pc) || Launching(s.pc))
    ensures BackedWrite(h, PendingWrite(s.pc, s.np.status))
  {
  }

  lemma BackedJoin(h: Past, s: State)
    requires Traced(h, s) && Writing(s) && InJoin(s.pc)
    ensures BackedWrite(h, PendingWrite(s.pc, s.np.status))
  {
  }

  lemma BackedLater(h: Past, s: State)
    requires Traced(h, s) && Writing(s) && (InRetry(s.pc) || InDelete(s.pc))
    ensures BackedWrite(h, PendingWrite(s.pc, s.np.status))
  {
  }

  /** A step that persists at most one more version, with a backed status. */
  lemma TracedTo(h: Past, s: State, t: State)
    requires Traced(h, s) && Healthy(t) && Extends(s, t)
    requires t.api.versions != s.api.versions ==> Backed(h, Cur(t).status)
    requires t.pc != Idle ==> Backed(h, t.np.status) && Carries(h, t.pc, t.np.status)
    ensures Traced(h, t)
  {
    forall i | 0 <= i < |t.api.versions|
      ensures Backed(h, t.api.versions[i].status)
    {
      if i < |s.api.versions| {
        assert t.api.versions[i] == s.api.versions[i];
      }
    }
  }

  lemma StatusTraced(h: Past, s: State, w: Intent, e: Event)
    requires Wf(s) && e.Answer? && w.Intent? && BackedWrite(h, w)
    ensures
      var t := WriteStatus(s, w.st, e, w.onOk, w.onErr);
      && (t.api.versions != s.api.versions ==> Cur(t).status == w.st)
      && t.np.status == w.st && Carries(h, t.pc, w.st)
  {
  }

  lemma TracedWrite(h: Past, s: State, e: Event)
    requires Traced(h, s) && e.Answer? && Writing(s)
    ensures Traced(h, Next(s, e))
  {
    if Preparing(s.pc) || Launching(s.pc) {
      BackedEarly(h, s);
    } else if InJoin(s.pc) {
      BackedJoin(h, s);
    } else {
      BackedLater(h, s);
    }
    StatusTraced(h, s, PendingWrite(s.pc, s.np.status), e);
    NextWrites(s, e);
    HealthyWrite(s, e);
    TracedTo(h, s, Next(s, e));
  }

  // ── The other steps, with what they have just heard ──────────────────────

  lemma CurrentBacked(h: Past, s: State, v: nat)
    requires VersionsBacked(h, s.api.versions) && v < |s.api.versions|
    ensures Backed(h, s.api.versions[v].status)
  {
  }

  lemma TracedPrepare(h: Past, s: State, e: Event)
    requires Traced(h, s) && ReadsCurrent(s, e) && e.Answer? && Preparing(s.pc) && !Writing(s)
    ensures Traced(Heard(h, s, e), NextPrepare(s, e))
  {
    HeardKeeps(h, s, e);
    HealthyPrepare(s, e);
    CurrentBacked(Heard(h, s, e), s, Last(s.api));
    TracedTo(Heard(h, s, e), s, NextPrepare(s, e));
  }

  lemma TracedLaunch(h: Past, s: State, e: Event)
    requires Traced(h, s) && e.Answer? && s.pc.Launch?
    ensures Traced(Heard(h, s, e), NextLaunch(s, e))
  {
    HeardKeeps(h, s, e);
    HealthyLaunch(s, e);
    TracedTo(Heard(h, s, e), s, NextLaunch(s, e));
  }

  lemma TracedRecord(h: Past, s: State, e: Event)
    requires Traced(h, s) && ReadsCurrent(s, e) && e.Answer? && (s.pc.Record? || s.pc.Refetch?)
    ensures Traced(Heard(h, s, e), NextLaunch(s, e))
  {
    HeardKeeps(h, s, e);
    HealthyLaunch(s, e);
    CurrentBacked(Heard(h, s, e), s, Last(s.api));
    TracedTo(Heard(h, s, e), s, NextLaunch(s, e));
  }

  lemma TracedSearch(h: Past, s: State, e: Event)
    requires Traced(h, s) && e.Answer? && (s.pc.Poll? || s.pc.ListNodes?)
    ensures Traced(Heard(h, s, e), NextJoin(s, e))
  {
    HeardKeeps(h, s, e);
    HealthySearch(s, e);
    TracedTo(Heard(h, s, e), s, NextJoin(s, e));
  }

  lemma TracedStamp(h: Past, s: State, e: Event)
    requires Traced(h, s) && e.Answer? && (s.pc.Stamp? || s.pc.ImageList?)
    ensures Traced(Heard(h, s, e), NextJoin(s, e))
  {
    HeardKeeps(h, s, e);
    HealthyStamp(s, e);
    TracedTo(Heard(h, s, e), s, NextJoin(s, e));
  }

  lemma TracedRetry(h: Past, s: State, e: Event)
    requires Traced(h, s) && ReadsCurrent(s, e) && e.Answer? && InRetry(s.pc) && !Writing(s)
    ensures Traced(Heard(h, s, e), NextRetry(s, e))
  {
    HeardKeeps(h, s, e);
    if s.pc.RetryVpn? || s.pc.RetryGet? {
      HealthyReread(s, e);
    } else {
      HealthyImages(s, e);
    }
    CurrentBacked(Heard(h, s, e), s, Last(s.api));
    TracedTo(Heard(h, s, e), s, NextRetry(s, e));
  }

  lemma TracedTerminate(h: Past, s: State, e: Event)
    requires Traced(h, s) && e.Answer? && (s.pc.DelTerminate? || s.pc.DelVpn?)
    ensures Traced(Heard(h, s, e), NextDelete(s, e))
  {
    HeardKeeps(h, s, e);
    HealthyTerminate(s, e);
    TracedTo(Heard(h, s, e), s, NextDelete(s, e));
  }

  lemma TracedRelease(h: Past, s: State, e: Event)
    requires Traced(h, s) && e.Answer? && (s.pc.DelNode? || s.pc.DelFinalizer?)
    ensures Traced(Heard(h, s, e), NextDelete(s, e))
  {
    HeardKeeps(h, s, e);
    if s.pc.DelNode? {
      HealthyNodeGone(s, e);
    } else {
      HealthyRelease(s, e);
    }
    CurrentBacked(Heard(h, s, e), s, Last(s.api));
    TracedTo(Heard(h, s, e), s, NextDelete(s, e));
  }

  lemma TracedElsewhere(h: Past, s: State, e: Event)
    requires Traced(h, s) && ReadsCurrent(s, e) && (!e.Answer? || s.pc == Idle || s.pc == AddFinalizer)
    ensures Traced(Heard(h, s, e), Next(s, e))
  {
    HeardKeeps(h, s, e);
    HealthyStep(s, e);
    CurrentBacked(h, s, Last(s.api));
    TracedTo(Heard(h, s, e), s, Next(s, e));
  }

  lemma TracedStep(h: Past, s: State, e: Event)
    requires Traced(h, s) && ReadsCurrent(s, e)
    ensures Traced(Heard(h, s, e), Next(s, e))
  {
    if !e.Answer? || s.pc == Idle || s.pc == AddFinalizer { TracedElsewhere(h, s, e); }
    else if Writing(s) { TracedWrite(h, s, e); }
    else if Preparing(s.pc) { TracedPrepare(h, s, e); }
    else if s.pc.Launch? { TracedLaunch(h, s, e); }
    else if Launching(s.pc) { TracedRecord(h, s, e); }
    else if s.pc.Poll? || s.pc.ListNodes? { TracedSearch(h, s, e); }
    else if InJoin(s.pc) { TracedStamp(h, s, e); }
    else if InRetry(s.pc) { TracedRetry(h, s, e); }
    else if s.pc.DelTerminate? || s.pc.DelVpn? { TracedTerminate(h, s, e); }
    else { TracedRelease(h, s, e); }
  }

  lemma {:induction false} TracedRun(h: Past, s: State, es: seq<Event>)
    requires Traced(h, s) && CurrentReads(s, es)
    ensures Traced(RunHeard(h, s, es), Run(s, es))
    decreases |es|
  {
    if es != [] {
      TracedStep(h, s, es[0]);
      TracedRun(Heard(h, s, es[0]), Next(s, es[0]), es[1..]);
    }
  }

  /** With current reads, in every version ever persisted: the instance ID and both addresses are those of
    * one launch answered before; the phases from Bootstrapping on come only after that instance was reported
    * running; a node name is one that was found and then stamped; images are pulled only after a list that
    * names some, and Ready comes only after a list that names none, or after they were reported pulled; and
    * Failed only after an answer on which provisioning gives up. */
  lemma EveryFieldAnswered(es: seq<Event>, i: nat)
    requires CurrentReads(INIT, es) && i < |Run(INIT, es).api.versions|
    ensures
      var st, h := Run(INIT, es).api.versions[i].status, RunHeard(NOTHING, INIT, es);
      && (st.instanceId != "" ==> (st.instanceId, st.vpnIp) in h.launched && st.ipAddress == st.vpnIp)
      && (Joinable(st.phase) || st.phase.PrePullingImages? || st.phase.Ready? ==> st.instanceId in h.running)
      && (st.nodeName != "" ==> st.nodeName in h.listed && st.nodeName in h.stamped)
      && (st.phase.PrePullingImages? ==> h.images)
      && (st.phase.Ready? ==> h.noneLeft)
      && (st.phase.Failed? ==> h.refused)
  {
    TracedRun(NOTHING, INIT, es);
    CurrentBacked(RunHeard(NOTHING, INIT, es), Run(INIT, es), i);
  }

  // ── What a launch has behind it ──────────────────────────────────────────

  /** Which calls before a launch have succeeded in the running reconcile. */
  datatype Gates = Gates(secret: bool, defaults: bool, config: bool, server: bool, credentials: bool)

  const SHUT := Gates(false, false, false, false, false)

  function Passed(g: Gates, s: State, e: Event): Gates {
    if s.pc == Idle then SHUT
    else if !e.Answer? then g
    else match s.pc
      case Secret(_) => g.(secret := e.ok)
      case Defaults => g.(defaults := e.ok)
      case NetConfig => g.(config := e.ok)
      case Connect => g.(server := e.ok)
      case Credentials => g.(credentials := e.ok)
      case _ => g
  }

  function RunPassed(g: Gates, s: State, es: seq<Event>): Gates
    requires Wf(s)
    decreases |es|
  {
    if es == [] then g else RunPassed(Passed(g, s, es[0]), Next(s, es[0]), es[1..])
  }

  predicate Opened(g: Gates, pc: PC) {
    match pc
    case Defaults => g.secret
    case Mark(p) => MarkOpened(g, p)
    case Remark(p) => MarkOpened(g, p)
    case NetConfig => g.secret && g.defaults
    case Connect => g.secret && g.defaults && g.config
    case Credentials => g.secret && g.defaults && g.config && g.server
    case Launch => g == Gates(true, true, true, true, true)
    case _ => true
  }

  predicate MarkOpened(g: Gates, p: Phase) {
    && g.secret && g.defaults
    && (p == Validating || (g.config && (p == ConfiguringVPN || (g.server && p == CreatingInstance))))
  }

  lemma OpenedStep(g: Gates, s: State, e: Event)
    requires Wf(s) && Opened(g, s.pc)
    ensures Opened(Passed(g, s, e), Next(s, e).pc)
  {
    if e.Answer? && Preparing(s.pc) {
      OpenedPrepare(g, s, e);
    } else if e.Answer? && s.pc != Idle && s.pc != AddFinalizer {
      OpenedLater(g, s, e);
    }
  }

  lemma OpenedLater(g: Gates, s: State, e: Event)
    requires Wf(s) && e.Answer? && s.pc != Idle && s.pc != AddFinalizer && !Preparing(s.pc)
    ensures !Preparing(Next(s, e).pc) && Next(s, e).pc != Launch
  {
  }

  lemma OpenedPrepare(g: Gates, s: State, e: Event)
    requires Wf(s) && e.Answer? && Preparing(s.pc) && Opened(g, s.pc)
    ensures Opened(Passed(g, s, e), NextPrepare(s, e).pc)
  {
  }

  lemma {:induction false} OpenedRun(g: Gates, s: State, es: seq<Event>)
    requires Wf(s) && Opened(g, s.pc)
    ensures Opened(RunPassed(g, s, es), Run(s, es).pc)
    decreases |es|
  {
    if es != [] {
      OpenedStep(g, s, es[0]);
      OpenedRun(Passed(g, s, es[0]), Next(s, es[0]), es[1..]);
    }
  }

  /** No read need be current: an instance is launched only in a reconcile in which the credentials secret was
    * read, the defaults resolved without a change, the network config found, the VPN server reached and the
    * provider's credentials obtained. */
  lemma LaunchAfterAllCalls(es: seq<Event>, e: Event)
    requires NodeLifecycle.Launches(Run(INIT, es), e)
    ensures RunPassed(SHUT, INIT, es) == Gates(true, true, true, true, true)
  {
    OpenedRun(SHUT, INIT, es);
    OnlyStep(Run(INIT, es), e);
  }
}

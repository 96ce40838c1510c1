/** Whole reconciles answered in one particular way, and exactly what they persist: a provisioning that
  * succeeds, one that fails and is reset, and a deletion. */
module NodeLifecycleRuns {
  import opened NodeLifecycle

  /** A call that succeeds; a Get answers with the current version, of which there are at most v. */
  function Done(v: nat): (e: Event) {
    Answer(true, false, v, false, "", "")
  }

  /** ... and finds something: a running instance, images, pulled images. */
  function Found(v: nat): (e: Event) {
    Answer(true, false, v, true, "", "")
  }

  function Launched(id: string, addr: string): (e: Event) {
    Answer(true, false, 0, false, id, addr)
  }

  /** A launch that fails after an address was chosen for it. */
  function Broken(addr: string): (e: Event) {
    Answer(false, false, 0, false, "", addr)
  }

  function Node(name: string): (e: Event) {
    Answer(true, false, 0, true, name, "")
  }

  /** Between reconciles, the current object is this one. */
  ghost predicate Rests(s: State, o: Object) {
    Wf(s) && s.pc == Idle && !s.api.gone && Cur(s) == o
  }

  /** A reconcile whose copy is the current object waits at pc. */
  ghost predicate At(s: State, pc: PC, o: Object) {
    Wf(s) && s.pc == pc && !s.api.gone && s.rv == Last(s.api) && s.np == o && Cur(s) == o
  }

  /** One more version with this status. */
  ghost function With(s: State, st: Status): Api
    requires Wf(s)
  {
    Push(s.api, Cur(s).(status := st))
  }

  lemma {:induction false} RunAppend(s: State, es: seq<Event>, fs: seq<Event>)
    requires Wf(s)
    ensures Run(s, es + fs) == Run(Run(s, es), fs)
    decreases |es|
  {
    if es == [] {
      assert es + fs == fs;
    } else {
      assert (es + fs)[0] == es[0] && (es + fs)[1..] == es[1..] + fs;
      RunAppend(Next(s, es[0]), es[1..], fs);
    }
  }

  /** A status write that is applied and answered. */
  lemma Writes(s: State, v: nat)
    requires Wf(s) && !s.api.gone && s.rv == Last(s.api) && PendingWrite(s.pc, s.np.status).Intent?
    ensures
      var w := PendingWrite(s.pc, s.np.status);
      var o := Cur(s).(status := w.st);
      Next(s, Done(v)) == s.(api := Push(s.api, o), np := o, rv := |s.api.versions|, pc := w.onOk)
  {
    NextWrites(s, Done(v));
  }

  lemma Run1(s: State, a: Event)
    requires Wf(s)
    ensures Run(s, [a]) == Next(s, a)
  {
    assert [a][1..] == [];
  }

  lemma Run2(s: State, a: Event, b: Event)
    requires Wf(s)
    ensures Run(s, [a, b]) == Next(Next(s, a), b)
  {
    assert [a, b][1..] == [b];
    Run1(Next(s, a), b);
  }

  lemma Run3(s: State, a: Event, b: Event, c: Event)
    requires Wf(s)
    ensures Run(s, [a, b, c]) == Next(Next(Next(s, a), b), c)
  {
    assert [a, b, c][1..] == [b, c];
    Run2(Next(s, a), b, c);
  }

  // ── Provisioning ─────────────────────────────────────────────────────────

  /** An object without the finalizer gets it, and nothing else, before anything is done for it. */
  lemma AdoptionRuns(s: State, o: Object, v: nat)
    requires Rests(s, o) && !o.finalizer && !o.deleting && v >= |s.api.versions|
    ensures
      var t := Run(s, [Done(v), Done(v)]);
      && Rests(t, o.(finalizer := true)) && t.api.versions == s.api.versions + [o.(finalizer := true)]
      && t.launched == s.launched && t.terminated == s.terminated && t.nodesGone == s.nodesGone
  {
    Run2(s, Done(v), Done(v));
  }

  /** Nothing is done for a ready object, for a deleted one without the finalizer, and for one with a progress
    * marker but no instance. */
  lemma NothingToDo(s: State, o: Object, e: Event)
    requires Rests(s, o) && e.Answer? && e.ok && Pick(s.api, e.version) == Last(s.api)
    requires if o.deleting then !o.finalizer else
      o.finalizer && (o.status.phase.Ready? ||
        ((o.status.phase.CreatingInstance? || o.status.phase.ConfiguringVPN?) && o.status.instanceId == ""))
    ensures Next(s, e) == s.(np := o, rv := Last(s.api))
  {
  }

  /** A new object, in a starting phase without an instance. */
  predicate New(o: Object) {
    o.finalizer && !o.deleting && Startable(o.status.phase) && o.status.instanceId == ""
  }

  lemma Reading(s: State, o: Object, v: nat)
    requires Rests(s, o) && v >= |s.api.versions|
    ensures Next(s, Done(v)) == s.(np := o, rv := Last(s.api), pc := Dispatch(o))
  {
  }

  lemma Starts(s: State, o: Object, v: nat)
    requires Rests(s, o) && New(o) && v >= |s.api.versions|
    ensures Run(s, [Done(v), Done(v), Done(v)]) == s.(np := o, rv := Last(s.api), pc := Mark(Validating))
  {
    Reading(s, o, v);
    Run3(s, Done(v), Done(v), Done(v));
  }

  /** A progress write and the call after it. */
  lemma Marks(s: State, p: Phase, o: Object, v: nat)
    requires At(s, Mark(p), o) && (p == Validating || p == ConfiguringVPN)
    ensures
      var t := Run(s, [Done(v), Done(v)]);
      var st := o.status.(phase := p, progress := if p == Validating then 5 else 15);
      && At(t, Mark(if p == Validating then ConfiguringVPN else CreatingInstance), o.(status := st))
      && t.api == With(s, st)
      && t.launched == s.launched && t.terminated == s.terminated && t.nodesGone == s.nodesGone
  {
    Run2(s, Done(v), Done(v));
  }

  lemma MarksCreating(s: State, o: Object, v: nat)
    requires At(s, Mark(CreatingInstance), o)
    ensures
      var t := Run(s, [Done(v), Done(v)]);
      var st := o.status.(phase := CreatingInstance, progress := 25);
      && At(t, Launch, o.(status := st)) && t.api == With(s, st)
      && t.launched == s.launched && t.terminated == s.terminated && t.nodesGone == s.nodesGone
  {
    Run2(s, Done(v), Done(v));
  }

  lemma LaunchAnswered(s: State, o: Object, id: string, addr: string)
    requires At(s, Launch, o) && id != "" && addr != ""
    ensures Next(s, Launched(id, addr)) ==
      s.(launched := s.launched + [id], np := o.(status := o.status.(vpnIp := addr, ipAddress := addr)),
         pc := Record(id))
  {
  }

  lemma Launches(s: State, o: Object, id: string, addr: string, v: nat)
    requires At(s, Launch, o) && id != "" && addr != "" && v >= |s.api.versions|
    ensures
      var t := Run(s, [Launched(id, addr), Done(v), Done(v)]);
      && At(t, FinalWrite(id, addr), o) && t.api == s.api
      && t.launched == s.launched + [id] && t.terminated == s.terminated && t.nodesGone == s.nodesGone
  {
    var a := Next(s, Launched(id, addr));
    LaunchAnswered(s, o, id, addr);
    var b := Next(a, Done(v));
    assert b == a.(pc := Refetch(id, addr));
    assert Next(b, Done(v)) == b.(np := o, rv := Last(s.api), pc := FinalWrite(id, addr));
    Run3(s, Launched(id, addr), Done(v), Done(v));
  }

  lemma Finishes(s: State, o: Object, id: string, addr: string, v: nat)
    requires At(s, FinalWrite(id, addr), o)
    ensures
      var t := Run(s, [Done(v)]);
      var st := o.status.(phase := WaitingForInstance, instanceId := id, vpnIp := addr, ipAddress := addr,
                          progress := 30);
      && Rests(t, o.(status := st)) && t.api == With(s, st)
      && t.launched == s.launched && t.terminated == s.terminated && t.nodesGone == s.nodesGone
  {
    Run1(s, Done(v));
  }

  /** One part of a run after another. */
  lemma Then(s: State, es: seq<Event>, t: State, fs: seq<Event>)
    requires Wf(s) && Run(s, es) == t
    ensures Run(s, es + fs) == Run(t, fs)
  {
    RunAppend(s, es, fs);
  }

  function Prepare(v: nat): (es: seq<Event>) {
    [Done(v), Done(v), Done(v)] + [Done(v), Done(v)] + [Done(v), Done(v)] + [Done(v), Done(v)]
  }

  /** Up to the launch: the three progress phases, each persisted before what it stands for. */
  lemma Prepares(s: State, o: Object, v: nat)
    requires Rests(s, o) && New(o) && v >= |s.api.versions| + 4
    ensures
      var t, st := Run(s, Prepare(v)), o.status;
      var marked := o.(status := st.(phase := CreatingInstance, progress := 25));
      && At(t, Launch, marked)
      && t.launched == s.launched && t.terminated == s.terminated && t.nodesGone == s.nodesGone
      && t.api.versions == s.api.versions
           + [o.(status := st.(phase := Validating, progress := 5))]
           + [o.(status := st.(phase := ConfiguringVPN, progress := 15))] + [marked]
  {
    var two, three := [Done(v), Done(v)], [Done(v), Done(v), Done(v)];
    var a := Run(s, three);
    Starts(s, o, v);
    var b := Run(a, two);
    Marks(a, Validating, o, v);
    var c := Run(b, two);
    Marks(b, ConfiguringVPN, Cur(b), v);
    MarksCreating(c, Cur(c), v);
    Then(s, three, a, two);
    Then(s, three + two, b, two);
    Then(s, three + two + two, c, two);
  }

  function Create(id: string, addr: string, v: nat): (es: seq<Event>) {
    [Launched(id, addr), Done(v), Done(v)] + [Done(v)]
  }

  lemma Creates(s: State, o: Object, id: string, addr: string, v: nat)
    requires At(s, Launch, o) && id != "" && addr != "" && v >= |s.api.versions|
    ensures
      var t := Run(s, Create(id, addr, v));
      var last := o.(status := o.status.(phase := WaitingForInstance, instanceId := id, vpnIp := addr,
                                         ipAddress := addr, progress := 30));
      && Rests(t, last) && t.api.versions == s.api.versions + [last]
      && t.launched == s.launched + [id] && t.terminated == s.terminated && t.nodesGone == s.nodesGone
  {
    var launch := [Launched(id, addr), Done(v), Done(v)];
    Launches(s, o, id, addr, v);
    Finishes(Run(s, launch), o, id, addr, v);
    Then(s, launch, Run(s, launch), [Done(v)]);
  }

  /** One reconcile of a new object in which every call succeeds persists exactly four more versions: the
    * three progress phases, and the waiting phase with the launch's instance and address. */
  lemma ProvisioningRuns(s: State, o: Object, id: string, addr: string, v: nat)
    requires Rests(s, o) && New(o) && id != "" && addr != "" && v >= |s.api.versions| + 4
    ensures
      var t, st := Run(s, Prepare(v) + Create(id, addr, v)), o.status;
      var last := o.(status := st.(phase := WaitingForInstance, instanceId := id, vpnIp := addr, ipAddress := addr,
                                   progress := 30));
      && Rests(t, last)
      && t.launched == s.launched + [id] && t.terminated == s.terminated && t.nodesGone == s.nodesGone
      && t.api.versions == s.api.versions
           + [o.(status := st.(phase := Validating, progress := 5))]
           + [o.(status := st.(phase := ConfiguringVPN, progress := 15))]
           + [o.(status := st.(phase := CreatingInstance, progress := 25))] + [last]
  {
    var a := Run(s, Prepare(v));
    Prepares(s, o, v);
    Then(s, Prepare(v), a, Create(id, addr, v));
    Creates(a, Cur(a), id, addr, v);
  }

  // ── From waiting to ready ────────────────────────────────────────────────

  function Polled(v: nat): (es: seq<Event>) {
    [Done(v), Done(v)] + [Found(v), Done(v)]
  }

  /** An instance that runs: its object becomes Bootstrapping. */
  lemma InstanceRuns(s: State, o: Object, v: nat)
    requires At(s, Poll, o)
    ensures
      var t, up := Run(s, [Found(v), Done(v)]), o.(status := o.status.(phase := Bootstrapping, progress := 50));
      && Rests(t, up) && t.api.versions == s.api.versions + [up]
      && t.launched == s.launched && t.terminated == s.terminated && t.nodesGone == s.nodesGone
  {
    assert Next(s, Found(v)) == s.(pc := PollWrite);
    Writes(s.(pc := PollWrite), v);
    Run2(s, Found(v), Done(v));
  }

  lemma PollRuns(s: State, o: Object, v: nat)
    requires Rests(s, o) && o.finalizer && !o.deleting && o.status.phase.WaitingForInstance? && v >= |s.api.versions|
    ensures
      var t, up := Run(s, Polled(v)), o.(status := o.status.(phase := Bootstrapping, progress := 50));
      && Rests(t, up) && t.api.versions == s.api.versions + [up]
      && t.launched == s.launched && t.terminated == s.terminated && t.nodesGone == s.nodesGone
  {
    Reading(s, o, v);
    Run2(s, Done(v), Done(v));
    var a := s.(np := o, rv := Last(s.api), pc := Poll);
    Then(s, [Done(v), Done(v)], a, [Found(v), Done(v)]);
    InstanceRuns(a, o, v);
  }

  /** The node has not been found yet. */
  predicate Waiting(p: Phase) {
    p.Bootstrapping? || p.Joining? || p.RegisteringNode? || p.VerifyingHealth?
  }

  function Joined(name: string, v: nat): (es: seq<Event>) {
    [Done(v), Node(name), Done(v)] + [Found(v), Done(v)]
  }

  lemma NodeListed(s: State, name: string)
    requires Wf(s) && s.pc.ListNodes? && name != ""
    ensures Next(s, Node(name)) == s.(pc := Stamp(name))
  {
  }

  lemma StampDone(s: State, name: string, v: nat)
    requires Wf(s) && s.pc == Stamp(name)
    ensures Next(s, Done(v)) == s.(np := s.np.(status := s.np.status.(nodeName := name)), pc := ImageList)
  {
  }

  lemma Stamps(s: State, o: Object, name: string, v: nat)
    requires Rests(s, o) && o.finalizer && !o.deleting && Waiting(o.status.phase) && name != ""
    requires v >= |s.api.versions|
    ensures Run(s, [Done(v), Node(name), Done(v)]) ==
      s.(np := o.(status := o.status.(nodeName := name)), rv := Last(s.api), pc := ImageList)
  {
    Reading(s, o, v);
    var a := s.(np := o, rv := Last(s.api), pc := ListNodes);
    NodeListed(a, name);
    StampDone(a.(pc := Stamp(name)), name, v);
    Run3(s, Done(v), Node(name), Done(v));
  }

  /** With images to pull, the node's name and the pulling phase are persisted together. */
  lemma ImagesAwaited(s: State, st: Status, v: nat)
    requires Wf(s) && !s.api.gone && s.rv == Last(s.api) && s.pc.ImageList? && s.np.status == st
    ensures
      var o := Cur(s).(status := st.(phase := PrePullingImages, progress := 90));
      Run(s, [Found(v), Done(v)]) == s.(api := Push(s.api, o), np := o, rv := |s.api.versions|, pc := Idle)
  {
    assert Next(s, Found(v)) == s.(pc := JoinWrite(PrePullingImages));
    Writes(s.(pc := JoinWrite(PrePullingImages)), v);
    Run2(s, Found(v), Done(v));
  }

  lemma JoinRuns(s: State, o: Object, name: string, v: nat)
    requires Rests(s, o) && o.finalizer && !o.deleting && Waiting(o.status.phase) && name != ""
    requires v >= |s.api.versions|
    ensures
      var t := Run(s, Joined(name, v));
      var next := o.(status := o.status.(phase := PrePullingImages, nodeName := name, progress := 90));
      && Rests(t, next) && t.api.versions == s.api.versions + [next]
      && t.launched == s.launched && t.terminated == s.terminated && t.nodesGone == s.nodesGone
  {
    var a := Run(s, [Done(v), Node(name), Done(v)]);
    Stamps(s, o, name, v);
    Then(s, [Done(v), Node(name), Done(v)], a, [Found(v), Done(v)]);
    ImagesAwaited(a, a.np.status, v);
  }

  function Pulled(v: nat): (es: seq<Event>) {
    [Done(v), Found(v)] + [Done(v), Done(v)]
  }

  lemma ImagesPulled(s: State, v: nat)
    requires Wf(s) && s.pc.PullImages?
    ensures Next(s, Found(v)) == s.(pc := ReadyGet)
  {
  }

  lemma MarksReady(s: State, o: Object, v: nat)
    requires At(s, ReadyGet, o) && v >= |s.api.versions|
    ensures
      var t := Run(s, [Done(v), Done(v)]);
      var ready := o.(status := o.status.(phase := Ready, progress := 100, completed := true));
      && Rests(t, ready) && t.api.versions == s.api.versions + [ready]
      && t.launched == s.launched && t.terminated == s.terminated && t.nodesGone == s.nodesGone
  {
    assert Next(s, Done(v)) == s.(pc := ReadyWrite);
    Writes(s.(pc := ReadyWrite), v);
    Run2(s, Done(v), Done(v));
  }

  lemma PullRuns(s: State, o: Object, v: nat)
    requires Rests(s, o) && o.finalizer && !o.deleting && o.status.phase.PrePullingImages? && v >= |s.api.versions|
    ensures
      var t, ready := Run(s, Pulled(v)), o.(status := o.status.(phase := Ready, progress := 100, completed := true));
      && Rests(t, ready) && t.api.versions == s.api.versions + [ready]
      && t.launched == s.launched && t.terminated == s.terminated && t.nodesGone == s.nodesGone
  {
    Reading(s, o, v);
    ImagesPulled(s.(np := o, rv := Last(s.api), pc := PullImages), v);
    Run2(s, Done(v), Found(v));
    var a := s.(np := o, rv := Last(s.api), pc := ReadyGet);
    Then(s, [Done(v), Found(v)], a, [Done(v), Done(v)]);
    MarksReady(a, o, v);
  }

  function ToReady(id: string, addr: string, name: string, v: nat): (es: seq<Event>) {
    [Done(v), Done(v)] + (Prepare(v) + Create(id, addr, v)) + Polled(v) + Joined(name, v) + Pulled(v)
  }

  const NEW := Object(true, false, BLANK)

  lemma Adopts(v: nat)
    requires v >= 1
    ensures
      var t := Run(INIT, [Done(v), Done(v)]);
      Rests(t, NEW) && t.launched == [] && t.api.versions == INIT.api.versions + [NEW]
  {
    Run2(INIT, Done(v), Done(v));
  }

  /** Five reconciles in which every call succeeds take a new object to Ready, with one launch, and with the
    * instance, address and node that were answered. */
  lemma NewBecomesReady(id: string, addr: string, name: string, v: nat)
    requires id != "" && addr != "" && name != "" && v >= 10
    ensures
      var t := Run(INIT, ToReady(id, addr, name, v));
      Rests(t, Object(true, false, Status(Ready, id, addr, addr, name, 100, true))) && t.launched == [id]
  {
    var a := Run(INIT, [Done(v), Done(v)]);
    Adopts(v);
    var provision := Prepare(v) + Create(id, addr, v);
    Then(INIT, [Done(v), Done(v)], a, provision);
    var b := Run(a, provision);
    ProvisioningRuns(a, NEW, id, addr, v);
    Then(INIT, [Done(v), Done(v)] + provision, b, Polled(v));
    var c := Run(b, Polled(v));
    PollRuns(b, Cur(b), v);
    Then(INIT, [Done(v), Done(v)] + provision + Polled(v), c, Joined(name, v));
    var d := Run(c, Joined(name, v));
    JoinRuns(c, Cur(c), name, v);
    Then(INIT, [Done(v), Done(v)] + provision + Polled(v) + Joined(name, v), d, Pulled(v));
    PullRuns(d, Cur(d), v);
  }

  /** Without images to pull, or without an answer about them, a stamped node makes the object Ready at once. */
  lemma JoinWithoutImagesRuns(s: State, o: Object, name: string, ok: bool, v: nat)
    requires Rests(s, o) && o.finalizer && !o.deleting && Waiting(o.status.phase) && name != ""
    requires v >= |s.api.versions|
    ensures
      var t := Run(s, [Done(v), Node(name), Done(v)] + [Answer(ok, false, 0, !ok, "", ""), Done(v)]);
      var ready := o.(status := o.status.(phase := Ready, nodeName := name, progress := 100, completed := true));
      Rests(t, ready) && t.api.versions == s.api.versions + [ready]
  {
    var a := Run(s, [Done(v), Node(name), Done(v)]);
    Stamps(s, o, name, v);
    Then(s, [Done(v), Node(name), Done(v)], a, [Answer(ok, false, 0, !ok, "", ""), Done(v)]);
    var b := a.(pc := JoinWrite(Ready));
    assert Next(a, Answer(ok, false, 0, !ok, "", "")) == b;
    Writes(b, v);
    Run2(a, Answer(ok, false, 0, !ok, "", ""), Done(v));
  }

  /** A node that is not there yet only moves the object on to RegisteringNode. */
  lemma NodeAwaited(s: State, o: Object, v: nat)
    requires Rests(s, o) && o.finalizer && !o.deleting && Waiting(o.status.phase) && v >= |s.api.versions|
    ensures
      var t := Run(s, [Done(v), Done(v), Done(v)]);
      var next := o.(status := o.status.(phase := RegisteringNode, progress := 70));
      Rests(t, next) && t.api.versions == s.api.versions + [next]
  {
    Reading(s, o, v);
    Run3(s, Done(v), Done(v), Done(v));
  }

  /** An instance already recorded is not created again: the object only moves on. */
  lemma RecordedAdvances(s: State, o: Object, v: nat)
    requires Rests(s, o) && o.finalizer && !o.deleting && o.status.instanceId != "" && v >= |s.api.versions|
    requires o.status.phase.CreatingInstance? || o.status.phase.ConfiguringVPN?
    ensures
      var t, next := Run(s, [Done(v), Done(v)]), o.(status := o.status.(phase := WaitingForInstance));
      Rests(t, next) && t.api.versions == s.api.versions + [next] && t.launched == s.launched
  {
    Reading(s, o, v);
    Run2(s, Done(v), Done(v));
  }

  /** The same from a starting phase, once the secret has been read. */
  lemma RecordedSkips(s: State, o: Object, v: nat)
    requires Rests(s, o) && o.finalizer && !o.deleting && o.status.instanceId != "" && Startable(o.status.phase)
    requires v >= |s.api.versions|
    ensures
      var t, next := Run(s, [Done(v), Done(v), Done(v)]), o.(status := o.status.(phase := WaitingForInstance));
      Rests(t, next) && t.api.versions == s.api.versions + [next] && t.launched == s.launched
  {
    Reading(s, o, v);
    var a := s.(np := o, rv := Last(s.api), pc := Advance);
    Writes(a, v);
    Run3(s, Done(v), Done(v), Done(v));
  }

  // ── Failing calls ────────────────────────────────────────────────────────

  /** Answers on which a reconcile returns as it is. */
  predicate Stops(pc: PC, st: Status, e: Event)
    requires e.Answer?
  {
    match pc
    case Secret(_) => !e.ok
    case NetConfig => !e.ok
    case Connect => !e.ok
    case Remark(_) => !e.ok
    case Refetch(_, _) => !e.ok
    case Poll => !e.ok || !e.found
    case ListNodes => !e.ok
    case Stamp(_) => !e.ok
    case PullImages => !e.ok || !e.found
    case ReadyGet => !e.ok
    case RetryGet => !e.ok
    case DelNode => st.nodeName != "" && (!e.ok || e.found)
    case DelTerminate => st.instanceId != "" && !e.ok
    case _ => false
  }

  /** A lookup or a command that fails, an instance that is not running yet, images not pulled yet, a node still
    * there, a termination refused: the reconcile returns, and nothing is written. */
  lemma FailedCallReturns(s: State, e: Event)
    requires Wf(s) && e.Answer? && Stops(s.pc, s.np.status, e)
    ensures Next(s, e) == s.(pc := Idle)
  {
  }

  /** An unusable spec, missing provider credentials and a launch without an address make the object Failed, and
    * nothing else about it changes. */
  lemma GivesUp(s: State, o: Object, e: Event, v: nat)
    requires At(s, s.pc, o) && (s.pc.Defaults? || s.pc.Credentials? || s.pc.Launch?)
    requires e.Answer? && !e.ok && e.addr == ""
    ensures
      var t, failed := Run(s, [e, Done(v)]), o.(status := o.status.(phase := Failed));
      && Rests(t, failed) && t.api.versions == s.api.versions + [failed]
      && t.launched == s.launched && t.terminated == s.terminated && t.nodesGone == s.nodesGone
  {
    assert Next(s, e) == s.(pc := FailWrite);
    Writes(s.(pc := FailWrite), v);
    Run2(s, e, Done(v));
  }

  // ── Refused and unanswered writes, and other writers ────────────────────

  /** The points of a reconcile that write the status. */
  predicate WritesStatus(pc: PC) {
    pc == Advance || pc.Mark? || pc == FailWrite || pc.FinalWrite? || pc == PollWrite || pc == RegisterWrite
    || pc.JoinWrite? || pc == ReadyWrite || pc == RetryWrite || pc == DelMark || pc == DelClear
  }

  /** A status write that is refused changes nothing on the server, and one whose answer is lost is one version;
    * either way a progress phase is read again, a deletion goes on, and everything else returns. */
  lemma RefusedWrite(s: State, e: Event)
    requires Wf(s) && e.Answer? && WritesStatus(s.pc) && !(e.ok && !s.api.gone && s.rv == Last(s.api))
    ensures
      var t := Next(s, e);
      && t.pc == (if s.pc.Mark? then Remark(s.pc.marker) else
                  if s.pc == DelMark then DelNode else if s.pc == DelClear then DelVpn else Idle)
      && t.launched == s.launched && t.terminated == s.terminated && t.nodesGone == s.nodesGone
      && if e.lost && !s.api.gone && s.rv == Last(s.api)
         then |t.api.versions| == |s.api.versions| + 1 && s.api.versions <= t.api.versions
         else t.api == s.api
  {
    NextWrites(s, e);
  }

  /** An edit by somebody else after the read makes the write fail, whatever it was going to persist. */
  lemma EditedMeanwhile(s: State, e: Event)
    requires Wf(s) && !s.api.gone && s.rv == Last(s.api) && e.Answer?
    requires WritesStatus(s.pc) || s.pc == AddFinalizer || s.pc == DelFinalizer
    ensures Next(Next(s, Touch), e).api.versions == s.api.versions + [Cur(s)]
  {
    var a := Next(s, Touch);
    assert a == s.(api := Push(s.api, Cur(s)));
    if WritesStatus(s.pc) {
      NextWrites(a, e);
    }
  }

  /** The finalizer's update ends the reconcile, whether it is applied or not. */
  lemma FinalizerUpdate(s: State, e: Event)
    requires Wf(s) && e.Answer? && (s.pc == AddFinalizer || s.pc == DelFinalizer)
    ensures
      var t := Next(s, e);
      && t.pc == Idle
      && t.api.versions == s.api.versions +
           if !s.api.gone && s.rv == Last(s.api) && (e.ok || e.lost)
           then [Cur(s).(finalizer := s.pc == AddFinalizer)] else []
  {
  }

  /** A spec that defaults were filled into is persisted, and the reconcile returns; it is gone by then, or the
    * next one finds the same status. */
  lemma DefaultsFilled(s: State, v: nat)
    requires Wf(s) && s.pc == Defaults
    ensures
      var t := Next(s, Found(v));
      && t.pc == Idle && t.api.gone == s.api.gone && Cur(t) == Cur(s) && t.launched == s.launched
      && t.api.versions == s.api.versions + if s.api.gone then [] else [Cur(s)]
  {
  }

  // ── A failed launch and its reset ────────────────────────────────────────

  /** A launch that fails behind its address leaves the object Failed with the address; the next reconcile
    * resets it to a starting phase without one. */
  lemma BrokenLaunchRuns(s: State, o: Object, addr: string, v: nat)
    requires At(s, Launch, o) && addr != ""
    ensures
      var t := Run(s, [Broken(addr), Done(v), Done(v)]);
      var failed := o.(status := o.status.(phase := Failed, vpnIp := addr, ipAddress := addr));
      && Rests(t, failed) && t.api.versions == s.api.versions + [failed]
      && t.launched == s.launched && t.terminated == s.terminated && t.nodesGone == s.nodesGone
  {
    Run3(s, Broken(addr), Done(v), Done(v));
  }

  lemma RetryRead(s: State, v: nat)
    requires Wf(s) && s.pc.RetryGet? && !s.api.gone && Cur(s).status.phase.Failed? && v >= |s.api.versions|
    ensures Next(s, Done(v)) == s.(np := Cur(s), rv := Last(s.api), pc := RetryWrite)
  {
  }

  lemma Resets(s: State, o: Object, v: nat)
    requires At(s, RetryGet, o) && o.status.phase.Failed? && v >= |s.api.versions|
    ensures
      var t := Run(s, [Done(v), Done(v)]);
      var reset := o.(status := o.status.(phase := NoPhase, vpnIp := "", ipAddress := ""));
      && Rests(t, reset) && t.api.versions == s.api.versions + [reset]
      && t.launched == s.launched && t.terminated == s.terminated && t.nodesGone == s.nodesGone
  {
    RetryRead(s, v);
    Writes(s.(pc := RetryWrite), v);
    Run2(s, Done(v), Done(v));
  }

  lemma RetryReleased(s: State, v: nat)
    requires Wf(s) && s.pc.RetryVpn?
    ensures Next(s, Done(v)) == s.(pc := RetryGet)
  {
  }

  lemma RetryStarts(s: State, o: Object, v: nat)
    requires Rests(s, o) && o.finalizer && !o.deleting && o.status.phase.Failed? && v >= |s.api.versions|
    ensures Run(s, [Done(v), Done(v)]) == s.(np := o, rv := Last(s.api), pc := RetryGet)
  {
    Reading(s, o, v);
    RetryReleased(s.(np := o, rv := Last(s.api), pc := RetryVpn), v);
    Run2(s, Done(v), Done(v));
  }

  lemma ResetRuns(s: State, o: Object, v: nat)
    requires Rests(s, o) && o.finalizer && !o.deleting && o.status.phase.Failed? && v >= |s.api.versions|
    ensures
      var t := Run(s, [Done(v), Done(v)] + [Done(v), Done(v)]);
      var reset := o.(status := o.status.(phase := NoPhase, vpnIp := "", ipAddress := ""));
      && Rests(t, reset) && t.api.versions == s.api.versions + [reset]
      && t.launched == s.launched && t.terminated == s.terminated && t.nodesGone == s.nodesGone
  {
    RetryStarts(s, o, v);
    var a := s.(np := o, rv := Last(s.api), pc := RetryGet);
    Then(s, [Done(v), Done(v)], a, [Done(v), Done(v)]);
    Resets(a, o, v);
  }

  // ── Deletion ─────────────────────────────────────────────────────────────

  /** A deleted object with a node and an instance. */
  predicate Doomed(o: Object) {
    o.finalizer && o.deleting && o.status.nodeName != "" && o.status.instanceId != ""
  }

  lemma NodeGoes(s: State, o: Object, v: nat)
    requires Rests(s, o) && Doomed(o) && v >= |s.api.versions|
    ensures
      var t, marked := Run(s, [Done(v), Done(v), Done(v)]), o.(status := o.status.(phase := Deleting));
      && At(t, DelTerminate, marked) && t.api.versions == s.api.versions + [marked]
      && t.nodesGone == s.nodesGone + {o.status.nodeName}
      && t.launched == s.launched && t.terminated == s.terminated
  {
    Reading(s, o, v);
    Writes(s.(np := o, rv := Last(s.api), pc := DelMark), v);
    Run3(s, Done(v), Done(v), Done(v));
  }

  lemma InstanceGoes(s: State, o: Object, v: nat)
    requires At(s, DelTerminate, o) && o.status.instanceId != ""
    ensures
      var t, cleared := Run(s, [Done(v), Done(v)]), o.(status := o.status.(instanceId := ""));
      && At(t, DelVpn, cleared) && t.api.versions == s.api.versions + [cleared]
      && t.terminated == s.terminated + {o.status.instanceId}
      && t.launched == s.launched && t.nodesGone == s.nodesGone
  {
    Run2(s, Done(v), Done(v));
  }

  lemma FinalizerGoes(s: State, o: Object, v: nat)
    requires At(s, DelVpn, o)
    ensures
      var t := Run(s, [Done(v), Done(v)]);
      && Rests(t, o.(finalizer := false)) && t.api.versions == s.api.versions + [o.(finalizer := false)]
      && t.launched == s.launched && t.terminated == s.terminated && t.nodesGone == s.nodesGone
  {
    Run2(s, Done(v), Done(v));
  }

  lemma NothingGoes(s: State, o: Object, v: nat)
    requires Rests(s, o) && o.finalizer && o.deleting && o.status.nodeName == "" && v >= |s.api.versions|
    ensures
      var t, marked := Run(s, [Done(v), Done(v), Done(v)]), o.(status := o.status.(phase := Deleting));
      && At(t, DelTerminate, marked) && t.api.versions == s.api.versions + [marked]
      && t.launched == s.launched && t.terminated == s.terminated && t.nodesGone == s.nodesGone
  {
    Reading(s, o, v);
    Writes(s.(np := o, rv := Last(s.api), pc := DelMark), v);
    Run3(s, Done(v), Done(v), Done(v));
  }

  lemma NothingToTerminate(s: State, e: Event)
    requires Wf(s) && s.pc.DelTerminate? && s.np.status.instanceId == "" && e.Answer?
    ensures Next(s, e) == s.(pc := DelVpn)
  {
  }

  /** Deleted before it had a node or an instance. */
  lemma BareDeletionRuns(s: State, o: Object, v: nat)
    requires Rests(s, o) && o.finalizer && o.deleting && o.status.nodeName == "" && o.status.instanceId == ""
    requires v >= |s.api.versions|
    ensures
      var t := Run(s, [Done(v), Done(v), Done(v)] + [Done(v)] + [Done(v), Done(v)]);
      var marked := o.(status := o.status.(phase := Deleting));
      && Rests(t, marked.(finalizer := false))
      && t.api.versions == s.api.versions + [marked] + [marked.(finalizer := false)]
      && t.launched == s.launched && t.terminated == s.terminated && t.nodesGone == s.nodesGone
  {
    var three := [Done(v), Done(v), Done(v)];
    var a := Run(s, three);
    NothingGoes(s, o, v);
    Then(s, three, a, [Done(v)]);
    NothingToTerminate(a, Done(v));
    Run1(a, Done(v));
    var b := a.(pc := DelVpn);
    Then(s, three + [Done(v)], b, [Done(v), Done(v)]);
    FinalizerGoes(b, Cur(b), v);
  }

  lemma Collects(s: State)
    requires Wf(s) && Cur(s).deleting && !Cur(s).finalizer
    ensures Next(s, Collect) == s.(api := s.api.(gone := true))
  {
  }

  /** One reconcile of a deleted object in which every call succeeds and the node is found gone: it is marked,
    * its node is gone, its instance terminated and forgotten, and its finalizer off, in this order, each of
    * them one version; then the API server may drop it. */
  lemma DeletionRuns(s: State, o: Object, v: nat)
    requires Rests(s, o) && Doomed(o) && v >= |s.api.versions|
    ensures
      var t := Run(s, [Done(v), Done(v), Done(v)] + [Done(v), Done(v)] + [Done(v), Done(v)]);
      var marked := o.(status := o.status.(phase := Deleting));
      var cleared := marked.(status := marked.status.(instanceId := ""));
      && t.api.versions == s.api.versions + [marked] + [cleared] + [cleared.(finalizer := false)]
      && t.pc == Idle && t.terminated == s.terminated + {o.status.instanceId}
      && t.nodesGone == s.nodesGone + {o.status.nodeName} && t.launched == s.launched
      && !t.api.gone && Next(t, Collect).api.gone
  {
    var two, three := [Done(v), Done(v)], [Done(v), Done(v), Done(v)];
    var a := Run(s, three);
    NodeGoes(s, o, v);
    Then(s, three, a, two);
    var b := Run(a, two);
    InstanceGoes(a, Cur(a), v);
    Then(s, three + two, b, two);
    FinalizerGoes(b, Cur(b), v);
    Collects(Run(b, two));
  }

  /** Somebody asks for the object's deletion. */
  lemma AskedToGo(s: State, o: Object)
    requires Rests(s, o)
    ensures
      var t := Next(s, RequestDelete);
      && Rests(t, o.(deleting := true)) && t.api.versions == s.api.versions + [o.(deleting := true)]
      && t.launched == s.launched && t.terminated == s.terminated && t.nodesGone == s.nodesGone
  {
  }

  /** A ready object whose deletion is asked for: one reconcile later its node and its instance are gone, and the
    * API server can drop the object. */
  lemma ReadyThenGone(s: State, o: Object, v: nat)
    requires Rests(s, o) && o.finalizer && o.status.nodeName != "" && o.status.instanceId != ""
    requires v >= |s.api.versions| + 1
    ensures
      var a := Next(s, RequestDelete);
      var t := Run(a, [Done(v), Done(v), Done(v)] + [Done(v), Done(v)] + [Done(v), Done(v)]);
      && t.terminated == s.terminated + {o.status.instanceId} && t.nodesGone == s.nodesGone + {o.status.nodeName}
      && t.launched == s.launched && Next(t, Collect).api.gone
  {
    AskedToGo(s, o);
    DeletionRuns(Next(s, RequestDelete), o.(deleting := true), v);
  }

  /** Dropped only when marked as deleted and without the finalizer. */
  ghost predicate GoneClean(s: State) {
    Wf(s) && (s.api.gone ==> Cur(s).deleting && !Cur(s).finalizer)
  }

  lemma GoneStep(s: State, e: Event)
    requires GoneClean(s)
    ensures GoneClean(Next(s, e)) && (s.api.gone ==> Next(s, e).api == s.api)
  {
    if e.Answer? && PendingWrite(s.pc, s.np.status).Intent? {
      NextWrites(s, e);
    } else if e.Answer? {
      OnlyWritesPersist(s, e);
    }
  }

  /** Apart from the status writes, only the finalizer's update and filled-in defaults persist anything. */
  lemma OnlyWritesPersist(s: State, e: Event)
    requires Wf(s) && e.Answer? && PendingWrite(s.pc, s.np.status).Nothing?
    ensures
      Next(s, e).api == s.api ||
      (!s.api.gone && (s.pc == AddFinalizer || s.pc == DelFinalizer || s.pc == Defaults)
       && Next(s, e).api == Push(s.api, Cur(s).(finalizer :=
            if s.pc == Defaults then Cur(s).finalizer else s.pc == AddFinalizer)))
  {
  }

  /** In every run: an object is dropped by the API server only when its deletion was asked for and the finalizer
    * is off, and after that nothing is persisted for it any more. */
  lemma {:induction false} GoneOnlyClean(s: State, es: seq<Event>)
    requires GoneClean(s)
    ensures GoneClean(Run(s, es)) && (s.api.gone ==> Run(s, es).api == s.api)
    decreases |es|
  {
    if es != [] {
      GoneStep(s, es[0]);
      GoneOnlyClean(Next(s, es[0]), es[1..]);
    }
  }
}

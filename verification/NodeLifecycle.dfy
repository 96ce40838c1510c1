/** The cloud NodeProvision reconciler as a step machine.
  *
  * One step is one answer to one outside call (API server, cloud, VPN server, cluster), so a crash
  * or an edit by somebody else can fall between any two calls.  The API server keeps every version
  * of the object: a version's index is its resource version, and the last one is current.
  */
module NodeLifecycle {

  datatype Phase =
    | NoPhase | Pending | Validating | Provisioning | ConfiguringVPN | CreatingInstance
    | WaitingForInstance | Bootstrapping | Joining | RegisteringNode | VerifyingHealth
    | PrePullingImages | Ready | Failed | Deleting

  datatype Status = Status(
    phase: Phase, instanceId: string, vpnIp: string, ipAddress: string,
    nodeName: string, progress: nat, completed: bool)

  datatype Object = Object(finalizer: bool, deleting: bool, status: Status)

  /** `gone`: the API server has dropped the object. */
  datatype Api = Api(versions: seq<Object>, gone: bool)

  /** The outside call the reconciler is waiting for. */
  datatype PC =
    | Idle                                    // between reconciles
    | AddFinalizer
    | Secret(poll: bool)                      // credentials secret, before polling or before provisioning
    | Advance                                 // write WaitingForInstance for an instance already recorded
    | Defaults                                // resolve provider defaults, validate the spec
    | Mark(marker: Phase)                     // write a progress phase
    | Remark(marker: Phase)                   // re-fetch after that write failed
    | NetConfig
    | Connect                                 // SSH to the VPN server
    | Credentials
    | Launch
    | Record(id: string)                      // ledger write after a launch attempt; "" when it failed
    | FailWrite
    | Refetch(id: string, addr: string)
    | FinalWrite(id: string, addr: string)
    | Poll | PollWrite
    | ListNodes | RegisterWrite | Stamp(node: string) | ImageList | JoinWrite(target: Phase)
    | PullImages | ReadyGet | ReadyWrite
    | RetryVpn | RetryGet | RetryWrite        // retry through Failed
    | DelMark | DelNode | DelTerminate | DelClear | DelVpn | DelFinalizer

  /** What an outside call answers.  `lost`: a write was applied but its reply never arrived.
    * `version`: the version a Get returns. */
  datatype Event =
    | Answer(ok: bool, lost: bool, version: nat, found: bool, name: string, addr: string)
    | Crash
    | Touch                                   // somebody edits the spec or the labels
    | RequestDelete
    | Collect                                 // the API server drops a finalizer-free deleted object

  datatype State = State(
    api: Api,
    launched: seq<string>,                    // IDs of the instances ever launched
    terminated: set<string>,                  // instance IDs whose termination succeeded
    nodesGone: set<string>,                   // node names a Get reported as not found
    pc: PC, np: Object, rv: nat)              // the running reconcile and its copy of the object
  {
    function Count(): nat {
      |launched|
    }
  }

  const BLANK := Status(NoPhase, "", "", "", "", 0, false)

  /** A NodeProvision just created by a user. */
  const INIT := State(Api([Object(false, false, BLANK)], false), [], {}, {}, Idle, Object(false, false, BLANK), 0)

  ghost predicate Wf(s: State) {
    |s.api.versions| > 0
  }

  function Last(a: Api): nat
    requires |a.versions| > 0
  {
    |a.versions| - 1
  }

  function Cur(s: State): Object
    requires Wf(s)
  {
    s.api.versions[Last(s.api)]
  }

  predicate Startable(p: Phase) {
    p.NoPhase? || p.Pending? || p.Validating? || p.Provisioning?
  }

  predicate Marker(p: Phase) {
    p == ConfiguringVPN || p == CreatingInstance
  }

  // ── The API server ───────────────────────────────────────────────────────

  /** The version a Get answers with: any past one from a stale cache. */
  function Pick(a: Api, version: nat): (v: nat)
    requires |a.versions| > 0
    ensures v < |a.versions|
  {
    if version < |a.versions| then version else Last(a)
  }

  function Push(a: Api, o: Object): (r: Api) {
    Api(a.versions + [o], a.gone)
  }

  predicate Applied(s: State, e: Event)
    requires Wf(s) && e.Answer?
  {
    !s.api.gone && s.rv == Last(s.api) && (e.ok || e.lost)
  }

  /** Status().Update of the reconciler's copy with status `st`. */
  function WriteStatus(s: State, st: Status, e: Event, onOk: PC, onErr: PC): State
    requires Wf(s) && e.Answer?
  {
    var mine := s.np.(status := st);
    if Applied(s, e) then
      var api := Push(s.api, Cur(s).(status := st));
      if e.ok then s.(api := api, np := Cur(s).(status := st), rv := |s.api.versions|, pc := onOk)
      else s.(api := api, np := mine, pc := onErr)
    else s.(np := mine, pc := onErr)
  }

  /** Update of the reconciler's copy with the finalizer present or not. */
  function WriteFinalizer(s: State, finalizer: bool, e: Event): State
    requires Wf(s) && e.Answer?
  {
    if Applied(s, e) then s.(api := Push(s.api, Cur(s).(finalizer := finalizer)), pc := Idle)
    else s.(pc := Idle)
  }

  function Get(s: State, e: Event, onOk: PC): State
    requires Wf(s) && e.Answer?
  {
    if !e.ok then s.(pc := Idle)
    else
      var v := Pick(s.api, e.version);
      s.(np := s.api.versions[v], rv := v, pc := onOk)
  }

  function Outside(s: State, e: Event): State
    requires Wf(s) && !e.Answer?
  {
    match e
    case Crash => s.(pc := Idle)
    case Touch => if s.api.gone then s else s.(api := Push(s.api, Cur(s)))
    case RequestDelete => if s.api.gone then s else s.(api := Push(s.api, Cur(s).(deleting := true)))
    case Collect =>
      if Cur(s).deleting && !Cur(s).finalizer then s.(api := s.api.(gone := true)) else s
  }

  // ── The reconciler ───────────────────────────────────────────────────────

  /** Where a reconcile goes after reading the object. */
  function Dispatch(np: Object): PC {
    if np.deleting then (if np.finalizer then DelMark else Idle)
    else if !np.finalizer then AddFinalizer
    else match np.status.phase
      case NoPhase | Pending | Validating | Provisioning => Secret(false)
      case CreatingInstance | ConfiguringVPN => if np.status.instanceId != "" then Advance else Idle
      case WaitingForInstance => Secret(true)
      case Bootstrapping | Joining | RegisteringNode | VerifyingHealth => ListNodes
      case PrePullingImages => PullImages
      case Failed => RetryVpn
      case Ready | Deleting => Idle
  }

  function MarkerProgress(p: Phase): nat {
    if p == Validating then 5 else if p == ConfiguringVPN then 15 else 25
  }

  function AfterMark(p: Phase): PC {
    if p == Validating then NetConfig else if p == ConfiguringVPN then Connect else Credentials
  }

  function Marked(st: Status, p: Phase): Status {
    st.(phase := p, progress := MarkerProgress(p))
  }

  predicate Preparing(pc: PC) {
    pc.Secret? || pc.Advance? || pc.Defaults? || pc.Mark? || pc.Remark?
    || pc.NetConfig? || pc.Connect? || pc.Credentials?
  }

  predicate Launching(pc: PC) {
    pc.Launch? || pc.Record? || pc.FailWrite? || pc.Refetch? || pc.FinalWrite?
  }

  predicate InJoin(pc: PC) {
    pc.Poll? || pc.PollWrite? || pc.ListNodes? || pc.RegisterWrite? || pc.Stamp? || pc.ImageList? || pc.JoinWrite?
  }

  predicate InRetry(pc: PC) {
    pc.PullImages? || pc.ReadyGet? || pc.ReadyWrite? || pc.RetryVpn? || pc.RetryGet? || pc.RetryWrite?
  }

  predicate InDelete(pc: PC) {
    pc.DelMark? || pc.DelNode? || pc.DelTerminate? || pc.DelClear? || pc.DelVpn? || pc.DelFinalizer?
  }

  function NextPrepare(s: State, e: Event): State
    requires Wf(s) && e.Answer? && Preparing(s.pc)
  {
    var st := s.np.status;
    match s.pc
    case Secret(poll) =>
      if !e.ok then s.(pc := Idle)
      else if poll then s.(pc := Poll)
      else s.(pc := if st.instanceId != "" then Advance else Defaults)
    case Advance => WriteStatus(s, st.(phase := WaitingForInstance), e, Idle, Idle)
    case Defaults =>
      if !e.ok then s.(pc := FailWrite)
      else if e.found then (if s.api.gone then s.(pc := Idle) else s.(api := Push(s.api, Cur(s)), pc := Idle))
      else s.(pc := Mark(Validating))
    case Mark(p) => WriteStatus(s, Marked(st, p), e, AfterMark(p), Remark(p))
    case Remark(p) => Get(s, e, AfterMark(p))
    case NetConfig => s.(pc := if e.ok then Mark(ConfiguringVPN) else Idle)
    case Connect => s.(pc := if e.ok then Mark(CreatingInstance) else Idle)
    case Credentials => s.(pc := if e.ok then Launch else FailWrite)
  }

  function NextLaunch(s: State, e: Event): State
    requires Wf(s) && e.Answer? && Launching(s.pc)
  {
    var st := s.np.status;
    match s.pc
    case Launch =>
      if e.ok && e.name != "" && e.addr != "" then
        s.(launched := s.launched + [e.name], np := s.np.(status := st.(vpnIp := e.addr, ipAddress := e.addr)),
           pc := Record(e.name))
      else if e.addr != "" then
        s.(np := s.np.(status := st.(vpnIp := e.addr, ipAddress := e.addr)), pc := Record(""))
      else s.(pc := FailWrite)
    case Record(id) => s.(pc := if id == "" then FailWrite else Refetch(id, st.vpnIp))
    case FailWrite => WriteStatus(s, st.(phase := Failed), e, Idle, Idle)
    case Refetch(id, addr) => Get(s, e, FinalWrite(id, addr))
    case FinalWrite(id, addr) =>
      WriteStatus(s, st.(phase := WaitingForInstance, instanceId := id, vpnIp := addr, ipAddress := addr,
                         progress := 30),
                  e, Idle, Idle)
  }

  function NextJoin(s: State, e: Event): State
    requires Wf(s) && e.Answer? && InJoin(s.pc)
  {
    var st := s.np.status;
    match s.pc
    case Poll => s.(pc := if e.ok && e.found then PollWrite else Idle)
    case PollWrite => WriteStatus(s, st.(phase := Bootstrapping, progress := 50), e, Idle, Idle)
    case ListNodes =>
      if !e.ok then s.(pc := Idle)
      else if e.found && e.name != "" then s.(pc := Stamp(e.name))
      else s.(pc := RegisterWrite)
    case RegisterWrite => WriteStatus(s, st.(phase := RegisteringNode, progress := 70), e, Idle, Idle)
    case Stamp(node) =>
      if !e.ok then s.(pc := Idle)
      else s.(np := s.np.(status := st.(nodeName := node)), pc := ImageList)
    case ImageList => s.(pc := JoinWrite(if e.ok && e.found then PrePullingImages else Ready))
    case JoinWrite(target) =>
      WriteStatus(s, if target == Ready then st.(phase := Ready, progress := 100, completed := true)
                     else st.(phase := PrePullingImages, progress := 90), e, Idle, Idle)
  }

  /** Image pre-pull to Ready, and the retry of a failed object. */
  function NextRetry(s: State, e: Event): State
    requires Wf(s) && e.Answer? && InRetry(s.pc)
  {
    var st := s.np.status;
    match s.pc
    case PullImages => s.(pc := if e.ok && e.found then ReadyGet else Idle)
    case ReadyGet => Get(s, e, ReadyWrite)
    case ReadyWrite => WriteStatus(s, st.(phase := Ready, progress := 100, completed := true), e, Idle, Idle)
    case RetryVpn => s.(pc := RetryGet)
    case RetryGet =>
      var t := Get(s, e, RetryWrite);
      if t.pc == RetryWrite && t.np.status.phase != Failed then t.(pc := Idle) else t
    case RetryWrite => WriteStatus(s, st.(phase := NoPhase, vpnIp := "", ipAddress := ""), e, Idle, Idle)
  }

  function NextDelete(s: State, e: Event): State
    requires Wf(s) && e.Answer? && InDelete(s.pc)
  {
    var st := s.np.status;
    match s.pc
    case DelMark => WriteStatus(s, st.(phase := Deleting), e, DelNode, DelNode)
    case DelNode =>
      if st.nodeName == "" then s.(pc := DelTerminate)
      else if e.ok && !e.found then s.(nodesGone := s.nodesGone + {st.nodeName}, pc := DelTerminate)
      else s.(pc := Idle)
    case DelTerminate =>
      if st.instanceId == "" then s.(pc := DelVpn)
      else if e.ok then
        s.(terminated := s.terminated + {st.instanceId}, np := s.np.(status := st.(instanceId := "")), pc := DelClear)
      else s.(pc := Idle)
    case DelClear => WriteStatus(s, st, e, DelVpn, DelVpn)
    case DelVpn => s.(pc := DelFinalizer)
    case DelFinalizer => WriteFinalizer(s, false, e)
  }

  function Next(s: State, e: Event): (t: State)
    requires Wf(s)
    ensures Wf(t)
  {
    if !e.Answer? then Outside(s, e)
    else if s.pc == Idle then
      var t := Get(s, e, Idle);
      if e.ok then t.(pc := Dispatch(t.np)) else s
    else if s.pc == AddFinalizer then WriteFinalizer(s, true, e)
    else if Preparing(s.pc) then NextPrepare(s, e)
    else if Launching(s.pc) then NextLaunch(s, e)
    else if InJoin(s.pc) then NextJoin(s, e)
    else if InRetry(s.pc) then NextRetry(s, e)
    else NextDelete(s, e)
  }

  datatype Intent = Intent(st: Status, onOk: PC, onErr: PC) | Nothing

  /** The status write a point of a reconcile is about to make, and where it leads. */
  function PendingWrite(pc: PC, st: Status): Intent {
    match pc
    case Advance => Intent(st.(phase := WaitingForInstance), Idle, Idle)
    case Mark(p) => Intent(Marked(st, p), AfterMark(p), Remark(p))
    case FailWrite => Intent(st.(phase := Failed), Idle, Idle)
    case FinalWrite(id, addr) =>
      Intent(st.(phase := WaitingForInstance, instanceId := id, vpnIp := addr, ipAddress := addr, progress := 30),
             Idle, Idle)
    case PollWrite => Intent(st.(phase := Bootstrapping, progress := 50), Idle, Idle)
    case RegisterWrite => Intent(st.(phase := RegisteringNode, progress := 70), Idle, Idle)
    case JoinWrite(target) =>
      Intent(if target == Ready then st.(phase := Ready, progress := 100, completed := true)
              else st.(phase := PrePullingImages, progress := 90), Idle, Idle)
    case ReadyWrite => Intent(st.(phase := Ready, progress := 100, completed := true), Idle, Idle)
    case RetryWrite => Intent(st.(phase := NoPhase, vpnIp := "", ipAddress := ""), Idle, Idle)
    case DelMark => Intent(st.(phase := Deleting), DelNode, DelNode)
    case DelClear => Intent(st, DelVpn, DelVpn)
    case _ => Nothing
  }

  lemma NextWrites(s: State, e: Event)
    requires Wf(s) && e.Answer? && PendingWrite(s.pc, s.np.status).Intent?
    ensures
      var w := PendingWrite(s.pc, s.np.status);
      Next(s, e) == WriteStatus(s, w.st, e, w.onOk, w.onErr)
  {
  }

  function Run(s: State, es: seq<Event>): (t: State)
    requires Wf(s)
    ensures Wf(t)
    decreases |es|
  {
    if es == [] then s else Run(Next(s, es[0]), es[1..])
  }

  /** A step that ends a reconcile: the reconciler is idle after it, and not just because it was and
    * somebody else acted. */
  predicate Ends(s: State, e: Event)
    requires Wf(s)
  {
    Next(s, e).pc == Idle && (s.pc != Idle || e.Answer? || e.Crash?)
  }

  /** How many reconciles a run ends. */
  function Returns(s: State, es: seq<Event>): (n: nat)
    requires Wf(s)
    decreases |es|
  {
    if es == [] then 0 else (if Ends(s, es[0]) then 1 else 0) + Returns(Next(s, es[0]), es[1..])
  }

  // ── Which runs ───────────────────────────────────────────────────────────

  predicate Reading(pc: PC) {
    pc == Idle || pc.Remark? || pc.Refetch? || pc == ReadyGet || pc == RetryGet
  }

  /** A Get that answers, answers with the current version. */
  predicate ReadsCurrent(s: State, e: Event)
    requires Wf(s)
  {
    Reading(s.pc) && e.Answer? && e.ok ==> !s.api.gone && Pick(s.api, e.version) == Last(s.api)
  }

  predicate CurrentReads(s: State, es: seq<Event>)
    requires Wf(s)
    decreases |es|
  {
    es == [] || (ReadsCurrent(s, es[0]) && CurrentReads(Next(s, es[0]), es[1..]))
  }

  predicate Launches(s: State, e: Event)
    requires Wf(s)
  {
    Next(s, e).Count() > s.Count()
  }

  /** Every launch happens with one of the two marker phases persisted. */
  predicate MarkedLaunches(s: State, es: seq<Event>)
    requires Wf(s)
    decreases |es|
  {
    es == [] ||
    ((Launches(s, es[0]) ==> Marker(Cur(s).status.phase)) && MarkedLaunches(Next(s, es[0]), es[1..]))
  }
}

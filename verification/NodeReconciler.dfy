/** The NodeProvision reconciler as sequential code: the fields of its copy of the object are assigned
  * and written back, call by call.  Every execution, with other writers between any two calls and
  * with a crash at any call, is a run of the step machine. */
module NodeReconciler {
  import opened NodeLifecycle
  import opened NodeLifecycleSafety

  /** Where a status write leads does not change what it writes. */
  lemma WriteAlike(s: State, st: Status, e: Event, onOk: PC, onErr: PC, at: PC)
    requires Wf(s) && e.Answer?
    ensures WriteStatus(s, st, e, onOk, onErr).(pc := at) == WriteStatus(s, st, e, at, at)
  {
  }

  lemma WriteLeads(s: State, st: Status, e: Event, onOk: PC, onErr: PC)
    requires Wf(s) && e.Answer?
    ensures WriteStatus(s, st, e, onOk, onErr).pc == if Applied(s, e) && e.ok then onOk else onErr
  {
  }

  lemma TerminatedStep(s: State, e: Event)
    requires Wf(s) && s.pc == DelTerminate && e.Answer? && e.ok && s.np.status.instanceId != ""
    ensures Next(s, e) ==
      s.(terminated := s.terminated + {s.np.status.instanceId},
         np := s.np.(status := s.np.status.(instanceId := "")), pc := DelClear)
  {
  }

  lemma ReadAgainStep(s: State, e: Event)
    requires Wf(s) && s.pc == RetryGet && e.Answer?
    ensures
      var v := Pick(s.api, e.version);
      Next(s, e) ==
        if !e.ok then s.(pc := Idle)
        else s.(np := s.api.versions[v], rv := v,
                pc := if s.api.versions[v].status.phase == Failed then RetryWrite else Idle)
  {
  }

  class Reconciler {
    var api: Api
    var launched: seq<string>
    var terminated: set<string>
    var nodesGone: set<string>
    var np: Object                           // the reconcile's copy
    var rv: nat                              // its resource version
    var todo: seq<Event>                     // what is still going to happen
    ghost const final: State                 // where the machine will be after it
    ghost const total: nat                   // how many reconciles will have ended by then
    ghost var pc: PC
    ghost var returned: nat                  // reconciles that have ended

    ghost function View(): State
      reads this
    {
      State(api, launched, terminated, nodesGone, pc, np, rv)
    }

    /** The machine, going on from here with what is still going to happen, ends where it was to end,
      * after as many reconciles. */
    ghost predicate Tracks()
      reads this
    {
      && Wf(View())
      && Run(View(), todo) == final
      && returned + Returns(View(), todo) == total
    }

    ghost predicate Waiting(at: PC)
      reads this
    {
      Tracks() && pc == at
    }

    /** The reconcile that was running has ended, and no other; or nothing more happens outside. */
    ghost predicate Done(was: nat)
      reads this
    {
      Tracks() && ((pc == Idle && returned == was + 1) || (todo == [] && returned == was))
    }

    /** The outside answers next with e. */
    ghost predicate Answering(e: Event)
      reads this
    {
      todo != [] && todo[0] == e && e.Answer?
    }

    constructor (script: seq<Event>)
      ensures Waiting(Idle) && todo == script && returned == 0
      ensures final == Run(INIT, script) && total == Returns(INIT, script)
    {
      api, launched, terminated, nodesGone := INIT.api, [], {}, {};
      np, rv, pc := INIT.np, 0, Idle;
      todo, returned := script, 0;
      final, total := Run(INIT, script), Returns(INIT, script);
    }

    /** The next thing has happened, and the code has done its part of it. */
    method Took(ghost prev: State)
      requires Wf(prev) && Run(prev, todo) == final && returned + Returns(prev, todo) == total
      requires todo != [] && View() == Next(prev, todo[0]).(pc := pc)
      modifies this`pc, this`todo, this`returned
      ensures Waiting(Next(prev, old(todo[0])).pc) && todo == old(todo[1..])
      ensures returned == old(returned) + if Ends(prev, old(todo[0])) then 1 else 0
    {
      pc := Next(prev, todo[0]).pc;
      returned := returned + if Ends(prev, todo[0]) then 1 else 0;
      todo := todo[1..];
    }

    /** Somebody else writes, or the API server collects. */
    method Foreign()
      requires Tracks() && todo != [] && !todo[0].Answer? && !todo[0].Crash?
      modifies this`api, this`pc, this`todo, this`returned
      ensures Waiting(old(pc)) && todo == old(todo[1..]) && returned == old(returned)
    {
      ghost var prev := View();
      var e, current := todo[0], api.versions[|api.versions| - 1];
      if e.Touch? && !api.gone {
        api := Push(api, current);
      } else if e.RequestDelete? && !api.gone {
        api := Push(api, current.(deleting := true));
      } else if e.Collect? && current.deleting && !current.finalizer {
        api := api.(gone := true);
      }
      Took(prev);
    }

    /** The answer to an outside call.  Before it others may write; instead of it the controller may
      * crash, or nothing more may happen. */
    method Await() returns (alive: bool, e: Event)
      requires Tracks()
      modifies this`api, this`pc, this`todo, this`returned
      ensures if alive then Waiting(old(pc)) && Answering(e) && returned == old(returned) else Done(old(returned))
    {
      alive, e := false, Crash;
      while todo != [] && !todo[0].Answer? && !todo[0].Crash?
        invariant Waiting(old(pc)) && returned == old(returned)
        decreases |todo|
      {
        Foreign();
      }
      if todo != [] {
        if todo[0].Crash? {
          Took(View());
        } else {
          alive, e := true, todo[0];
        }
      }
    }

    // ── Outside calls ──────────────────────────────────────────────────────

    /** A call that changes nothing here. */
    method Call(e: Event, ghost after: PC)
      requires Tracks() && pc != Idle && Answering(e) && Next(View(), e) == View().(pc := after)
      modifies this`pc, this`todo, this`returned
      ensures if after == Idle then Done(old(returned)) else Waiting(after) && returned == old(returned)
    {
      Took(View());
    }

    /** r.Get into the reconcile's copy. */
    method Fetch(e: Event, ghost after: PC) returns (ok: bool)
      requires Tracks() && pc != Idle && after != Idle && Answering(e) && Next(View(), e) == Get(View(), e, after)
      modifies this
      ensures if ok then Waiting(after) && returned == old(returned) else Done(old(returned))
    {
      ghost var prev := View();
      ok := e.ok;
      if ok {
        rv := Pick(api, e.version);
        np := api.versions[rv];
      }
      Took(prev);
    }

    /** The write itself: a matching resource version is needed. */
    method Write(e: Event, st: Status) returns (ok: bool)
      requires Wf(View()) && e.Answer?
      modifies this`api, this`np, this`rv
      ensures ok <==> Applied(old(View()), e) && e.ok
      ensures View() == WriteStatus(old(View()), st, e, pc, pc)
    {
      np := np.(status := st);
      var last := |api.versions| - 1;
      if api.gone || rv != last || !(e.ok || e.lost) {
        return false;
      }
      api := Push(api, api.versions[last].(status := st));
      if !e.ok {
        return false;
      }
      np, rv := api.versions[last + 1], last + 1;
      return true;
    }

    /** Assign status fields of the copy and write them back. */
    method StatusUpdate(e: Event, st: Status, ghost onOk: PC, ghost onErr: PC) returns (ok: bool)
      requires Tracks() && pc != Idle && Answering(e)
      requires PendingWrite(pc, np.status) == Intent(st, onOk, onErr)
      modifies this
      ensures
        var after := if ok then onOk else onErr;
        if after == Idle then Done(old(returned)) else Waiting(after) && returned == old(returned)
    {
      ghost var prev := View();
      NextWrites(prev, e);
      WriteAlike(prev, st, e, onOk, onErr, pc);
      WriteLeads(prev, st, e, onOk, onErr);
      ok := Write(e, st);
      Took(prev);
    }

    /** r.Update with the finalizer present or not. */
    method FinalizerUpdate(e: Event, finalizer: bool)
      requires Tracks() && pc != Idle && Answering(e) && Next(View(), e) == WriteFinalizer(View(), finalizer, e)
      modifies this
      ensures Done(old(returned))
    {
      ghost var prev := View();
      var last := |api.versions| - 1;
      if !api.gone && rv == last && (e.ok || e.lost) {
        api := Push(api, api.versions[last].(finalizer := finalizer));
      }
      Took(prev);
    }

    // ── Reconcile ──────────────────────────────────────────────────────────

    method ReadObject() returns (ok: bool)
      requires Waiting(Idle)
      modifies this
      ensures if ok
        then Waiting(Dispatch(np)) && returned == old(returned) + if Dispatch(np) == Idle then 1 else 0
        else Done(old(returned))
    {
      var alive, e := Await();
      if !alive {
        return false;
      }
      ghost var prev := View();
      ok := e.ok;
      if ok {
        rv := Pick(api, e.version);
        np := api.versions[rv];
      }
      Took(prev);
    }

    /** One reconcile, from reading the object to its return or to a crash: it takes up exactly what
      * happens until the machine's reconcile ends, and ends where that does. */
    method Reconcile()
      requires Waiting(Idle)
      modifies this
      ensures Done(old(returned))
    {
      var ok := ReadObject();
      if ok {
        Act();
      }
    }

    /** What to do with the object just read; nothing, when that has ended the reconcile. */
    method Act()
      requires Waiting(Dispatch(np))
      modifies this
      ensures if old(pc) == Idle then Waiting(Idle) && returned == old(returned) else Done(old(returned))
    {
      if np.deleting {
        if np.finalizer {
          HandleDelete();
        }
        return;
      }
      if !np.finalizer {
        var alive, e := Await();
        if alive {
          FinalizerUpdate(e, true);
        }
        return;
      }
      match np.status.phase {
        case NoPhase | Pending | Validating | Provisioning =>
          ReconcileProvisioning();
        case CreatingInstance | ConfiguringVPN =>
          if np.status.instanceId != "" {
            AdvanceToWaiting();
          }
        case WaitingForInstance =>
          ReconcileWaitingForInstance();
        case Bootstrapping | Joining | RegisteringNode | VerifyingHealth =>
          ReconcileJoining();
        case PrePullingImages =>
          ReconcileImagePrepull();
        case Failed =>
          RetryFailed();
        case Ready | Deleting =>
      }
    }

    // ── Provisioning ───────────────────────────────────────────────────────

    method AdvanceToWaiting()
      requires Waiting(Advance)
      modifies this
      ensures Done(old(returned))
    {
      var alive, e := Await();
      if alive {
        var _ := StatusUpdate(e, np.status.(phase := WaitingForInstance), Idle, Idle);
      }
    }

    method FailNodeProvision()
      requires Waiting(FailWrite)
      modifies this
      ensures Done(old(returned))
    {
      var alive, e := Await();
      if alive {
        var _ := StatusUpdate(e, np.status.(phase := Failed), Idle, Idle);
      }
    }

    /** Write a progress phase; when the write fails, re-fetch and go on. */
    method SetPhaseStatus(p: Phase) returns (ok: bool)
      requires Waiting(Mark(p))
      modifies this
      ensures if ok then Waiting(AfterMark(p)) && returned == old(returned) else Done(old(returned))
    {
      var alive, e := Await();
      if !alive {
        return false;
      }
      ok := StatusUpdate(e, Marked(np.status, p), AfterMark(p), Remark(p));
      if !ok {
        ok := ReadBack(p);
      }
    }

    method ReadBack(p: Phase) returns (ok: bool)
      requires Waiting(Remark(p))
      modifies this
      ensures if ok then Waiting(AfterMark(p)) && returned == old(returned) else Done(old(returned))
    {
      var alive, e := Await();
      if !alive {
        return false;
      }
      ok := Fetch(e, AfterMark(p));
    }

    /** The credentials secret; an instance already recorded is not created again. */
    method ReconcileProvisioning()
      requires Waiting(Secret(false))
      modifies this
      ensures Done(old(returned))
    {
      var alive, e := Await();
      if !alive {
        return;
      }
      var created := np.status.instanceId != "";
      Call(e, if !e.ok then Idle else if created then Advance else Defaults);
      if e.ok {
        if created {
          AdvanceToWaiting();
        } else {
          Validate();
        }
      }
    }

    method Validate()
      requires Waiting(Defaults)
      modifies this
      ensures Done(old(returned))
    {
      var ok := ResolveDefaults();
      if ok {
        MarkValidating();
      }
    }

    method MarkValidating()
      requires Waiting(Mark(Validating))
      modifies this
      ensures Done(old(returned))
    {
      var ok := SetPhaseStatus(Validating);
      if ok {
        ok := RequireNetConfig();
        if ok {
          ConnectAndLaunch();
        }
      }
    }

    method RequireNetConfig() returns (ok: bool)
      requires Waiting(NetConfig)
      modifies this
      ensures if ok then Waiting(Mark(ConfiguringVPN)) && returned == old(returned) else Done(old(returned))
    {
      var alive, e := Await();
      if !alive {
        return false;
      }
      Call(e, if e.ok then Mark(ConfiguringVPN) else Idle);
      return e.ok;
    }

    method ResolveDefaults() returns (ready: bool)
      requires Waiting(Defaults)
      modifies this
      ensures if ready then Waiting(Mark(Validating)) && returned == old(returned) else Done(old(returned))
    {
      var alive, e := Await();
      if !alive {
        return false;
      }
      if e.ok && e.found {
        // The patched spec is a new version of the object; the next reconcile sees it.
        PatchSpec(e);
        return false;
      }
      Call(e, if e.ok then Mark(Validating) else FailWrite);
      if !e.ok {
        FailNodeProvision();
      }
      return e.ok;
    }

    method PatchSpec(e: Event)
      requires Waiting(Defaults) && Answering(e) && e.ok && e.found
      modifies this
      ensures Done(old(returned))
    {
      ghost var prev := View();
      if !api.gone {
        api := Push(api, api.versions[|api.versions| - 1]);
      }
      Took(prev);
    }

    method ConnectAndLaunch()
      requires Waiting(Mark(ConfiguringVPN))
      modifies this
      ensures Done(old(returned))
    {
      var ok := SetPhaseStatus(ConfiguringVPN);
      if ok {
        ok := ConnectVpnServer();
        if ok {
          MarkAndCreate();
        }
      }
    }

    method MarkAndCreate()
      requires Waiting(Mark(CreatingInstance))
      modifies this
      ensures Done(old(returned))
    {
      var ok := SetPhaseStatus(CreatingInstance);
      if ok {
        CreateInstance();
      }
    }

    method ConnectVpnServer() returns (ok: bool)
      requires Waiting(Connect)
      modifies this
      ensures if ok then Waiting(Mark(CreatingInstance)) && returned == old(returned) else Done(old(returned))
    {
      var alive, e := Await();
      if !alive {
        return false;
      }
      Call(e, if e.ok then Mark(CreatingInstance) else Idle);
      return e.ok;
    }

    method CreateInstance()
      requires Waiting(Credentials)
      modifies this
      ensures Done(old(returned))
    {
      var alive, e := Await();
      if !alive {
        return;
      }
      Call(e, if e.ok then Launch else FailWrite);
      if e.ok {
        LaunchInstance();
      } else {
        FailNodeProvision();
      }
    }

    /** The launch: an address is kept in the copy whether or not the instance came up. */
    method LaunchInstance()
      requires Waiting(Launch)
      modifies this
      ensures Done(old(returned))
    {
      var alive, e := Await();
      if !alive {
        return;
      }
      var id := if e.ok && e.name != "" && e.addr != "" then e.name else "";
      TakeResult(e, id);
      if e.addr == "" {
        FailNodeProvision();
      } else {
        RecordAllocation(id);
      }
    }

    method TakeResult(e: Event, id: string)
      requires Waiting(Launch) && Answering(e)
      requires id == if e.ok && e.name != "" && e.addr != "" then e.name else ""
      modifies this
      ensures Waiting(if e.addr == "" then FailWrite else Record(id)) && returned == old(returned)
    {
      ghost var prev := View();
      if id != "" {
        launched := launched + [id];
      }
      if e.addr != "" {
        np := np.(status := np.status.(vpnIp := e.addr, ipAddress := e.addr));
      }
      Took(prev);
    }

    method RecordAllocation(id: string)
      requires Waiting(Record(id))
      modifies this
      ensures Done(old(returned))
    {
      var alive, e := Await();
      if !alive {
        return;
      }
      var addr := np.status.vpnIp;
      Call(e, if id == "" then FailWrite else Refetch(id, addr));
      if id == "" {
        FailNodeProvision();
      } else {
        RecordInstance(id, addr);
      }
    }

    method RecordInstance(id: string, addr: string)
      requires Waiting(Refetch(id, addr))
      modifies this
      ensures Done(old(returned))
    {
      var alive, e := Await();
      if alive {
        var ok := Fetch(e, FinalWrite(id, addr));
        if ok {
          WriteInstance(id, addr);
        }
      }
    }

    method WriteInstance(id: string, addr: string)
      requires Waiting(FinalWrite(id, addr))
      modifies this
      ensures Done(old(returned))
    {
      var alive, e := Await();
      if alive {
        var st := np.status.(phase := WaitingForInstance, instanceId := id, vpnIp := addr, ipAddress := addr,
                             progress := 30);
        var _ := StatusUpdate(e, st, Idle, Idle);
      }
    }

    // ── Waiting and joining ────────────────────────────────────────────────

    method ReconcileWaitingForInstance()
      requires Waiting(Secret(true))
      modifies this
      ensures Done(old(returned))
    {
      var alive, e := Await();
      if !alive {
        return;
      }
      Call(e, if e.ok then Poll else Idle);
      if e.ok {
        PollInstance();
      }
    }

    method PollInstance()
      requires Waiting(Poll)
      modifies this
      ensures Done(old(returned))
    {
      var alive, e := Await();
      if !alive {
        return;
      }
      var running := e.ok && e.found;
      Call(e, if running then PollWrite else Idle);
      if running {
        WriteBootstrapping();
      }
    }

    method WriteBootstrapping()
      requires Waiting(PollWrite)
      modifies this
      ensures Done(old(returned))
    {
      var alive, e := Await();
      if alive {
        var _ := StatusUpdate(e, np.status.(phase := Bootstrapping, progress := 50), Idle, Idle);
      }
    }

    /** Look for the node; stamp it and move on to pulling images or straight to Ready. */
    method ReconcileJoining()
      requires Waiting(ListNodes)
      modifies this
      ensures Done(old(returned))
    {
      var alive, e := Await();
      if !alive {
        return;
      }
      var found := e.found && e.name != "";
      Call(e, if !e.ok then Idle else if found then Stamp(e.name) else RegisterWrite);
      if e.ok {
        if found {
          StampNode(e.name);
        } else {
          WriteRegistering();
        }
      }
    }

    method WriteRegistering()
      requires Waiting(RegisterWrite)
      modifies this
      ensures Done(old(returned))
    {
      var alive, e := Await();
      if alive {
        var _ := StatusUpdate(e, np.status.(phase := RegisteringNode, progress := 70), Idle, Idle);
      }
    }

    method StampNode(node: string)
      requires Waiting(Stamp(node))
      modifies this
      ensures Done(old(returned))
    {
      var alive, e := Await();
      if !alive {
        return;
      }
      if !e.ok {
        Call(e, Idle);
      } else {
        ghost var prev := View();
        np := np.(status := np.status.(nodeName := node));
        Took(prev);
        FinishJoining();
      }
    }

    method FinishJoining()
      requires Waiting(ImageList)
      modifies this
      ensures Done(old(returned))
    {
      var alive, e := Await();
      if !alive {
        return;
      }
      var images := e.ok && e.found;
      Call(e, JoinWrite(if images then PrePullingImages else Ready));
      WriteJoined(images);
    }

    method WriteJoined(images: bool)
      requires Waiting(JoinWrite(if images then PrePullingImages else Ready))
      modifies this
      ensures Done(old(returned))
    {
      var alive, e := Await();
      if !alive {
        return;
      }
      var st := if images then np.status.(phase := PrePullingImages, progress := 90)
                else np.status.(phase := Ready, progress := 100, completed := true);
      var _ := StatusUpdate(e, st, Idle, Idle);
    }

    method ReconcileImagePrepull()
      requires Waiting(PullImages)
      modifies this
      ensures Done(old(returned))
    {
      var alive, e := Await();
      if !alive {
        return;
      }
      var pulled := e.ok && e.found;
      Call(e, if pulled then ReadyGet else Idle);
      if pulled {
        MarkReady();
      }
    }

    method MarkReady()
      requires Waiting(ReadyGet)
      modifies this
      ensures Done(old(returned))
    {
      var alive, e := Await();
      if alive {
        var ok := Fetch(e, ReadyWrite);
        if ok {
          WriteReady();
        }
      }
    }

    method WriteReady()
      requires Waiting(ReadyWrite)
      modifies this
      ensures Done(old(returned))
    {
      var alive, e := Await();
      if alive {
        var _ := StatusUpdate(e, np.status.(phase := Ready, progress := 100, completed := true), Idle, Idle);
      }
    }

    // ── Retry and deletion ─────────────────────────────────────────────────

    method RetryFailed()
      requires Waiting(RetryVpn)
      modifies this
      ensures Done(old(returned))
    {
      var alive, e := Await();
      if !alive {
        return;
      }
      Call(e, RetryGet);
      ResetPhase();
    }

    method ResetPhase()
      requires Waiting(RetryGet)
      modifies this
      ensures Done(old(returned))
    {
      var alive, e := Await();
      if alive {
        var failed := ReadAgain(e);
        if failed {
          WriteReset();
        }
      }
    }

    /** Re-fetch; somebody else may have reset the phase already. */
    method ReadAgain(e: Event) returns (failed: bool)
      requires Waiting(RetryGet) && Answering(e)
      modifies this
      ensures if failed then Waiting(RetryWrite) && returned == old(returned) else Done(old(returned))
    {
      ghost var prev := View();
      ReadAgainStep(prev, e);
      if e.ok {
        rv := Pick(api, e.version);
        np := api.versions[rv];
      }
      failed := e.ok && np.status.phase == Failed;
      Took(prev);
    }

    method WriteReset()
      requires Waiting(RetryWrite)
      modifies this
      ensures Done(old(returned))
    {
      var alive, e := Await();
      if alive {
        var _ := StatusUpdate(e, np.status.(phase := NoPhase, vpnIp := "", ipAddress := ""), Idle, Idle);
      }
    }

    method HandleDelete()
      requires Waiting(DelMark)
      modifies this
      ensures Done(old(returned))
    {
      var alive, e := Await();
      if !alive {
        return;
      }
      var _ := StatusUpdate(e, np.status.(phase := Deleting), DelNode, DelNode);
      RemoveNode();
    }

    method RemoveNode()
      requires Waiting(DelNode)
      modifies this
      ensures Done(old(returned))
    {
      var alive, e := Await();
      if !alive {
        return;
      }
      var nodeDeleted := ConfirmGone(e);
      if nodeDeleted {
        TerminateAndRelease();
      }
    }

    method ConfirmGone(e: Event) returns (nodeDeleted: bool)
      requires Waiting(DelNode) && Answering(e)
      modifies this
      ensures if nodeDeleted then Waiting(DelTerminate) && returned == old(returned) else Done(old(returned))
    {
      ghost var prev := View();
      nodeDeleted := np.status.nodeName == "";
      if !nodeDeleted && e.ok && !e.found {
        nodesGone := nodesGone + {np.status.nodeName};
        nodeDeleted := true;
      }
      Took(prev);
    }

    /** Terminate the recorded instance, then the VPN peer, then the finalizer. */
    method TerminateAndRelease()
      requires Waiting(DelTerminate)
      modifies this
      ensures Done(old(returned))
    {
      var alive, e := Await();
      if !alive {
        return;
      }
      if np.status.instanceId != "" && e.ok {
        NoteTerminated(e);
        ClearInstance();
        return;
      }
      var nothing := np.status.instanceId == "";
      Call(e, if nothing then DelVpn else Idle);
      if nothing {
        ReleasePeer();
      }
    }

    method NoteTerminated(e: Event)
      requires Waiting(DelTerminate) && Answering(e) && e.ok && np.status.instanceId != ""
      modifies this
      ensures Waiting(DelClear) && returned == old(returned)
    {
      ghost var prev := View();
      TerminatedStep(prev, e);
      terminated := terminated + {np.status.instanceId};
      np := np.(status := np.status.(instanceId := ""));
      Took(prev);
    }

    method ClearInstance()
      requires Waiting(DelClear)
      modifies this
      ensures Done(old(returned))
    {
      var alive, e := Await();
      if !alive {
        return;
      }
      var _ := StatusUpdate(e, np.status, DelVpn, DelVpn);
      ReleasePeer();
    }

    method ReleasePeer()
      requires Waiting(DelVpn)
      modifies this
      ensures Done(old(returned))
    {
      var alive, e := Await();
      if !alive {
        return;
      }
      Call(e, DelFinalizer);
      RemoveFinalizer();
    }

    method RemoveFinalizer()
      requires Waiting(DelFinalizer)
      modifies this
      ensures Done(old(returned))
    {
      var alive, e := Await();
      if alive {
        FinalizerUpdate(e, false);
      }
    }
  }

  /** A controller on a new object, for everything that can happen around it: it ends up exactly where
    * the machine does, so the guarantees of the machine's runs are guarantees of the code. */
  method Serve(script: seq<Event>) returns (r: Reconciler)
    ensures fresh(r) && r.View() == Run(INIT, script)
    ensures CurrentReads(INIT, script) && MarkedLaunches(INIT, script) ==> |r.launched| <= 1
    ensures CurrentReads(INIT, script) ==> forall i | 0 <= i < |r.api.versions| :: WellFormed(r.api.versions[i].status)
  {
    r := new Reconciler(script);
    while r.todo != []
      invariant fresh(r) && r.Tracks() && r.final == Run(INIT, script)
      invariant r.todo == [] || r.pc == Idle
      decreases if r.todo == [] then 0 else 1 + r.total - r.returned
    {
      r.Reconcile();
    }
    if CurrentReads(INIT, script) {
      forall i | 0 <= i < |r.api.versions|
        ensures WellFormed(r.api.versions[i].status)
      {
        EveryVersionWellFormed(script, i);
      }
      if MarkedLaunches(INIT, script) {
        AtMostOneLaunch(script);
      }
    }
  }
}

/** When a launched instance is remembered. */
module NodeLifecycleRecords {
  import opened NodeLifecycle
  import opened NodeLifecycleSafety

  /** Some version of the object has recorded the instance. */
  ghost predicate Recorded(s: State, id: string) {
    exists i | 0 <= i < |s.api.versions| :: s.api.versions[i].status.instanceId == id
  }

  /** A reconcile carries no instance ID that was never recorded, and terminates none; no read need be
    * current. */
  ghost predicate Known(s: State) {
    && Wf(s)
    && (s.pc != Idle ==> s.np.status.instanceId == "" || Recorded(s, s.np.status.instanceId))
    && forall id | id in s.terminated :: Recorded(s, id)
  }

  /** The step writes the ID of the instance just launched. */
  predicate WritesId(s: State, e: Event, id: string)
    requires Wf(s)
  {
    e.Answer? && s.pc.FinalWrite? && s.pc.id == id && Applied(s, e)
  }

  /** A step persists nothing new, or a version with no instance or with one recorded before. */
  ghost predicate AddsKnown(s: State, t: State) {
    Wf(t) && Extends(s, t) &&
    (t.api.versions != s.api.versions ==>
       var id := t.api.versions[|s.api.versions|].status.instanceId;
       id == "" || Recorded(s, id))
  }

  /** And the reconcile still carries and has terminated only recorded instances. */
  ghost predicate StaysKnown(s: State, t: State) {
    && AddsKnown(s, t)
    && (t.pc != Idle ==> t.np.status.instanceId == "" || Recorded(s, t.np.status.instanceId))
    && forall id | id in t.terminated :: Recorded(s, id)
  }

  lemma CurrentRecorded(s: State)
    requires Wf(s)
    ensures Recorded(s, Cur(s).status.instanceId)
  {
    assert s.api.versions[Last(s.api)] == Cur(s);
  }

  lemma PrepareKnown(s: State, e: Event)
    requires Known(s) && e.Answer? && Preparing(s.pc)
    ensures StaysKnown(s, NextPrepare(s, e))
  {
    CurrentRecorded(s);
  }

  lemma LaunchKnown(s: State, e: Event)
    requires Known(s) && e.Answer? && Launching(s.pc) && !s.pc.FinalWrite?
    ensures StaysKnown(s, NextLaunch(s, e))
  {
    CurrentRecorded(s);
  }

  lemma JoinKnown(s: State, e: Event)
    requires Known(s) && e.Answer? && InJoin(s.pc)
    ensures StaysKnown(s, NextJoin(s, e))
  {
    CurrentRecorded(s);
  }

  lemma RetryKnown(s: State, e: Event)
    requires Known(s) && e.Answer? && InRetry(s.pc)
    ensures StaysKnown(s, NextRetry(s, e))
  {
    CurrentRecorded(s);
  }

  lemma DeleteKnown(s: State, e: Event)
    requires Known(s) && e.Answer? && InDelete(s.pc)
    ensures StaysKnown(s, NextDelete(s, e))
  {
    CurrentRecorded(s);
  }

  lemma StepKnown(s: State, e: Event)
    requires Known(s) && !(e.Answer? && s.pc.FinalWrite?)
    ensures StaysKnown(s, Next(s, e))
  {
    CurrentRecorded(s);
    if e.Answer? && s.pc != Idle && s.pc != AddFinalizer {
      if Preparing(s.pc) {
        PrepareKnown(s, e);
      } else if Launching(s.pc) {
        LaunchKnown(s, e);
      } else if InJoin(s.pc) {
        JoinKnown(s, e);
      } else if InRetry(s.pc) {
        RetryKnown(s, e);
      } else {
        DeleteKnown(s, e);
      }
    }
  }

  /** The write of the instance ID adds a version with it when it is applied, and nothing otherwise. */
  lemma FinalWriteAdds(s: State, e: Event)
    requires Known(s) && e.Answer? && s.pc.FinalWrite?
    ensures
      var t := Next(s, e);
      && t.pc == Idle && t.terminated == s.terminated
      && (!Applied(s, e) ==> t.api.versions == s.api.versions)
      && (Applied(s, e) ==>
            && |t.api.versions| == |s.api.versions| + 1
            && t.api.versions[..|s.api.versions|] == s.api.versions
            && t.api.versions[|s.api.versions|].status.instanceId == s.pc.id)
  {
  }

  lemma RecordedLonger(s: State, t: State, id: string)
    requires s.api.versions <= t.api.versions && Recorded(s, id)
    ensures Recorded(t, id)
  {
    var i :| 0 <= i < |s.api.versions| && s.api.versions[i].status.instanceId == id;
    assert t.api.versions[i].status.instanceId == id;
  }

  lemma RecordedBefore(s: State, t: State, id: string)
    requires Recorded(t, id) && s.api.versions <= t.api.versions && |t.api.versions| <= |s.api.versions| + 1
    ensures Recorded(s, id) ||
      (|t.api.versions| > |s.api.versions| && t.api.versions[|s.api.versions|].status.instanceId == id)
  {
    var i :| 0 <= i < |t.api.versions| && t.api.versions[i].status.instanceId == id;
    assert i < |s.api.versions| ==> s.api.versions[i] == t.api.versions[i];
  }

  /** One step makes an instance remembered exactly when it is the applied write of its ID. */
  lemma RecordsIff(s: State, e: Event, id: string)
    requires Known(s) && id != ""
    ensures Recorded(Next(s, e), id) <==> Recorded(s, id) || WritesId(s, e, id)
    ensures Known(Next(s, e))
  {
    var t := Next(s, e);
    if e.Answer? && s.pc.FinalWrite? {
      FinalWriteAdds(s, e);
      if Applied(s, e) {
        assert t.api.versions[|s.api.versions|].status.instanceId == s.pc.id;
      }
    } else {
      StepKnown(s, e);
    }
    assert s.api.versions <= t.api.versions;
    if Recorded(t, id) {
      RecordedBefore(s, t, id);
    }
    forall other | Recorded(s, other)
      ensures Recorded(t, other)
    {
      RecordedLonger(s, t, other);
    }
  }

  /** Some step of the run is the applied write of the ID. */
  ghost predicate RunWritesId(s: State, es: seq<Event>, id: string)
    requires Wf(s)
    decreases |es|
  {
    es != [] && (WritesId(s, es[0], id) || RunWritesId(Next(s, es[0]), es[1..], id))
  }

  /** Over any run, current reads or not: an instance is remembered at the end exactly when it was at the
    * start or a reconcile's re-fetch after the launch was answered and its write of the ID was applied. */
  lemma {:induction false} RememberedIff(s: State, es: seq<Event>, id: string)
    requires Known(s) && id != ""
    ensures Known(Run(s, es))
    ensures Recorded(Run(s, es), id) <==> Recorded(s, id) || RunWritesId(s, es, id)
    decreases |es|
  {
    if es != [] {
      RecordsIff(s, es[0], id);
      RememberedIff(Next(s, es[0]), es[1..], id);
    }
  }

  lemma InitKnown()
    ensures Known(INIT) && forall id | id != "" :: !Recorded(INIT, id)
  {
  }

  /** So what a deletion leaves behind is exactly what was never written down: with current reads, when
    * the finalizer comes off, an instance has been terminated exactly when some reconcile's write of its
    * ID was applied. */
  lemma OrphanIff(es: seq<Event>, e: Event, id: string)
    requires CurrentReads(INIT, es) && id != ""
    requires Cur(Run(INIT, es)).finalizer && !Cur(Next(Run(INIT, es), e)).finalizer
    ensures id in Run(INIT, es).terminated <==> RunWritesId(INIT, es, id)
  {
    InitKnown();
    RememberedIff(INIT, es, id);
    var s := Run(INIT, es);
    if i :| 0 <= i < |s.api.versions| && s.api.versions[i].status.instanceId == id {
      RecordedInstancesTerminated(es, e, i);
    }
  }
}

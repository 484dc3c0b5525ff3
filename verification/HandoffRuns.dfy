/**
  What the steps of a handoff tell (cli/runtime_control.go, cli/main.go): when the helper has failed, the child is dead,
  the parent drains and stops, and which of the files are there.
 */
module HandoffRuns {
  import opened Handoff

  predicate Happens(steps: seq<Step>, p: Step -> bool) { exists k :: 0 <= k < |steps| && p(steps[k]) }

  lemma HappensFirst(steps: seq<Step>, p: Step -> bool)
    requires steps != []
    ensures Happens(steps, p) <==> p(steps[0]) || Happens(steps[1..], p)
  {
    assert forall k :: 0 <= k < |steps| - 1 ==> steps[1..][k] == steps[k + 1];
    assert forall k :: 0 < k < |steps| ==> steps[k] == steps[1..][k - 1];
  }

  /** The helper gives up. */
  predicate GivesUp(s: Step) {
    match s
    case ReplaceBinary(ok) => !ok
    case Spawn(ok, _) => !ok
    case MarkDraining(ok, _) => !ok
    case Signal(ok) => !ok
    case ReadyTimeout => true
    case ProbeTimeout => true
    case _ => false
  }

  /** The child ends. */
  predicate Ends(s: Step) {
    match s
    case Register(write) => !write.Written?
    case Listen(ok, _) => !ok
    case ChildExits(_) => true
    case ChildDies => true
    case _ => false
  }

  predicate TellsParentToDrain(s: Step) { s.ParentSeesDrainFile? || s.ReceiveTerm? }

  predicate StopsParent(s: Step) { s.ReceiveTerm? }

  predicate DrainsChild(s: Step) { s.ChildSeesDrainFile? }

  /** The child's entry is taken out of the pid file. */
  predicate ChildReleases(s: Step) { s == Listen(false, true) || s == ChildExits(true) }

  function ReadyAfter(ready: bool, s: Step): bool {
    match s
    case Announce(left) => ready || left
    case ClearReady(removed) => ready && !removed
    case CleanUp(removed) => ready && !removed
    case Spawn(ok, removed) => ready && (ok || !removed)
    case _ => ready
  }

  /** Whether the drain file of `pid` is there. */
  function DrainAfter(drain: bool, s: Step, pid: Pid, parentPid: Pid, childPid: Pid): bool {
    match s
    case MarkDraining(_, left) => drain || (left && pid == parentPid)
    case ParentSeesDrainFile(removed) => drain && !(removed && pid == parentPid)
    case ReceiveTerm(removed) => drain && !(removed && pid == parentPid)
    case StartWatcher(removed) => drain && !(removed && pid == childPid)
    case ChildSeesDrainFile(removed) => drain && !(removed && pid == childPid)
    case _ => drain
  }

  /** What a step does to the helper and the parent. */
  predicate ParentTells(w: World, s: Step, w': World) {
    && (w'.helper.Failed? <==> w.helper.Failed? || GivesUp(s))
    && (w'.parentDraining <==> w.parentDraining || TellsParentToDrain(s))
    && (!w'.parent.Up? <==> !w.parent.Up? || StopsParent(s))
    && (w'.sigterm <==> (w.sigterm || s == Signal(true)) && !s.ReceiveTerm?)
  }

  /** What a step does to the child and its entry in the pid file. */
  predicate ChildTells(w: World, s: Step, w': World) {
    && (w'.child.Dead? <==> w.child.Dead? || Ends(s))
    && (w'.childDraining <==> w.childDraining || DrainsChild(s))
    && (w'.pidFile == Entry(w.childPid) ==> !ChildReleases(s) && (w.pidFile == Entry(w.childPid) || s.Register?))
    && (w.child.Dead? ==> !s.Register?)
  }

  /** What a step does to the ready file and a drain file. */
  predicate FilesTell(w: World, s: Step, w': World, pid: Pid) {
    && w'.parentPid == w.parentPid && w'.childPid == w.childPid
    && w'.ready == ReadyAfter(w.ready, s)
    && (pid in w'.drains) == DrainAfter(pid in w.drains, s, pid, w.parentPid, w.childPid)
  }

  lemma ParentStepTellsParent(w: World, s: Step)
    requires Enabled(w, s) && ParentStep(s)
    ensures ParentTells(w, s, Next(w, s))
  {
    hide Acquire, Release, Released, Without;
  }

  lemma RegisterTellsParent(w: World, s: Step)
    requires Enabled(w, s) && s.Register?
    ensures ParentTells(w, s, Next(w, s))
  {
  }

  lemma ChildStepTellsParent(w: World, s: Step)
    requires Enabled(w, s) && ChildStep(s)
    ensures ParentTells(w, s, Next(w, s))
  {
    hide Acquire, Release, Released, Without;
    if s.Register? {
      hide Next, Enabled;
      RegisterTellsParent(w, s);
    } else {
      var w' := Next(w, s);
      assert w'.helper == w.helper && w'.parent == w.parent && w'.parentDraining == w.parentDraining && w'.sigterm == w.sigterm;
      hide Next, Enabled;
    }
  }

  lemma HelperStepTellsParent(w: World, s: Step)
    requires Enabled(w, s) && !ParentStep(s) && !ChildStep(s)
    ensures ParentTells(w, s, Next(w, s))
  {
    hide ParentAnswers, HealthResponseMatches, Without, Acquire, Release, Released;
    assert Next(w, s).parent == w.parent && Next(w, s).parentDraining == w.parentDraining;
    assert Next(w, s).helper.Failed? <==> w.helper.Failed? || GivesUp(s);
    assert Next(w, s).sigterm == (w.sigterm || s == Signal(true));
    hide Next, Enabled;
  }

  lemma ParentStepTellsChild(w: World, s: Step)
    requires Enabled(w, s) && ParentStep(s)
    ensures ChildTells(w, s, Next(w, s))
  {
    hide Acquire, Released, Without;
  }

  lemma RegisterTellsChild(w: World, s: Step)
    requires Enabled(w, s) && s.Register?
    ensures ChildTells(w, s, Next(w, s))
  {
  }

  lemma ChildStepTellsChild(w: World, s: Step)
    requires Enabled(w, s) && ChildStep(s) && w.parentPid != w.childPid
    ensures ChildTells(w, s, Next(w, s))
  {
    if s.Register? {
      hide Next, Enabled;
      RegisterTellsChild(w, s);
    } else {
      hide Acquire, Without;
    }
  }

  lemma HelperStepTellsChild(w: World, s: Step)
    requires Enabled(w, s) && !ParentStep(s) && !ChildStep(s) && (w.helper.Spawning? ==> w.child.Unborn?)
    ensures ChildTells(w, s, Next(w, s))
  {
    hide ParentAnswers, Acquire, Release, Released, Without, HealthResponseMatches;
  }

  lemma ParentFilesTell(w: World, s: Step, pid: Pid)
    requires Enabled(w, s) && ParentStep(s)
    ensures FilesTell(w, s, Next(w, s), pid)
  {
    hide Acquire, Release;
  }

  lemma RegisterTellsFiles(w: World, s: Step, pid: Pid)
    requires Enabled(w, s) && s.Register?
    ensures FilesTell(w, s, Next(w, s), pid)
  {
  }

  lemma ChildFilesTell(w: World, s: Step, pid: Pid)
    requires Enabled(w, s) && ChildStep(s)
    ensures FilesTell(w, s, Next(w, s), pid)
  {
    if s.Register? {
      hide Next, Enabled;
      RegisterTellsFiles(w, s, pid);
    } else {
      hide Acquire, Release, Released;
    }
  }

  lemma HelperFilesTell(w: World, s: Step, pid: Pid)
    requires Enabled(w, s) && !ParentStep(s) && !ChildStep(s)
    ensures FilesTell(w, s, Next(w, s), pid)
  {
    hide ParentAnswers, Acquire, Release, Released, Without, HealthResponseMatches;
  }

  lemma StepTellsProcesses(w: World, s: Step)
    requires Inv(w) && Enabled(w, s)
    ensures ParentTells(w, s, Next(w, s)) && ChildTells(w, s, Next(w, s))
  {
    assert w.parentPid != w.childPid && (w.helper.Spawning? ==> w.child.Unborn?);
    hide Enabled, Next, ParentTells, ChildTells, Inv;
    if ParentStep(s) {
      ParentStepTellsParent(w, s);
      ParentStepTellsChild(w, s);
    } else if ChildStep(s) {
      ChildStepTellsParent(w, s);
      ChildStepTellsChild(w, s);
    } else {
      HelperStepTellsParent(w, s);
      HelperStepTellsChild(w, s);
    }
  }

  lemma StepTellsFiles(w: World, s: Step, pid: Pid)
    requires Enabled(w, s)
    ensures FilesTell(w, s, Next(w, s), pid)
  {
    hide Enabled, Next, FilesTell;
    if ParentStep(s) {
      ParentFilesTell(w, s, pid);
    } else if ChildStep(s) {
      ChildFilesTell(w, s, pid);
    } else {
      HelperFilesTell(w, s, pid);
    }
  }

  // ----- runs -----

  function ReadyAtEnd(ready: bool, steps: seq<Step>): bool
    decreases |steps|
  {
    if steps == [] then ready else ReadyAtEnd(ReadyAfter(ready, steps[0]), steps[1..])
  }

  function DrainAtEnd(drain: bool, steps: seq<Step>, pid: Pid, parentPid: Pid, childPid: Pid): bool
    decreases |steps|
  {
    if steps == [] then drain
    else DrainAtEnd(DrainAfter(drain, steps[0], pid, parentPid, childPid), steps[1..], pid, parentPid, childPid)
  }

  /** The ready file and every drain file are there exactly as the steps leave them. */
  lemma {:induction false} FilesAreTold(w: World, steps: seq<Step>, pid: Pid)
    requires IsRun(w, steps)
    ensures var w' := After(w, steps);
            && w'.parentPid == w.parentPid && w'.childPid == w.childPid
            && w'.ready == ReadyAtEnd(w.ready, steps)
            && (pid in w'.drains) == DrainAtEnd(pid in w.drains, steps, pid, w.parentPid, w.childPid)
    decreases |steps|
  {
    hide Enabled, Next, ReadyAfter, DrainAfter;
    if steps != [] {
      StepTellsFiles(w, steps[0], pid);
      FilesAreTold(Next(w, steps[0]), steps[1..], pid);
    }
  }

  lemma {:induction false} RunTellsProcesses(w: World, steps: seq<Step>)
    requires Inv(w) && IsRun(w, steps)
    ensures var w' := After(w, steps);
            && (w'.helper.Failed? <==> w.helper.Failed? || Happens(steps, GivesUp))
            && (w'.child.Dead? <==> w.child.Dead? || Happens(steps, Ends))
            && (w'.parentDraining <==> w.parentDraining || Happens(steps, TellsParentToDrain))
            && (w'.childDraining <==> w.childDraining || Happens(steps, DrainsChild))
            && (!w'.parent.Up? <==> !w.parent.Up? || Happens(steps, StopsParent))
    decreases |steps|
  {
    hide Enabled, Next, Inv, Happens, GivesUp, Ends, TellsParentToDrain, DrainsChild, StopsParent, ChildReleases;
    if steps == [] {
      NothingHappens();
    } else {
      StepKeepsInv(w, steps[0]);
      StepTellsProcesses(w, steps[0]);
      RunTellsProcesses(Next(w, steps[0]), steps[1..]);
      HappensFirst(steps, GivesUp);
      HappensFirst(steps, Ends);
      HappensFirst(steps, TellsParentToDrain);
      HappensFirst(steps, DrainsChild);
      HappensFirst(steps, StopsParent);
    }
  }

  lemma NothingHappens()
    ensures forall p :: !Happens([], p)
  {
  }

  /** A child that has released its entry does not get it back. */
  lemma {:induction false} ReleaseIsFinal(w: World, steps: seq<Step>)
    requires Inv(w) && IsRun(w, steps)
    ensures var w' := After(w, steps);
            w'.childPid == w.childPid &&
            (w'.pidFile == Entry(w.childPid) ==> !Happens(steps, ChildReleases) && (w.child.Dead? ==> w.pidFile == Entry(w.childPid)))
    decreases |steps|
  {
    hide Enabled, Next, Inv, Happens, ChildReleases, ParentTells, FilesTell;
    if steps == [] {
      NothingHappens();
    } else {
      StepKeepsInv(w, steps[0]);
      StepTellsProcesses(w, steps[0]);
      PidsStay(w, steps[0]);
      ReleasesEnd(steps[0]);
      ReleaseIsFinal(Next(w, steps[0]), steps[1..]);
      HappensFirst(steps, ChildReleases);
    }
  }

  lemma ReleasesEnd(s: Step)
    ensures ChildReleases(s) ==> Ends(s)
  {
  }

  lemma PidsStay(w: World, s: Step)
    requires Enabled(w, s)
    ensures Next(w, s).parentPid == w.parentPid && Next(w, s).childPid == w.childPid
  {
    hide Next, Enabled;
    StepTellsFiles(w, s, 0);
  }

  // ----- the order of telling the parent -----

  predicate Marked(h: HelperPoint) { h.Pausing? || h.Signalling? || h.Cleaning? || h.Done? }

  /** What the helper's progress says about the parent. */
  predicate InOrder(w: World) {
    && (w.sigterm || !w.parent.Up? ==> w.helper.Cleaning? || w.helper.Done?)
    && (!w.parent.Up? ==> !w.sigterm)
  }

  /** One step: the drain file is marked before the pause and the signal, and the signal is sent once. */
  predicate OrderTells(w: World, s: Step, w': World) {
    && InOrder(w')
    && (Marked(w'.helper) ==> Marked(w.helper) || s == MarkDraining(true, true))
    && (s == Signal(true) ==> Marked(w.helper) && !w.sigterm && w.parent.Up?)
    && (StopsParent(s) ==> w.sigterm)
    && (w'.sigterm <==> (w.sigterm || s == Signal(true)) && !StopsParent(s))
    && (!w.parent.Up? ==> !w'.parent.Up?)
    && (StopsParent(s) ==> !w'.parent.Up?)
  }

  lemma ParentOrderTells(w: World, s: Step)
    requires Enabled(w, s) && InOrder(w) && ParentStep(s)
    ensures OrderTells(w, s, Next(w, s))
  {
  }

  lemma ChildOrderTells(w: World, s: Step)
    requires Enabled(w, s) && InOrder(w) && ChildStep(s)
    ensures OrderTells(w, s, Next(w, s))
  {
    if s.Register? {
      hide Next, Enabled, OrderTells, InOrder;
      RegisterOrderTells(w, s);
    } else {
      var w' := Next(w, s);
      assert w'.helper == w.helper && w'.parent == w.parent && w'.sigterm == w.sigterm;
      hide Next, Enabled;
    }
  }

  lemma RegisterOrderTells(w: World, s: Step)
    requires Enabled(w, s) && InOrder(w) && s.Register?
    ensures OrderTells(w, s, Next(w, s))
  {
  }

  lemma HelperOrderTells(w: World, s: Step)
    requires Enabled(w, s) && InOrder(w) && !ParentStep(s) && !ChildStep(s)
    ensures OrderTells(w, s, Next(w, s))
  {
    hide ParentAnswers, Acquire, Release, Released, Without, HealthResponseMatches;
  }

  lemma StepTellsOrder(w: World, s: Step)
    requires Enabled(w, s) && InOrder(w)
    ensures OrderTells(w, s, Next(w, s))
  {
    hide Enabled, Next, OrderTells, InOrder;
    if ParentStep(s) {
      ParentOrderTells(w, s);
    } else if ChildStep(s) {
      ChildOrderTells(w, s);
    } else {
      HelperOrderTells(w, s);
    }
  }

  lemma {:induction false} RunTellsOrder(w: World, steps: seq<Step>)
    requires InOrder(w) && IsRun(w, steps)
    ensures var w' := After(w, steps);
            && (Signal(true) in steps ==> Marked(w.helper) || MarkDraining(true, true) in steps)
            && (Marked(w'.helper) ==> Marked(w.helper) || MarkDraining(true, true) in steps)
            && (Happens(steps, StopsParent) ==> w.sigterm || Signal(true) in steps)
            && (!w.parent.Up? ==> Signal(true) !in steps)
            && (w'.sigterm <==> (w.sigterm || Signal(true) in steps) && !Happens(steps, StopsParent))
    decreases |steps|
  {
    hide Enabled, Next, Happens, InOrder, Marked, StopsParent;
    if steps == [] {
      NothingHappens();
    } else {
      StepTellsOrder(w, steps[0]);
      RunTellsOrder(Next(w, steps[0]), steps[1..]);
      HappensFirst(steps, StopsParent);
      assert forall s :: s in steps <==> s == steps[0] || s in steps[1..];
    }
  }

  /**
    In every run: the helper has failed exactly if one of its steps did, the child is dead exactly if it ended, and who
    drains or has been stopped is told by the steps.  The parent is stopped only by the signal, which comes after the drain
    file was written, and that after the probe.  The pid file never names a child that has released its entry.
   */
  lemma HandoffIsTold(w0: World, steps: seq<Step>)
    requires Init(w0) && IsRun(w0, steps)
    ensures var w := After(w0, steps);
            && (w.helper.Failed? <==> Happens(steps, GivesUp))
            && (w.child.Dead? <==> Happens(steps, Ends))
            && (w.parentDraining <==> Happens(steps, TellsParentToDrain))
            && (w.childDraining <==> Happens(steps, DrainsChild))
            && (w.parent.Up? <==> !Happens(steps, StopsParent))
            && (w.sigterm <==> Signal(true) in steps && !Happens(steps, StopsParent))
            && (Happens(steps, StopsParent) ==> Signal(true) in steps)
            && (Signal(true) in steps ==> MarkDraining(true, true) in steps)
            && (w.pidFile == Entry(w0.childPid) ==> !Happens(steps, ChildReleases))
  {
    assert InOrder(w0) && Inv(w0);
    hide IsRun, After, Happens, Inv, InOrder;
    RunTellsProcesses(w0, steps);
    RunTellsOrder(w0, steps);
    ReleaseIsFinal(w0, steps);
  }

  /** When parent and child can go on: a drain file is seen, the signal received, and a child that has not ended can die. */
  lemma ProcessesCanAct(w0: World, steps: seq<Step>, removed: bool)
    requires Init(w0) && IsRun(w0, steps)
    ensures var w := After(w0, steps);
            && (Enabled(w, ParentSeesDrainFile(removed)) <==>
                  !Happens(steps, StopsParent) && DrainAtEnd(false, steps, w0.parentPid, w0.parentPid, w0.childPid))
            && (Enabled(w, ReceiveTerm(removed)) <==> Signal(true) in steps && !Happens(steps, StopsParent))
            && (Enabled(w, ChildDies) <==> !w.child.Unborn? && !Happens(steps, Ends))
  {
    var w := After(w0, steps);
    HandoffIsTold(w0, steps);
    FilesAreTold(w0, steps, w0.parentPid);
    hide IsRun, After, Happens, DrainAtEnd;
    ActingIn(w, removed);
    hide Enabled;
  }

  lemma ActingIn(w: World, removed: bool)
    ensures Enabled(w, ParentSeesDrainFile(removed)) <==> w.parent.Up? && w.parentPid in w.drains
    ensures Enabled(w, ReceiveTerm(removed)) <==> w.parent.Up? && w.sigterm
    ensures Enabled(w, ChildDies) <==> !w.child.Unborn? && !w.child.Dead?
  {
  }

  /** The helper sees the ready file whenever it is there, and a probe can get every answer, or none, or time out. */
  lemma HelperCanWait(w0: World, steps: seq<Step>)
    requires Init(w0) && IsRun(w0, steps)
    ensures var w := After(w0, steps);
            && (Enabled(w, SeeReady) <==> w.helper.AwaitingReady? && ReadyAtEnd(w0.ready, steps))
            && (w.helper.AwaitingReady? ==> Enabled(w, ReadyTimeout))
            && (w.helper.Probing? ==> Enabled(w, ProbeTimeout) && Enabled(w, Probe(NoAnswer)))
            && (w.helper.Probing? && (w.parent.Up? || w.parent.Stopping?) ==> Enabled(w, Probe(Answer(200, w0.parentPid))))
            && (w.helper.Probing? && w.child.Serving? ==> Enabled(w, Probe(Answer(200, w0.childPid))))
  {
    FilesAreTold(w0, steps, w0.parentPid);
    hide IsRun, After, ReadyAtEnd, DrainAtEnd, Next;
  }

  /** In whatever state: a parent that finds its own pid in the file on its way out removes the file. */
  lemma ParentReleasesItsOwn(w: World)
    requires w.parent.Closed?
    ensures Enabled(w, ReadPidFile) && Enabled(Next(w, ReadPidFile), FinishRelease(true))
    ensures Next(Next(w, ReadPidFile), FinishRelease(true)).pidFile ==
            if w.pidFile == Entry(w.parentPid) || w.pidFile == Junk then Missing else w.pidFile
    ensures Next(Next(w, ReadPidFile), FinishRelease(false)).pidFile == w.pidFile
  {
  }
}

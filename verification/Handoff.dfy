/**
  Restart handoff (cli/runtime_control.go, cli/main.go): the parent runtime, the restart helper and the
  child runtime, which inherits the parent's listening socket.  They talk through a ready file, a drain
  file per process, the pid file and one signal.  The steps of the three processes interleave freely.
 */
module Handoff {

  type Pid = int

  // ----- the pid file -----

  datatype PidFile = Missing | Junk | Entry(pid: Pid)

  /** How writing the pid file ends; a failed write may leave the file as it was, emptied or cut short. */
  datatype Write = Written | Broken(left: PidFile)

  /** What acquireRuntimePID makes of the file; only the last is not an error. */
  datatype Acquired = AlreadyRunning | WriteFailed(file: PidFile) | Wrote(file: PidFile)

  function Acquire(file: PidFile, self: Pid, allowHandoff: bool, running: set<Pid>, write: Write): Acquired {
    if file.Entry? && file.pid > 0 && file.pid in running && !allowHandoff then AlreadyRunning
    else match write
      case Written => Wrote(Entry(self))
      case Broken(left) => WriteFailed(left)
  }

  function Release(file: PidFile, self: Pid): PidFile {
    match file
    case Missing => Missing
    case Junk => Missing
    case Entry(pid) => if pid == self then Missing else file
  }

  /** releaseRuntimePID with a removal that may fail. */
  function Released(file: PidFile, self: Pid, removed: bool): PidFile { if removed then Release(file, self) else file }

  /** The run directory's pid file, updated in place by the runtime that starts and the one that exits. */
  class RunDir {
    var pidFile: PidFile

    constructor (file: PidFile)
      ensures pidFile == file
    {
      pidFile := file;
    }

    method AcquireRuntimePID(self: Pid, allowHandoff: bool, running: set<Pid>, write: Write) returns (r: Acquired)
      modifies this
      ensures r == Acquire(old(pidFile), self, allowHandoff, running, write)
      ensures pidFile == if r.AlreadyRunning? then old(pidFile) else r.file
      ensures r.Wrote? ==> pidFile == Entry(self)
      ensures allowHandoff && write.Written? ==> r.Wrote?
      ensures r.AlreadyRunning? <==> !allowHandoff && exists p :: p in running && p > 0 && old(pidFile) == Entry(p)
    {
      if pidFile.Entry? {
        var oldPID := pidFile.pid;
        if oldPID > 0 && oldPID in running && !allowHandoff {
          return AlreadyRunning;
        }
      }
      match write {
        case Written =>
          pidFile := Entry(self);
          return Wrote(pidFile);
        case Broken(left) =>
          pidFile := left;
          return WriteFailed(pidFile);
      }
    }

    method ReleaseRuntimePID(self: Pid, removed: bool)
      modifies this
      ensures pidFile == Released(old(pidFile), self, removed)
      ensures pidFile == if removed && (old(pidFile) == Entry(self) || old(pidFile) == Junk) then Missing else old(pidFile)
    {
      match pidFile {
        case Missing =>
        case Junk =>
          if removed {
            pidFile := Missing;
          }
        case Entry(pid) =>
          if pid == self && removed {
            pidFile := Missing;
          }
      }
    }
  }

  /**
    Once written, an entry keeps every other runtime out exactly as long as its process runs, whoever else exits; when
    that process releases the file, the next one gets in.  Only a runtime that is handed over to gets in before.
   */
  lemma EntryKeepsOthersOut(file: PidFile, a: Pid, b: Pid, allowHandoff: bool, running: set<Pid>, others: set<Pid>, write: Write)
    requires Acquire(file, a, allowHandoff, running, Written).Wrote? && 0 < a && a != b
    ensures var f := Acquire(file, a, allowHandoff, running, Written).file;
            && (Acquire(f, b, false, others, write).AlreadyRunning? <==> a in others)
            && Release(f, b) == f
            && Acquire(Release(f, a), b, false, others, Written) == Wrote(Entry(b))
            && Acquire(f, b, true, others, Written) == Wrote(Entry(b))
  {
  }

  // ----- the health probe -----

  /** A response of the health endpoint; the header is the integer it parses to, 0 if it does not parse. */
  datatype Response = NoAnswer | Answer(status: int, pidHeader: Pid)

  predicate HealthResponseMatches(status: int, pidHeader: Pid, expected: Pid) {
    status == 200 && (expected <= 0 || pidHeader == expected)
  }

  // ----- the protocol -----

  datatype ParentPoint =
    | Up                       // serving
    | Stopping                 // SIGTERM received: draining, finishing requests
    | Closed                   // the listener is closed
    | SawPid(seen: PidFile)    // releaseRuntimePID has read the pid file
    | Gone

  datatype HelperPoint =
    | Replacing | Clearing | Spawning | AwaitingReady | Probing
    | Marking | Pausing | Signalling | Cleaning | Done | Failed

  datatype ChildPoint =
    | Unborn
    | Born                     // started, nothing done
    | Registered               // pid file written
    | Watching                 // own stale drain file removed, watcher started
    | Listening                // inherited listener set up
    | Announced                // markHandoffReady done (or failed, which is only logged)
    | Serving
    | Dead

  datatype World = World(
    parentPid: Pid,
    childPid: Pid,             // the pid the operating system gives the child
    parent: ParentPoint,
    parentDraining: bool,
    helper: HelperPoint,
    child: ChildPoint,
    childDraining: bool,
    ready: bool,               // the ready file exists
    drains: set<Pid>,          // pids with a drain file
    pidFile: PidFile,
    sigterm: bool,             // SIGTERM sent to the parent and not yet received
    // history
    probed: bool,              // a 200 with the child's pid has been seen
    spoiled: bool              // a stale drain file of the child's pid could not be removed
  )

  /** A running parent; files of earlier restarts may be lying around. */
  predicate Init(w: World) {
    && 0 < w.parentPid && 0 < w.childPid && w.parentPid != w.childPid
    && w.parent.Up? && !w.parentDraining && w.helper.Replacing? && w.child.Unborn? && !w.childDraining
    && w.parentPid !in w.drains && w.pidFile == Entry(w.parentPid) && !w.sigterm && !w.probed && !w.spoiled
  }

  /**
    `removed`: the removal of the step's file succeeds; its error is ignored everywhere.  `left`: a file of which only
    the existence counts is there after the write, which may also be so when the write fails.
   */
  datatype Step =
    // helper
    | ReplaceBinary(ok: bool)
    | ClearReady(removed: bool)
    | Spawn(ok: bool, removed: bool)
    | SeeReady
    | ReadyTimeout
    | Probe(r: Response)
    | ProbeTimeout
    | MarkDraining(ok: bool, left: bool)
    | Pause
    | Signal(ok: bool)
    | CleanUp(removed: bool)
    // child
    | Register(write: Write)
    | StartWatcher(removed: bool)
    | Listen(ok: bool, removed: bool)
    | Announce(left: bool)
    | Serve
    | ChildSeesDrainFile(removed: bool)
    | ChildExits(removed: bool)    // an error return before serving: deferred releaseRuntimePID runs
    | ChildDies                    // killed, or stops serving
    // parent
    | ParentSeesDrainFile(removed: bool)
    | ReceiveTerm(removed: bool)
    | CloseListener
    | ReadPidFile
    | FinishRelease(removed: bool)

  predicate ParentAnswers(w: World) { w.parent.Up? || w.parent.Stopping? }

  predicate Enabled(w: World, s: Step) {
    match s
    case ReplaceBinary(_) => w.helper.Replacing?
    case ClearReady(_) => w.helper.Clearing?
    case Spawn(_, _) => w.helper.Spawning?
    case SeeReady => w.helper.AwaitingReady? && w.ready
    case ReadyTimeout => w.helper.AwaitingReady?
    case Probe(r) => w.helper.Probing? &&
                     // whoever accepts on the shared socket answers with its own pid
                     (r.Answer? ==> (r.pidHeader == w.parentPid && ParentAnswers(w)) ||
                                    (r.pidHeader == w.childPid && w.child.Serving?))
    case ProbeTimeout => w.helper.Probing?
    case MarkDraining(ok, left) => w.helper.Marking? && (ok ==> left)
    case Pause => w.helper.Pausing?
    case Signal(_) => w.helper.Signalling?
    case CleanUp(_) => w.helper.Cleaning?
    case Register(_) => w.child.Born?
    case StartWatcher(_) => w.child.Registered?
    case Listen(_, _) => w.child.Watching?
    case Announce(_) => w.child.Listening?
    case Serve => w.child.Announced?
    case ChildSeesDrainFile(_) => !w.child.Unborn? && !w.child.Born? && !w.child.Registered? && !w.child.Dead? &&
                               w.childPid in w.drains
    case ChildExits(_) => w.child.Born? || w.child.Registered? || w.child.Watching?
    case ChildDies => !w.child.Unborn? && !w.child.Dead?
    case ParentSeesDrainFile(_) => w.parent.Up? && w.parentPid in w.drains
    case ReceiveTerm(_) => w.parent.Up? && w.sigterm
    case CloseListener => w.parent.Stopping?
    case ReadPidFile => w.parent.Closed?
    case FinishRelease(_) => w.parent.SawPid?
  }

  function Next(w: World, s: Step): World
    requires Enabled(w, s)
  {
    match s
    case ReplaceBinary(ok) => w.(helper := if ok then Clearing else Failed)
    case ClearReady(removed) => w.(helper := Spawning, ready := w.ready && !removed)
    case Spawn(ok, removed) =>
      if ok then w.(helper := AwaitingReady, child := Born) else w.(helper := Failed, ready := w.ready && !removed)
    case SeeReady => w.(helper := Probing)
    case ReadyTimeout => w.(helper := Failed)
    case Probe(r) =>
      if r.Answer? && HealthResponseMatches(r.status, r.pidHeader, w.childPid)
      then w.(helper := Marking, probed := true) else w
    case ProbeTimeout => w.(helper := Failed)
    case MarkDraining(ok, left) =>
      w.(helper := if ok then Pausing else Failed, drains := if left then w.drains + {w.parentPid} else w.drains)
    case Pause => w.(helper := Signalling)
    case Signal(ok) => if ok then w.(helper := Cleaning, sigterm := true) else w.(helper := Failed)
    case CleanUp(removed) => w.(helper := Done, ready := w.ready && !removed)
    case Register(write) =>
      match Acquire(w.pidFile, w.childPid, true, {w.parentPid}, write) {
        case Wrote(file) => w.(child := Registered, pidFile := file)
        case WriteFailed(file) => w.(child := Dead, pidFile := file)
        case AlreadyRunning => w.(child := Dead)
      }
    case StartWatcher(removed) =>
      w.(child := Watching, drains := Without(w.drains, w.childPid, removed), spoiled := w.childPid in w.drains && !removed)
    case Listen(ok, removed) =>
      if ok then w.(child := Listening) else w.(child := Dead, pidFile := Released(w.pidFile, w.childPid, removed))
    case Announce(left) => w.(child := Announced, ready := w.ready || left)
    case Serve => w.(child := Serving)
    case ChildSeesDrainFile(removed) => w.(childDraining := true, drains := Without(w.drains, w.childPid, removed))
    case ChildExits(removed) => w.(child := Dead, pidFile := Released(w.pidFile, w.childPid, removed))
    case ChildDies => w.(child := Dead)
    case ParentSeesDrainFile(removed) => w.(parentDraining := true, drains := Without(w.drains, w.parentPid, removed))
    case ReceiveTerm(removed) =>
      w.(parent := Stopping, parentDraining := true, sigterm := false, drains := Without(w.drains, w.parentPid, removed))
    case CloseListener => w.(parent := Closed)
    case ReadPidFile => w.(parent := SawPid(w.pidFile))
    case FinishRelease(removed) =>
      var remove := Release(w.parent.seen, w.parentPid) != w.parent.seen && removed;
      w.(parent := Gone, pidFile := if remove then Missing else w.pidFile)
  }

  function Without(drains: set<Pid>, pid: Pid, removed: bool): set<Pid> { if removed then drains - {pid} else drains }

  // ----- invariant -----

  predicate ChildRegistered(c: ChildPoint) { !c.Unborn? && !c.Born? && !c.Dead? }

  predicate Inv(w: World) {
    && 0 < w.parentPid && 0 < w.childPid && w.parentPid != w.childPid
    // nothing reaches the parent before the probe has passed
    && (w.helper.Marking? || w.helper.Pausing? || w.helper.Signalling? || w.helper.Cleaning? || w.helper.Done? ==> w.probed)
    && (w.parentPid in w.drains || w.sigterm || w.parentDraining || !w.parent.Up? ==> w.probed)
    && (!w.parent.Up? ==> w.parentDraining)
    // the child that was probed serves until it dies, and is drained only by a stale file
    && (w.probed ==> w.child.Serving? || w.child.Dead?)
    && (w.child.Watching? || w.child.Listening? || w.child.Announced? || w.child.Serving? ==> w.childPid !in w.drains || w.spoiled)
    && (w.childDraining ==> w.spoiled)
    && (w.child.Unborn? || w.child.Born? || w.child.Registered? ==> !w.childDraining)
    // the pid file
    && (w.helper.Replacing? || w.helper.Clearing? || w.helper.Spawning? ==> w.child.Unborn?)
    && (ChildRegistered(w.child) ==> w.pidFile == Entry(w.childPid))
    && (w.child.Unborn? || w.child.Born? ==> w.pidFile == Entry(w.parentPid))
    && (w.probed ==> w.pidFile == Entry(w.childPid))
    && (w.parent.SawPid? ==> w.parent.seen == w.pidFile)
  }

  predicate ParentStep(s: Step) {
    s.ParentSeesDrainFile? || s.ReceiveTerm? || s.CloseListener? || s.ReadPidFile? || s.FinishRelease?
  }

  predicate ChildStep(s: Step) {
    s.Register? || s.StartWatcher? || s.Listen? || s.Announce? || s.Serve? || s.ChildSeesDrainFile? || s.ChildExits? || s.ChildDies?
  }

  lemma ParentStepKeepsInv(w: World, s: Step)
    requires Inv(w) && Enabled(w, s) && ParentStep(s)
    ensures Inv(Next(w, s))
  {
  }

  lemma ChildStepKeepsInv(w: World, s: Step)
    requires Inv(w) && Enabled(w, s) && ChildStep(s)
    ensures Inv(Next(w, s))
  {
  }

  lemma HelperStepKeepsInv(w: World, s: Step)
    requires Inv(w) && Enabled(w, s) && !ParentStep(s) && !ChildStep(s)
    ensures Inv(Next(w, s))
  {
  }

  lemma StepKeepsInv(w: World, s: Step)
    requires Inv(w) && Enabled(w, s)
    ensures Inv(Next(w, s))
  {
    hide Inv, Enabled, Next;
    if ParentStep(s) {
      ParentStepKeepsInv(w, s);
    } else if ChildStep(s) {
      ChildStepKeepsInv(w, s);
    } else {
      HelperStepKeepsInv(w, s);
    }
  }

  predicate IsRun(w: World, steps: seq<Step>)
    decreases |steps|
  {
    steps == [] || (Enabled(w, steps[0]) && IsRun(Next(w, steps[0]), steps[1..]))
  }

  function After(w: World, steps: seq<Step>): World
    requires IsRun(w, steps)
    decreases |steps|
  {
    if steps == [] then w else After(Next(w, steps[0]), steps[1..])
  }

  lemma {:induction false} RunKeepsInv(w: World, steps: seq<Step>)
    requires Inv(w) && IsRun(w, steps)
    ensures Inv(After(w, steps))
    decreases |steps|
  {
    if steps != [] {
      StepKeepsInv(w, steps[0]);
      RunKeepsInv(Next(w, steps[0]), steps[1..]);
    }
  }

  /** A process that does not drain serves. */
  predicate Serves(w: World) { (w.parent.Up? && !w.parentDraining) || (w.child.Serving? && !w.childDraining) }

  /** An answer with another status or another pid, and no answer at all, leave everything as it is. */
  lemma OtherAnswersChangeNothing(w: World, r: Response)
    requires Inv(w) && Enabled(w, Probe(r)) && r != Answer(200, w.childPid)
    ensures Next(w, Probe(r)) == w
  {
    hide Inv;
    assert 0 < w.childPid by { PidsArePositive(w); }
  }

  lemma PidsArePositive(w: World)
    requires Inv(w)
    ensures 0 < w.parentPid && 0 < w.childPid
  {
  }

  /** The helper has seen the ready file. */
  predicate SawReady(h: HelperPoint) {
    h.Probing? || h.Marking? || h.Pausing? || h.Signalling? || h.Cleaning? || h.Done?
  }

  /** What a step does to the flags of the history. */
  predicate FlagsTell(w: World, s: Step, w': World) {
    && w'.parentPid == w.parentPid && w'.childPid == w.childPid
    && (w'.probed <==> w.probed || s == Probe(Answer(200, w.childPid)))
    && (w'.spoiled ==> w.spoiled || (s == StartWatcher(false) && w.childPid in w.drains))
    && (w.childPid in w'.drains ==> w.childPid in w.drains)
  }

  /** What a step does to the ready file and the helper that waits for it. */
  predicate ReadyTells(w: World, s: Step, w': World) {
    && (w'.ready ==> s == Announce(true) || (w.ready && s != ClearReady(true)))
    && (SawReady(w'.helper) ==> SawReady(w.helper) || (s == SeeReady && w.ready))
    && (SawReady(w.helper) || w.helper.Failed? ==> s != ClearReady(true) && (SawReady(w'.helper) || w'.helper.Failed?))
  }

  lemma ParentFlagsTell(w: World, s: Step)
    requires Enabled(w, s) && ParentStep(s) && 0 < w.childPid && w.parentPid != w.childPid
    ensures FlagsTell(w, s, Next(w, s))
  {
    hide Release, Acquire;
  }

  lemma ChildFlagsTell(w: World, s: Step)
    requires Enabled(w, s) && ChildStep(s) && 0 < w.childPid && w.parentPid != w.childPid
    ensures FlagsTell(w, s, Next(w, s))
  {
    hide Release, Released, Acquire;
  }

  lemma HelperFlagsTell(w: World, s: Step)
    requires Enabled(w, s) && !ParentStep(s) && !ChildStep(s) && 0 < w.childPid && w.parentPid != w.childPid
    ensures FlagsTell(w, s, Next(w, s))
  {
    hide ParentAnswers, Acquire, Release, Released, Without;
    assert !s.MarkDraining? ==> Next(w, s).drains == w.drains;
  }

  lemma ParentReadyTells(w: World, s: Step)
    requires Enabled(w, s) && ParentStep(s)
    ensures ReadyTells(w, s, Next(w, s))
  {
    hide Release, Acquire;
  }

  lemma ChildReadyTells(w: World, s: Step)
    requires Enabled(w, s) && ChildStep(s)
    ensures ReadyTells(w, s, Next(w, s))
  {
    hide Release, Released, Acquire, Without, SawReady;
    assert Next(w, s).helper == w.helper;
    assert Next(w, s).ready == (w.ready || s == Announce(true));
  }

  lemma HelperReadyTells(w: World, s: Step)
    requires Enabled(w, s) && !ParentStep(s) && !ChildStep(s)
    ensures ReadyTells(w, s, Next(w, s))
  {
    hide ParentAnswers, Acquire;
  }

  lemma StepTells(w: World, s: Step)
    requires Enabled(w, s) && 0 < w.childPid && w.parentPid != w.childPid
    ensures FlagsTell(w, s, Next(w, s)) && ReadyTells(w, s, Next(w, s))
  {
    hide Enabled, Next, FlagsTell, ReadyTells;
    if ParentStep(s) {
      ParentFlagsTell(w, s);
      ParentReadyTells(w, s);
    } else if ChildStep(s) {
      ChildFlagsTell(w, s);
      ChildReadyTells(w, s);
    } else {
      HelperFlagsTell(w, s);
      HelperReadyTells(w, s);
    }
  }

  /** What the flags of the history record, told by the steps. */
  lemma {:induction false} RunTells(w: World, steps: seq<Step>)
    requires IsRun(w, steps) && 0 < w.childPid && w.parentPid != w.childPid
    ensures var w' := After(w, steps);
            && w'.parentPid == w.parentPid && w'.childPid == w.childPid
            && (w'.probed <==> w.probed || Probe(Answer(200, w.childPid)) in steps)
            && (w'.spoiled ==> w.spoiled || (StartWatcher(false) in steps && w.childPid in w.drains))
    decreases |steps|
  {
    hide Enabled, Next;
    if steps != [] {
      StepTells(w, steps[0]);
      RunTells(Next(w, steps[0]), steps[1..]);
      assert forall s :: s in steps <==> s == steps[0] || s in steps[1..];
    }
  }

  /** Handoff safety, in every state of every interleaving. */
  lemma HandoffSafety(w0: World, steps: seq<Step>)
    requires Init(w0) && IsRun(w0, steps)
    ensures var w, probed := After(w0, steps), Probe(Answer(200, w0.childPid)) in steps;
            // the parent is told to drain or stop only after a 200 carrying the child's pid
            && (w0.parentPid in w.drains || w.sigterm || w.parentDraining || !w.parent.Up? ==> probed)
            // every failure before that leaves the parent serving
            && (w.helper.Failed? && !probed ==> w.parent.Up? && !w.parentDraining)
            // a process that is not draining serves on the listener, unless the child died after its probe or is drained
            && (Serves(w) || (probed && (w.child.Dead? || w.childDraining)))
            // and it is drained only if a stale drain file of its pid could not be removed
            && (w.childDraining ==> w0.childPid in w0.drains && StartWatcher(false) in steps)
            // once probed, the pid file names the child
            && (probed ==> w.pidFile == Entry(w0.childPid))
  {
    RunKeepsInv(w0, steps);
    RunTells(w0, steps);
    hide IsRun, After, Next, Enabled;
  }

  /** The ready file was written in the run, or is an old one that was not removed. */
  predicate ReadyFrom(w: World, steps: seq<Step>) { Announce(true) in steps || (w.ready && ClearReady(true) !in steps) }

  lemma {:induction false} RunTellsReady(w: World, steps: seq<Step>)
    requires IsRun(w, steps) && 0 < w.childPid && w.parentPid != w.childPid
    ensures After(w, steps).ready ==> ReadyFrom(w, steps)
    ensures SawReady(After(w, steps).helper) ==> SawReady(w.helper) || ReadyFrom(w, steps)
    ensures SawReady(w.helper) || w.helper.Failed? ==> ClearReady(true) !in steps
    decreases |steps|
  {
    hide Enabled, Next, SawReady;
    if steps != [] {
      StepTells(w, steps[0]);
      RunTellsReady(Next(w, steps[0]), steps[1..]);
      assert forall s :: s in steps <==> s == steps[0] || s in steps[1..];
    }
  }

  /** The helper goes on to its probes only after the child has announced itself, or with an old ready file it could not remove. */
  lemma NotBeforeTheChildListens(w0: World, steps: seq<Step>)
    requires Init(w0) && IsRun(w0, steps)
    ensures SawReady(After(w0, steps).helper) ==> ReadyFrom(w0, steps)
  {
    RunTellsReady(w0, steps);
  }

  /** Nothing the parent does on its way out changes the pid file. */
  lemma ParentNeverRemovesTheEntry(w0: World, steps: seq<Step>, s: Step)
    requires Init(w0) && IsRun(w0, steps) && ParentStep(s) && Enabled(After(w0, steps), s)
    ensures Next(After(w0, steps), s).pidFile == After(w0, steps).pidFile
  {
    RunKeepsInv(w0, steps);
  }

  // ----- the entry of the pid file -----

  /** The pid file names a process that serves. */
  predicate NamesServing(w: World) {
    || (w.pidFile == Entry(w.parentPid) && (w.parent.Up? || w.parent.Stopping?))
    || (w.pidFile == Entry(w.childPid) && w.child.Serving?)
  }

  /** The step takes the parent's entry out of the pid file: the child's write, whether it succeeds or not. */
  predicate Overwrites(parent: Pid, s: Step) { s.Register? && (s.write.Written? || s.write.left != Entry(parent)) }

  predicate OverwrittenIn(parent: Pid, steps: seq<Step>) { exists s :: s in steps && Overwrites(parent, s) }

  /** The entry after the child's write is never the parent's again, and before it is. */
  predicate EntryOk(w: World, overwritten: bool) {
    if overwritten then !w.child.Unborn? && !w.child.Born? && w.pidFile != Entry(w.parentPid)
    else w.pidFile == Entry(w.parentPid) && !w.probed && (w.child.Unborn? || w.child.Born? || w.child.Dead?)
  }

  lemma StepKeepsEntry(w: World, s: Step, overwritten: bool)
    requires Inv(w) && Enabled(w, s) && EntryOk(w, overwritten)
    ensures EntryOk(Next(w, s), overwritten || Overwrites(w.parentPid, s))
    ensures Next(w, s).parentPid == w.parentPid
  {
  }

  lemma {:induction false} RunKeepsEntry(w: World, steps: seq<Step>, overwritten: bool)
    requires Inv(w) && IsRun(w, steps) && EntryOk(w, overwritten)
    ensures EntryOk(After(w, steps), overwritten || OverwrittenIn(w.parentPid, steps))
    ensures After(w, steps).parentPid == w.parentPid
    decreases |steps|
  {
    hide Inv, EntryOk, Enabled, Next, Overwrites;
    if steps != [] {
      var s, rest := steps[0], steps[1..];
      StepKeepsInv(w, s);
      StepKeepsEntry(w, s, overwritten);
      RunKeepsEntry(Next(w, s), rest, overwritten || Overwrites(w.parentPid, s));
      assert steps == [s] + rest;
      assert OverwrittenIn(w.parentPid, steps) <==> Overwrites(w.parentPid, s) || OverwrittenIn(w.parentPid, rest);
    }
  }

  /**
    The pid file names a serving process exactly until the child's write, and again while the child serves.  In
    between, and for good if the child dies or the handoff fails there, a third process could start.
   */
  lemma EntryNamesServingExactly(w0: World, steps: seq<Step>)
    requires Init(w0) && IsRun(w0, steps)
    ensures NamesServing(After(w0, steps)) <==> !OverwrittenIn(w0.parentPid, steps) || After(w0, steps).child.Serving?
  {
    RunKeepsInv(w0, steps);
    RunKeepsEntry(w0, steps, false);
  }

  ghost predicate Reaches(w0: World, w: World) { exists steps :: IsRun(w0, steps) && After(w0, steps) == w }

  lemma {:induction false} RunGrows(w0: World, steps: seq<Step>, s: Step)
    requires IsRun(w0, steps) && Enabled(After(w0, steps), s)
    ensures IsRun(w0, steps + [s]) && After(w0, steps + [s]) == Next(After(w0, steps), s)
    decreases |steps|
  {
    if steps != [] {
      RunGrows(Next(w0, steps[0]), steps[1..], s);
      assert (steps + [s])[1..] == steps[1..] + [s];
    }
  }

  lemma Then(w0: World, w: World, s: Step) returns (w': World)
    requires Reaches(w0, w) && Enabled(w, s)
    ensures w' == Next(w, s) && Reaches(w0, w')
  {
    var steps :| IsRun(w0, steps) && After(w0, steps) == w;
    RunGrows(w0, steps, s);
    w' := Next(w, s);
  }

  lemma ChildRegisters(w0: World) returns (w: World)
    requires Init(w0)
    ensures Reaches(w0, w)
    ensures w == w0.(helper := AwaitingReady, child := Registered, ready := false, pidFile := Entry(w0.childPid))
  {
    assert IsRun(w0, []) && After(w0, []) == w0;
    w := w0;
    w := Then(w0, w, ReplaceBinary(true));
    w := Then(w0, w, ClearReady(true));
    w := Then(w0, w, Spawn(true, true));
    w := Then(w0, w, Register(Written));
  }

  /** The child registers and exits: the parent goes on serving without an entry, and a third process may start. */
  lemma FailedHandoffLosesTheEntry(w0: World, third: Pid, running: set<Pid>) returns (w: World)
    requires Init(w0)
    ensures Reaches(w0, w) && w.helper.Failed? && w.parent.Up? && !w.parentDraining && w.pidFile == Missing
    ensures Acquire(w.pidFile, third, false, running, Written).Wrote?
  {
    w := ChildRegisters(w0);
    w := Then(w0, w, ChildExits(true));
    w := Then(w0, w, ReadyTimeout);
  }

  // ----- a handoff without failures comes to its end -----

  /** A step that is no failure, no timeout, no exit and no death. */
  predicate Good(s: Step) {
    match s
    case ReplaceBinary(ok) => ok
    case Spawn(ok, _) => ok
    case MarkDraining(ok, _) => ok
    case Signal(ok) => ok
    case Register(write) => write.Written?
    case StartWatcher(removed) => removed
    case Listen(ok, _) => ok
    case Announce(left) => left
    case ReadyTimeout => false
    case ProbeTimeout => false
    case ChildSeesDrainFile(_) => false
    case ChildExits(_) => false
    case ChildDies => false
    case _ => true
  }

  predicate AllGood(steps: seq<Step>) { forall s :: s in steps ==> Good(s) }

  /** What holds as long as nothing has failed. */
  predicate GoodInv(w: World) {
    && Inv(w) && !w.helper.Failed? && !w.child.Dead?
    && (w.child.Unborn? ==> w.helper.Replacing? || w.helper.Clearing? || w.helper.Spawning?)
    && (w.helper.AwaitingReady? && (w.child.Announced? || w.child.Serving?) ==> w.ready)
    && ((w.helper.Cleaning? || w.helper.Done?) && w.parent.Up? ==> w.sigterm)
  }

  /** The child has taken over and the parent is gone. */
  predicate HandedOver(w: World) {
    w.helper.Done? && w.parent.Gone? && w.child.Serving? && w.pidFile == Entry(w.childPid)
  }

  lemma GoodStepKeeps(w: World, s: Step)
    requires GoodInv(w) && Enabled(w, s) && Good(s)
    ensures GoodInv(Next(w, s))
  {
    StepKeepsInv(w, s);
    hide Inv;
    if s.CleanUp? || s.MarkDraining? {
      assert w.probed && (w.probed ==> w.child.Serving? || w.child.Dead?) by { ProbedServes(w); }
    }
  }

  lemma ProbedServes(w: World)
    requires Inv(w) && (w.helper.Marking? || w.helper.Pausing? || w.helper.Signalling? || w.helper.Cleaning? || w.helper.Done?)
    ensures w.probed && (w.child.Serving? || w.child.Dead?) && w.pidFile == Entry(w.childPid)
  {
  }

  lemma {:induction false} GoodRunKeeps(w: World, steps: seq<Step>)
    requires GoodInv(w) && IsRun(w, steps) && AllGood(steps)
    ensures GoodInv(After(w, steps))
    decreases |steps|
  {
    hide GoodInv, Enabled, Next, Good;
    if steps != [] {
      assert steps[0] in steps && forall s :: s in steps[1..] ==> s in steps;
      GoodStepKeeps(w, steps[0]);
      GoodRunKeeps(Next(w, steps[0]), steps[1..]);
    }
  }

  function HelperRank(h: HelperPoint): nat {
    match h
    case Replacing => 9 case Clearing => 8 case Spawning => 7 case AwaitingReady => 6 case Probing => 5
    case Marking => 4 case Pausing => 3 case Signalling => 2 case Cleaning => 1 case Done => 0 case Failed => 0
  }

  function ChildRank(c: ChildPoint): nat {
    match c
    case Unborn => 6 case Born => 5 case Registered => 4 case Watching => 3 case Listening => 2 case Announced => 1
    case Serving => 0 case Dead => 0
  }

  function ParentRank(p: ParentPoint): nat {
    match p case Up => 4 case Stopping => 3 case Closed => 2 case SawPid(_) => 1 case Gone => 0
  }

  /** Steps that are left. */
  function Left(w: World): nat { HelperRank(w.helper) + ChildRank(w.child) + ParentRank(w.parent) }

  /** What can be done next. */
  function NextGood(w: World): Step {
    match w.child
    case Born => Register(Written)
    case Registered => StartWatcher(true)
    case Watching => Listen(true, true)
    case Listening => Announce(true)
    case Announced => Serve
    case _ =>
      match w.helper
      case Replacing => ReplaceBinary(true)
      case Clearing => ClearReady(true)
      case Spawning => Spawn(true, true)
      case AwaitingReady => SeeReady
      case Probing => Probe(Answer(200, w.childPid))
      case Marking => MarkDraining(true, true)
      case Pausing => Pause
      case Signalling => Signal(true)
      case Cleaning => CleanUp(true)
      case _ =>
        match w.parent
        case Up => ReceiveTerm(true)
        case Stopping => CloseListener
        case Closed => ReadPidFile
        case _ => FinishRelease(true)
  }

  /** The step is possible and brings the handoff closer to its end. */
  predicate Advances(w: World, s: Step) {
    && Good(s) && Enabled(w, s) && Left(Next(w, s)) < Left(w)
    && (if w.helper.Done? then Next(w, s).helper.Done? && Next(w, s).ready == w.ready
        else Next(w, s).helper.Done? ==> !Next(w, s).ready)
  }

  predicate ChildIsStarting(w: World) {
    w.child.Born? || w.child.Registered? || w.child.Watching? || w.child.Listening? || w.child.Announced?
  }

  lemma ChildAdvances(w: World)
    requires GoodInv(w) && ChildIsStarting(w) && !w.helper.Done?
    ensures Advances(w, NextGood(w))
  {
    hide Inv;
  }

  lemma HelperAdvances(w: World)
    requires GoodInv(w) && !ChildIsStarting(w) && !w.helper.Done?
    requires w.helper.Marking? || w.helper.Pausing? || w.helper.Signalling? || w.helper.Cleaning? ==> w.child.Serving?
    ensures Advances(w, NextGood(w))
  {
  }

  lemma ParentAdvances(w: World)
    requires GoodInv(w) && w.child.Serving? && w.helper.Done? && !w.parent.Gone?
    ensures Advances(w, NextGood(w))
  {
    hide Inv;
  }

  lemma NextGoodIsPossible(w: World)
    requires GoodInv(w) && !HandedOver(w)
    ensures Advances(w, NextGood(w))
  {
    hide NextGood, Advances, Enabled, Next;
    if w.helper.Marking? || w.helper.Pausing? || w.helper.Signalling? || w.helper.Cleaning? || w.helper.Done? {
      ProbedServes(w);
    }
    if w.helper.Done? {
      ParentAdvances(w);
    } else if ChildIsStarting(w) {
      ChildAdvances(w);
    } else {
      HelperAdvances(w);
    }
  }

  /** Every step that nothing hinders leaves the state as it is. */
  ghost predicate NothingLeft(w: World) { forall s :: Good(s) && Enabled(w, s) ==> Next(w, s) == w }

  /** A run without failures that has nothing left to do, other than probes that change nothing, is at the end. */
  lemma StoppedMeansHandedOver(w0: World, steps: seq<Step>)
    requires Init(w0) && IsRun(w0, steps) && AllGood(steps) && NothingLeft(After(w0, steps))
    ensures HandedOver(After(w0, steps))
  {
    hide Enabled, Next, Good, NextGood;
    GoodRunKeeps(w0, steps);
    if !HandedOver(After(w0, steps)) {
      NextGoodIsPossible(After(w0, steps));
    }
  }

  lemma {:induction false} FinishFrom(w: World) returns (steps: seq<Step>)
    requires GoodInv(w)
    ensures IsRun(w, steps) && AllGood(steps) && |steps| <= Left(w) && HandedOver(After(w, steps))
    ensures if w.helper.Done? then After(w, steps).ready == w.ready else !After(w, steps).ready
    decreases Left(w)
  {
    hide GoodInv, Enabled, Next, Good, NextGood, Left;
    if HandedOver(w) {
      steps := [];
    } else {
      var s := NextGood(w);
      NextGoodIsPossible(w);
      GoodStepKeeps(w, s);
      var rest := FinishFrom(Next(w, s));
      steps := [s] + rest;
      assert steps[1..] == rest;
    }
  }

  /** From every state of every run without failures the handoff can be completed, in at most 19 steps. */
  lemma HandoffCompletes(w0: World, steps: seq<Step>) returns (more: seq<Step>)
    requires Init(w0) && IsRun(w0, steps) && AllGood(steps)
    ensures IsRun(After(w0, steps), more) && AllGood(more) && |more| <= 19
    ensures var w := After(After(w0, steps), more); HandedOver(w) && (After(w0, steps).helper.Done? || !w.ready)
  {
    GoodRunKeeps(w0, steps);
    more := FinishFrom(After(w0, steps));
  }

  // ----- a stale drain file -----

  lemma SpoiledChildIsProbed(w0: World) returns (w: World)
    requires Init(w0) && w0.childPid in w0.drains
    ensures Reaches(w0, w)
    ensures w == w0.(helper := Marking, child := Serving, ready := true, probed := true, spoiled := true,
                     pidFile := Entry(w0.childPid))
  {
    w := ChildRegisters(w0);
    w := Then(w0, w, StartWatcher(false));
    w := Then(w0, w, Listen(true, true));
    w := Then(w0, w, Announce(true));
    w := Then(w0, w, SeeReady);
    w := Then(w0, w, Serve);
    w := Then(w0, w, Probe(Answer(200, w0.childPid)));
  }

  /** If a stale drain file of the child's pid cannot be removed, parent and child can both come to drain. */
  lemma StaleFileDrainsBoth(w0: World) returns (w: World)
    requires Init(w0) && w0.childPid in w0.drains
    ensures Reaches(w0, w) && w.spoiled && w.parent.Up? && w.child.Serving? && !Serves(w)
  {
    w := SpoiledChildIsProbed(w0);
    w := Then(w0, w, MarkDraining(true, true));
    w := Then(w0, w, ChildSeesDrainFile(true));
    w := Then(w0, w, ParentSeesDrainFile(true));
  }
}

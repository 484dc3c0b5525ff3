/**
  What the actions of a run tell about the lane queue (cli/queue/lanes.go): when an Enqueue is refused, what Close leaves
  behind, in which order a lane is sent its envelopes, and when each action is possible.
 */
module LaneRuns {
  import opened LaneQueue

  /** The critical section of Enqueue for the envelope, whether it was refused or found its lane. */
  predicate IsOffer(s: Step, e: EnvId) { (s.Lookup? || s.Refuse?) && s.e == e }

  predicate Offered(steps: seq<Step>, e: EnvId) { exists k :: 0 <= k < |steps| && IsOffer(steps[k], e) }

  function SentBy(s: Step, home: map<EnvId, LaneId>, lane: LaneId): seq<EnvId> {
    if s.Send? && s.e in home && home[s.e] == lane then [s.e] else []
  }

  /** The envelopes sent to a lane, in the order of the sends; `home` names the lane of each. */
  function SentTo(steps: seq<Step>, home: map<EnvId, LaneId>, lane: LaneId): seq<EnvId> {
    if steps == [] then [] else SentBy(steps[0], home, lane) + SentTo(steps[1..], home, lane)
  }

  // ----- one action -----

  lemma StepTellsClosed(q: Queue, s: Step)
    requires Enabled(q, s)
    ensures Next(q, s).closed == (q.closed || s == Close)
  {
    hide Log, Move, TrailOf;
  }

  lemma StepTellsCancelled(q: Queue, s: Step, e: EnvId)
    requires Enabled(q, s)
    ensures e in Next(q, s).cancelled <==> e in q.cancelled || s == Cancel(e)
  {
    hide Log, Move, TrailOf;
  }

  lemma StepTellsHome(q: Queue, s: Step, e: EnvId)
    requires Enabled(q, s)
    ensures var q' := Next(q, s);
            && (e in q'.home <==> e in q.home || (s.Lookup? && s.e == e))
            && (e in q.home ==> e in q'.home && q'.home[e] == q.home[e])
            && (s.Lookup? && s.e == e ==> e in q'.home && q'.home[e] == s.lane)
  {
    hide Log, Move, TrailOf;
    if s.Lookup? {
      NextOfLookup(q, s.e, s.lane);
      hide Next, Enabled;
    } else {
      assert Next(q, s).home == q.home;
    }
  }

  lemma StepTellsFresh(q: Queue, s: Step, e: EnvId)
    requires Enabled(q, s) && SendingInv(q) && HeldAreAccepted(q)
    ensures Fresh(Next(q, s), e) <==> Fresh(q, e) && !IsOffer(s, e)
  {
    hide Move, TrailOf;
  }

  lemma StepTellsSent(q: Queue, s: Step, lane: LaneId)
    requires Enabled(q, s) && SendingInv(q)
    ensures TrailOf(Next(q, s), lane).sent == TrailOf(q, lane).sent + SentBy(s, q.home, lane)
    ensures s.Send? ==> s.e in q.home
  {
    hide Log, Move;
  }

  // ----- a run -----

  lemma {:induction false} RunSplits(q: Queue, a: seq<Step>, b: seq<Step>)
    requires IsRun(q, a + b)
    ensures IsRun(q, a) && IsRun(After(q, a), b) && After(q, a + b) == After(After(q, a), b)
    decreases |a|
  {
    hide Next, Enabled;
    if a == [] {
      assert a + b == b;
    } else {
      assert (a + b)[1..] == a[1..] + b;
      RunSplits(Next(q, a[0]), a[1..], b);
    }
  }

  lemma {:induction false} RunTellsClosed(q: Queue, steps: seq<Step>)
    requires IsRun(q, steps)
    ensures After(q, steps).closed == (q.closed || Close in steps)
    decreases |steps|
  {
    hide Next, Enabled;
    if steps != [] {
      assert Close in steps <==> steps[0] == Close || Close in steps[1..];
      StepTellsClosed(q, steps[0]);
      RunTellsClosed(Next(q, steps[0]), steps[1..]);
    }
  }

  lemma {:induction false} RunTellsCancelled(q: Queue, steps: seq<Step>, e: EnvId)
    requires IsRun(q, steps)
    ensures e in After(q, steps).cancelled <==> e in q.cancelled || Cancel(e) in steps
    decreases |steps|
  {
    hide Next, Enabled;
    if steps != [] {
      assert Cancel(e) in steps <==> steps[0] == Cancel(e) || Cancel(e) in steps[1..];
      StepTellsCancelled(q, steps[0], e);
      RunTellsCancelled(Next(q, steps[0]), steps[1..], e);
    }
  }

  lemma {:induction false} RunTellsHome(q: Queue, steps: seq<Step>, e: EnvId)
    requires IsRun(q, steps)
    ensures e in After(q, steps).home <==> e in q.home || exists k :: 0 <= k < |steps| && steps[k].Lookup? && steps[k].e == e
    ensures e in q.home ==> e in After(q, steps).home && After(q, steps).home[e] == q.home[e]
    decreases |steps|
  {
    hide Next, Enabled;
    if steps != [] {
      var rest := steps[1..];
      StepTellsHome(q, steps[0], e);
      RunTellsHome(Next(q, steps[0]), rest, e);
      assert forall k :: 0 <= k < |rest| ==> rest[k] == steps[k + 1];
      assert forall k :: 0 < k < |steps| ==> steps[k] == rest[k - 1];
    }
  }

  lemma {:induction false} RunTellsFresh(q: Queue, steps: seq<Step>, e: EnvId)
    requires Inv(q) && IsRun(q, steps)
    ensures Fresh(After(q, steps), e) <==> Fresh(q, e) && !Offered(steps, e)
    decreases |steps|
  {
    hide Next, Enabled, IsOffer, Fresh, HeldAreAccepted;
    if steps != [] {
      var rest := steps[1..];
      StepKeepsInv(q, steps[0]);
      HoldersFacts(q);
      StepTellsFresh(q, steps[0], e);
      RunTellsFresh(Next(q, steps[0]), rest, e);
      assert forall k :: 0 <= k < |rest| ==> rest[k] == steps[k + 1];
      assert forall k :: 0 < k < |steps| ==> steps[k] == rest[k - 1];
    }
  }

  /** A lane's channel is sent exactly the envelopes of its Enqueue calls, in the order of the sends. */
  lemma {:induction false} RunTellsSent(q: Queue, steps: seq<Step>, lane: LaneId)
    requires Inv(q) && IsRun(q, steps)
    ensures var q' := After(q, steps);
            TrailOf(q', lane).sent == TrailOf(q, lane).sent + SentTo(steps, q'.home, lane)
    decreases |steps|
  {
    hide Next, TrailOf, Enabled, SentBy, Inv;
    if steps != [] {
      var s, q' := steps[0], After(q, steps);
      StepKeepsInv(q, s);
      SendIsAddressed(q, s, lane);
      SameHome(q, steps, lane);
      RunTellsSent(Next(q, s), steps[1..], lane);
      assert TrailOf(q, lane).sent + (SentBy(s, q'.home, lane) + SentTo(steps[1..], q'.home, lane)) ==
             TrailOf(q, lane).sent + SentBy(s, q'.home, lane) + SentTo(steps[1..], q'.home, lane);
    } else {
      assert TrailOf(q, lane).sent + [] == TrailOf(q, lane).sent;
    }
  }

  lemma SendIsAddressed(q: Queue, s: Step, lane: LaneId)
    requires Inv(q) && Enabled(q, s)
    ensures TrailOf(Next(q, s), lane).sent == TrailOf(q, lane).sent + SentBy(s, q.home, lane)
    ensures s.Send? ==> s.e in q.home
  {
    StepTellsSent(q, s, lane);
  }

  lemma SameHome(q: Queue, steps: seq<Step>, lane: LaneId)
    requires IsRun(q, steps) && steps != [] && (steps[0].Send? ==> steps[0].e in q.home)
    ensures SentBy(steps[0], q.home, lane) == SentBy(steps[0], After(q, steps).home, lane)
  {
    hide Next, Enabled, IsRun, After;
    if steps[0].Send? {
      RunTellsHome(q, steps, steps[0].e);
    }
  }

  // ----- Enqueue and Close -----

  /** An Enqueue finds its lane as long as Close has not been called, and is refused from then on. */
  lemma RefusedFromCloseOn(globalConcurrency: int, steps: seq<Step>, e: EnvId, lane: LaneId)
    requires IsRun(New(globalConcurrency), steps)
    ensures var q := After(New(globalConcurrency), steps);
            && (Enabled(q, Lookup(e, lane)) <==> Close !in steps && !Offered(steps, e))
            && (Enabled(q, Refuse(e)) <==> Close in steps && !Offered(steps, e))
  {
    hide IsRun, After, Offered, Inv;
    RunTellsClosed(New(globalConcurrency), steps);
    RunTellsFresh(New(globalConcurrency), steps, e);
  }

  /** A run that takes step k, seen from there. */
  lemma RunAt(q: Queue, steps: seq<Step>, k: nat)
    requires IsRun(q, steps) && k < |steps|
    ensures IsRun(q, steps[..k]) && Enabled(After(q, steps[..k]), steps[k])
    ensures var q' := Next(After(q, steps[..k]), steps[k]);
            IsRun(q', steps[k + 1..]) && After(q', steps[k + 1..]) == After(q, steps)
  {
    hide Next, Enabled;
    assert steps == steps[..k] + ([steps[k]] + steps[k + 1..]);
    RunSplits(q, steps[..k], [steps[k]] + steps[k + 1..]);
    assert ([steps[k]] + steps[k + 1..])[1..] == steps[k + 1..];
  }

  /** The lane of an accepted envelope is the one its Enqueue named. */
  lemma AcceptedAtItsLane(globalConcurrency: int, steps: seq<Step>, k: nat)
    requires IsRun(New(globalConcurrency), steps) && k < |steps| && steps[k].Lookup?
    ensures var q := After(New(globalConcurrency), steps); steps[k].e in q.home && q.home[steps[k].e] == steps[k].lane
  {
    var q0, s := New(globalConcurrency), steps[k];
    RunAt(q0, steps, k);
    var q := After(q0, steps[..k]);
    hide Next, Enabled, IsRun, After;
    StepTellsHome(q, s, s.e);
    RunTellsHome(Next(q, s), steps[k + 1..], s.e);
  }

  lemma RefusedNow(q: Queue, e: EnvId)
    requires Inv(q) && Enabled(q, Refuse(e))
    ensures e in Next(q, Refuse(e)).results && Next(q, Refuse(e)).results[e] == [Refused]
  {
    hide Inv, Move, TrailOf;
  }

  /** A refusal comes after Close, is the envelope's one result, and leaves no trace in the lanes. */
  lemma RefusalIsFinal(globalConcurrency: int, steps: seq<Step>, k: nat)
    requires IsRun(New(globalConcurrency), steps) && k < |steps| && steps[k].Refuse?
    ensures Close in steps[..k]
    ensures var q, e := After(New(globalConcurrency), steps), steps[k].e;
            && e in q.results && q.results[e] == [Refused] && e !in q.home
            && forall lane :: lane in q.trail ==> e !in q.trail[lane].sent
  {
    var q0, s := New(globalConcurrency), steps[k];
    RunAt(q0, steps, k);
    var q := After(q0, steps[..k]);
    hide Next, Inv, IsRun, After;
    RunTellsClosed(q0, steps[..k]);
    RunKeepsInv(q0, steps[..k]);
    RefusedNow(q, s.e);
    StepKeepsInv(q, s);
    ResultsAreFinal(Next(q, s), steps[k + 1..], s.e);
    RunKeepsInv(q0, steps);
    RefusedIsNowhere(After(q0, steps), s.e);
  }

  lemma RefusedIsNowhere(q: Queue, e: EnvId)
    requires Inv(q) && e in q.results && q.results[e] == [Refused]
    ensures e !in q.home && forall lane :: lane in q.trail ==> e !in q.trail[lane].sent
  {
    assert EnvelopeOk(q, e);
    forall lane | lane in q.trail ensures e !in q.trail[lane].sent {
      assert AddressOk(q, lane);
    }
  }

  /** After Close no Enqueue finds a lane, and once the workers have stopped no lane, worker or token is left. */
  lemma CloseIsFinal(globalConcurrency: int, steps: seq<Step>, k: nat)
    requires IsRun(New(globalConcurrency), steps) && k < |steps| && steps[k] == Close
    ensures forall j :: k < j < |steps| ==> !steps[j].Lookup?
    ensures var q := After(New(globalConcurrency), steps);
            Quiescent(q) ==> q.lanes == map[] && q.workers == map[] && q.sending == map[] && q.tokens == 0
  {
    var q0 := New(globalConcurrency);
    hide Inv, Quiescent, Next;
    forall j | k < j < |steps| ensures !steps[j].Lookup? {
      RunAt(q0, steps, j);
      assert steps[..j][k] == Close;
      RunTellsClosed(q0, steps[..j]);
    }
    RunTellsClosed(q0, steps);
    RunKeepsInv(q0, steps);
    if Quiescent(After(q0, steps)) {
      QuiescentMeansResolved(After(q0, steps));
    }
  }

  /**
    First come, first served, in terms of the actions: what the lane's worker has taken, followed by what its channel
    holds, is what was sent to the lane, in the order of the sends; and no channel holds more than 128 envelopes.
   */
  lemma LanesAreServedInOrder(globalConcurrency: int, steps: seq<Step>, lane: LaneId)
    requires IsRun(New(globalConcurrency), steps)
    ensures var q := After(New(globalConcurrency), steps);
            && (lane in q.lanes ==> |q.lanes[lane]| <= 128)
            && TrailOf(q, lane).taken + (if lane in q.lanes then q.lanes[lane] else []) == SentTo(steps, q.home, lane)
  {
    var q0 := New(globalConcurrency);
    var q := After(q0, steps);
    RunKeepsInv(q0, steps);
    RunTellsSent(q0, steps, lane);
    hide IsRun, After, SentTo;
    assert lane in q.trail ==> ChannelOk(q, lane);
    assert TrailOf(q, lane).taken + [] == TrailOf(q, lane).taken;
  }

  // ----- when an action is possible -----

  /** A context can be cancelled at any time, once. */
  lemma ContextsCanBeCancelled(globalConcurrency: int, steps: seq<Step>, e: EnvId)
    requires IsRun(New(globalConcurrency), steps)
    ensures Enabled(After(New(globalConcurrency), steps), Cancel(e)) <==> Cancel(e) !in steps
  {
    hide IsRun, After;
    RunTellsCancelled(New(globalConcurrency), steps, e);
  }

  /** A send waits only for room for 128, and for nothing once its context is done. */
  lemma SendsWaitForRoom(globalConcurrency: int, steps: seq<Step>, e: EnvId)
    requires IsRun(New(globalConcurrency), steps)
    ensures var q := After(New(globalConcurrency), steps);
            e in q.sending ==>
              && e in q.home && q.home[e] in q.lanes
              && (Enabled(q, Send(e)) <==> |q.lanes[q.home[e]]| < 128)
              && (Enabled(q, SendCancelled(e)) <==> Cancel(e) in steps)
  {
    var q0 := New(globalConcurrency);
    RunKeepsInv(q0, steps);
    RunTellsCancelled(q0, steps, e);
    hide IsRun, After;
  }

  lemma WorkersChoices(q: Queue, w: WorkerId)
    requires TokensInv(q) && WorkersInv(q) && w in q.workers
    ensures var p, lane := q.workers[w].point, q.workers[w].lane;
            && lane in q.lanes
            && (Enabled(q, Acquire(w)) <==> p.Waiting? && |RunningWorkers(q)| < q.limit)
            && (Enabled(q, WaitCancelled(w)) <==> p.Waiting? && p.e in q.cancelled)
            && (Enabled(q, Release(w)) <==> p.Running?)
            && (Enabled(q, Report(w)) <==> p.Reporting?)
            && (Enabled(q, Take(w)) <==> p.Idle? && q.lanes[lane] != [])
            && (Enabled(q, Exit(w)) <==> p.Idle? && q.lanes[lane] == [] && q.closed)
  {
    NotRunning(q.workers, w);
    hide RunningIn;
    assert q.workers[w].point.Running? ==> w in RunningWorkers(q);
  }

  /** A worker that waits starts its task if and only if fewer tasks run than the limit, or gives up once the context is done. */
  lemma WorkersWaitForATask(globalConcurrency: int, steps: seq<Step>, w: WorkerId)
    requires IsRun(New(globalConcurrency), steps)
    ensures var q, limit := After(New(globalConcurrency), steps), if globalConcurrency <= 0 then 16 else globalConcurrency;
            w in q.workers ==>
              var p, lane := q.workers[w].point, q.workers[w].lane;
              && lane in q.lanes
              && (Enabled(q, Acquire(w)) <==> p.Waiting? && |RunningWorkers(q)| < limit)
              && (Enabled(q, WaitCancelled(w)) <==> p.Waiting? && Cancel(p.e) in steps)
              && (Enabled(q, Release(w)) <==> p.Running?)
              && (Enabled(q, Report(w)) <==> p.Reporting?)
              && (Enabled(q, Take(w)) <==> p.Idle? && q.lanes[lane] != [])
              && (Enabled(q, Exit(w)) <==> p.Idle? && q.lanes[lane] == [] && Close in steps)
  {
    var q0 := New(globalConcurrency);
    var q := After(q0, steps);
    RunKeepsInv(q0, steps);
    LimitStays(q0, steps);
    RunTellsClosed(q0, steps);
    if w in q.workers && q.workers[w].point.Waiting? {
      RunTellsCancelled(q0, steps, q.workers[w].point.e);
    }
    if w in q.workers {
      hide IsRun, After, TrailInv, HeldInv, ResultsInv, RunningIn, Enabled;
      WorkersChoices(q, w);
    }
  }
}

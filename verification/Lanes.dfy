/**
  The lane queue's fields (cli/queue/lanes.go), updated in place. Every method is one atomic action of Enqueue,
  runLane or Close and refines the step of that name; goroutines are kept by their program points.
 */
module Lanes {
  import opened LaneQueue

  class Lanes {
    const limit: nat
    var globalTokens: nat
    var lanes: map<LaneId, seq<EnvId>>
    var closed: bool
    // the goroutines
    var workers: map<WorkerId, Worker>
    var sending: map<EnvId, LaneId>
    var cancelled: set<EnvId>
    var nextWorker: WorkerId
    // history
    ghost var home: map<EnvId, LaneId>
    ghost var spawned: map<LaneId, WorkerId>
    ghost var trail: map<LaneId, Trail>
    ghost var results: map<EnvId, seq<Outcome>>

    ghost function State(): Queue
      reads this
    {
      Queue(limit, globalTokens, closed, lanes, workers, sending, cancelled, nextWorker, home, spawned, trail, results)
    }

    constructor (globalConcurrency: int)
      ensures State() == New(globalConcurrency) && Inv(State())
    {
      limit := if globalConcurrency <= 0 then 16 else globalConcurrency;
      globalTokens, lanes, closed := 0, map[], false;
      workers, sending, cancelled, nextWorker := map[], map[], {}, 0;
      home, spawned, trail, results := map[], map[], map[], map[];
    }

    /** Enqueue up to the unlock: refuse, or find the lane, starting it if need be. */
    method EnqueueLocked(e: EnvId, laneID: LaneId) returns (accepted: bool)
      requires Inv(State()) && Fresh(State(), e)
      modifies this
      ensures accepted == !old(closed)
      ensures State() == Next(old(State()), if accepted then Lookup(e, laneID) else Refuse(e)) && Inv(State())
    {
      hide Inv, Next;
      if closed {
        RefuseAll(e);
        return false;
      }
      FindLane(e, laneID);
      accepted := true;
    }

    method RefuseAll(e: EnvId)
      requires Inv(State()) && Fresh(State(), e) && closed
      modifies this
      ensures State() == Next(old(State()), Refuse(e)) && Inv(State())
    {
      hide Inv;
      StepKeepsInv(State(), Refuse(e));
      results := Log(results, e, Refused);
    }

    method FindLane(e: EnvId, laneID: LaneId)
      requires Inv(State()) && Fresh(State(), e) && !closed
      modifies this
      ensures State() == Next(old(State()), Lookup(e, laneID)) && Inv(State())
    {
      hide Inv, Next;
      StepKeepsInv(State(), Lookup(e, laneID));
      if laneID in lanes {
        UseLane(e, laneID);
      } else {
        UseNewLane(e, laneID);
      }
    }

    method UseLane(e: EnvId, laneID: LaneId)
      requires Fresh(State(), e) && !closed && laneID in lanes
      modifies this
      ensures State() == Next(old(State()), Lookup(e, laneID))
    {
      sending := sending[e := laneID];
      home := home[e := laneID];
    }

    method UseNewLane(e: EnvId, laneID: LaneId)
      requires Fresh(State(), e) && !closed && laneID !in lanes
      modifies this
      ensures State() == Next(old(State()), Lookup(e, laneID))
    {
      StartLane(laneID, State());
      sending := sending[e := laneID];
      home := home[e := laneID];
    }

    /** A new channel with its goroutine. */
    method StartLane(laneID: LaneId, ghost q: Queue)
      requires q.trail == trail
      modifies this`lanes, this`workers, this`nextWorker, this`spawned, this`trail
      ensures lanes == old(lanes)[laneID := []] && workers == old(workers)[old(nextWorker) := Worker(laneID, Idle)]
      ensures nextWorker == old(nextWorker) + 1 && spawned == old(spawned)[laneID := old(nextWorker)]
      ensures trail == old(trail)[laneID := TrailOf(q, laneID)]
    {
      lanes := lanes[laneID := []];
      workers := workers[nextWorker := Worker(laneID, Idle)];
      trail := trail[laneID := TrailOf(q, laneID)];
      spawned := spawned[laneID := nextWorker];
      nextWorker := nextWorker + 1;
    }

    /** Enqueue's select: the send goes through, or the context is done. */
    method EnqueueSelect(e: EnvId, sent: bool)
      requires Inv(State()) && Enabled(State(), if sent then Send(e) else SendCancelled(e))
      modifies this
      ensures State() == Next(old(State()), if sent then Send(e) else SendCancelled(e)) && Inv(State())
    {
      hide Inv;
      ghost var q := State();
      if sent {
        var lane := sending[e];
        trail := trail[lane := TrailOf(q, lane).(sent := TrailOf(q, lane).sent + [e])];
        lanes := lanes[lane := lanes[lane] + [e]];
        StepKeepsInv(q, Send(e));
      } else {
        results := Log(results, e, Cancelled);
        StepKeepsInv(q, SendCancelled(e));
      }
      sending := sending - {e};
    }

    /** runLane's range: the next envelope, or the end of a closed and empty channel. */
    method RunLaneReceive(w: WorkerId) returns (more: bool)
      requires Inv(State()) && (Enabled(State(), Take(w)) || Enabled(State(), Exit(w)))
      modifies this
      ensures more == (old(lanes)[old(workers)[w].lane] != [])
      ensures State() == Next(old(State()), if more then Take(w) else Exit(w)) && Inv(State())
    {
      hide Inv;
      ghost var q := State();
      var lane := workers[w].lane;
      more := lanes[lane] != [];
      if more {
        var e := lanes[lane][0];
        trail := trail[lane := TrailOf(q, lane).(taken := TrailOf(q, lane).taken + [e])];
        lanes := lanes[lane := lanes[lane][1..]];
        workers := workers[w := workers[w].(point := Waiting(e))];
        StepKeepsInv(q, Take(w));
      } else {
        lanes := lanes - {lane};
        workers := workers - {w};
        StepKeepsInv(q, Exit(w));
      }
    }

    /** runLane's select: a token, or the context is done. */
    method RunLaneSelect(w: WorkerId, acquired: bool)
      requires Inv(State()) && Enabled(State(), if acquired then Acquire(w) else WaitCancelled(w))
      modifies this
      ensures State() == Next(old(State()), if acquired then Acquire(w) else WaitCancelled(w)) && Inv(State())
    {
      hide Inv;
      ghost var q := State();
      var e := workers[w].point.e;
      if acquired {
        globalTokens := globalTokens + 1;
        workers := workers[w := workers[w].(point := Running(e))];
        StepKeepsInv(q, Acquire(w));
      } else {
        results := Log(results, e, Cancelled);
        workers := workers[w := workers[w].(point := Idle)];
        StepKeepsInv(q, WaitCancelled(w));
      }
    }

    method RunLaneGiveTokenBack(w: WorkerId)
      requires Inv(State()) && Enabled(State(), Release(w))
      modifies this
      ensures State() == Next(old(State()), Release(w)) && Inv(State())
    {
      hide Inv;
      StepKeepsInv(State(), Release(w));
      globalTokens := globalTokens - 1;
      workers := workers[w := workers[w].(point := Reporting(workers[w].point.e))];
    }

    method RunLaneReport(w: WorkerId)
      requires Inv(State()) && Enabled(State(), Report(w))
      modifies this
      ensures State() == Next(old(State()), Report(w)) && Inv(State())
    {
      hide Inv;
      StepKeepsInv(State(), Report(w));
      results := Log(results, workers[w].point.e, Finished);
      workers := workers[w := workers[w].(point := Idle)];
    }

    method CloseAll()
      requires Inv(State()) && Enabled(State(), Close)
      modifies this
      ensures State() == Next(old(State()), Close) && Inv(State()) && closed
    {
      hide Inv;
      StepKeepsInv(State(), Close);
      if closed {
        return;
      }
      closed := true;
    }
  }
}

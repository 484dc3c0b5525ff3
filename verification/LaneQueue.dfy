/**
  The lane queue (cli/queue/lanes.go) as a step system.

  One FIFO channel per lane, one worker goroutine per channel, and a pool of tokens shared by all
  workers.  Every field of `Queue` below `closed` is either a piece of the program's state (a channel,
  a goroutine's program point, the token pool) or a history of what has happened, which no step reads.
 */
module LaneQueue {

  type EnvId = nat
  type LaneId = string
  type WorkerId = nat

  /** Capacity of a lane channel. */
  const LANE_CAPACITY := 128

  /** What an envelope's `done` channel receives. */
  datatype Outcome = Refused | Cancelled | Finished

  /** Program point of a worker: at the `range`, at the `select`, inside the task, after giving the token back. */
  datatype Point = Idle | Waiting(e: EnvId) | Running(e: EnvId) | Reporting(e: EnvId)

  datatype Worker = Worker(lane: LaneId, point: Point)

  /** History of a lane: envelopes sent to its channel and envelopes received from it, oldest first. */
  datatype Trail = Trail(sent: seq<EnvId>, taken: seq<EnvId>)

  datatype Queue = Queue(
    limit: nat,                              // capacity of globalTokens
    tokens: nat,                             // tokens in globalTokens
    closed: bool,
    lanes: map<LaneId, seq<EnvId>>,          // buffered envelopes of each registered channel
    workers: map<WorkerId, Worker>,          // live goroutines
    sending: map<EnvId, LaneId>,             // Enqueue calls between the unlock and the end of their select
    cancelled: set<EnvId>,                   // envelopes whose context is done
    nextWorker: WorkerId,
    // history
    home: map<EnvId, LaneId>,                // lane each accepted envelope was addressed to
    spawned: map<LaneId, WorkerId>,          // goroutine last started for each lane
    trail: map<LaneId, Trail>,
    results: map<EnvId, seq<Outcome>>        // everything ever put on an envelope's done channel
  )

  /** A new queue; a non-positive limit selects 16. */
  function New(globalConcurrency: int): (q: Queue)
    ensures Inv(q) && q.limit >= 1
  {
    Queue(if globalConcurrency <= 0 then 16 else globalConcurrency,
          0, false, map[], map[], map[], {}, 0, map[], map[], map[], map[])
  }

  /** The atomic actions.  `Lookup`/`Refuse` are the critical section of Enqueue, `Send`/`SendCancelled` its select. */
  datatype Step =
    | Refuse(e: EnvId)
    | Lookup(e: EnvId, lane: LaneId)
    | Send(e: EnvId)
    | SendCancelled(e: EnvId)
    | Cancel(e: EnvId)
    | Take(w: WorkerId)
    | Acquire(w: WorkerId)
    | WaitCancelled(w: WorkerId)
    | Release(w: WorkerId)
    | Report(w: WorkerId)
    | Exit(w: WorkerId)
    | Close

  predicate Fresh(q: Queue, e: EnvId) { e !in q.home && e !in q.results }

  /** When an action can happen.  Close waits for Enqueue calls that hold a channel (a send on a closed channel panics). */
  predicate Enabled(q: Queue, s: Step) {
    match s
    case Refuse(e) => q.closed && Fresh(q, e)
    case Lookup(e, _) => !q.closed && Fresh(q, e)
    case Send(e) => e in q.sending && q.sending[e] in q.lanes && |q.lanes[q.sending[e]]| < LANE_CAPACITY
    case SendCancelled(e) => e in q.sending && e in q.cancelled
    case Cancel(e) => e !in q.cancelled
    case Take(w) => w in q.workers && q.workers[w].point.Idle? &&
                    q.workers[w].lane in q.lanes && q.lanes[q.workers[w].lane] != []
    case Acquire(w) => w in q.workers && q.workers[w].point.Waiting? && q.tokens < q.limit
    case WaitCancelled(w) => w in q.workers && q.workers[w].point.Waiting? && q.workers[w].point.e in q.cancelled
    case Release(w) => w in q.workers && q.workers[w].point.Running? && q.tokens > 0
    case Report(w) => w in q.workers && q.workers[w].point.Reporting?
    case Exit(w) => w in q.workers && q.workers[w].point.Idle? && q.closed &&
                    q.workers[w].lane in q.lanes && q.lanes[q.workers[w].lane] == []
    case Close => q.sending == map[]
  }

  function Log(results: map<EnvId, seq<Outcome>>, e: EnvId, o: Outcome): map<EnvId, seq<Outcome>> {
    results[e := (if e in results then results[e] else []) + [o]]
  }

  function TrailOf(q: Queue, lane: LaneId): Trail {
    if lane in q.trail then q.trail[lane] else Trail([], [])
  }

  function Move(q: Queue, w: WorkerId, p: Point): map<WorkerId, Worker>
    requires w in q.workers
  {
    q.workers[w := q.workers[w].(point := p)]
  }

  /** The lane's channel is used, or made with its goroutine. */
  function Accepted(q: Queue, e: EnvId, lane: LaneId): Queue {
    var q1 := q.(sending := q.sending[e := lane], home := q.home[e := lane]);
    if lane in q.lanes then q1
    else q1.(lanes := q.lanes[lane := []],
             workers := q.workers[q.nextWorker := Worker(lane, Idle)],
             nextWorker := q.nextWorker + 1,
             spawned := q.spawned[lane := q.nextWorker],
             trail := q.trail[lane := TrailOf(q, lane)])
  }

  function Next(q: Queue, s: Step): Queue
    requires Enabled(q, s)
  {
    match s
    case Refuse(e) => q.(results := Log(q.results, e, Refused))
    case Lookup(e, lane) => Accepted(q, e, lane)
    case Send(e) =>
      var lane := q.sending[e];
      var t := TrailOf(q, lane);
      q.(sending := q.sending - {e},
         lanes := q.lanes[lane := q.lanes[lane] + [e]],
         trail := q.trail[lane := t.(sent := t.sent + [e])])
    case SendCancelled(e) => q.(sending := q.sending - {e}, results := Log(q.results, e, Cancelled))
    case Cancel(e) => q.(cancelled := q.cancelled + {e})
    case Take(w) =>
      var lane := q.workers[w].lane;
      var e := q.lanes[lane][0];
      var t := TrailOf(q, lane);
      q.(lanes := q.lanes[lane := q.lanes[lane][1..]],
         workers := Move(q, w, Waiting(e)),
         trail := q.trail[lane := t.(taken := t.taken + [e])])
    case Acquire(w) => q.(tokens := q.tokens + 1, workers := Move(q, w, Running(q.workers[w].point.e)))
    case WaitCancelled(w) =>
      q.(workers := Move(q, w, Idle), results := Log(q.results, q.workers[w].point.e, Cancelled))
    case Release(w) => q.(tokens := q.tokens - 1, workers := Move(q, w, Reporting(q.workers[w].point.e)))
    case Report(w) =>
      q.(workers := Move(q, w, Idle), results := Log(q.results, q.workers[w].point.e, Finished))
    case Exit(w) => q.(lanes := q.lanes - {q.workers[w].lane}, workers := q.workers - {w})
    case Close => q.(closed := true)
  }

  lemma NextOfLookup(q: Queue, e: EnvId, lane: LaneId)
    requires Enabled(q, Lookup(e, lane))
    ensures Next(q, Lookup(e, lane)) == Accepted(q, e, lane) && !q.closed && Fresh(q, e)
  {
  }

  // ----- invariant -----

  function RunningIn(workers: map<WorkerId, Worker>): set<WorkerId> { set w | w in workers && workers[w].point.Running? }

  function RunningWorkers(q: Queue): set<WorkerId> { RunningIn(q.workers) }

  predicate Distinct(s: seq<EnvId>) { forall i, j :: 0 <= i < j < |s| ==> s[i] != s[j] }

  /** Tokens are exactly the running tasks. */
  predicate TokensInv(q: Queue) { 1 <= q.limit && q.tokens == |RunningWorkers(q)| <= q.limit }

  /** Registered lanes and live workers correspond one to one. */
  predicate WorkersInv(q: Queue) {
    && (forall w :: w in q.workers ==> w < q.nextWorker && q.workers[w].lane in q.lanes && q.workers[w].lane in q.spawned &&
                                       q.spawned[q.workers[w].lane] == w)
    && (forall l :: l in q.lanes ==> l in q.spawned && q.spawned[l] in q.workers)
    && (forall l :: l in q.spawned ==> q.spawned[l] < q.nextWorker &&
                                       (q.spawned[l] in q.workers ==> q.workers[q.spawned[l]].lane == l))
  }

  /** A channel holds, in order, what was sent and not yet taken; an exited worker has taken everything. */
  predicate ChannelOk(q: Queue, l: LaneId)
    requires l in q.trail
  {
    var t := q.trail[l];
    && Distinct(t.sent)
    && (if l in q.lanes then |q.lanes[l]| <= LANE_CAPACITY && t.sent == t.taken + q.lanes[l]
        else q.closed && t.sent == t.taken)
  }

  /** Only envelopes addressed to the lane are ever sent to it, and those are no longer being sent. */
  predicate AddressOk(q: Queue, l: LaneId)
    requires l in q.trail
  {
    forall e :: e in q.trail[l].sent ==> e in q.home && q.home[e] == l && e !in q.sending
  }

  predicate TrailInv(q: Queue) {
    && (forall l :: l in q.lanes ==> l in q.trail)
    && (forall l :: l in q.trail ==> ChannelOk(q, l) && AddressOk(q, l))
  }

  /** The envelope a worker holds is the last one it took. */
  predicate HoldsLast(q: Queue, w: WorkerId)
    requires w in q.workers
  {
    !q.workers[w].point.Idle? ==>
      q.workers[w].lane in q.trail &&
      var t := q.trail[q.workers[w].lane].taken; t != [] && t[|t| - 1] == q.workers[w].point.e
  }

  predicate HeldInv(q: Queue) { forall w :: w in q.workers ==> HoldsLast(q, w) }

  predicate SendingInv(q: Queue) {
    && (forall e :: e in q.sending ==> e in q.home && q.home[e] == q.sending[e] && q.home[e] in q.lanes)
    && (q.closed ==> q.sending == map[])
  }

  predicate Holds(q: Queue, w: WorkerId, e: EnvId) {
    w in q.workers && !q.workers[w].point.Idle? && q.workers[w].point.e == e
  }

  /** Some worker holds the envelope: it can only be the one of the envelope's lane. */
  predicate Held(q: Queue, e: EnvId) {
    e in q.home && q.home[e] in q.spawned && Holds(q, q.spawned[q.home[e]], e)
  }

  predicate Buffered(q: Queue, e: EnvId) { e in q.home && q.home[e] in q.lanes && e in q.lanes[q.home[e]] }

  predicate InTransit(q: Queue, e: EnvId) { e in q.sending || Buffered(q, e) || Held(q, e) }

  /** At most one result, of the right kind; and an accepted envelope has one exactly when it is nowhere in the queue. */
  predicate EnvelopeOk(q: Queue, e: EnvId) {
    && (e in q.results ==>
          |q.results[e]| == 1 &&
          match q.results[e][0]
          case Refused => q.closed && e !in q.home
          case Cancelled => e in q.home && e in q.cancelled
          case Finished => e in q.home)
    && (e in q.home ==> (InTransit(q, e) <==> e !in q.results))
  }

  ghost predicate ResultsInv(q: Queue) { forall e: EnvId :: EnvelopeOk(q, e) }

  ghost predicate Inv(q: Queue) {
    TokensInv(q) && WorkersInv(q) && TrailInv(q) && HeldInv(q) && SendingInv(q) && ResultsInv(q)
  }

  // ----- every step keeps the invariant -----

  lemma MoveRunning(q: Queue, w: WorkerId, p: Point)
    requires w in q.workers
    ensures RunningIn(Move(q, w, p)) == if p.Running? then RunningIn(q.workers) + {w} else RunningIn(q.workers) - {w}
  {
  }

  lemma StepRunning(q: Queue, s: Step)
    requires q.nextWorker !in q.workers && Enabled(q, s)
    ensures RunningIn(Next(q, s).workers) ==
            if s.Acquire? then RunningIn(q.workers) + {s.w}
            else if s.Release? then RunningIn(q.workers) - {s.w}
            else RunningIn(q.workers)
  {
    match s
    case Acquire(w) => MoveRunning(q, w, Running(q.workers[w].point.e));
    case Release(w) => MoveRunning(q, w, Reporting(q.workers[w].point.e));
    case Lookup(_, _) => assert RunningIn(Next(q, s).workers) == RunningIn(q.workers);
    case Take(w) => MoveRunning(q, w, Waiting(q.lanes[q.workers[w].lane][0]));
    case WaitCancelled(w) => MoveRunning(q, w, Idle);
    case Report(w) => MoveRunning(q, w, Idle);
    case Exit(_) => assert RunningIn(Next(q, s).workers) == RunningIn(q.workers);
    case _ => assert Next(q, s).workers == q.workers;
  }

  /** Only Acquire takes a token and only Release gives one back. */
  lemma StepTokens(q: Queue, s: Step)
    requires Enabled(q, s)
    ensures var q' := Next(q, s);
            q'.limit == q.limit && q'.tokens == q.tokens + (if s.Acquire? then 1 else if s.Release? then -1 else 0)
    ensures s.Acquire? ==> s.w in q.workers && q.workers[s.w].point.Waiting? && q.tokens < q.limit
    ensures s.Release? ==> s.w in q.workers && q.workers[s.w].point.Running?
  {
    hide Log, Move, TrailOf;
  }

  lemma StepKeepsTokens(q: Queue, s: Step)
    requires TokensInv(q) && q.nextWorker !in q.workers && Enabled(q, s)
    ensures TokensInv(Next(q, s))
  {
    hide RunningIn, Next, Enabled;
    StepRunning(q, s);
    StepTokens(q, s);
    if s.Acquire? {
      assert s.w !in RunningIn(q.workers) by { NotRunning(q.workers, s.w); }
    } else if s.Release? {
      assert s.w in RunningIn(q.workers) by { NotRunning(q.workers, s.w); }
    }
  }

  lemma NotRunning(workers: map<WorkerId, Worker>, w: WorkerId)
    requires w in workers
    ensures w in RunningIn(workers) <==> workers[w].point.Running?
  {
  }

  lemma LookupKeepsWorkers(q: Queue, s: Step)
    requires s.Lookup? && WorkersInv(q) && Enabled(q, s)
    ensures WorkersInv(Next(q, s))
  {
    NextOfLookup(q, s.e, s.lane);
    hide Next, Enabled, TrailOf;
  }

  lemma ExitKeepsWorkers(q: Queue, s: Step)
    requires s.Exit? && WorkersInv(q) && Enabled(q, s)
    ensures WorkersInv(Next(q, s))
  {
  }

  /** Steps other than Lookup and Exit neither start nor stop a worker. */
  lemma WorkersStay(q: Queue, s: Step)
    requires Enabled(q, s) && !s.Lookup? && !s.Exit?
    ensures var q' := Next(q, s);
            && q'.nextWorker == q.nextWorker && q'.spawned == q.spawned
            && q'.lanes.Keys == q.lanes.Keys && q'.workers.Keys == q.workers.Keys
            && forall w :: w in q.workers ==> q'.workers[w].lane == q.workers[w].lane
  {
  }

  lemma StepKeepsWorkers(q: Queue, s: Step)
    requires WorkersInv(q) && Enabled(q, s)
    ensures WorkersInv(Next(q, s))
  {
    if s.Lookup? {
      LookupKeepsWorkers(q, s);
    } else if s.Exit? {
      ExitKeepsWorkers(q, s);
    } else {
      WorkersStay(q, s);
      FrameKeepsWorkers(q, Next(q, s));
    }
  }

  lemma FrameKeepsWorkers(q: Queue, q': Queue)
    requires WorkersInv(q)
    requires q'.nextWorker == q.nextWorker && q'.spawned == q.spawned
    requires q'.lanes.Keys == q.lanes.Keys && q'.workers.Keys == q.workers.Keys
    requires forall w :: w in q.workers ==> q'.workers[w].lane == q.workers[w].lane
    ensures WorkersInv(q')
  {
    assert forall l :: l in q'.lanes <==> l in q'.lanes.Keys;
  }

  lemma LookupKeepsSending(q: Queue, e: EnvId, lane: LaneId)
    requires SendingInv(q) && Enabled(q, Lookup(e, lane))
    ensures SendingInv(Next(q, Lookup(e, lane)))
  {
    NextOfLookup(q, e, lane);
    hide Next, Enabled, TrailOf;
  }

  lemma StepKeepsSending(q: Queue, s: Step)
    requires SendingInv(q) && Enabled(q, s)
    ensures SendingInv(Next(q, s))
  {
    hide Log, Move, TrailOf;
    if s.Lookup? {
      LookupKeepsSending(q, s.e, s.lane);
    } else {
      var q' := Next(q, s);
      assert q'.home == q.home && forall e :: e in q'.sending ==> e in q.sending && q'.sending[e] == q.sending[e];
      assert q.sending == map[] ==> q'.sending == map[];
      assert q.lanes.Keys <= q'.lanes.Keys || q.closed;
    }
  }

  lemma StepKeepsChannel(q: Queue, s: Step, l: LaneId)
    requires Enabled(q, s) && l in Next(q, s).trail
    requires l in q.lanes ==> l in q.trail
    requires l in q.trail ==> ChannelOk(q, l) && AddressOk(q, l)
    ensures ChannelOk(Next(q, s), l)
  {
    hide ChannelOk, AddressOk, Next, Enabled;
    if s.Take? {
      TakeKeepsChannel(q, s.w, l);
    } else if s.Send? {
      SendKeepsChannel(q, s.e, l);
    } else {
      OtherKeepsChannel(q, s, l);
    }
  }

  lemma TakeKeepsChannel(q: Queue, w: WorkerId, l: LaneId)
    requires Enabled(q, Take(w)) && l in Next(q, Take(w)).trail
    requires l in q.lanes ==> l in q.trail
    requires l in q.trail ==> ChannelOk(q, l)
    ensures ChannelOk(Next(q, Take(w)), l)
  {
    if q.workers[w].lane == l {
      assert q.lanes[l] == [q.lanes[l][0]] + q.lanes[l][1..];
    }
  }

  lemma SendKeepsChannel(q: Queue, e: EnvId, l: LaneId)
    requires Enabled(q, Send(e)) && l in Next(q, Send(e)).trail
    requires l in q.lanes ==> l in q.trail
    requires l in q.trail ==> ChannelOk(q, l) && AddressOk(q, l)
    ensures ChannelOk(Next(q, Send(e)), l)
  {
  }

  lemma OtherKeepsChannel(q: Queue, s: Step, l: LaneId)
    requires Enabled(q, s) && l in Next(q, s).trail && !s.Take? && !s.Send?
    requires l in q.lanes ==> l in q.trail
    requires l in q.trail ==> ChannelOk(q, l)
    ensures ChannelOk(Next(q, s), l)
  {
    hide Log, Move;
  }

  lemma NoTrail(q: Queue, l: LaneId)
    ensures TrailOf(q, l) == if l in q.trail then q.trail[l] else Trail([], [])
  {
  }

  lemma TrailOfAccepted(q: Queue, e: EnvId, lane: LaneId, l: LaneId)
    requires l in Accepted(q, e, lane).trail
    ensures Accepted(q, e, lane).trail[l] == TrailOf(q, l)
  {
  }

  lemma LookupKeepsAddress(q: Queue, e: EnvId, lane: LaneId, l: LaneId)
    requires Enabled(q, Lookup(e, lane)) && l in Next(q, Lookup(e, lane)).trail
    requires l in q.trail ==> AddressOk(q, l)
    ensures AddressOk(Next(q, Lookup(e, lane)), l)
  {
    NextOfLookup(q, e, lane);
    hide Next, Enabled, TrailOf;
    var q' := Accepted(q, e, lane);
    assert q'.trail[l] == TrailOf(q, l) by { TrailOfAccepted(q, e, lane, l); }
    if l !in q.trail {
      NoTrail(q, l);
    } else {
      assert TrailOf(q, l) == q.trail[l] by { NoTrail(q, l); }
    }
  }

  lemma StepKeepsAddress(q: Queue, s: Step, l: LaneId)
    requires SendingInv(q) && Enabled(q, s) && l in Next(q, s).trail
    requires l in q.trail ==> AddressOk(q, l)
    ensures AddressOk(Next(q, s), l)
  {
    hide Log, Move;
    if s.Lookup? {
      LookupKeepsAddress(q, s.e, s.lane, l);
    } else if !s.Send? {
      var q' := Next(q, s);
      assert q'.home == q.home && q'.trail[l].sent == TrailOf(q, l).sent;
      assert q'.sending.Keys <= q.sending.Keys;
    }
  }

  lemma StepKeepsTrail(q: Queue, s: Step)
    requires SendingInv(q) && TrailInv(q) && Enabled(q, s)
    ensures TrailInv(Next(q, s))
  {
    forall l | l in Next(q, s).trail
      ensures ChannelOk(Next(q, s), l) && AddressOk(Next(q, s), l)
    {
      StepKeepsChannel(q, s, l);
      StepKeepsAddress(q, s, l);
    }
  }

  lemma TakeKeepsHeldBy(q: Queue, v: WorkerId, w: WorkerId)
    requires Enabled(q, Take(v)) && w in q.workers && HoldsLast(q, w)
    requires q.workers[v].lane in q.trail && (q.workers[v].lane == q.workers[w].lane ==> v == w)
    ensures HoldsLast(Next(q, Take(v)), w)
  {
  }

  lemma OtherKeepsHeldBy(q: Queue, s: Step, w: WorkerId)
    requires Enabled(q, s) && w in Next(q, s).workers && !s.Take?
    requires w in q.workers ==> HoldsLast(q, w)
    ensures HoldsLast(Next(q, s), w)
  {
    hide Log;
  }

  lemma StepKeepsHeldBy(q: Queue, s: Step, w: WorkerId)
    requires Enabled(q, s) && w in Next(q, s).workers
    requires w in q.workers ==> HoldsLast(q, w)
    requires s.Take? && s.w in q.workers && w in q.workers ==>
               q.workers[s.w].lane in q.trail && (q.workers[s.w].lane == q.workers[w].lane ==> s.w == w)
    ensures HoldsLast(Next(q, s), w)
  {
    if s.Take? {
      TakeKeepsHeldBy(q, s.w, w);
    } else {
      OtherKeepsHeldBy(q, s, w);
    }
  }

  lemma StepKeepsHeld(q: Queue, s: Step)
    requires WorkersInv(q) && TrailInv(q) && HeldInv(q) && Enabled(q, s)
    ensures HeldInv(Next(q, s))
  {
    forall w | w in Next(q, s).workers
      ensures HoldsLast(Next(q, s), w)
    {
      StepKeepsHeldBy(q, s, w);
    }
  }

  /** An envelope in a worker's hands is neither being sent nor still in the channel. */
  lemma HeldIsTaken(q: Queue, w: WorkerId)
    requires WorkersInv(q) && TrailInv(q) && HeldInv(q)
    requires w in q.workers && !q.workers[w].point.Idle?
    ensures var e := q.workers[w].point.e; var l := q.workers[w].lane;
            e in q.home && q.home[e] == l && e !in q.sending && e !in q.lanes[l]
  {
    var l := q.workers[w].lane;
    var e := q.workers[w].point.e;
    var t := q.trail[l];
    assert HoldsLast(q, w) && ChannelOk(q, l) && AddressOk(q, l);
    assert t.sent[|t.taken| - 1] == e;
    forall i | 0 <= i < |q.lanes[l]| ensures q.lanes[l][i] != e {
      assert t.sent[|t.taken| + i] == q.lanes[l][i];
    }
  }

  lemma HeadIsNotBehind(q: Queue, l: LaneId)
    requires TrailInv(q) && l in q.lanes && q.lanes[l] != []
    ensures var e := q.lanes[l][0]; e in q.home && q.home[e] == l && e !in q.sending && e !in q.lanes[l][1..]
  {
    var t := q.trail[l];
    assert ChannelOk(q, l) && AddressOk(q, l);
    assert t.sent[|t.taken|] == q.lanes[l][0];
    forall i | 1 <= i < |q.lanes[l]| ensures q.lanes[l][i] != q.lanes[l][0] {
      assert t.sent[|t.taken| + i] == q.lanes[l][i];
    }
  }

  /** What the invariant says about the envelope and the worker a step moves. */
  predicate StepFacts(q: Queue, s: Step) {
    match s
    case Take(w) =>
      w in q.workers && q.workers[w].lane in q.lanes && q.lanes[q.workers[w].lane] != [] &&
      var l := q.workers[w].lane; var e := q.lanes[l][0];
      l in q.spawned && q.spawned[l] == w && e in q.home && q.home[e] == l && e !in q.sending && e !in q.lanes[l][1..]
    case Acquire(w) => WorkerFacts(q, w)
    case WaitCancelled(w) => WorkerFacts(q, w)
    case Release(w) => WorkerFacts(q, w)
    case Report(w) => WorkerFacts(q, w)
    case Exit(w) => w in q.workers && q.workers[w].lane in q.spawned && q.spawned[q.workers[w].lane] == w
    case Lookup(_, lane) => q.nextWorker !in q.workers &&
                            (lane !in q.lanes && lane in q.spawned ==> q.spawned[lane] !in q.workers)
    case Send(e) => e in q.sending && e in q.home && q.home[e] == q.sending[e]
    case SendCancelled(e) => e in q.home && q.home[e] in q.lanes && !Buffered(q, e) && !Held(q, e)
    case _ => true
  }

  predicate WorkerFacts(q: Queue, w: WorkerId) {
    w in q.workers && !q.workers[w].point.Idle? &&
    var e := q.workers[w].point.e; var l := q.workers[w].lane;
    && l in q.spawned && q.spawned[l] == w && l in q.lanes
    && e in q.home && q.home[e] == l && e !in q.sending && e !in q.lanes[l]
  }

  lemma SendingIsNotSent(q: Queue, e: EnvId)
    requires WorkersInv(q) && TrailInv(q) && HeldInv(q) && SendingInv(q) && e in q.sending
    ensures e in q.home && q.home[e] in q.lanes && !Buffered(q, e) && !Held(q, e)
  {
    var l := q.home[e];
    assert ChannelOk(q, l) && AddressOk(q, l);
    assert forall i :: 0 <= i < |q.lanes[l]| ==> q.lanes[l][i] == q.trail[l].sent[|q.trail[l].taken| + i];
    if Held(q, e) {
      HeldIsTaken(q, q.spawned[l]);
    }
  }

  lemma FactsHold(q: Queue, s: Step)
    requires WorkersInv(q) && TrailInv(q) && HeldInv(q) && SendingInv(q) && Enabled(q, s)
    ensures StepFacts(q, s)
  {
    match s
    case Take(w) => HeadIsNotBehind(q, q.workers[w].lane);
    case Acquire(w) => HeldIsTaken(q, w);
    case WaitCancelled(w) => HeldIsTaken(q, w);
    case Release(w) => HeldIsTaken(q, w);
    case Report(w) => HeldIsTaken(q, w);
    case SendCancelled(e) => SendingIsNotSent(q, e);
    case Lookup(_, _) =>
    case Exit(_) =>
    case _ =>
  }

  lemma StepKeepsEnvelope(q: Queue, s: Step, e: EnvId)
    requires Enabled(q, s) && StepFacts(q, s) && EnvelopeOk(q, e)
    requires forall v, w :: v in q.workers && w in q.workers && q.workers[v].lane == q.workers[w].lane ==> v == w
    ensures EnvelopeOk(Next(q, s), e)
  {
    hide EnvelopeOk, Next, Enabled, StepFacts;
    match s
    case Lookup(_, _) => LookupKeepsEnvelope(q, s, e);
    case Send(_) => SendKeepsEnvelope(q, s, e);
    case SendCancelled(_) => SendCancelledKeepsEnvelope(q, s, e);
    case Take(_) => TakeKeepsEnvelope(q, s, e);
    case Acquire(w) => PassKeepsEnvelope(q, s, w, e);
    case Release(w) => PassKeepsEnvelope(q, s, w, e);
    case WaitCancelled(w) => ResultKeepsEnvelope(q, s, w, e);
    case Report(w) => ResultKeepsEnvelope(q, s, w, e);
    case Exit(_) => ExitKeepsEnvelope(q, s, e);
    case _ => OutsideKeepsEnvelope(q, s, e);
  }

  lemma OutsideKeepsEnvelope(q: Queue, s: Step, e: EnvId)
    requires (s.Refuse? || s.Cancel? || s.Close?) && Enabled(q, s) && EnvelopeOk(q, e)
    ensures EnvelopeOk(Next(q, s), e)
  {
    hide Move, TrailOf, Accepted;
  }

  lemma LookupKeepsEnvelope(q: Queue, s: Step, e: EnvId)
    requires s.Lookup? && Enabled(q, s) && StepFacts(q, s) && EnvelopeOk(q, e)
    ensures EnvelopeOk(Next(q, s), e)
  {
    hide InTransit, TrailOf;
    LookupKeepsTransit(q, s, e);
  }

  lemma LookupKeepsTransit(q: Queue, s: Step, e: EnvId)
    requires s.Lookup? && Enabled(q, s) && StepFacts(q, s)
    ensures InTransit(Next(q, s), e) <==> e == s.e || InTransit(q, e)
  {
    hide TrailOf, Held, Buffered;
    if e != s.e {
      LookupKeepsHeld(q, s, e);
      LookupKeepsBuffered(q, s, e);
    }
  }

  lemma LookupKeepsHeld(q: Queue, s: Step, e: EnvId)
    requires s.Lookup? && Enabled(q, s) && StepFacts(q, s) && e != s.e
    ensures Held(Next(q, s), e) <==> Held(q, e)
  {
    NextOfLookup(q, s.e, s.lane);
    hide Next, Enabled, TrailOf;
  }

  lemma LookupKeepsBuffered(q: Queue, s: Step, e: EnvId)
    requires s.Lookup? && Enabled(q, s) && e != s.e
    ensures Buffered(Next(q, s), e) <==> Buffered(q, e)
  {
    NextOfLookup(q, s.e, s.lane);
    hide Next, Enabled, TrailOf;
  }

  lemma SendCancelledKeepsEnvelope(q: Queue, s: Step, e: EnvId)
    requires s.SendCancelled? && Enabled(q, s) && StepFacts(q, s) && EnvelopeOk(q, e)
    ensures EnvelopeOk(Next(q, s), e)
  {
  }

  lemma ExitKeepsEnvelope(q: Queue, s: Step, e: EnvId)
    requires s.Exit? && Enabled(q, s) && StepFacts(q, s) && EnvelopeOk(q, e)
    ensures EnvelopeOk(Next(q, s), e)
  {
  }

  lemma SendKeepsEnvelope(q: Queue, s: Step, e: EnvId)
    requires s.Send? && Enabled(q, s) && StepFacts(q, s) && EnvelopeOk(q, e)
    ensures EnvelopeOk(Next(q, s), e)
  {
  }

  lemma TakeKeepsEnvelope(q: Queue, s: Step, e: EnvId)
    requires s.Take? && Enabled(q, s) && StepFacts(q, s) && EnvelopeOk(q, e)
    requires forall v, w :: v in q.workers && w in q.workers && q.workers[v].lane == q.workers[w].lane ==> v == w
    ensures EnvelopeOk(Next(q, s), e)
  {
  }

  lemma PassKeepsEnvelope(q: Queue, s: Step, w: WorkerId, e: EnvId)
    requires (s == Acquire(w) || s == Release(w)) && Enabled(q, s) && StepFacts(q, s) && EnvelopeOk(q, e)
    ensures EnvelopeOk(Next(q, s), e)
  {
  }

  lemma ResultKeepsEnvelope(q: Queue, s: Step, w: WorkerId, e: EnvId)
    requires (s == WaitCancelled(w) || s == Report(w)) && Enabled(q, s) && StepFacts(q, s) && EnvelopeOk(q, e)
    ensures EnvelopeOk(Next(q, s), e)
  {
  }

  lemma StepKeepsInv(q: Queue, s: Step)
    requires Inv(q) && Enabled(q, s)
    ensures Inv(Next(q, s))
  {
    StepKeepsTokens(q, s);
    StepKeepsWorkers(q, s);
    StepKeepsSending(q, s);
    StepKeepsTrail(q, s);
    StepKeepsHeld(q, s);
    FactsHold(q, s);
    forall e: EnvId ensures EnvelopeOk(Next(q, s), e) {
      StepKeepsEnvelope(q, s, e);
    }
  }

  // ----- runs -----

  predicate IsRun(q: Queue, steps: seq<Step>)
    decreases |steps|
  {
    steps == [] || (Enabled(q, steps[0]) && IsRun(Next(q, steps[0]), steps[1..]))
  }

  function After(q: Queue, steps: seq<Step>): Queue
    requires IsRun(q, steps)
    decreases |steps|
  {
    if steps == [] then q else After(Next(q, steps[0]), steps[1..])
  }

  lemma {:induction false} RunKeepsInv(q: Queue, steps: seq<Step>)
    requires Inv(q) && IsRun(q, steps)
    ensures Inv(After(q, steps))
    decreases |steps|
  {
    if steps != [] {
      StepKeepsInv(q, steps[0]);
      RunKeepsInv(Next(q, steps[0]), steps[1..]);
    }
  }

  lemma {:induction false} LimitStays(q: Queue, steps: seq<Step>)
    requires IsRun(q, steps)
    ensures After(q, steps).limit == q.limit
    decreases |steps|
  {
    hide Next, Enabled;
    if steps != [] {
      StepTokens(q, steps[0]);
      LimitStays(Next(q, steps[0]), steps[1..]);
    }
  }

  /** Safety of every run of a new queue. */
  lemma Safety(globalConcurrency: int, steps: seq<Step>)
    requires IsRun(New(globalConcurrency), steps)
    ensures var q := After(New(globalConcurrency), steps);
            // the pool: one token per running task, within the configured limit
            && q.tokens == |RunningWorkers(q)| <= (if globalConcurrency <= 0 then 16 else globalConcurrency)
            // one consumer per lane, hence at most one running task per lane
            && (forall v, w :: v in q.workers && w in q.workers && q.workers[v].lane == q.workers[w].lane ==> v == w)
            // a lane is served first come, first served
            && (forall l :: l in q.trail ==> q.trail[l].taken <= q.trail[l].sent)
            // at most one result, and it is of the right kind
            && (forall e :: e in q.results ==> |q.results[e]| == 1)
            && (forall e :: e in q.results ==> (q.results[e] == [Refused] <==> e !in q.home))
            && (forall e :: e in q.results && q.results[e] == [Cancelled] ==> e in q.cancelled)
            // an accepted envelope without a result is still in the queue
            && (forall e :: e in q.home && e !in q.results ==> InTransit(q, e))
  {
    var q0 := New(globalConcurrency);
    RunKeepsInv(q0, steps);
    LimitStays(q0, steps);
    var q := After(q0, steps);
    forall l | l in q.trail ensures q.trail[l].taken <= q.trail[l].sent {
      assert ChannelOk(q, l);
    }
    forall e | e in q.results || e in q.home ensures EnvelopeOk(q, e) {}
  }

  lemma ResultStays(q: Queue, s: Step, e: EnvId)
    requires Enabled(q, s) && StepFacts(q, s) && EnvelopeOk(q, e) && e in q.results
    ensures e in Next(q, s).results && Next(q, s).results[e] == q.results[e]
  {
  }

  /** A result, once delivered, is never changed or repeated. */
  lemma {:induction false} ResultsAreFinal(q: Queue, steps: seq<Step>, e: EnvId)
    requires Inv(q) && IsRun(q, steps) && e in q.results
    ensures e in After(q, steps).results && After(q, steps).results[e] == q.results[e]
    decreases |steps|
  {
    if steps != [] {
      StepKeepsInv(q, steps[0]);
      FactsHold(q, steps[0]);
      assert EnvelopeOk(q, e);
      ResultStays(q, steps[0], e);
      ResultsAreFinal(Next(q, steps[0]), steps[1..], e);
    }
  }

  // ----- a task is started at most once -----

  /** The envelope's task is running or has run. */
  predicate Begun(q: Queue, e: EnvId) {
    || (Held(q, e) && !q.workers[q.spawned[q.home[e]]].point.Waiting?)
    || (e in q.results && Finished in q.results[e])
  }

  /** The step starts the envelope's task. */
  predicate StartsTask(q: Queue, s: Step, e: EnvId)
    requires Enabled(q, s)
  {
    s.Acquire? && q.workers[s.w].point.e == e
  }

  /** How often a run starts the envelope's task. */
  function Starts(q: Queue, steps: seq<Step>, e: EnvId): nat
    requires IsRun(q, steps)
    decreases |steps|
  {
    if steps == [] then 0
    else (if StartsTask(q, steps[0], e) then 1 else 0) + Starts(Next(q, steps[0]), steps[1..], e)
  }

  predicate HeldAreAccepted(q: Queue) {
    forall w :: w in q.workers && !q.workers[w].point.Idle? ==> q.workers[w].point.e in q.home
  }

  lemma HoldersFacts(q: Queue)
    requires WorkersInv(q) && TrailInv(q) && HeldInv(q)
    ensures HeldAreAccepted(q)
  {
    forall w | w in q.workers && !q.workers[w].point.Idle? ensures q.workers[w].point.e in q.home {
      HeldIsTaken(q, w);
    }
  }

  lemma StepBegins(q: Queue, s: Step, e: EnvId)
    requires Enabled(q, s) && StepFacts(q, s) && EnvelopeOk(q, e) && HeldAreAccepted(q)
    ensures Begun(Next(q, s), e) <==> Begun(q, e) || StartsTask(q, s, e)
    ensures StartsTask(q, s, e) ==> !Begun(q, e)
  {
    if s.Acquire? || s.WaitCancelled? || s.Release? || s.Report? {
      WorkerBegins(q, s, s.w, e);
    } else {
      hide Begun, Next, Enabled, StepFacts, EnvelopeOk;
      match s
      case Lookup(_, _) => LookupBegins(q, s, e);
      case Take(_) => TakeBegins(q, s, e);
      case _ => OtherBegins(q, s, e);
    }
  }

  lemma OtherBegins(q: Queue, s: Step, e: EnvId)
    requires s.Send? || s.SendCancelled? || s.Refuse? || s.Cancel? || s.Exit? || s.Close?
    requires Enabled(q, s) && StepFacts(q, s)
    ensures Begun(Next(q, s), e) <==> Begun(q, e)
  {
    hide Move, TrailOf, Accepted;
  }

  lemma LookupBegins(q: Queue, s: Step, e: EnvId)
    requires s.Lookup? && Enabled(q, s) && StepFacts(q, s) && HeldAreAccepted(q)
    ensures Begun(Next(q, s), e) <==> Begun(q, e)
  {
    var q' := Next(q, s);
    NextOfLookup(q, s.e, s.lane);
    if e != s.e {
      LookupKeepsHeld(q, s, e);
    }
    hide Next, Enabled, TrailOf, StepFacts;
  }

  lemma TakeBegins(q: Queue, s: Step, e: EnvId)
    requires s.Take? && Enabled(q, s) && StepFacts(q, s)
    ensures Begun(Next(q, s), e) <==> Begun(q, e)
  {
    hide TrailOf;
  }

  lemma WorkerBegins(q: Queue, s: Step, w: WorkerId, e: EnvId)
    requires s == Acquire(w) || s == WaitCancelled(w) || s == Release(w) || s == Report(w)
    requires Enabled(q, s) && StepFacts(q, s) && EnvelopeOk(q, e)
    ensures Begun(Next(q, s), e) <==> Begun(q, e) || StartsTask(q, s, e)
    ensures StartsTask(q, s, e) ==> !Begun(q, e)
  {
  }

  lemma {:induction false} StartsCountBegun(q: Queue, steps: seq<Step>, e: EnvId)
    requires Inv(q) && IsRun(q, steps)
    ensures (if Begun(After(q, steps), e) then 1 else 0) == (if Begun(q, e) then 1 else 0) + Starts(q, steps, e)
    decreases |steps|
  {
    hide Begun, StartsTask, StepFacts, Enabled, Next, EnvelopeOk, HeldAreAccepted;
    if steps != [] {
      StepKeepsInv(q, steps[0]);
      HoldersFacts(q);
      FactsHold(q, steps[0]);
      assert EnvelopeOk(q, e);
      StepBegins(q, steps[0], e);
      StartsCountBegun(Next(q, steps[0]), steps[1..], e);
    }
  }

  /** In every run a task is started at most once, and once resolved it has been started exactly if its result says so. */
  lemma StartedAtMostOnce(globalConcurrency: int, steps: seq<Step>, e: EnvId)
    requires IsRun(New(globalConcurrency), steps)
    ensures var q := After(New(globalConcurrency), steps);
            && Starts(New(globalConcurrency), steps, e) <= 1
            && (e !in q.home ==> Starts(New(globalConcurrency), steps, e) == 0)
            && (e in q.results ==> (Starts(New(globalConcurrency), steps, e) == 1 <==> q.results[e] == [Finished]))
  {
    var q0 := New(globalConcurrency);
    var q := After(q0, steps);
    RunKeepsInv(q0, steps);
    StartsCountBegun(q0, steps, e);
    assert EnvelopeOk(q, e);
    if e in q.results {
      assert q.results[e] == [q.results[e][0]];
    }
  }

  // ----- progress: the workers always finish what was accepted -----

  /** Steps the queue takes by itself, given that tasks return. */
  predicate Internal(s: Step) { !s.Refuse? && !s.Lookup? && !s.Cancel? && !s.Close? }

  /** How many steps an envelope is away from its result, at most. */
  function Rank(q: Queue, e: EnvId): nat {
    if e in q.sending then 5
    else if Buffered(q, e) then 4
    else if Held(q, e) then
      match q.workers[q.spawned[q.home[e]]].point
      case Waiting(_) => 3
      case Running(_) => 2
      case Reporting(_) => 1
      case Idle => 0
    else 0
  }

  ghost function RankSum(q: Queue, es: set<EnvId>): nat {
    if es == {} then 0 else var e :| e in es; Rank(q, e) + RankSum(q, es - {e})
  }

  ghost function Measure(q: Queue): nat { RankSum(q, q.home.Keys) + |q.workers| }

  lemma {:induction false} RankSumLeq(q': Queue, q: Queue, es: set<EnvId>)
    requires forall e :: e in es ==> Rank(q', e) <= Rank(q, e)
    ensures RankSum(q', es) <= RankSum(q, es)
  {
    if es != {} {
      var e :| e in es && RankSum(q, es) == Rank(q, e) + RankSum(q, es - {e});
      RankSumSplit(q', es, e);
      RankSumLeq(q', q, es - {e});
    }
  }

  lemma {:induction false} RankSumSplit(q: Queue, es: set<EnvId>, e: EnvId)
    requires e in es
    ensures RankSum(q, es) == Rank(q, e) + RankSum(q, es - {e})
  {
    var x :| x in es && RankSum(q, es) == Rank(q, x) + RankSum(q, es - {x});
    if x != e {
      RankSumSplit(q, es - {x}, e);
      RankSumSplit(q, es - {e}, x);
      assert es - {x} - {e} == es - {e} - {x};
    }
  }

  lemma RankSumLess(q': Queue, q: Queue, es: set<EnvId>, e: EnvId)
    requires e in es && Rank(q', e) < Rank(q, e)
    requires forall x :: x in es ==> Rank(q', x) <= Rank(q, x)
    ensures RankSum(q', es) < RankSum(q, es)
  {
    RankSumSplit(q, es, e);
    RankSumSplit(q', es, e);
    RankSumLeq(q', q, es - {e});
  }

  /** The envelope an internal step moves, if any. */
  function Mover(q: Queue, s: Step): EnvId
    requires Enabled(q, s) && Internal(s) && !s.Exit?
  {
    match s
    case Send(e) => e
    case SendCancelled(e) => e
    case Take(w) => q.lanes[q.workers[w].lane][0]
    case Acquire(w) => q.workers[w].point.e
    case WaitCancelled(w) => q.workers[w].point.e
    case Release(w) => q.workers[w].point.e
    case Report(w) => q.workers[w].point.e
  }

  lemma SendRanks(q: Queue, s: Step, x: EnvId)
    requires (s.Send? || s.SendCancelled?) && Enabled(q, s) && StepFacts(q, s) && EnvelopeOk(q, s.e)
    requires s.e in q.home && q.home[s.e] in q.lanes && !Buffered(q, s.e) && !Held(q, s.e)
    ensures Rank(Next(q, s), x) <= Rank(q, x)
    ensures x == s.e ==> Rank(Next(q, s), x) < Rank(q, x)
  {
  }

  lemma TakeRanks(q: Queue, s: Step, x: EnvId)
    requires s.Take? && Enabled(q, s) && StepFacts(q, s)
    requires forall v, w :: v in q.workers && w in q.workers && q.workers[v].lane == q.workers[w].lane ==> v == w
    ensures Rank(Next(q, s), x) <= Rank(q, x)
    ensures x == Mover(q, s) ==> Rank(Next(q, s), x) < Rank(q, x)
  {
  }

  lemma WorkerRanks(q: Queue, s: Step, x: EnvId)
    requires (s.Acquire? || s.Release? || s.WaitCancelled? || s.Report?) && Enabled(q, s) && StepFacts(q, s)
    ensures Rank(Next(q, s), x) <= Rank(q, x)
    ensures x == Mover(q, s) ==> Rank(Next(q, s), x) < Rank(q, x)
  {
  }

  lemma ExitRanks(q: Queue, s: Step, x: EnvId)
    requires s.Exit? && Enabled(q, s) && StepFacts(q, s)
    ensures Rank(Next(q, s), x) <= Rank(q, x)
  {
  }

  lemma InternalStepLowersMeasure(q: Queue, s: Step)
    requires Inv(q) && Enabled(q, s) && Internal(s)
    ensures Measure(Next(q, s)) < Measure(q)
  {
    hide ChannelOk, AddressOk, HoldsLast, Log, Rank;
    var q' := Next(q, s);
    FactsHold(q, s);
    if s.Exit? {
      forall x | x in q.home ensures Rank(q', x) <= Rank(q, x) { ExitRanks(q, s, x); }
      RankSumLeq(q', q, q.home.Keys);
    } else {
      var e := Mover(q, s);
      forall x | x in q.home
        ensures Rank(q', x) <= Rank(q, x) && (x == e ==> Rank(q', x) < Rank(q, x))
      {
        if s.Send? || s.SendCancelled? {
          SendingIsNotSent(q, e);
          SendRanks(q, s, x);
        } else if s.Take? {
          TakeRanks(q, s, x);
        } else {
          WorkerRanks(q, s, x);
        }
      }
      RankSumLess(q', q, q.home.Keys, e);
      assert q'.home == q.home && |q'.workers| == |q.workers|;
    }
  }

  lemma LookupRank(q: Queue, s: Step, x: EnvId)
    requires s.Lookup? && Enabled(q, s) && StepFacts(q, s) && x != s.e
    ensures Rank(Next(q, s), x) <= Rank(q, x)
  {
    LookupKeepsBuffered(q, s, x);
    LookupKeepsHeld(q, s, x);
    hide Buffered, TrailOf;
  }

  lemma FactsOfInv(q: Queue, s: Step)
    requires Inv(q) && Enabled(q, s)
    ensures StepFacts(q, s)
  {
    FactsHold(q, s);
  }

  lemma OneMoreEntry<K, V>(m: map<K, V>, k: K, v: V)
    ensures m[k := v].Keys == m.Keys + {k} && |m[k := v]| <= |m| + 1
  {
    assert |m[k := v].Keys| <= |m.Keys| + 1;
  }

  lemma LookupCounts(q: Queue, s: Step)
    requires s.Lookup? && Enabled(q, s)
    ensures var q' := Next(q, s);
            q'.home.Keys == q.home.Keys + {s.e} && s.e !in q.home && |q'.workers| <= |q.workers| + 1
  {
    NextOfLookup(q, s.e, s.lane);
    hide Next, Enabled, TrailOf;
    OneMoreEntry(q.home, s.e, s.lane);
    OneMoreEntry(q.workers, q.nextWorker, Worker(s.lane, Idle));
  }

  lemma RankSumGrows(q': Queue, q: Queue, es: set<EnvId>, e: EnvId)
    requires e !in es && forall x :: x in es ==> Rank(q', x) <= Rank(q, x)
    ensures RankSum(q', es + {e}) <= RankSum(q, es) + 5
  {
    hide Rank;
    RankSumLeq(q', q, es);
    RankSumSplit(q', es + {e}, e);
    assert es + {e} - {e} == es;
    RankIsSmall(q', e);
  }

  /** An accepted envelope adds at most six steps: five of its own, and one for a new worker. */
  lemma LookupRaisesMeasure(q: Queue, s: Step)
    requires Inv(q) && s.Lookup? && Enabled(q, s)
    ensures Measure(Next(q, s)) <= Measure(q) + 6
  {
    hide Inv, Rank, StepFacts, Next, Enabled;
    var q' := Next(q, s);
    FactsOfInv(q, s);
    LookupCounts(q, s);
    forall x | x in q.home ensures Rank(q', x) <= Rank(q, x) {
      LookupRank(q, s, x);
    }
    RankSumGrows(q', q, q.home.Keys, s.e);
  }

  lemma RankIsSmall(q: Queue, e: EnvId)
    ensures Rank(q, e) <= 5
  {
  }

  /** However the workers interleave, they take at most Measure(q) steps. */
  lemma {:induction false} InternalRunsEnd(q: Queue, steps: seq<Step>)
    requires Inv(q) && IsRun(q, steps) && forall s :: s in steps ==> Internal(s)
    ensures |steps| <= Measure(q)
    decreases |steps|
  {
    if steps != [] {
      InternalStepLowersMeasure(q, steps[0]);
      StepKeepsInv(q, steps[0]);
      InternalRunsEnd(Next(q, steps[0]), steps[1..]);
    }
  }

  /** Nothing left for the workers to do. */
  ghost predicate Quiescent(q: Queue) { forall s: Step :: Internal(s) ==> !Enabled(q, s) }

  /** A step that is possible as long as an envelope is in the queue. */
  function NextFor(q: Queue, e: EnvId): Step
    requires e in q.home && q.home[e] in q.lanes && q.home[e] in q.spawned && q.spawned[q.home[e]] in q.workers
  {
    var l := q.home[e];
    var w := q.spawned[l];
    if e in q.sending && |q.lanes[l]| < LANE_CAPACITY then Send(e)
    else match q.workers[w].point
      case Idle => Take(w)
      case Waiting(_) => Acquire(w)
      case Running(_) => Release(w)
      case Reporting(_) => Report(w)
  }

  lemma NotStuckWith(q: Queue, e: EnvId)
    requires Inv(q) && e in q.home && InTransit(q, e)
    ensures !Quiescent(q)
  {
    hide ChannelOk, AddressOk, HoldsLast, Next;
    var l := q.home[e];
    assert l in q.lanes;
    var s := NextFor(q, e);
    var w := q.spawned[l];
    assert q.workers[w].point.Running? ==> w in RunningWorkers(q);
    if !Enabled(q, s) {
      assert s.Acquire? && q.tokens == q.limit;
      assert |RunningWorkers(q)| > 0;
      var v :| v in RunningWorkers(q);
      assert Enabled(q, Release(v)) && Internal(Release(v));
    } else {
      assert Internal(s);
    }
  }

  lemma ResolvedIfQuiescent(q: Queue, e: EnvId)
    requires Inv(q) && Quiescent(q) && e in q.home
    ensures e in q.results && |q.results[e]| == 1 && !InTransit(q, e)
  {
    hide ChannelOk, AddressOk, HoldsLast;
    assert EnvelopeOk(q, e);
    if InTransit(q, e) { NotStuckWith(q, e); }
  }

  lemma WorkersRest(q: Queue, w: WorkerId)
    requires Inv(q) && Quiescent(q) && w in q.workers
    ensures q.workers[w].point.Idle? && q.lanes[q.workers[w].lane] == [] && !q.closed
  {
    assert Internal(Take(w)) && Internal(Acquire(w)) && Internal(Release(w)) && Internal(Report(w)) && Internal(Exit(w));
    if !q.workers[w].point.Idle? {
      HeldIsTaken(q, w);
      assert Held(q, q.workers[w].point.e);
      ResolvedIfQuiescent(q, q.workers[w].point.e);
    }
  }

  lemma NothingIsSent(q: Queue)
    requires Inv(q) && Quiescent(q)
    ensures q.sending == map[]
  {
    forall e ensures e !in q.sending {
      if e in q.sending {
        ResolvedIfQuiescent(q, e);
      }
    }
  }

  /**
    When the workers stop, every envelope ever accepted has its one result; after Close the lanes and
    the workers are gone as well.
   */
  lemma QuiescentMeansResolved(q: Queue)
    requires Inv(q) && Quiescent(q)
    ensures forall e :: e in q.home ==> e in q.results && |q.results[e]| == 1 && !InTransit(q, e)
    ensures q.closed ==> q.lanes == map[] && q.workers == map[]
    ensures q.tokens == 0 && q.sending == map[]
    ensures forall w :: w in q.workers ==> q.workers[w].point.Idle? && q.lanes[q.workers[w].lane] == []
  {
    forall e | e in q.home ensures e in q.results && |q.results[e]| == 1 && !InTransit(q, e) {
      ResolvedIfQuiescent(q, e);
    }
    hide InTransit, ResultsInv, TrailInv, HeldInv, Quiescent;
    forall w | w in q.workers
      ensures q.workers[w].point.Idle? && q.lanes[q.workers[w].lane] == [] && !q.closed
    {
      WorkersRest(q, w);
    }
    NothingIsSent(q);
    assert forall l :: l in q.lanes ==> q.spawned[l] in q.workers;
    assert RunningWorkers(q) == {};
  }

  /** From every state the workers reach such an end. */
  lemma Drain(q: Queue) returns (steps: seq<Step>)
    requires Inv(q)
    ensures IsRun(q, steps) && Quiescent(After(q, steps))
    ensures forall s :: s in steps ==> Internal(s)
    decreases Measure(q)
  {
    if Quiescent(q) {
      steps := [];
    } else {
      var s: Step :| Internal(s) && Enabled(q, s);
      InternalStepLowersMeasure(q, s);
      StepKeepsInv(q, s);
      var rest := Drain(Next(q, s));
      steps := [s] + rest;
    }
  }
}

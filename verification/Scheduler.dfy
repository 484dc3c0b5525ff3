/**
  The scheduler (cli/scheduler/scheduler.go, cli/scheduler/resolve.go): which due time a job has, what
  follows it, and the tick that enqueues due jobs.  Instants are nanoseconds since Go's zero time.
 */
module Scheduler {
  import opened Arithmetic
  import opened Calendar
  import opened Cron
  import opened CronField
  import opened Text

  type Time = nat
  type JobId = string

  /** A job's schedule: what ParseAtTime, time.ParseDuration or parseCron make of its text, None for an error. */
  datatype Schedule = AtTime(time: Option<Time>) | Every(period: Option<int>) | Crontab(expr: Option<CronExpr>)

  datatype Job = Job(schedule: Schedule, created: Time, lastRun: Option<Time>, nextRun: Option<Time>, enabled: bool)

  /** A catch-up loop ends if it has a positive period or nothing to catch up. */
  predicate Ends(next: int, d: int, bound: int) { d > 0 || bound <= next }

  predicate IsSet(t: Option<Time>) { t.Some? && t.value != 0 }

  // ----- catching up -----

  /** The first of next, next + d, next + 2d, ... that is not before `bound`. */
  function FirstFrom(next: Time, d: int, bound: Time): (r: Time)
    requires Ends(next, d, bound)
    ensures bound <= r && next <= r
    decreases if next < bound then bound - next else 0
  {
    if next < bound then FirstFrom(next + d, d, bound) else next
  }

  /** FirstFrom keeps the phase and is the least instant of the phase from the bound on. */
  lemma {:induction false} FirstFromMeaning(next: Time, d: int, bound: Time)
    requires d > 0
    ensures var r := FirstFrom(next, d, bound);
            && (exists k: nat :: r == next + k * d)
            && (forall k: nat :: bound <= next + k * d ==> r <= next + k * d)
    decreases if next < bound then bound - next else 0
  {
    var r := FirstFrom(next, d, bound);
    if next < bound {
      FirstFromMeaning(next + d, d, bound);
      var j: nat :| r == next + d + j * d;
      assert r == next + (j + 1) * d;
      forall k: nat | bound <= next + k * d ensures r <= next + k * d {
        if k >= 1 {
          assert next + k * d == next + d + (k - 1) * d;
          var i: nat := k - 1;
          assert bound <= next + d + i * d;
        }
      }
    } else {
      assert r == next + 0 * d;
      forall k: nat ensures r <= next + k * d {
        assert 0 <= k * d;
      }
    }
  }

  method CatchUp(start: Time, d: int, bound: Time) returns (next: Time)
    requires Ends(start, d, bound)
    ensures next == FirstFrom(start, d, bound)
  {
    next := start;
    while next < bound
      invariant Ends(next, d, bound) && FirstFrom(next, d, bound) == FirstFrom(start, d, bound)
      decreases if next < bound then bound - next else 0
    {
      next := next + d;
    }
  }

  // ----- due times -----

  function Base(job: Job): Time { if IsSet(job.lastRun) then job.lastRun.value else job.created }

  /** ResolveNextRun ends for this job. */
  predicate NextEnds(job: Job, now: Time) {
    IsSet(job.nextRun) ||
    (job.schedule.Every? && job.schedule.period.Some? ==>
       Ends(Base(job) + job.schedule.period.value, job.schedule.period.value, now))
  }

  /** ResolveAfterTrigger ends for this job. */
  predicate AfterEnds(job: Job, due: Time, now: Time) {
    job.schedule.Every? && job.schedule.period.Some? ==>
      Ends(due + job.schedule.period.value, job.schedule.period.value, now + 1)
  }

  /** ResolveNextRun; None is an error, 0 the zero time. */
  function ResolveNextRun(job: Job, now: Time): Option<Time>
    requires NextEnds(job, now)
  {
    if IsSet(job.nextRun) then job.nextRun else
      match job.schedule
      case AtTime(time) => time
      case Every(period) =>
        if period.None? then None else Some(FirstFrom(Base(job) + period.value, period.value, now))
      case Crontab(expr) =>
        match expr
        case None => None
        case Some(c) => if Matches(c, now / MINUTE) then Some(now / MINUTE * MINUTE) else Some(Next(c, now))
  }

  datatype After = Failed | NextIs(next: Option<Time>, enabled: bool)

  function ResolveAfterTrigger(job: Job, due: Time, now: Time): After
    requires AfterEnds(job, due, now)
  {
    match job.schedule
    case AtTime(_) => NextIs(None, false)
    case Every(period) =>
      if period.None? then Failed else NextIs(Some(FirstFrom(due + period.value, period.value, now + 1)), true)
    case Crontab(expr) =>
      match expr
      case None => Failed
      case Some(c) => if Next(c, due) == 0 then Failed else NextIs(Some(Next(c, due)), true)
  }

  /** ResolveNextRun and ResolveAfterTrigger as the code computes them, with their loops. */
  method NextRunOf(job: Job, now: Time) returns (r: Option<Time>)
    requires NextEnds(job, now)
    ensures r == ResolveNextRun(job, now)
  {
    if IsSet(job.nextRun) {
      return job.nextRun;
    }
    match job.schedule {
      case AtTime(time) => return time;
      case Every(period) =>
        if period.None? {
          return None;
        }
        var next := CatchUp(Base(job) + period.value, period.value, now);
        return Some(next);
      case Crontab(expr) =>
        if expr.None? {
          return None;
        }
        if Matches(expr.value, now / MINUTE) {
          return Some(now / MINUTE * MINUTE);
        }
        var next := NextRun(expr.value, now);
        return Some(next);
    }
  }

  method RunAfter(job: Job, due: Time, now: Time) returns (r: After)
    requires AfterEnds(job, due, now)
    ensures r == ResolveAfterTrigger(job, due, now)
  {
    match job.schedule {
      case AtTime(_) => return NextIs(None, false);
      case Every(period) =>
        if period.None? {
          return Failed;
        }
        var next := CatchUp(due + period.value, period.value, now + 1);
        return NextIs(Some(next), true);
      case Crontab(expr) =>
        if expr.None? {
          return Failed;
        }
        var next := NextRun(expr.value, due);
        return if next == 0 then Failed else NextIs(Some(next), true);
    }
  }

  // ----- one job over time -----

  /** What is kept about one job: its row, its entry of lastTrigger, and (history) the due times enqueued so far. */
  datatype Cell = Cell(job: Job, last: Option<Time>, dues: seq<Time>)

  /** The due time a tick finds for the job, if any. */
  function DueAt(job: Job, last: Option<Time>, now: Time): Option<Time> {
    if !job.enabled || !NextEnds(job, now) then None else
      match ResolveNextRun(job, now)
      case None => None
      case Some(due) => if due == 0 || now < due || last == Some(due) then None else Some(due)
  }

  /** The tick's work on the job ends. */
  predicate TickEnds(job: Job, last: Option<Time>, now: Time) {
    job.enabled ==>
      NextEnds(job, now) && (DueAt(job, last, now).Some? ==> AfterEnds(job, DueAt(job, last, now).value, now))
  }

  /** The tick enqueues the job. */
  predicate Enqueues(job: Job, last: Option<Time>, now: Time) { TickEnds(job, last, now) && DueAt(job, last, now).Some? }

  function Advance(job: Job, due: Time, now: Time): Job
    requires AfterEnds(job, due, now)
  {
    match ResolveAfterTrigger(job, due, now)
    case Failed => job
    case NextIs(next, enabled) => job.(nextRun := next, enabled := enabled)
  }

  /** What a tick does to one job. */
  function TickCell(cell: Cell, now: Time): Cell
    requires TickEnds(cell.job, cell.last, now)
  {
    match DueAt(cell.job, cell.last, now)
    case None => cell
    case Some(due) => Cell(Advance(cell.job, due, now), Some(due), cell.dues + [due])
  }

  /** Ticks, the result of a run, which sets lastRun, and a restart, which forgets the last trigger. */
  datatype Event = Tick(now: Time) | Ran(at: Time) | Restart

  predicate EventEnds(cell: Cell, e: Event) { e.Tick? ==> TickEnds(cell.job, cell.last, e.now) }

  function Apply(cell: Cell, e: Event): (r: Cell)
    requires EventEnds(cell, e)
    ensures r.job.schedule == cell.job.schedule
  {
    match e
    case Tick(now) => TickCell(cell, now)
    case Ran(at) => cell.(job := cell.job.(lastRun := Some(at)))
    case Restart => cell.(last := None)
  }

  function Clock(before: Time, e: Event): Time { if e.Tick? then e.now else before }

  predicate ClockRuns(before: Time, events: seq<Event>)
    decreases |events|
  {
    events == [] || (before <= Clock(before, events[0]) && ClockRuns(Clock(before, events[0]), events[1..]))
  }

  /** A tick that does not end is the last thing that happens. */
  function Run(cell: Cell, events: seq<Event>): (r: Cell)
    ensures r.job.schedule == cell.job.schedule
    decreases |events|
  {
    if events == [] || !EventEnds(cell, events[0]) then cell else Run(Apply(cell, events[0]), events[1..])
  }

  /** Where a job that has been enqueued for `due` stands. */
  predicate Follows(job: Job, due: Time, clock: Time) {
    && due <= clock
    && match job.schedule
       case AtTime(_) => !job.enabled
       case Every(period) =>
         if period.None? then job.nextRun == Some(due)
         else period.value > 0 && job.nextRun.Some? && due < job.nextRun.value && (job.nextRun.value - due) % period.value == 0
       case Crontab(expr) =>
         if expr.None? then job.nextRun == Some(due)
         else if Next(expr.value, due) == 0 then
           job.nextRun == Some(due) || (!IsSet(job.nextRun) && due % MINUTE == 0)
         else job.nextRun == Some(Next(expr.value, due))
  }

  /** A job that is due then gets a next run, or is switched off. */
  predicate SuccessorFound(s: Schedule, due: Time) {
    match s
    case AtTime(_) => true
    case Every(period) => period.Some?
    case Crontab(expr) => expr.Some? && Next(expr.value, due) != 0
  }

  /** How consecutive due times of a job are related, strictly if the last trigger has not been forgotten. */
  predicate Succeeds(s: Schedule, due: Time, due': Time, strict: bool) {
    && due <= due' && (strict || SuccessorFound(s, due) ==> due < due')
    && (s.Every? && s.period.Some? ==> s.period.value > 0 && (due' - due) % s.period.value == 0)
    && (s.Crontab? && s.expr.Some? && Next(s.expr.value, due) != 0 ==> due' == Next(s.expr.value, due))
    && !s.AtTime?
  }

  predicate Chain(s: Schedule, dues: seq<Time>, strict: bool) {
    forall i :: 0 <= i < |dues| - 1 ==> Succeeds(s, dues[i], dues[i + 1], strict)
  }

  predicate CellInv(cell: Cell, clock: Time, strict: bool) {
    && Chain(cell.job.schedule, cell.dues, strict)
    && (cell.dues == [] ==> cell.last.None?)
    && (cell.dues != [] ==> LastIs(cell.last, cell.dues[|cell.dues| - 1], strict) &&
                            Follows(cell.job, cell.dues[|cell.dues| - 1], clock))
  }

  predicate LastIs(last: Option<Time>, due: Time, strict: bool) { last == Some(due) || (!strict && last == None) }

  lemma EveryFollows(due: Time, d: int, now: Time)
    requires d > 0 && due <= now
    ensures var next := FirstFrom(due + d, d, now + 1); due < next && (next - due) % d == 0
  {
    FirstFromMeaning(due + d, d, now + 1);
    var next := FirstFrom(due + d, d, now + 1);
    var k: nat :| next == due + d + k * d;
    assert next - due == (k + 1) * d + 0;
    ModIs(k + 1, 0, d);
  }

  /** A cron job without a stored next run is due at the current minute or not at all. */
  lemma UnsetIsDueNow(job: Job, last: Option<Time>, now: Time)
    requires job.schedule.Crontab? && !IsSet(job.nextRun) && DueAt(job, last, now).Some?
    ensures DueAt(job, last, now).value == now / MINUTE * MINUTE
    ensures DueAt(job, last, now).value % MINUTE == 0
    ensures job.schedule.expr.Some?
  {
    NextMeaning(job.schedule.expr.value, now);
    WholeMinutes(now / MINUTE, 0);
  }

  /** After a tick the job stands as `Follows` says. */
  lemma AdvanceFollows(job: Job, last: Option<Time>, now: Time)
    requires Enqueues(job, last, now)
    ensures Follows(Advance(job, DueAt(job, last, now).value, now), DueAt(job, last, now).value, now)
  {
    var due := DueAt(job, last, now).value;
    match job.schedule
    case AtTime(_) =>
    case Every(period) =>
      if period.Some? { EveryFollows(due, period.value, now); }
    case Crontab(_) =>
      if !IsSet(job.nextRun) { UnsetIsDueNow(job, last, now); }
  }

  lemma FloorIsMonotone(due: Time, now: Time)
    requires due <= now && due % MINUTE == 0
    ensures due <= now / MINUTE * MINUTE
  {
  }

  lemma EverySucceeds(job: Job, due: Time, last: Option<Time>, clock: Time, now: Time, strict: bool)
    requires job.schedule.Every? && Follows(job, due, clock) && LastIs(last, due, strict)
    requires DueAt(job, last, now).Some?
    ensures Succeeds(job.schedule, due, DueAt(job, last, now).value, strict)
  {
    hide FirstFrom;
    if job.schedule.period.Some? || IsSet(job.nextRun) {
      assert DueAt(job, last, now) == job.nextRun;
    }
  }

  lemma CrontabSucceeds(job: Job, due: Time, last: Option<Time>, clock: Time, now: Time, strict: bool)
    requires job.schedule.Crontab? && Follows(job, due, clock) && clock <= now && LastIs(last, due, strict)
    requires DueAt(job, last, now).Some?
    ensures Succeeds(job.schedule, due, DueAt(job, last, now).value, strict)
  {
    hide DueAt, Next;
    DueIsNew(job, last, now);
    if IsSet(job.nextRun) {
      NextOfSet(job, due, last, now);
    } else {
      UnsetIsDueNow(job, last, now);
      if due % MINUTE == 0 { FloorIsMonotone(due, now); }
    }
  }

  lemma DueIsNew(job: Job, last: Option<Time>, now: Time)
    requires job.schedule.Crontab? && DueAt(job, last, now).Some?
    ensures DueAt(job, last, now) != last
  {
    hide Next, Matches;
  }

  /** The due time a tick finds succeeds the one before it. */
  lemma DueSucceeds(job: Job, due: Time, last: Option<Time>, clock: Time, now: Time, strict: bool)
    requires Follows(job, due, clock) && clock <= now && LastIs(last, due, strict)
    requires DueAt(job, last, now).Some?
    ensures Succeeds(job.schedule, due, DueAt(job, last, now).value, strict)
  {
    hide Succeeds, Next;
    if job.schedule.Every? {
      EverySucceeds(job, due, last, clock, now, strict);
    } else if job.schedule.Crontab? {
      CrontabSucceeds(job, due, last, clock, now, strict);
    }
  }

  lemma NextOfSet(job: Job, due: Time, last: Option<Time>, now: Time)
    requires job.schedule.Crontab? && IsSet(job.nextRun) && DueAt(job, last, now).Some?
    ensures DueAt(job, last, now) == job.nextRun
    ensures job.schedule.expr.Some? && Next(job.schedule.expr.value, due) != 0 ==>
              due < Next(job.schedule.expr.value, due)
  {
    if job.schedule.expr.Some? {
      NextMeaning(job.schedule.expr.value, due);
    }
  }

  lemma ChainGrows(s: Schedule, dues: seq<Time>, due: Time, strict: bool)
    requires Chain(s, dues, strict) && (dues != [] ==> Succeeds(s, dues[|dues| - 1], due, strict))
    ensures Chain(s, dues + [due], strict)
  {
    var longer := dues + [due];
    forall i | 0 <= i < |longer| - 1 ensures Succeeds(s, longer[i], longer[i + 1], strict) {
      if i < |dues| - 1 {
        assert Succeeds(s, dues[i], dues[i + 1], strict);
      }
    }
  }

  lemma LaterFollows(job: Job, job': Job, due: Time, clock: Time, later: Time)
    requires Follows(job, due, clock) && clock <= later
    requires job'.schedule == job.schedule && job'.nextRun == job.nextRun && job'.enabled == job.enabled
    ensures Follows(job', due, later)
  {
  }

  lemma EventKeepsInv(cell: Cell, clock: Time, e: Event, strict: bool)
    requires CellInv(cell, clock, strict) && clock <= Clock(clock, e) && (strict ==> !e.Restart?) && EventEnds(cell, e)
    ensures CellInv(Apply(cell, e), Clock(clock, e), strict)
  {
    hide DueAt, Advance, Follows, Succeeds, Chain;
    var n := |cell.dues|;
    if e.Tick? && DueAt(cell.job, cell.last, e.now).Some? {
      AdvanceFollows(cell.job, cell.last, e.now);
      if n > 0 {
        DueSucceeds(cell.job, cell.dues[n - 1], cell.last, clock, e.now, strict);
      }
      ChainGrows(cell.job.schedule, cell.dues, DueAt(cell.job, cell.last, e.now).value, strict);
    } else if n > 0 {
      LaterFollows(cell.job, Apply(cell, e).job, cell.dues[n - 1], clock, Clock(clock, e));
    }
  }

  predicate NoRestart(events: seq<Event>) { forall e :: e in events ==> !e.Restart? }

  lemma {:induction false} RunKeepsInv(cell: Cell, clock: Time, events: seq<Event>, strict: bool)
    requires CellInv(cell, clock, strict) && ClockRuns(clock, events) && (strict ==> NoRestart(events))
    ensures Chain(Run(cell, events).job.schedule, Run(cell, events).dues, strict)
    decreases |events|
  {
    hide Apply, Follows, Chain, LastIs, EventEnds;
    if events != [] && EventEnds(cell, events[0]) {
      assert events[0] in events && forall e :: e in events[1..] ==> e in events;
      EventKeepsInv(cell, clock, events[0], strict);
      RunKeepsInv(Apply(cell, events[0]), Clock(clock, events[0]), events[1..], strict);
    }
  }

  lemma {:induction false} ChainIncreases(s: Schedule, dues: seq<Time>, i: nat, j: nat, strict: bool)
    requires Chain(s, dues, strict) && i < j < |dues|
    ensures dues[i] <= dues[j] && (strict || SuccessorFound(s, dues[i]) ==> dues[i] < dues[j])
    decreases j
  {
    assert Succeeds(s, dues[j - 1], dues[j], strict);
    if i < j - 1 {
      ChainIncreases(s, dues, i, j - 1, strict);
    }
  }

  function DuesOfRun(job: Job, events: seq<Event>): seq<Time> { Run(Cell(job, None, []), events).dues }

  lemma DuesAreChained(job: Job, start: Time, events: seq<Event>, strict: bool)
    requires ClockRuns(start, events) && (strict ==> NoRestart(events))
    ensures Chain(job.schedule, DuesOfRun(job, events), strict)
  {
    RunKeepsInv(Cell(job, None, []), start, events, strict);
  }

  /**
    Over any sequence of ticks, run results and restarts on a clock that does not go back: due times do not decrease,
    and increase after one that has a successor; an "at" job fires at most once; an "every" job keeps its phase; and a
    cron job skips no matching minute after a due time whose five-year search finds one.
   */
  lemma DueTimesOfAJob(job: Job, start: Time, events: seq<Event>)
    requires ClockRuns(start, events)
    ensures var dues := DuesOfRun(job, events);
            && (forall i, j :: 0 <= i < j < |dues| ==> dues[i] <= dues[j])
            && (forall i, j :: 0 <= i < j < |dues| && SuccessorFound(job.schedule, dues[i]) ==> dues[i] < dues[j])
            && (job.schedule.AtTime? ==> |dues| <= 1)
            && (forall i, j :: 0 <= i < |dues| && j == i + 1 < |dues| ==> InPhase(job.schedule, dues[i], dues[j]))
            && (forall i, j :: 0 <= i < |dues| && j == i + 1 < |dues| && SearchFinds(job.schedule, dues[i]) ==>
                  NoneSkipped(job.schedule, dues[i], dues[j]))
  {
    hide Run, SearchFinds, NoneSkipped, SuccessorFound, DuesOfRun;
    DuesAreChained(job, start, events, false);
    var dues := DuesOfRun(job, events);
    forall i, j | 0 <= i < j < |dues|
      ensures dues[i] <= dues[j] && (SuccessorFound(job.schedule, dues[i]) ==> dues[i] < dues[j])
    {
      ChainIncreases(job.schedule, dues, i, j, false);
    }
    forall i, j | 0 <= i < |dues| && j == i + 1 < |dues|
      ensures InPhase(job.schedule, dues[i], dues[j]) && !job.schedule.AtTime?
      ensures SearchFinds(job.schedule, dues[i]) ==> NoneSkipped(job.schedule, dues[i], dues[j])
    {
      assert Succeeds(job.schedule, dues[i], dues[i + 1], false);
      if SearchFinds(job.schedule, dues[i]) {
        SuccessorIsNextMatch(job.schedule, dues[i], dues[j]);
      }
    }
    if |dues| > 1 {
      assert Succeeds(job.schedule, dues[0], dues[0 + 1], false);
    }
  }

  /** Without a restart due times strictly increase, so no (job, due time) is enqueued twice. */
  lemma NoneIsRepeated(job: Job, start: Time, events: seq<Event>, i: nat, j: nat)
    requires ClockRuns(start, events) && NoRestart(events)
    requires i < j < |DuesOfRun(job, events)|
    ensures DuesOfRun(job, events)[i] < DuesOfRun(job, events)[j]
  {
    DuesAreChained(job, start, events, true);
    ChainIncreases(job.schedule, DuesOfRun(job, events), i, j, true);
  }

  // ----- what a restart can repeat -----

  lemma {:induction false} DuesAreAppended(cell: Cell, events: seq<Event>, before: seq<Time>)
    ensures Run(cell.(dues := before + cell.dues), events).dues == before + Run(cell, events).dues
    decreases |events|
  {
    hide DueAt, Advance, TickEnds;
    if events != [] && EventEnds(cell, events[0]) {
      var e := events[0];
      AppliedAfter(cell, e, before);
      DuesAreAppended(Apply(cell, e), events[1..], before);
    }
  }

  lemma AppliedAfter(cell: Cell, e: Event, before: seq<Time>)
    requires EventEnds(cell, e)
    ensures Apply(cell.(dues := before + cell.dues), e) == Apply(cell, e).(dues := before + Apply(cell, e).dues)
  {
    hide DueAt, Advance, TickEnds;
    if e.Tick? && DueAt(cell.job, cell.last, e.now).Some? {
      var due := DueAt(cell.job, cell.last, e.now).value;
      assert before + cell.dues + [due] == before + (cell.dues + [due]);
    }
  }

  /** The due times after the tick at `now` that enqueued one. */
  function LaterDues(cell: Cell, now: Time, events: seq<Event>): seq<Time>
    requires Enqueues(cell.job, cell.last, now)
  {
    Run(TickCell(cell, now).(dues := []), events).dues
  }

  lemma LaterDuesAreLater(cell: Cell, now: Time, events: seq<Event>)
    requires Enqueues(cell.job, cell.last, now)
    ensures Run(TickCell(cell, now), events).dues ==
              cell.dues + [DueAt(cell.job, cell.last, now).value] + LaterDues(cell, now, events)
  {
    var due := DueAt(cell.job, cell.last, now).value;
    var clean := TickCell(cell, now).(dues := []);
    assert cell.dues + [due] + clean.dues == TickCell(cell, now).dues;
    DuesAreAppended(clean, events, cell.dues + [due]);
  }

  lemma FoundIsNotRepeated(cell: Cell, now: Time, events: seq<Event>)
    requires Enqueues(cell.job, cell.last, now) && ClockRuns(now, events)
    requires SuccessorFound(cell.job.schedule, DueAt(cell.job, cell.last, now).value)
    ensures DueAt(cell.job, cell.last, now).value !in LaterDues(cell, now, events)
  {
    hide DueAt, Next, Advance, Follows;
    var due := DueAt(cell.job, cell.last, now).value;
    var one := TickCell(cell, now).(dues := [due]);
    AdvanceFollows(cell.job, cell.last, now);
    assert TickCell(cell, now) == Apply(cell, Tick(now));
    RunKeepsInv(one, now, events, false);
    var clean := one.(dues := []);
    assert [due] + clean.dues == [due];
    DuesAreAppended(clean, events, [due]);
    var all := Run(one, events).dues;
    assert all == [due] + LaterDues(cell, now, events);
    forall k | 0 <= k < |LaterDues(cell, now, events)| ensures LaterDues(cell, now, events)[k] != due {
      ChainIncreases(cell.job.schedule, all, 0, k + 1, false);
      assert all[k + 1] == LaterDues(cell, now, events)[k];
    }
  }

  /** A restart and a tick at once repeat a due time without a successor. */
  lemma FailedIsRepeated(cell: Cell, now: Time)
    requires Enqueues(cell.job, cell.last, now)
    requires !SuccessorFound(cell.job.schedule, DueAt(cell.job, cell.last, now).value)
    ensures ClockRuns(now, [Restart, Tick(now)])
    ensures LaterDues(cell, now, [Restart, Tick(now)]) == [DueAt(cell.job, cell.last, now).value]
  {
    var due := DueAt(cell.job, cell.last, now).value;
    assert Advance(cell.job, due, now) == cell.job;
    var clean := TickCell(cell, now).(dues := []);
    assert DueAt(cell.job, None, now) == Some(due);
    hide DueAt, Advance, ResolveAfterTrigger, SuccessorFound;
    var again := Apply(clean, Restart);
    assert Apply(again, Tick(now)).dues == [due];
    assert [Restart, Tick(now)][1..] == [Tick(now)] && [Tick(now)][1..] == [];
    assert Run(clean, [Restart, Tick(now)]) == Run(again, [Tick(now)]) == Run(Apply(again, Tick(now)), []);
    assert ClockRuns(now, [Tick(now)]);
  }

  /** A due time can be enqueued again, after a restart, if and only if the job has no successor for it. */
  lemma RepeatedExactly(cell: Cell, now: Time)
    requires Enqueues(cell.job, cell.last, now)
    ensures (exists events :: ClockRuns(now, events) &&
               DueAt(cell.job, cell.last, now).value in LaterDues(cell, now, events)) <==>
            !SuccessorFound(cell.job.schedule, DueAt(cell.job, cell.last, now).value)
    ensures forall events ::
              Run(TickCell(cell, now), events).dues ==
                cell.dues + [DueAt(cell.job, cell.last, now).value] + LaterDues(cell, now, events)
  {
    hide DueAt, LaterDues, SuccessorFound, TickCell, Run;
    var due := DueAt(cell.job, cell.last, now).value;
    forall events ensures Run(TickCell(cell, now), events).dues == cell.dues + [due] + LaterDues(cell, now, events) {
      LaterDuesAreLater(cell, now, events);
    }
    if SuccessorFound(cell.job.schedule, due) {
      forall events | ClockRuns(now, events) ensures due !in LaterDues(cell, now, events) {
        FoundIsNotRepeated(cell, now, events);
      }
    } else {
      FailedIsRepeated(cell, now);
      assert due in LaterDues(cell, now, [Restart, Tick(now)]);
    }
  }

  predicate InPhase(s: Schedule, due: Time, due': Time) {
    s.Every? && s.period.Some? ==> s.period.value > 0 && (due' - due) % s.period.value == 0
  }

  /** The search for the next run of a cron job finds one. */
  predicate SearchFinds(s: Schedule, due: Time) { s.Crontab? && s.expr.Some? ==> Next(s.expr.value, due) != 0 }

  ghost predicate NoneSkipped(s: Schedule, due: Time, due': Time) {
    s.Crontab? && s.expr.Some? ==>
      var c := s.expr.value;
      && due' % MINUTE == 0 && Matches(c, due' / MINUTE)
      && forall m: nat :: due < m * MINUTE < due' ==> !Matches(c, m)
  }

  lemma SuccessorIsNextMatch(s: Schedule, due: Time, due': Time)
    requires Succeeds(s, due, due', false) && SearchFinds(s, due)
    ensures NoneSkipped(s, due, due')
  {
    if s.Crontab? && s.expr.Some? {
      NextMeaning(s.expr.value, due);
    }
  }

  // ----- when the search finds nothing -----

  /** A cron job whose row holds no next run. */
  function NewCronJob(c: CronExpr, created: Time): Job { Job(Crontab(Some(c)), created, None, None, true) }

  /** The run enqueues minute a and then skips a matching minute. */
  ghost predicate SkipsAfter(c: CronExpr, created: Time, a: nat, events: seq<Event>) {
    var dues := DuesOfRun(NewCronJob(c, created), events);
    exists i, m: nat :: 0 <= i < |dues| - 1 && dues[i] == a * MINUTE && dues[i] < m * MINUTE < dues[i + 1] && Matches(c, m)
  }

  lemma TickAtMatch(cell: Cell, c: CronExpr, a: nat)
    requires cell.job == NewCronJob(c, cell.job.created) && Matches(c, a) && a > 0 && cell.last != Some(a * MINUTE)
    ensures TickCell(cell, a * MINUTE) == Cell(Advance(cell.job, a * MINUTE, a * MINUTE), Some(a * MINUTE), cell.dues + [a * MINUTE])
  {
    hide Matches, Next;
    WholeMinutes(a, 0);
  }

  /** Two ticks at matching minutes with nothing found in between. */
  lemma SkippingRun(c: CronExpr, created: Time, a: nat, d: nat)
    requires Matches(c, a) && Matches(c, d) && 0 < a < d && Next(c, a * MINUTE) == 0
    ensures DuesOfRun(NewCronJob(c, created), [Tick(a * MINUTE), Tick(d * MINUTE)]) == [a * MINUTE, d * MINUTE]
    ensures ClockRuns(0, [Tick(a * MINUTE), Tick(d * MINUTE)])
  {
    hide Matches, Next;
    var first, second := Tick(a * MINUTE), Tick(d * MINUTE);
    var cell := Cell(NewCronJob(c, created), None, []);
    TickAtMatch(cell, c, a);
    var cell1 := Apply(cell, first);
    assert cell1 == Cell(cell.job, Some(a * MINUTE), [a * MINUTE]);
    TickAtMatch(cell1, c, d);
    assert [first, second][1..] == [second] && [second][1..] == [];
    assert Run(cell, [first, second]) == Run(cell1, [second]) == Run(Apply(cell1, second), []);
    assert ClockRuns(first.now, [second]);
  }

  lemma SkipIsSeen(c: CronExpr, created: Time, a: nat, b: nat, d: nat)
    requires Matches(c, a) && Matches(c, b) && Matches(c, d) && 0 < a < b < d && Next(c, a * MINUTE) == 0
    ensures SkipsAfter(c, created, a, [Tick(a * MINUTE), Tick(d * MINUTE)])
  {
    hide Matches, Next;
    SkippingRun(c, created, a, d);
    var dues := DuesOfRun(NewCronJob(c, created), [Tick(a * MINUTE), Tick(d * MINUTE)]);
    assert dues[0] == a * MINUTE && dues[0] < b * MINUTE < dues[0 + 1];
  }

  lemma FoundIsNotSkipped(c: CronExpr, created: Time, a: nat, events: seq<Event>)
    requires Next(c, a * MINUTE) != 0 && ClockRuns(0, events)
    ensures !SkipsAfter(c, created, a, events)
  {
    hide Matches, Next, ClockRuns, DuesOfRun;
    var job := NewCronJob(c, created);
    var dues := DuesOfRun(job, events);
    forall i, m: nat | 0 <= i < |dues| - 1 && dues[i] == a * MINUTE && dues[i] < m * MINUTE < dues[i + 1]
      ensures !Matches(c, m)
    {
      ConsecutiveDues(job, 0, events, i);
      SuccessorIsNextMatch(job.schedule, dues[i], dues[i + 1]);
    }
  }

  lemma ConsecutiveDues(job: Job, start: Time, events: seq<Event>, i: nat)
    requires ClockRuns(start, events) && i + 1 < |DuesOfRun(job, events)|
    ensures Succeeds(job.schedule, DuesOfRun(job, events)[i], DuesOfRun(job, events)[i + 1], false)
  {
    hide Succeeds;
    DuesAreChained(job, start, events, false);
  }

  /**
    A cron job without a stored next run never skips a matching minute after minute a if and only if the
    five-year search from a finds one: what matches at a matches again 400 and 800 years later.
   */
  lemma NoneSkippedExactly(c: CronExpr, created: Time, a: nat)
    requires Matches(c, a) && a > 0
    ensures (forall events :: ClockRuns(0, events) ==> !SkipsAfter(c, created, a, events)) <==> Next(c, a * MINUTE) != 0
  {
    hide Matches, Next, SkipsAfter;
    if Next(c, a * MINUTE) == 0 {
      var b := a + DAYS_IN_400_YEARS * MINUTES_PER_DAY;
      var d := b + DAYS_IN_400_YEARS * MINUTES_PER_DAY;
      MatchesRepeat(c, a);
      MatchesRepeat(c, b);
      SkippingRun(c, created, a, d);
      SkipIsSeen(c, created, a, b, d);
    } else {
      forall events | ClockRuns(0, events) ensures !SkipsAfter(c, created, a, events) {
        FoundIsNotSkipped(c, created, a, events);
      }
    }
  }

  /** "0 0 29 2 1": after 2016 the search does not reach 2044, and a tick in 2072 leaves 2044 out. */
  lemma LeapMondayIsSkipped(created: Time)
    ensures SkipsAfter(LEAP_MONDAYS, created, LeapDay(2016), [Tick(LeapDay(2016) * MINUTE), Tick(LeapDay(2072) * MINUTE)])
  {
    hide Matches, Next, LeapDay, SkipsAfter;
    LeapMondayIsNotFound();
    SkipIsSeen(LEAP_MONDAYS, created, LeapDay(2016), LeapDay(2044), LeapDay(2072));
  }

  /** A job whose search finds nothing from its stored next run is enqueued for no other time. */
  lemma {:induction false} StaysAtStored(cell: Cell, c: CronExpr, events: seq<Event>)
    requires cell.job.schedule == Crontab(Some(c)) && IsSet(cell.job.nextRun) && Next(c, cell.job.nextRun.value) == 0
    ensures forall d :: d in Run(cell, events).dues ==> d in cell.dues || d == cell.job.nextRun.value
    decreases |events|
  {
    hide Next;
    if events != [] && EventEnds(cell, events[0]) {
      StaysAtStored(Apply(cell, events[0]), c, events[1..]);
    }
  }

  lemma FiresAtNext(cell: Cell, c: CronExpr, due: Time, now: Time)
    requires cell.job.schedule == Crontab(Some(c)) && cell.job.enabled && cell.last == Some(due)
    requires Next(c, due) != 0 && cell.job.nextRun == Some(Next(c, due))
    ensures var t := if now < Next(c, due) then Next(c, due) else now;
            Run(cell, [Tick(t)]).dues == cell.dues + [Next(c, due)]
  {
    NextMeaning(c, due);
    hide Matches, Next;
    var t := if now < Next(c, due) then Next(c, due) else now;
    assert [Tick(t)][1..] == [];
    assert Run(cell, [Tick(t)]) == Run(Apply(cell, Tick(t)), []);
  }

  /** A cron job with a stored next run is enqueued for a later time if and only if the search from there finds one. */
  lemma StoredRunIsFollowedExactly(cell: Cell, c: CronExpr, now: Time)
    requires cell.job.schedule == Crontab(Some(c)) && IsSet(cell.job.nextRun)
    requires Enqueues(cell.job, cell.last, now)
    ensures (exists events, d :: ClockRuns(now, events) && d in LaterDues(cell, now, events) && d > cell.job.nextRun.value) <==>
              Next(c, cell.job.nextRun.value) != 0
  {
    hide Next;
    var due := cell.job.nextRun.value;
    var clean := TickCell(cell, now).(dues := []);
    if Next(c, due) == 0 {
      forall events, d | d in LaterDues(cell, now, events) ensures d == due {
        StaysAtStored(clean, c, events);
      }
    } else {
      FiresAtNext(clean, c, due, now);
      var t := if now < Next(c, due) then Next(c, due) else now;
      assert [Tick(t)][1..] == [];
      assert ClockRuns(now, [Tick(t)]);
      NextMeaning(c, due);
      assert Next(c, due) in LaterDues(cell, now, [Tick(t)]);
    }
  }

  lemma LeastAfter(due: Time, d: int, now: Time)
    requires d > 0 && due <= now
    ensures var next := FirstFrom(due + d, d, now + 1);
            && now < next
            && (exists k: nat :: next == due + k * d)
            && (forall k: nat :: now < due + k * d ==> next <= due + k * d)
  {
    FirstFromMeaning(due + d, d, now + 1);
    var next := FirstFrom(due + d, d, now + 1);
    var j: nat :| next == due + d + j * d;
    assert next == due + (j + 1) * d;
    forall k: nat | now < due + k * d ensures next <= due + k * d {
      if k > 0 {
        var i: nat := k - 1;
        assert due + k * d == due + d + i * d;
      }
    }
  }

  /** After an "every" job has been enqueued, its next due time is the least due + k * d after now. */
  lemma NextDueOfEvery(job: Job, last: Option<Time>, now: Time)
    requires job.schedule.Every? && job.schedule.period.Some? && Enqueues(job, last, now)
    ensures var d := job.schedule.period.value;
            var due := DueAt(job, last, now).value;
            var job' := Advance(job, due, now);
            && job'.enabled && job'.nextRun.Some? && now < job'.nextRun.value
            && (exists k: nat :: job'.nextRun.value == due + k * d)
            && (forall k: nat :: now < due + k * d ==> job'.nextRun.value <= due + k * d)
  {
    LeastAfter(DueAt(job, last, now).value, job.schedule.period.value, now);
  }

  // ----- the tick -----

  /** An entry of the lane queue made by the scheduler. */
  datatype Entry = Entry(job: JobId, due: Time)

  /** The due times at which one job has been enqueued. */
  function DuesOf(log: seq<Entry>, id: JobId): seq<Time> {
    if log == [] then [] else
      var rest := DuesOf(log[..|log| - 1], id);
      if log[|log| - 1].job == id then rest + [log[|log| - 1].due] else rest
  }

  /** ListCronJobs(enabledOnly): the enabled jobs, each once, in some order. */
  ghost predicate Lists(order: seq<JobId>, jobs: map<JobId, Job>) {
    && (forall i, j :: 0 <= i < j < |order| ==> order[i] != order[j])
    && (forall id :: id in order <==> id in jobs && jobs[id].enabled)
  }

  lemma DisabledStays(cell: Cell, now: Time)
    requires !cell.job.enabled
    ensures TickEnds(cell.job, cell.last, now) && TickCell(cell, now) == cell
  {
  }

  class SchedulerState {
    var jobs: map<JobId, Job>               // the store's rows
    var lastTrigger: map<JobId, Time>
    var enqueued: seq<Entry>                // what has been handed to the lane queue

    constructor (jobs: map<JobId, Job>)
      ensures this.jobs == jobs && lastTrigger == map[] && enqueued == []
      ensures forall id :: id in jobs ==> CellOf(id) == Cell(jobs[id], None, [])
    {
      this.jobs, lastTrigger, enqueued := jobs, map[], [];
    }

    ghost function CellOf(id: JobId): Cell
      reads this
      requires id in jobs
    {
      Cell(jobs[id], LastOf(id), DuesOf(enqueued, id))
    }

    function LastOf(id: JobId): Option<Time>
      reads this
    {
      if id in lastTrigger then Some(lastTrigger[id]) else None
    }

    /** One tick treats every job by itself: each job's cell goes to its TickCell, whatever the order. */
    method RunTick(now: Time, order: seq<JobId>)
      requires Lists(order, jobs) && forall id :: id in jobs ==> TickEnds(jobs[id], LastOf(id), now)
      modifies this
      ensures jobs.Keys == old(jobs.Keys)
      ensures forall id :: id in jobs ==> CellOf(id) == TickCell(old(CellOf(id)), now)
    {
      hide TickCell, TickEnds, DuesOf;
      var rows := jobs;
      for k := 0 to |order|
        invariant jobs.Keys == rows.Keys == old(jobs.Keys)
        invariant forall id :: id in jobs ==>
                    CellOf(id) == if id in order[..k] then TickCell(old(CellOf(id)), now) else old(CellOf(id))
      {
        var id := order[k];
        var job := rows[id];
        assert id !in order[..k];
        assert job == jobs[id];
        TickJob(id, job, now);
        assert order[..k + 1] == order[..k] + [id];
      }
      assert order[..|order|] == order;
      forall id | id in jobs && id !in order ensures CellOf(id) == TickCell(old(CellOf(id)), now) {
        DisabledStays(old(CellOf(id)), now);
      }
    }

    /** The body of the tick's loop. */
    method TickJob(id: JobId, job: Job, now: Time)
      requires id in jobs && jobs[id] == job && job.enabled && TickEnds(job, LastOf(id), now)
      modifies this
      ensures jobs.Keys == old(jobs.Keys)
      ensures CellOf(id) == TickCell(old(CellOf(id)), now)
      ensures forall other :: other in jobs && other != id ==> CellOf(other) == old(CellOf(other))
      ensures var due := DueAt(job, old(LastOf(id)), now);
              enqueued == old(enqueued) + if due.Some? then [Entry(id, due.value)] else []
    {
      var nextRun := NextRunOf(job, now);
      if nextRun.None? || nextRun.value == 0 || now < nextRun.value {
        return;
      }
      var due := nextRun.value;
      if id in lastTrigger && lastTrigger[id] == due {
        return;
      }
      lastTrigger := lastTrigger[id := due];
      var after := RunAfter(job, due, now);
      if after.NextIs? {
        jobs := jobs[id := job.(nextRun := after.next, enabled := after.enabled)];
      }
      enqueued := enqueued + [Entry(id, due)];
      assert enqueued[..|enqueued| - 1] == old(enqueued);
    }
  }
}

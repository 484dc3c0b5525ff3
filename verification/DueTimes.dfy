/**
  When a job is due, told from its row and from the events of its run (cli/scheduler/resolve.go, the tick of
  cli/scheduler/scheduler.go), and what the API stores when a job is made or edited (cli/api/server.go).
 */
module DueTimes {
  import opened Cron
  import opened CronField
  import opened Scheduler
  import opened Text

  /** The catch-up loops of the schedule end. */
  predicate LoopsEnd(s: Schedule) { s.Every? && s.period.Some? ==> s.period.value > 0 }

  /** lastRun after the events. */
  function RanAt(lastRun: Option<Time>, events: seq<Event>): Option<Time> {
    if events == [] then lastRun
    else if events[|events| - 1].Ran? then Some(events[|events| - 1].at)
    else RanAt(lastRun, events[..|events| - 1])
  }

  // ----- runs, seen from their last event -----

  lemma EveryEventEnds(cell: Cell, e: Event)
    requires LoopsEnd(cell.job.schedule)
    ensures EventEnds(cell, e)
  {
    hide ResolveNextRun;
  }

  lemma {:induction false} RunGrows(cell: Cell, events: seq<Event>, e: Event)
    requires LoopsEnd(cell.job.schedule)
    ensures EventEnds(Run(cell, events), e) && Run(cell, events + [e]) == Apply(Run(cell, events), e)
    decreases |events|
  {
    hide Apply, EventEnds, LoopsEnd;
    if events == [] {
      EveryEventEnds(cell, e);
      assert [e][1..] == [] && [] + [e] == [e];
      assert Run(cell, [e]) == Run(Apply(cell, e), []);
    } else {
      EveryEventEnds(cell, events[0]);
      assert (events + [e])[1..] == events[1..] + [e];
      RunGrows(Apply(cell, events[0]), events[1..], e);
    }
  }

  /** Due times are only ever added. */
  lemma ApplyAdds(cell: Cell, e: Event)
    requires EventEnds(cell, e)
    ensures |cell.dues| <= |Apply(cell, e).dues|
    ensures Apply(cell, e).dues == [] ==>
              Apply(cell, e) == Cell(cell.job.(lastRun := RanAt(cell.job.lastRun, [e])),
                                     if e.Restart? then None else cell.last, [])
  {
    hide DueAt, Advance, TickEnds;
  }

  /** As long as a job has not been due its row is as it was, up to the result of a run. */
  lemma {:induction false} UndueStays(job: Job, events: seq<Event>)
    requires LoopsEnd(job.schedule) && DuesOfRun(job, events) == []
    ensures Run(Cell(job, None, []), events) == Cell(job.(lastRun := RanAt(job.lastRun, events)), None, [])
    decreases |events|
  {
    hide Apply, EventEnds, LoopsEnd, Run;
    if events == [] {
      NothingHappened(Cell(job, None, []));
    } else {
      var init, e := events[..|events| - 1], events[|events| - 1];
      assert events == init + [e];
      RunGrows(Cell(job, None, []), init, e);
      ApplyAdds(Run(Cell(job, None, []), init), e);
      UndueStays(job, init);
    }
  }

  lemma NothingHappened(cell: Cell)
    ensures Run(cell, []) == cell
  {
  }

  // ----- the first due time -----

  lemma DueNext(job: Job, events: seq<Event>, now: Time)
    requires LoopsEnd(job.schedule) && DuesOfRun(job, events) == []
    ensures var due := DueAt(job.(lastRun := RanAt(job.lastRun, events)), None, now);
            DuesOfRun(job, events + [Tick(now)]) == if due.Some? then [due.value] else []
  {
    hide DueAt, Advance, RanAt, Run;
    UndueStays(job, events);
    RunGrows(Cell(job, None, []), events, Tick(now));
  }

  /** A job with a stored next run is due for it at the first tick that is not before it. */
  lemma FirstDueOfStored(job: Job, events: seq<Event>, now: Time)
    requires job.enabled && IsSet(job.nextRun) && LoopsEnd(job.schedule) && DuesOfRun(job, events) == []
    ensures DuesOfRun(job, events + [Tick(now)]) == if now < job.nextRun.value then [] else [job.nextRun.value]
  {
    hide DuesOfRun, RanAt;
    DueNext(job, events, now);
  }

  /** Without a stored next run, an "at" job is due for its time at the first tick that is not before it. */
  lemma FirstDueOfAt(job: Job, events: seq<Event>, now: Time)
    requires job.enabled && !IsSet(job.nextRun) && job.schedule.AtTime? && DuesOfRun(job, events) == []
    ensures DuesOfRun(job, events + [Tick(now)]) ==
            match job.schedule.time
            case None => []
            case Some(t) => if 0 < t <= now then [t] else []
  {
    hide DuesOfRun, RanAt;
    DueNext(job, events, now);
  }

  /** The instant an "every" job counts from. */
  function CountsFrom(job: Job, events: seq<Event>): Time {
    var ran := RanAt(job.lastRun, events);
    if ran.Some? && ran.value != 0 then ran.value else job.created
  }

  /** Without a stored next run, an "every" job is due only at a tick that meets an instant of its phase exactly. */
  lemma FirstDueOfEvery(job: Job, events: seq<Event>, now: Time)
    requires job.enabled && !IsSet(job.nextRun) && job.schedule.Every? && LoopsEnd(job.schedule) && DuesOfRun(job, events) == []
    ensures DuesOfRun(job, events + [Tick(now)]) ==
            match job.schedule.period
            case None => []
            case Some(d) => if exists k: nat :: k >= 1 && now == CountsFrom(job, events) + k * d then [now] else []
  {
    hide DuesOfRun;
    DueNext(job, events, now);
    if job.schedule.period.Some? {
      EveryMeets(CountsFrom(job, events), job.schedule.period.value, now);
    }
    hide RanAt, FirstFrom;
  }

  lemma EveryMeetsAt(base: Time, d: int, now: Time, k: nat)
    requires d > 0 && k >= 1 && now == base + k * d
    ensures FirstFrom(base + d, d, now) == now
  {
    FirstFromMeaning(base + d, d, now);
    hide FirstFrom;
    var j: nat := k - 1;
    assert base + d + j * d == base + k * d;
  }

  lemma EveryMeetsLate(base: Time, d: int, now: Time) returns (k: nat)
    requires d > 0 && FirstFrom(base + d, d, now) <= now
    ensures k >= 1 && now == base + k * d
  {
    FirstFromMeaning(base + d, d, now);
    hide FirstFrom;
    var j: nat :| FirstFrom(base + d, d, now) == base + d + j * d;
    k := j + 1;
    assert base + d + j * d == base + k * d;
  }

  lemma EveryMeets(base: Time, d: int, now: Time)
    requires d > 0
    ensures var r := FirstFrom(base + d, d, now);
            r > 0 && (r <= now <==> exists k: nat :: k >= 1 && now == base + k * d) && (r <= now ==> r == now)
  {
    if k: nat :| k >= 1 && now == base + k * d {
      EveryMeetsAt(base, d, now, k);
    }
    if FirstFrom(base + d, d, now) <= now {
      var k := EveryMeetsLate(base, d, now);
    }
    hide FirstFrom;
  }

  /** Without a stored next run, a cron job is due at a tick if and only if the minute of the tick matches. */
  lemma FirstDueOfCrontab(job: Job, events: seq<Event>, now: Time)
    requires job.enabled && !IsSet(job.nextRun) && job.schedule.Crontab? && DuesOfRun(job, events) == []
    ensures DuesOfRun(job, events + [Tick(now)]) ==
            match job.schedule.expr
            case None => []
            case Some(c) =>
              var minute := now / 60_000_000_000;
              if minute > 0 && Matches(c, minute) then [minute * 60_000_000_000] else []
  {
    hide DuesOfRun, RanAt, Matches, Next;
    DueNext(job, events, now);
    if job.schedule.expr.Some? {
      NextMeaning(job.schedule.expr.value, now);
    }
  }

  /** A disabled job is never due. */
  lemma DisabledIsNeverDue(job: Job, events: seq<Event>)
    requires !job.enabled
    ensures DuesOfRun(job, events) == []
  {
    DisabledRun(Cell(job, None, []), events);
  }

  lemma {:induction false} DisabledRun(cell: Cell, events: seq<Event>)
    requires !cell.job.enabled
    ensures Run(cell, events).dues == cell.dues
    decreases |events|
  {
    if events != [] {
      hide ResolveNextRun;
      DisabledRun(Apply(cell, events[0]), events[1..]);
    }
  }

  /** Some tick comes at the instant or later. */
  predicate TicksFrom(events: seq<Event>, t: Time) { exists k :: 0 <= k < |events| && events[k].Tick? && t <= events[k].now }

  /** An "at" job is enqueued for its time, once, if and only if some tick comes then or later. */
  lemma {:induction false} AtJobFiresOnce(cell: Cell, t: Time, events: seq<Event>)
    requires cell.job.enabled && cell.job.schedule == AtTime(Some(t)) && 0 < t
    requires cell.last.None? && (IsSet(cell.job.nextRun) ==> cell.job.nextRun == Some(t))
    ensures Run(cell, events).dues == cell.dues + if TicksFrom(events, t) then [t] else []
    decreases |events|
  {
    if events == [] {
      assert cell.dues + [] == cell.dues;
    } else {
      var e, rest := events[0], events[1..];
      EveryEventEnds(cell, e);
      assert TicksFrom(events, t) <==> (e.Tick? && t <= e.now) || TicksFrom(rest, t) by {
        assert forall k :: 0 <= k < |rest| ==> rest[k] == events[k + 1];
        assert forall k :: 0 < k < |events| ==> events[k] == rest[k - 1];
      }
      if e.Tick? && t <= e.now {
        DisabledRun(Apply(cell, e), rest);
      } else {
        AtJobFiresOnce(Apply(cell, e), t, rest);
      }
    }
  }

  // ----- making and editing a job -----

  /** Hangs: the catch-up loop of ResolveNextRun does not end.  Rejected: a bad request. */
  datatype Reply = Hangs | Rejected | Stored(job: Job)

  function Save(job: Job, now: Time): Reply {
    if !NextEnds(job, now) then Hangs else
      match ResolveNextRun(job, now)
      case None => Rejected
      case Some(next) =>
        if job.schedule.AtTime? && next <= now && job.enabled then Rejected
        else Stored(job.(nextRun := if next == 0 then None else Some(next)))
  }

  function Create(s: Schedule, enabled: bool, now: Time): Reply { Save(Job(s, now, None, None, enabled), now) }

  function Edit(job: Job, s: Schedule, enabled: bool, now: Time): Reply { Save(job.(schedule := s, enabled := enabled), now) }

  /** A new "at" job is accepted if and only if its time is in the future, and fires once, when that time has come. */
  lemma NewAtJob(time: Option<Time>, now: Time, events: seq<Event>)
    ensures var r := Create(AtTime(time), true, now);
            && (r.Stored? <==> time.Some? && now < time.value) && !r.Hangs?
            && (r.Stored? ==> DuesOfRun(r.job, events) == if TicksFrom(events, time.value) then [time.value] else [])
  {
    var r := Create(AtTime(time), true, now);
    if r.Stored? {
      AtJobFiresOnce(Cell(r.job, None, []), time.value, events);
    }
  }

  /** A new "every" job is first due one period after it was made, at the first tick that is not before that. */
  lemma NewEveryJob(d: int, now: Time, events: seq<Event>, tick: Time)
    ensures var r := Create(Every(Some(d)), true, now);
            && (r.Hangs? <==> d < 0) && !r.Rejected?
            && (d > 0 && DuesOfRun(r.job, events) == [] ==>
                  DuesOfRun(r.job, events + [Tick(tick)]) == if tick < now + d then [] else [now + d])
  {
    hide DuesOfRun;
    var r := Create(Every(Some(d)), true, now);
    if d > 0 && DuesOfRun(r.job, events) == [] {
      FirstDueOfStored(r.job, events, tick);
    }
  }

  /** No minute from the one of `now` to the end of the five-year window matches. */
  ghost predicate NoneMatches(c: CronExpr, now: Time) {
    forall m: nat :: now < (m + 1) * MINUTE && m <= FiveYearsLater(FirstMinute(now)) ==> !Matches(c, m)
  }

  lemma MinuteOfNow(c: CronExpr, now: Time)
    ensures NoneMatches(c, now) <==> !Matches(c, now / MINUTE) && Next(c, now) == 0
  {
    hide Matches, Next, FiveYearsLater;
    NextMeaning(c, now);
    var last := FiveYearsLater(FirstMinute(now));
    forall m: nat ensures now < (m + 1) * MINUTE <==> m == now / MINUTE || now < m * MINUTE {
      WholeMinutes(m + 1, now);
      WholeMinutes(m, now);
    }
    WindowIsLong(FirstMinute(now));
  }

  /**
    A new cron job is first due for the minute it is made in, if that matches, and otherwise for the first matching
    minute.  It has no stored run if no minute matches, or if its minute is the zero time.
   */
  lemma NewCrontabJob(c: CronExpr, now: Time, events: seq<Event>, tick: Time)
    ensures var r := Create(Crontab(Some(c)), true, now);
            && r.Stored? && (r.job.nextRun.None? <==> NoneMatches(c, now) || (now < MINUTE && Matches(c, 0)))
            && (r.job.nextRun.Some? ==>
                  var n := r.job.nextRun.value;
                  && n % MINUTE == 0 && Matches(c, n / MINUTE) && n + MINUTE > now
                  && (forall m: nat :: now < (m + 1) * MINUTE && m * MINUTE < n ==> !Matches(c, m))
                  && (DuesOfRun(r.job, events) == [] ==>
                        DuesOfRun(r.job, events + [Tick(tick)]) == if tick < n then [] else [n]))
  {
    hide DuesOfRun, Matches, Next, FiveYearsLater;
    var r := Create(Crontab(Some(c)), true, now);
    NextMeaning(c, now);
    WholeMinutes(now / MINUTE, now);
    MinuteOfNow(c, now);
    if r.job.nextRun.Some? {
      var n := r.job.nextRun.value;
      forall m: nat | now < (m + 1) * MINUTE && m * MINUTE < n ensures !Matches(c, m) {
        WholeMinutes(m + 1, now);
      }
      if DuesOfRun(r.job, events) == [] {
        FirstDueOfStored(r.job, events, tick);
      }
    }
  }

  /**
    Editing a job that has a stored next run keeps that run, whatever the new schedule says, even if it cannot be parsed:
    the first due time after the edit is the old one.
   */
  lemma EditKeepsTheStoredRun(job: Job, s: Schedule, now: Time, events: seq<Event>, tick: Time)
    requires IsSet(job.nextRun)
    ensures var r := Edit(job, s, true, now);
            && (r.Rejected? <==> s.AtTime? && job.nextRun.value <= now) && !r.Hangs?
            && (r.Stored? ==> r.job == job.(schedule := s, enabled := true))
            && (r.Stored? && LoopsEnd(s) && DuesOfRun(r.job, events) == [] ==>
                  DuesOfRun(r.job, events + [Tick(tick)]) == if tick < job.nextRun.value then [] else [job.nextRun.value])
  {
    hide DuesOfRun;
    var r := Edit(job, s, true, now);
    if r.Stored? && LoopsEnd(s) && DuesOfRun(r.job, events) == [] {
      FirstDueOfStored(r.job, events, tick);
    }
  }

  /** An edit takes the new schedule into account, and checks it, if and only if the job has no stored next run. */
  lemma EditTakesEffectExactly(job: Job)
    ensures (forall s, enabled, now :: Edit(job, s, enabled, now) == Edit(job.(nextRun := None), s, enabled, now)) <==>
            !IsSet(job.nextRun)
  {
    if IsSet(job.nextRun) {
      assert Edit(job, Crontab(None), true, 0) != Edit(job.(nextRun := None), Crontab(None), true, 0);
    } else {
      hide Next, Matches, FirstFrom;
      forall s, enabled, now ensures Edit(job, s, enabled, now) == Edit(job.(nextRun := None), s, enabled, now) {}
    }
  }
}

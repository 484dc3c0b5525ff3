/**
  Cron fields (cli/scheduler/cronexpr.go, parseField and parseCron): a comma-separated list of values,
  ranges, steps and stepped ranges, turned into the sorted list of the values it selects.

  The loops over stepped ranges add the step with Go's 64-bit int, which wraps around.
 */
module CronField {
  import opened Arithmetic
  import opened Text

  datatype Segment =
    | Step(step: int)                        // */n, or * /n
    | RangeStep(first: int, last: int, step: int)
    | Range(first: int, last: int)
    | Value(value: int)

  // ----- one segment -----

  function ParseStep(text: string): (r: Option<int>)
    ensures r.Some? ==> 1 <= r.value <= MAX_INT
  {
    match Atoi(text)
    case Some(n) => if n <= 0 then None else Some(n)
    case None => None
  }

  function ParseBounds(first: string, last: string, min: int, max: int): (r: Option<(int, int)>)
    ensures r.Some? ==> min <= r.value.0 <= r.value.1 <= max
  {
    match (Atoi(first), Atoi(last))
    case (Some(a), Some(b)) => if a < min || b > max || a > b then None else Some((a, b))
    case _ => None
  }

  /** The syntax of a non-blank trimmed segment, tried in the order of the code; None is any of its errors. */
  function ParseSegment(seg: string, min: int, max: int): (r: Option<Segment>)
    ensures r.Some? ==> WellFormed(r.value, min, max)
  {
    if HasPrefix(seg, "*/") then
      match ParseStep(seg[2..])
      case Some(n) => Some(Step(n))
      case None => None
    else if Contains(seg, '/') then
      var i := Find(seg, '/');
      match ParseStep(Trim(seg[i + 1..]))
      case None => None
      case Some(n) =>
        var base := Trim(seg[..i]);
        if base == "*" then Some(Step(n))
        else if Contains(base, '-') then
          var j := Find(base, '-');
          match ParseBounds(Trim(base[..j]), Trim(base[j + 1..]), min, max)
          case Some((a, b)) => Some(RangeStep(a, b, n))
          case None => None
        else None
    else if Contains(seg, '-') then
      var j := Find(seg, '-');
      match ParseBounds(seg[..j], seg[j + 1..], min, max)
      case Some((a, b)) => Some(Range(a, b))
      case None => None
    else
      match Atoi(seg)
      case Some(v) => if v < min || v > max then None else Some(Value(v))
      case None => None
  }

  predicate WellFormed(seg: Segment, min: int, max: int) {
    match seg
    case Step(n) => 1 <= n <= MAX_INT
    case RangeStep(a, b, n) => min <= a <= b <= max && 1 <= n <= MAX_INT
    case Range(a, b) => min <= a <= b <= max
    case Value(v) => min <= v <= max
  }

  /** What a segment means. */
  predicate Denotes(seg: Segment, min: int, max: int, v: int)
    requires WellFormed(seg, min, max)
  {
    min <= v <= max &&
    match seg
    case Step(n) => (v - min) % n == 0
    case RangeStep(a, b, n) => a <= v <= b && (v - a) % n == 0
    case Range(a, b) => a <= v <= b
    case Value(x) => v == x
  }

  /** What a stepped range selects besides, because its counter wraps around twice per 2^64. */
  predicate WrapsTo(seg: Segment, min: int, v: int)
    requires seg.RangeStep? ==> seg.step <= MAX_INT
  {
    seg.RangeStep? && min <= v < seg.first && (seg.first - v) % (2 * (TWO63 - seg.step)) == 0
  }

  predicate Selects(seg: Segment, min: int, max: int, v: int)
    requires WellFormed(seg, min, max)
  {
    Denotes(seg, min, max, v) || WrapsTo(seg, min, v)
  }

  /** Exactly when a segment selects what it denotes: the guard compares the step with the distance to wrap over. */
  lemma SelectsWhatItDenotes(seg: Segment, min: int, max: int)
    requires WellFormed(seg, min, max)
    ensures (forall v :: Selects(seg, min, max, v) <==> Denotes(seg, min, max, v)) <==>
              !(seg.RangeStep? && 2 * (TWO63 - seg.step) <= seg.first - min)
  {
    if seg.RangeStep? {
      var m := 2 * (TWO63 - seg.step);
      if m <= seg.first - min {
        assert (seg.first - (seg.first - m)) % m == 0;
        assert WrapsTo(seg, min, seg.first - m) && !Denotes(seg, min, max, seg.first - m);
      } else {
        forall v ensures !WrapsTo(seg, min, v) {
          if WrapsTo(seg, min, v) { MultipleBelow(seg.first - v, m); }
        }
      }
    }
  }

  // ----- the loop over a stepped range -----

  /** Values a stepped range from `first` to `last` puts into the set, among the non-negative ones. */
  predicate Steps(first: int, last: int, step: int, v: int)
    requires 1 <= step <= MAX_INT
  {
    (first <= v <= last && (v - first) % step == 0) || (v < first && (first - v) % (2 * (TWO63 - step)) == 0)
  }

  /** The part of `Steps` visited when the counter stands at i and no addition has wrapped. */
  predicate StepsBelow(first: int, step: int, i: int, v: int)
    requires 1 <= step
  {
    first <= v < i && (v - first) % step == 0
  }

  /** The part visited on the way down, at distance `gap` = 2 * (2^63 - step), before reaching i. */
  predicate WrapsAbove(first: int, gap: int, i: int, v: int)
    requires 0 < gap
  {
    i < v <= first && (first - v) % gap == 0
  }

  lemma StepOnce(first: int, step: int, i: int, v: int)
    requires 1 <= step && first <= i && (i - first) % step == 0
    ensures StepsBelow(first, step, i + step, v) <==> v == i || StepsBelow(first, step, i, v)
    ensures (i + step - first) % step == 0
  {
    ModAdd(i - first, step);
    if i < v < i + step {
      ModBetween(i - first, v - i, step);
    }
  }

  lemma WrapOnce(first: int, gap: int, i: int, v: int)
    requires 0 < gap && i <= first && (first - i) % gap == 0
    ensures WrapsAbove(first, gap, i - gap, v) <==> v == i || WrapsAbove(first, gap, i, v)
    ensures (first - (i - gap)) % gap == 0
  {
    ModAdd(first - i, gap);
    if i - gap < v < i {
      ModBetween(first - i, i - v, gap);
    }
  }

  /** Where the counter is: counting, just wrapped to below -2^62, or past the end. */
  datatype Phase = Counting | Wrapped | Past

  /** The loop's invariant when no addition can wrap. */
  ghost predicate PlainLoop(first: int, last: int, step: int, before: set<int>, values: set<int>, i: int)
    requires 1 <= step <= MAX_INT
  {
    && first <= i <= last + step && (i - first) % step == 0
    && forall v :: v in values <==> v in before || StepsBelow(first, step, i, v)
  }

  /** The loop's invariant when the step is so large that the counter wraps; `turn` is its last small value. */
  ghost predicate WrappingLoop(first: int, last: int, step: int, before: set<int>, values: set<int>, i: int, turn: int, phase: Phase)
    requires 1 <= step <= MAX_INT
  {
    var gap := 2 * (TWO63 - step);
    && -last <= turn <= first && (first - turn) % gap == 0
    && match phase
       case Counting => i == turn && forall v :: 0 <= v ==> (v in values <==> v in before || WrapsAbove(first, gap, turn, v))
       case Wrapped => i == turn + step - TWO64 && TWO63 - step <= turn &&
                       forall v :: 0 <= v ==> (v in values <==> v in before || WrapsAbove(first, gap, turn - gap, v))
       case Past => last < i == turn + step && turn < TWO63 - step &&
                    forall v :: 0 <= v ==> (v in values <==> v in before || WrapsAbove(first, gap, turn - gap, v))
  }

  lemma PlainLoopEnds(first: int, last: int, step: int, before: set<int>, values: set<int>, i: int, v: int)
    requires 0 <= first <= last < i && 1 <= step <= MAX_INT - last && 0 <= v
    requires PlainLoop(first, last, step, before, values, i)
    ensures v in values <==> v in before || Steps(first, last, step, v)
  {
    if last < v < i && (v - first) % step == 0 {
      ModAdd(i - step - first, step);
      ModBetween(i - step - first, v - (i - step), step);
    }
    if v < first && (first - v) % (2 * (TWO63 - step)) == 0 {
      MultipleBelow(first - v, 2 * (TWO63 - step));
    }
  }

  lemma PlainLoopStep(first: int, last: int, step: int, before: set<int>, values: set<int>, i: int)
    requires 0 <= first <= i <= last && 1 <= step <= MAX_INT - last
    requires PlainLoop(first, last, step, before, values, i)
    ensures PlainLoop(first, last, step, before, values + {i}, i + step)
  {
    forall v ensures StepsBelow(first, step, i + step, v) <==> v == i || StepsBelow(first, step, i, v) {
      StepOnce(first, step, i, v);
    }
    ModAdd(i - first, step);
  }

  /** With a step that can wrap, first is the only value counted in the range itself. */
  lemma FewSteps(first: int, last: int, step: int, v: int)
    requires 0 <= first <= last && last < step <= MAX_INT
    ensures Steps(first, last, step, v) <==> v <= first && (first - v) % (2 * (TWO63 - step)) == 0
  {
    if first < v <= last {
      ModIs(0, v - first, step);
    } else if v == first {
      ModIs(0, 0, step);
      ModIs(0, 0, 2 * (TWO63 - step));
    }
  }

  lemma WrappingLoopEnds(first: int, last: int, step: int, before: set<int>, values: set<int>, i: int, turn: int, v: int)
    requires 0 <= first <= last < 0x4000_0000 && MAX_INT - last < step <= MAX_INT && 0 <= v
    requires WrappingLoop(first, last, step, before, values, i, turn, Past)
    ensures v in values <==> v in before || Steps(first, last, step, v)
  {
    FewSteps(first, last, step, v);
    assert turn - 2 * (TWO63 - step) < 0;
  }

  lemma WrappingLoopCounts(first: int, last: int, step: int, before: set<int>, values: set<int>, i: int, turn: int)
    returns (phase: Phase)
    requires 0 <= first <= last < 0x4000_0000 && MAX_INT - last < step <= MAX_INT && i <= last
    requires WrappingLoop(first, last, step, before, values, i, turn, Counting)
    ensures !phase.Counting? && WrappingLoop(first, last, step, before, values + {i}, WrapAdd(i, step), turn, phase)
  {
    var gap := 2 * (TWO63 - step);
    forall v | 0 <= v ensures WrapsAbove(first, gap, turn - gap, v) <==> v == turn || WrapsAbove(first, gap, turn, v) {
      WrapOnce(first, gap, turn, v);
    }
    phase := if turn < TWO63 - step then Past else Wrapped;
  }

  lemma WrappingLoopReturns(first: int, last: int, step: int, before: set<int>, values: set<int>, i: int, turn: int)
    requires 0 <= first <= last < 0x4000_0000 && MAX_INT - last < step <= MAX_INT && i <= last
    requires WrappingLoop(first, last, step, before, values, i, turn, Wrapped)
    ensures WrappingLoop(first, last, step, before, values + {i}, WrapAdd(i, step), turn - 2 * (TWO63 - step), Counting)
  {
    WrapOnce(first, 2 * (TWO63 - step), turn, turn);
  }

  /** The loop over a stepped range, with a step that may wrap around. */
  method AddSteps(first: int, last: int, step: int, before: set<int>) returns (values: set<int>)
    requires 0 <= first <= last < 0x4000_0000 && 1 <= step <= MAX_INT
    ensures forall v :: 0 <= v ==> (v in values <==> v in before || Steps(first, last, step, v))
  {
    values := before;
    var i := first;
    ghost var turn, phase := first, Counting;
    LoopStarts(first, last, step, before);
    while i <= last
      invariant step <= MAX_INT - last ==> PlainLoop(first, last, step, before, values, i)
      invariant step > MAX_INT - last ==> WrappingLoop(first, last, step, before, values, i, turn, phase)
      decreases if step <= MAX_INT - last then last - i else turn + last, phase.Counting?
    {
      if step <= MAX_INT - last {
        PlainLoopStep(first, last, step, before, values, i);
      } else if phase.Counting? {
        phase := WrappingLoopCounts(first, last, step, before, values, i, turn);
      } else {
        WrappingLoopReturns(first, last, step, before, values, i, turn);
        turn, phase := turn - 2 * (TWO63 - step), Counting;
      }
      values := values + {i};
      i := WrapAdd(i, step);
    }
    forall v | 0 <= v ensures v in values <==> v in before || Steps(first, last, step, v) {
      if step <= MAX_INT - last {
        PlainLoopEnds(first, last, step, before, values, i, v);
      } else {
        WrappingLoopEnds(first, last, step, before, values, i, turn, v);
      }
    }
  }

  lemma LoopStarts(first: int, last: int, step: int, before: set<int>)
    requires 0 <= first <= last && 1 <= step <= MAX_INT
    ensures PlainLoop(first, last, step, before, before, first)
    ensures WrappingLoop(first, last, step, before, before, first, first, Counting)
  {
    ModIs(0, 0, step);
    ModIs(0, 0, 2 * (TWO63 - step));
  }

  // ----- a whole field -----

  predicate AllWellFormed(segs: seq<Segment>, min: int, max: int) {
    forall s :: s in segs ==> WellFormed(s, min, max)
  }

  /** The segments of a field, blank ones left out; None if one of them is an error. */
  function Segments(parts: seq<string>, min: int, max: int): (r: Option<seq<Segment>>)
    ensures r.Some? ==> AllWellFormed(r.value, min, max)
  {
    if parts == [] then Some([]) else
      match Segments(parts[..|parts| - 1], min, max)
      case None => None
      case Some(segs) =>
        var seg := Trim(parts[|parts| - 1]);
        if seg == "" then Some(segs) else
          match ParseSegment(seg, min, max)
          case None => None
          case Some(s) => Some(segs + [s])
  }

  predicate Selected(segs: seq<Segment>, min: int, max: int, v: int)
    requires AllWellFormed(segs, min, max)
  {
    exists s :: s in segs && Selects(s, min, max, v)
  }

  /** The selected values from `from` on, in increasing order. */
  function Chosen(segs: seq<Segment>, min: int, max: int, from: int): seq<int>
    requires AllWellFormed(segs, min, max) && from <= max + 1
    decreases max + 1 - from
  {
    if from > max then []
    else (if Selected(segs, min, max, from) then [from] else []) + Chosen(segs, min, max, from + 1)
  }

  function UpTo(from: int, max: int): seq<int>
    requires from <= max + 1
    decreases max + 1 - from
  {
    if from > max then [] else [from] + UpTo(from + 1, max)
  }

  /** What parseField returns. */
  function FieldValues(field: string, min: int, max: int): Option<seq<int>>
    requires min <= max
  {
    if field == "*" then Some(UpTo(min, max)) else
      match Segments(Split(field, ','), min, max)
      case None => None
      case Some(segs) => if segs == [] then None else Some(Chosen(segs, min, max, min))
  }

  predicate Increasing(s: seq<int>) { forall i, j :: 0 <= i < j < |s| ==> s[i] < s[j] }

  lemma ConsIncreasing(x: int, rest: seq<int>)
    requires Increasing(rest) && forall v :: v in rest ==> x < v
    ensures Increasing([x] + rest)
  {
    assert forall k :: 0 <= k < |rest| ==> rest[k] in rest;
  }

  lemma {:induction false} UpToMeaning(from: int, max: int)
    requires from <= max + 1
    ensures Increasing(UpTo(from, max)) && forall v :: v in UpTo(from, max) <==> from <= v <= max
    decreases max + 1 - from
  {
    if from <= max {
      UpToMeaning(from + 1, max);
      ConsIncreasing(from, UpTo(from + 1, max));
    }
  }

  lemma {:induction false} ChosenMeaning(segs: seq<Segment>, min: int, max: int, from: int)
    requires AllWellFormed(segs, min, max) && from <= max + 1
    ensures Increasing(Chosen(segs, min, max, from))
    ensures forall v :: v in Chosen(segs, min, max, from) <==> from <= v <= max && Selected(segs, min, max, v)
    decreases max + 1 - from
  {
    if from <= max {
      ChosenMeaning(segs, min, max, from + 1);
      ConsIncreasing(from, Chosen(segs, min, max, from + 1));
    }
  }

  /** Every segment denotes at least one value. */
  lemma EachDenotesSome(seg: Segment, min: int, max: int) returns (v: int)
    requires min <= max && WellFormed(seg, min, max)
    ensures Denotes(seg, min, max, v)
  {
    match seg {
      case Step(n) => v := min; ModIs(0, 0, n);
      case RangeStep(a, _, n) => v := a; ModIs(0, 0, n);
      case Range(a, _) => v := a;
      case Value(x) => v := x;
    }
  }

  /** An accepted field yields a strictly increasing, non-empty list of exactly the selected values. */
  lemma FieldMeaning(field: string, min: int, max: int)
    requires min <= max && FieldValues(field, min, max).Some?
    ensures var list := FieldValues(field, min, max).value;
            && list != [] && Increasing(list)
            && (forall v :: v in list ==> min <= v <= max)
            && (field == "*" ==> forall v :: min <= v <= max ==> v in list)
            && (field != "*" ==>
                  var segs := Segments(Split(field, ','), min, max).value;
                  forall v :: v in list <==> min <= v <= max && Selected(segs, min, max, v))
  {
    if field == "*" {
      UpToMeaning(min, max);
      assert min in UpTo(min, max);
    } else {
      var segs := Segments(Split(field, ','), min, max).value;
      ChosenMeaning(segs, min, max, min);
      var v := EachDenotesSome(segs[0], min, max);
      assert Selects(segs[0], min, max, v) && Selected(segs, min, max, v);
      assert v in Chosen(segs, min, max, min);
    }
  }

  /**
    The list is the union of what the segments denote, unless the step of a stepped range is within
    (first - min) / 2 of 2^63.
   */
  lemma FieldIsTheUnion(field: string, min: int, max: int)
    requires min <= max && FieldValues(field, min, max).Some? && field != "*"
    requires var segs := Segments(Split(field, ','), min, max).value;
             forall s :: s in segs ==> !(s.RangeStep? && 2 * (TWO63 - s.step) <= s.first - min)
    ensures var segs := Segments(Split(field, ','), min, max).value;
            forall v :: v in FieldValues(field, min, max).value <==>
              exists s :: s in segs && Denotes(s, min, max, v)
  {
    FieldMeaning(field, min, max);
    var segs := Segments(Split(field, ','), min, max).value;
    forall s | s in segs
      ensures forall v :: Selects(s, min, max, v) <==> Denotes(s, min, max, v)
    {
      SelectsWhatItDenotes(s, min, max);
    }
  }

  /** The segment 5-10/9223372036854775807 selects 1 and 3 besides the 5 it denotes. */
  lemma HugeStepSelectsTooMuch()
    ensures var seg := RangeStep(5, 10, MAX_INT);
            WellFormed(seg, 0, 59) && forall v :: Selects(seg, 0, 59, v) <==> v in {1, 3, 5}
    ensures forall v :: Denotes(RangeStep(5, 10, MAX_INT), 0, 59, v) <==> v == 5
  {
  }

  /** parseField */
  method ParseField(field: string, min: int, max: int) returns (r: Option<seq<int>>)
    requires 0 <= min <= max < 0x4000_0000
    ensures r == FieldValues(field, min, max)
  {
    if field == "*" {
      var all := ListAll(min, max);
      return Some(all);
    }
    var segments := Split(field, ',');
    var ok, values := CollectValues(segments, min, max);
    if !ok || values == {} {
      return None;
    }
    var out := ListChosen(values, min, max, Segments(segments, min, max).value);
    return Some(out);
  }

  method ListAll(min: int, max: int) returns (out: seq<int>)
    requires min <= max
    ensures out == UpTo(min, max)
  {
    out := [];
    for i := min to max + 1
      invariant UpTo(min, max) == out + UpTo(i, max)
    {
      out := out + [i];
    }
  }

  method ListChosen(values: set<int>, min: int, max: int, ghost segs: seq<Segment>) returns (out: seq<int>)
    requires min <= max && AllWellFormed(segs, min, max)
    requires forall v :: min <= v <= max ==> (v in values <==> Selected(segs, min, max, v))
    ensures out == Chosen(segs, min, max, min)
  {
    out := [];
    for i := min to max + 1
      invariant Chosen(segs, min, max, min) == out + Chosen(segs, min, max, i)
    {
      if i in values {
        out := out + [i];
      }
    }
  }

  /** The loop over the comma-separated segments. */
  method CollectValues(segments: seq<string>, min: int, max: int) returns (ok: bool, values: set<int>)
    requires 0 <= min <= max < 0x4000_0000
    ensures ok <==> Segments(segments, min, max).Some?
    ensures ok ==> (values == {} <==> Segments(segments, min, max).value == [])
    ensures ok ==> forall v :: min <= v <= max ==>
                     (v in values <==> Selected(Segments(segments, min, max).value, min, max, v))
  {
    values := {};
    ghost var segs: seq<Segment> := [];
    for k := 0 to |segments|
      invariant Segments(segments[..k], min, max) == Some(segs)
      invariant AllWellFormed(segs, min, max)
      invariant forall v :: min <= v <= max ==> (v in values <==> Selected(segs, min, max, v))
      invariant values == {} <==> segs == []
    {
      var seg := Trim(segments[k]);
      assert segments[..k + 1][..k] == segments[..k];
      if seg != "" {
        var parsed := ParseSegment(seg, min, max);
        if parsed.None? {
          SegmentsFail(segments, k, min, max);
          return false, values;
        }
        SelectedGrows(segs, parsed.value, min, max);
        values := AddSegment(parsed.value, min, max, values);
        segs := segs + [parsed.value];
      }
    }
    assert segments[..|segments|] == segments;
    ok := true;
  }

  lemma SelectedGrows(segs: seq<Segment>, s: Segment, min: int, max: int)
    requires AllWellFormed(segs, min, max) && WellFormed(s, min, max)
    ensures AllWellFormed(segs + [s], min, max)
    ensures forall v :: Selected(segs + [s], min, max, v) <==> Selected(segs, min, max, v) || Selects(s, min, max, v)
  {
    forall v ensures Selected(segs + [s], min, max, v) <==> Selected(segs, min, max, v) || Selects(s, min, max, v) {
      if Selected(segs, min, max, v) {
        var t :| t in segs && Selects(t, min, max, v);
        assert t in segs + [s];
      }
      assert s in segs + [s];
    }
  }

  lemma {:induction false} SegmentsFail(parts: seq<string>, k: nat, min: int, max: int)
    requires k < |parts| && Trim(parts[k]) != "" && ParseSegment(Trim(parts[k]), min, max).None?
    ensures Segments(parts, min, max).None?
  {
    if k < |parts| - 1 {
      SegmentsFail(parts[..|parts| - 1], k, min, max);
    }
  }

  method AddSegment(seg: Segment, min: int, max: int, before: set<int>) returns (values: set<int>)
    requires 0 <= min <= max < 0x4000_0000 && WellFormed(seg, min, max)
    ensures values != {}
    ensures forall v :: min <= v <= max ==> (v in values <==> v in before || Selects(seg, min, max, v))
  {
    ghost var some := EachDenotesSome(seg, min, max);
    match seg {
      case Step(n) => values := AddSteps(min, max, n, before);
      case RangeStep(a, b, n) => values := AddSteps(a, b, n, before);
      case Range(a, b) =>
        values := before;
        for i := a to b + 1
          invariant forall v :: v in values <==> v in before || a <= v < i
        {
          values := values + {i};
        }
      case Value(x) => values := before + {x};
    }
    assert Selects(seg, min, max, some) && some in values;
  }

  // ----- the whole expression -----

  datatype CronExpr = CronExpr(minute: seq<int>, hour: seq<int>, dom: seq<int>, month: seq<int>, dow: seq<int>)

  /** parseCron; a sixth, leading field of seconds is ignored. */
  function ParseCron(expression: string): Option<CronExpr> {
    var fields := Fields(Trim(expression));
    var parts := if |fields| == 6 then fields[1..] else fields;
    if |parts| != 5 then None else
      match (FieldValues(parts[0], 0, 59), FieldValues(parts[1], 0, 23), FieldValues(parts[2], 1, 31),
             FieldValues(parts[3], 1, 12), FieldValues(parts[4], 0, 6))
      case (Some(minute), Some(hour), Some(dom), Some(month), Some(dow)) => Some(CronExpr(minute, hour, dom, month, dow))
      case _ => None
  }

  predicate ListWithin(s: seq<int>, min: int, max: int) {
    s != [] && Increasing(s) && forall v :: v in s ==> min <= v <= max
  }

  predicate Valid(c: CronExpr) {
    ListWithin(c.minute, 0, 59) && ListWithin(c.hour, 0, 23) && ListWithin(c.dom, 1, 31) &&
    ListWithin(c.month, 1, 12) && ListWithin(c.dow, 0, 6)
  }

  lemma ParsedIsValid(expression: string)
    requires ParseCron(expression).Some?
    ensures Valid(ParseCron(expression).value)
  {
    var fields := Fields(Trim(expression));
    var parts := if |fields| == 6 then fields[1..] else fields;
    FieldMeaning(parts[0], 0, 59);
    FieldMeaning(parts[1], 0, 23);
    FieldMeaning(parts[2], 1, 31);
    FieldMeaning(parts[3], 1, 12);
    FieldMeaning(parts[4], 0, 6);
  }
}

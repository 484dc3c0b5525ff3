/**
  The syntax of cron fields (cli/scheduler/cronexpr.go, parseField and parseCron): a grammar of the accepted texts that
  does not follow the parser's order of cases, and the lists that printed fields are read as.
 */
module CronSyntax {
  import opened Cron
  import opened CronField
  import opened CronTexts
  import opened Text

  // ----- the grammar -----

  predicate Natural(d: string, v: int) { d != "" && Digits(d) && Decimal(d) == v }

  /** A decimal number with at most one sign, in the range of a 64-bit int. */
  predicate Number(s: string, v: int) {
    && -TWO63 <= v <= MAX_INT
    && (Natural(s, v) || (s != "" && s[0] == '+' && Natural(s[1..], v)) || (s != "" && s[0] == '-' && Natural(s[1..], -v)))
  }

  /** The text before the first c and the text behind it. */
  predicate CutAt(text: string, c: char, a: string, b: string) { text == a + [c] + b && c !in a }

  /** a-b, with white space around the numbers only where `spaced` says so. */
  ghost predicate RangeText(text: string, spaced: bool, first: int, last: int) {
    exists p, q ::
      CutAt(text, '-', p, q) && Number(if spaced then Trim(p) else p, first) && Number(if spaced then Trim(q) else q, last)
  }

  /** base/n; white space is allowed around base and number, but not in front of the number if the text begins with "*" and "/". */
  ghost predicate StepText(text: string, base: string, n: int) {
    exists p, q :: CutAt(text, '/', p, q) && Trim(p) == base && Number(if p == "*" then q else Trim(q), n) && 1 <= n
  }

  /** The segment that a text stands for. */
  ghost predicate Reads(text: string, seg: Segment, min: int, max: int) {
    match seg
    case Step(n) => StepText(text, "*", n)
    case RangeStep(a, b, n) =>
      min <= a <= b <= max && exists base :: StepText(text, base, n) && RangeText(base, true, a, b)
    case Range(a, b) => '/' !in text && min <= a <= b <= max && RangeText(text, false, a, b)
    case Value(v) => '/' !in text && '-' !in text && min <= v <= max && Number(text, v)
  }

  // ----- the parser accepts exactly the grammar -----

  lemma NumberIsAtoi(s: string, v: int)
    ensures Atoi(s) == Some(v) <==> Number(s, v)
  {
  }

  lemma CutIsFind(text: string, c: char, a: string, b: string)
    requires CutAt(text, c, a, b)
    ensures Contains(text, c) && Find(text, c) == |a| && text[..|a|] == a && text[|a| + 1..] == b
  {
    FindFirst(a, c, b);
    assert text[|a|] == c;
  }

  lemma FindIsCut(text: string, c: char)
    requires Contains(text, c)
    ensures Find(text, c) < |text| && CutAt(text, c, text[..Find(text, c)], text[Find(text, c) + 1..])
  {
    if Find(text, c) < |text| {
      FindCuts(text, c);
    }
  }

  lemma BoundsAreRange(p: string, q: string, min: int, max: int, a: int, b: int)
    ensures ParseBounds(p, q, min, max) == Some((a, b)) <==> min <= a <= b <= max && Number(p, a) && Number(q, b)
  {
    NumberIsAtoi(p, a);
    NumberIsAtoi(q, b);
    hide Atoi, Number;
  }

  lemma StepIsNumber(q: string, n: int)
    ensures ParseStep(q) == Some(n) <==> 1 <= n && Number(q, n)
  {
    NumberIsAtoi(q, n);
    hide Atoi, Number;
  }

  lemma RangeIsText(text: string, spaced: bool, a: int, b: int)
    ensures RangeText(text, spaced, a, b) <==>
            Contains(text, '-') &&
            var j := Find(text, '-');
            && j < |text| && Number(if spaced then Trim(text[..j]) else text[..j], a)
            && Number(if spaced then Trim(text[j + 1..]) else text[j + 1..], b)
  {
    hide Number, Trim, Find;
    if Contains(text, '-') {
      FindIsCut(text, '-');
    }
    forall p, q | CutAt(text, '-', p, q)
      ensures Contains(text, '-') && Find(text, '-') == |p| && text[..|p|] == p && text[|p| + 1..] == q
    {
      CutIsFind(text, '-', p, q);
    }
  }

  lemma StepIsText(text: string, base: string, n: int)
    ensures StepText(text, base, n) <==>
            Contains(text, '/') &&
            var i := Find(text, '/');
            && i < |text| && Trim(text[..i]) == base && 1 <= n
            && Number(if text[..i] == "*" then text[i + 1..] else Trim(text[i + 1..]), n)
  {
    hide Number, Trim, Find;
    if Contains(text, '/') {
      FindIsCut(text, '/');
    }
    forall p, q | CutAt(text, '/', p, q)
      ensures Contains(text, '/') && Find(text, '/') == |p| && text[..|p|] == p && text[|p| + 1..] == q
    {
      CutIsFind(text, '/', p, q);
    }
  }

  lemma StarSlash(text: string)
    ensures HasPrefix(text, "*/") <==> Contains(text, '/') && Find(text, '/') < |text| && text[..Find(text, '/')] == "*"
    ensures HasPrefix(text, "*/") ==> Find(text, '/') == 1
  {
    if HasPrefix(text, "*/") {
      assert text == "*" + ['/'] + text[2..] by {
        assert text == text[..2] + text[2..];
      }
      CutIsFind(text, '/', "*", text[2..]);
    } else if Contains(text, '/') {
      FindIsCut(text, '/');
    }
  }

  lemma TrimOfStar()
    ensures Trim("*") == "*"
  {
    TrimOfTrimmed("*");
  }

  /** The base and the number of a segment with a slash, as the parser trims them. */
  lemma SlashIsCut(text: string, min: int, max: int)
    requires HasPrefix(text, "*/") || Contains(text, '/')
    ensures Contains(text, '/') && Find(text, '/') < |text|
    ensures var i := Find(text, '/');
            var base := Trim(text[..i]);
            var number := if text[..i] == "*" then text[i + 1..] else Trim(text[i + 1..]);
            ParseSegment(text, min, max) ==
            if ParseStep(number).None? then None
            else if base == "*" then Some(Step(ParseStep(number).value))
            else if !Contains(base, '-') then None
            else
              var j := Find(base, '-');
              var bounds := ParseBounds(Trim(base[..j]), Trim(if j < |base| then base[j + 1..] else ""), min, max);
              if bounds.None? then None else Some(RangeStep(bounds.value.0, bounds.value.1, ParseStep(number).value))
  {
    StarSlash(text);
    FindIsCut(text, '/');
    TrimOfStar();
    hide Trim, Find, ParseBounds, ParseStep;
    var base := Trim(text[..Find(text, '/')]);
    if Contains(base, '-') {
      FindIsCut(base, '-');
    }
  }

  lemma StarSegmentIsRead(text: string, min: int, max: int, n: int)
    requires HasPrefix(text, "*/") || Contains(text, '/')
    ensures ParseSegment(text, min, max) == Some(Step(n)) <==> StepText(text, "*", n)
  {
    SlashIsCut(text, min, max);
    var i := Find(text, '/');
    var number := if text[..i] == "*" then text[i + 1..] else Trim(text[i + 1..]);
    StepIsNumber(number, n);
    StepIsText(text, "*", n);
    hide Trim, Find, ParseBounds, ParseStep, Number, StepText, ParseSegment, Contains;
  }

  lemma OneBase(text: string, base: string, n: int)
    requires StepText(text, base, n)
    ensures Contains(text, '/') && base == Trim(text[..Find(text, '/')])
  {
    StepIsText(text, base, n);
    hide Trim, Find, StepText, Number;
  }

  /** The bounds behind a base, as the parser trims them. */
  function BoundsOf(base: string, min: int, max: int): Option<(int, int)>
    requires Contains(base, '-')
  {
    var j := Find(base, '-');
    ParseBounds(Trim(base[..j]), Trim(if j < |base| then base[j + 1..] else ""), min, max)
  }

  lemma BaseIsRange(base: string, min: int, max: int, a: int, b: int)
    ensures min <= a <= b <= max && RangeText(base, true, a, b) <==>
            Contains(base, '-') && BoundsOf(base, min, max) == Some((a, b))
  {
    RangeIsText(base, true, a, b);
    if Contains(base, '-') {
      FindIsCut(base, '-');
      var j := Find(base, '-');
      BoundsAreRange(Trim(base[..j]), Trim(base[j + 1..]), min, max, a, b);
    }
    hide Trim, Find, ParseBounds, Number, RangeText;
  }

  lemma RangeStepParts(text: string, min: int, max: int, a: int, b: int, n: int)
    requires HasPrefix(text, "*/") || Contains(text, '/')
    ensures Contains(text, '/') && Find(text, '/') < |text|
    ensures var i := Find(text, '/');
            var base := Trim(text[..i]);
            var number := if text[..i] == "*" then text[i + 1..] else Trim(text[i + 1..]);
            ParseSegment(text, min, max) == Some(RangeStep(a, b, n)) <==>
            ParseStep(number) == Some(n) && base != "*" && Contains(base, '-') && BoundsOf(base, min, max) == Some((a, b))
  {
    SlashIsCut(text, min, max);
    hide Trim, Find, ParseBounds, ParseStep, ParseSegment, Contains, HasPrefix;
  }

  lemma RangeStepIsParsed(text: string, min: int, max: int, a: int, b: int, n: int)
    requires HasPrefix(text, "*/") || Contains(text, '/')
    ensures Contains(text, '/') && Find(text, '/') < |text|
    ensures var base := Trim(text[..Find(text, '/')]);
            ParseSegment(text, min, max) == Some(RangeStep(a, b, n)) <==>
            StepText(text, base, n) && min <= a <= b <= max && RangeText(base, true, a, b)
  {
    RangeStepParts(text, min, max, a, b, n);
    var i := Find(text, '/');
    var base := Trim(text[..i]);
    StepIsNumber(if text[..i] == "*" then text[i + 1..] else Trim(text[i + 1..]), n);
    StepIsText(text, base, n);
    BaseIsRange(base, min, max, a, b);
    StarHasNoDash();
    hide StepText, Number, Trim, Find, ParseBounds, ParseStep, RangeText, ParseSegment, Contains, BoundsOf, HasPrefix;
  }

  lemma RangeStepIsRead(text: string, min: int, max: int, a: int, b: int, n: int)
    requires HasPrefix(text, "*/") || Contains(text, '/')
    ensures ParseSegment(text, min, max) == Some(RangeStep(a, b, n)) <==>
            min <= a <= b <= max && exists base :: StepText(text, base, n) && RangeText(base, true, a, b)
  {
    RangeStepIsParsed(text, min, max, a, b, n);
    hide Trim, Find, StepText, RangeText, ParseSegment, Contains;
    forall base | StepText(text, base, n) ensures base == Trim(text[..Find(text, '/')]) {
      OneBase(text, base, n);
    }
  }

  lemma StepSegmentIsRead(text: string, min: int, max: int, seg: Segment)
    requires HasPrefix(text, "*/") || Contains(text, '/')
    ensures ParseSegment(text, min, max) == Some(seg) <==> Reads(text, seg, min, max)
  {
    match seg
    case Step(n) => StarSegmentIsRead(text, min, max, n);
    case RangeStep(a, b, n) => RangeStepIsRead(text, min, max, a, b, n);
    case _ =>
      SlashIsCut(text, min, max);
      hide ParseSegment, Find, Trim, ParseBounds, ParseStep;
  }

  lemma StarHasNoDash()
    ensures !Contains("*", '-')
  {
  }

  lemma PlainSegmentIsRead(text: string, min: int, max: int, seg: Segment)
    requires !HasPrefix(text, "*/") && !Contains(text, '/')
    ensures ParseSegment(text, min, max) == Some(seg) <==> Reads(text, seg, min, max)
  {
    hide Trim, Find, ParseBounds, ParseStep, Number, Atoi, StepText, RangeText;
    match seg
    case Step(n) => StepIsText(text, "*", n);
    case RangeStep(a, b, n) =>
      forall base ensures !StepText(text, base, n) {
        StepIsText(text, base, n);
      }
    case Range(a, b) =>
      RangeIsText(text, false, a, b);
      if Contains(text, '-') {
        var j := Find(text, '-');
        FindIsCut(text, '-');
        BoundsAreRange(text[..j], text[j + 1..], min, max, a, b);
      }
    case Value(v) => NumberIsAtoi(text, v);
  }

  /** A text is accepted as a segment if and only if the grammar reads it as that segment. */
  lemma SegmentSyntax(text: string, min: int, max: int, seg: Segment)
    ensures ParseSegment(text, min, max) == Some(seg) <==> Reads(text, seg, min, max)
  {
    hide ParseSegment, Reads;
    if HasPrefix(text, "*/") || Contains(text, '/') {
      StepSegmentIsRead(text, min, max, seg);
    } else {
      PlainSegmentIsRead(text, min, max, seg);
    }
  }

  // ----- printed segments -----

  function Show(seg: Segment, min: int, max: int): string
    requires 0 <= min && WellFormed(seg, min, max)
  {
    match seg
    case Step(n) => "*/" + Print(n)
    case RangeStep(a, b, n) => Print(a) + "-" + Print(b) + "/" + Print(n)
    case Range(a, b) => Print(a) + "-" + Print(b)
    case Value(v) => Print(v)
  }

  /** Bytes that neither separate segments nor are trimmed. */
  predicate Solid(s: string) { ',' !in s && forall i :: 0 <= i < |s| ==> !IsSpace(s[i]) }

  lemma SolidIsTrimmed(s: string)
    requires Solid(s)
    ensures Trim(s) == s
  {
    TrimOfTrimmed(s);
  }

  lemma SolidOfConcat(a: string, c: char, b: string)
    requires Solid(a) && Solid(b) && c != ',' && !IsSpace(c)
    ensures Solid(a + [c] + b) && |a + [c] + b| == |a| + 1 + |b|
  {
  }

  lemma PrintIsNumber(n: nat)
    requires n <= MAX_INT
    ensures Number(Print(n), n) && Trim(Print(n)) == Print(n) && Solid(Print(n))
    ensures '/' !in Print(n) && '-' !in Print(n) && '*' !in Print(n)
  {
    DecimalOfPrint(n);
    NumberText(Print(n));
    hide Print, Decimal;
    assert forall i :: 0 <= i < |Print(n)| ==> IsDigit(Print(n)[i]);
  }

  lemma ShowIsSolid(seg: Segment, min: int, max: int)
    requires 0 <= min && max <= MAX_INT && WellFormed(seg, min, max)
    ensures Solid(Show(seg, min, max)) && Show(seg, min, max) != "" && Show(seg, min, max) != "*"
  {
    assert Solid("*");
    hide Print, Solid, Number;
    match seg
    case Step(n) =>
      PrintIsNumber(n);
      SolidOfConcat("*", '/', Print(n));
      assert "*/" + Print(n) == "*" + ['/'] + Print(n);
    case RangeStep(a, b, n) =>
      PrintIsNumber(a);
      PrintIsNumber(b);
      PrintIsNumber(n);
      SolidOfConcat(Print(a), '-', Print(b));
      SolidOfConcat(Print(a) + "-" + Print(b), '/', Print(n));
    case Range(a, b) =>
      PrintIsNumber(a);
      PrintIsNumber(b);
      SolidOfConcat(Print(a), '-', Print(b));
    case Value(v) => PrintIsNumber(v);
  }

  lemma RangeOfPrints(a: nat, b: nat)
    requires a <= MAX_INT && b <= MAX_INT
    ensures var text := Print(a) + "-" + Print(b);
            RangeText(text, false, a, b) && RangeText(text, true, a, b) && '/' !in text && Trim(text) == text
  {
    PrintIsNumber(a);
    PrintIsNumber(b);
    SolidOfConcat(Print(a), '-', Print(b));
    hide Print, Number, Trim, Solid;
    var text := Print(a) + "-" + Print(b);
    assert CutAt(text, '-', Print(a), Print(b));
    SolidIsTrimmed(text);
  }

  lemma StepOfPrint(base: string, n: nat)
    requires 1 <= n <= MAX_INT && Trim(base) == base && '/' !in base
    ensures StepText(base + "/" + Print(n), base, n)
  {
    PrintIsNumber(n);
    hide Print, Number, Trim;
    assert CutAt(base + "/" + Print(n), '/', base, Print(n));
  }

  /** A printed segment is read as that segment. */
  lemma SegmentOfShow(seg: Segment, min: int, max: int)
    requires 0 <= min && max <= MAX_INT && WellFormed(seg, min, max)
    ensures ParseSegment(Show(seg, min, max), min, max) == Some(seg)
  {
    SegmentSyntax(Show(seg, min, max), min, max, seg);
    hide Print, Number, Trim, StepText, RangeText, ParseSegment;
    match seg
    case Step(n) =>
      TrimOfStar();
      StepOfPrint("*", n);
      assert "*" + "/" + Print(n) == "*/" + Print(n);
    case RangeStep(a, b, n) =>
      RangeOfPrints(a, b);
      StepOfPrint(Print(a) + "-" + Print(b), n);
    case Range(a, b) => RangeOfPrints(a, b);
    case Value(v) => PrintIsNumber(v);
  }

  // ----- printed fields -----

  function ShowAll(segs: seq<Segment>, min: int, max: int): (texts: seq<string>)
    requires 0 <= min && AllWellFormed(segs, min, max)
    ensures |texts| == |segs|
  {
    if segs == [] then [] else
      assert forall s :: s in segs[..|segs| - 1] ==> s in segs;
      ShowAll(segs[..|segs| - 1], min, max) + [Show(segs[|segs| - 1], min, max)]
  }

  /** A field with the given segments, as it is written. */
  function ShowField(segs: seq<Segment>, min: int, max: int): string
    requires 0 <= min && AllWellFormed(segs, min, max)
  {
    Join(ShowAll(segs, min, max), ",")
  }

  lemma OneMoreSegment(parts: seq<string>, segs: seq<Segment>, part: string, seg: Segment, min: int, max: int)
    requires Segments(parts, min, max) == Some(segs)
    requires Solid(part) && part != "" && ParseSegment(part, min, max) == Some(seg)
    ensures Segments(parts + [part], min, max) == Some(segs + [seg])
  {
    SolidIsTrimmed(part);
    hide ParseSegment, Trim, Solid;
    assert (parts + [part])[..|parts|] == parts;
  }

  lemma ShowOneMore(segs: seq<Segment>, seg: Segment, min: int, max: int)
    requires 0 <= min && AllWellFormed(segs, min, max) && WellFormed(seg, min, max)
    ensures AllWellFormed(segs + [seg], min, max)
    ensures ShowAll(segs + [seg], min, max) == ShowAll(segs, min, max) + [Show(seg, min, max)]
  {
    hide Show, WellFormed;
    assert (segs + [seg])[..|segs|] == segs;
  }

  lemma {:induction false} SegmentsOfShow(segs: seq<Segment>, min: int, max: int)
    requires 0 <= min && max <= MAX_INT && AllWellFormed(segs, min, max)
    ensures Segments(ShowAll(segs, min, max), min, max) == Some(segs)
    ensures forall t :: t in ShowAll(segs, min, max) ==> Solid(t) && t != "" && t != "*"
  {
    hide Show, ParseSegment, WellFormed, Trim, Solid;
    if segs != [] {
      var init, last := segs[..|segs| - 1], segs[|segs| - 1];
      assert segs == init + [last] && last in segs && forall s :: s in init ==> s in segs;
      SegmentsOfShow(init, min, max);
      ShowIsSolid(last, min, max);
      SegmentOfShow(last, min, max);
      hide Segments, ShowAll;
      ShowOneMore(init, last, min, max);
      OneMoreSegment(ShowAll(init, min, max), init, Show(last, min, max), last, min, max);
    }
  }

  lemma JoinIsNoStar(texts: seq<string>)
    requires texts != [] && forall t :: t in texts ==> Solid(t) && t != "" && t != "*"
    ensures Join(texts, ",") != "*"
  {
    assert texts[0] in texts;
    if |texts| > 1 {
      assert Join(texts, ",")[|texts[0]|] == ',';
      assert |Join(texts, ",")| > 1;
    }
  }

  /** The step of a stepped range is too small to wrap around. */
  predicate NoWrap(seg: Segment, min: int) { seg.RangeStep? ==> seg.first - min < 2 * (TWO63 - seg.step) }

  /** A written field lists, in increasing order, what its segments denote. */
  lemma FieldOfShow(segs: seq<Segment>, min: int, max: int)
    requires segs != [] && 0 <= min <= max <= MAX_INT && AllWellFormed(segs, min, max)
    requires forall s :: s in segs ==> NoWrap(s, min)
    ensures var r := FieldValues(ShowField(segs, min, max), min, max);
            && r.Some? && Increasing(r.value)
            && forall v :: v in r.value <==> exists s :: s in segs && Denotes(s, min, max, v)
  {
    hide Show, ShowAll, Join, Segments, Chosen, WellFormed, Split, Denotes, Selects;
    var field, texts := ShowField(segs, min, max), ShowAll(segs, min, max);
    SegmentsOfShow(segs, min, max);
    SplitOfJoin(texts);
    JoinIsNoStar(texts);
    FieldMeaning(field, min, max);
    FieldIsTheUnion(field, min, max);
  }

  /** Every n-th value, from the least one on. */
  lemma EveryNth(n: int, min: int, max: int)
    requires 1 <= n <= MAX_INT && 0 <= min <= max <= MAX_INT
    ensures var r := FieldValues("*/" + Print(n), min, max);
            && r.Some? && Increasing(r.value)
            && forall v :: v in r.value <==> min <= v <= max && (v - min) % n == 0
  {
    var segs := [Step(n)];
    assert AllWellFormed(segs, min, max);
    assert segs[..0] == [] && ShowAll([], min, max) == [];
    assert ShowAll(segs, min, max) == [Show(Step(n), min, max)];
    assert ShowField(segs, min, max) == "*/" + Print(n);
    hide Print, FieldValues, ShowField, ShowAll;
    FieldOfShow(segs, min, max);
    forall v ensures Denotes(Step(n), min, max, v) <==> exists s :: s in segs && Denotes(s, min, max, v) {
      assert Step(n) in segs;
    }
  }

  /** The parts of a field, trimmed, without the blank ones. */
  function Clean(parts: seq<string>): seq<string> {
    if parts == [] then [] else
      var part := Trim(parts[|parts| - 1]);
      Clean(parts[..|parts| - 1]) + (if part == "" then [] else [part])
  }

  /** Blank parts of a field, and white space around its parts, change nothing. */
  lemma {:induction false} BlanksDoNotMatter(parts: seq<string>, min: int, max: int)
    ensures Segments(parts, min, max) == Segments(Clean(parts), min, max)
  {
    hide Trim, ParseSegment, WellFormed;
    if parts != [] {
      var init, part := parts[..|parts| - 1], Trim(parts[|parts| - 1]);
      BlanksDoNotMatter(init, min, max);
      if part == "" {
        assert Clean(init) + [] == Clean(init);
      } else {
        TrimTwice(parts[|parts| - 1]);
        var cleaned := Clean(init) + [part];
        assert cleaned[..|cleaned| - 1] == Clean(init);
      }
    }
  }

  /** So a field is accepted as it would be without them, except that "*" has to stand alone. */
  lemma FieldOfClean(field: string, min: int, max: int)
    requires min <= max && field != "*"
    ensures var segs := Segments(Clean(Split(field, ',')), min, max);
            FieldValues(field, min, max) ==
            if segs.None? || segs.value == [] then None else Some(Chosen(segs.value, min, max, min))
    ensures Clean(Split(field, ',')) == [] ==> FieldValues(field, min, max).None?
  {
    hide Clean, Split, ParseSegment;
    BlanksDoNotMatter(Split(field, ','), min, max);
  }

  // ----- written expressions -----

  datatype Field = All | Of(segs: seq<Segment>)

  predicate FieldOk(f: Field, min: int, max: int) {
    f.Of? ==> f.segs != [] && AllWellFormed(f.segs, min, max) && forall s :: s in f.segs ==> NoWrap(s, min)
  }

  function FieldText(f: Field, min: int, max: int): string
    requires 0 <= min && FieldOk(f, min, max)
  {
    match f
    case All => "*"
    case Of(segs) => ShowField(segs, min, max)
  }

  /** The list holds, in increasing order, the values the field stands for. */
  ghost predicate Means(list: seq<int>, f: Field, min: int, max: int)
    requires FieldOk(f, min, max)
  {
    Increasing(list) && forall v :: v in list <==>
      min <= v <= max && (f.Of? ==> exists s :: s in f.segs && Denotes(s, min, max, v))
  }

  lemma FieldOfText(f: Field, min: int, max: int)
    requires 0 <= min <= max <= MAX_INT && FieldOk(f, min, max)
    ensures var r := FieldValues(FieldText(f, min, max), min, max); r.Some? && Means(r.value, f, min, max)
  {
    hide FieldValues, ShowField, Denotes;
    match f
    case All => AllValues(min, max);
    case Of(segs) =>
      FieldOfShow(segs, min, max);
      forall s, v | s in segs && Denotes(s, min, max, v) ensures min <= v <= max {
        DenotedIsWithin(s, min, max, v);
      }
  }

  lemma AllValues(min: int, max: int)
    requires min <= max
    ensures FieldValues("*", min, max).Some?
    ensures var list := FieldValues("*", min, max).value; Increasing(list) && forall v :: v in list <==> min <= v <= max
  {
    FieldMeaning("*", min, max);
  }

  lemma DenotedIsWithin(s: Segment, min: int, max: int, v: int)
    requires WellFormed(s, min, max) && Denotes(s, min, max, v)
    ensures min <= v <= max
  {
  }

  predicate Word(s: string) { s != "" && forall i :: 0 <= i < |s| ==> !IsSpace(s[i]) }

  lemma {:induction false} JoinIsAWord(texts: seq<string>)
    requires texts != [] && forall t :: t in texts ==> Solid(t) && t != ""
    ensures Word(Join(texts, ","))
  {
    assert texts[0] in texts;
    if |texts| > 1 {
      JoinIsAWord(texts[1..]);
    }
  }

  lemma FieldIsAWord(f: Field, min: int, max: int)
    requires 0 <= min && max <= MAX_INT && FieldOk(f, min, max)
    ensures Word(FieldText(f, min, max))
  {
    if f.Of? {
      SegmentsOfShow(f.segs, min, max);
      JoinIsAWord(ShowAll(f.segs, min, max));
    }
  }

  lemma WordsAreFields(a: string, b: string, c: string, d: string, e: string)
    requires Word(a) && Word(b) && Word(c) && Word(d) && Word(e)
    ensures Fields(a + " " + (b + " " + (c + " " + (d + " " + e)))) == [a, b, c, d, e]
  {
    hide Fields;
    LastWord(e);
    FirstWord(d, e);
    FirstWord(c, d + " " + e);
    FirstWord(b, c + " " + (d + " " + e));
    FirstWord(a, b + " " + (c + " " + (d + " " + e)));
    assert [a] + ([b] + ([c] + ([d] + [e]))) == [a, b, c, d, e];
  }

  lemma WordsAreTrimmed(a: string, rest: string)
    requires Word(a) && Word(rest)
    ensures forall middle :: Trim(a + " " + (middle + rest)) == a + " " + (middle + rest)
  {
    forall middle ensures Trim(a + " " + (middle + rest)) == a + " " + (middle + rest) {
      var s := a + " " + (middle + rest);
      assert s[0] == a[0] && s[|s| - 1] == rest[|rest| - 1];
      TrimOfTrimmed(s);
    }
  }

  /** The fields of a written expression, in the order minute, hour, day of the month, month and day of the week. */
  datatype Written = Written(minute: Field, hour: Field, dom: Field, month: Field, dow: Field)

  predicate WrittenOk(x: Written) {
    && FieldOk(x.minute, 0, 59) && FieldOk(x.hour, 0, 23) && FieldOk(x.dom, 1, 31)
    && FieldOk(x.month, 1, 12) && FieldOk(x.dow, 0, 6)
  }

  function Text5(x: Written): string
    requires WrittenOk(x)
  {
    FieldText(x.minute, 0, 59) + " " + (FieldText(x.hour, 0, 23) + " " + (FieldText(x.dom, 1, 31) + " " +
    (FieldText(x.month, 1, 12) + " " + FieldText(x.dow, 0, 6))))
  }

  ghost predicate IsReadAs(expression: string, x: Written)
    requires WrittenOk(x)
  {
    && ParseCron(expression).Some?
    && var c := ParseCron(expression).value;
       Means(c.minute, x.minute, 0, 59) && Means(c.hour, x.hour, 0, 23) && Means(c.dom, x.dom, 1, 31) &&
       Means(c.month, x.month, 1, 12) && Means(c.dow, x.dow, 0, 6)
  }

  lemma FiveFields(x: Written)
    requires WrittenOk(x)
    ensures Fields(Trim(Text5(x))) == [FieldText(x.minute, 0, 59), FieldText(x.hour, 0, 23), FieldText(x.dom, 1, 31),
                                       FieldText(x.month, 1, 12), FieldText(x.dow, 0, 6)]
    ensures Trim(Text5(x)) == Text5(x)
  {
    hide FieldText, FieldOk, Fields, Trim;
    FieldIsAWord(x.minute, 0, 59);
    FieldIsAWord(x.hour, 0, 23);
    FieldIsAWord(x.dom, 1, 31);
    FieldIsAWord(x.month, 1, 12);
    FieldIsAWord(x.dow, 0, 6);
    var a, b, c := FieldText(x.minute, 0, 59), FieldText(x.hour, 0, 23), FieldText(x.dom, 1, 31);
    var d, e := FieldText(x.month, 1, 12), FieldText(x.dow, 0, 6);
    WordsAreFields(a, b, c, d, e);
    WordsAreTrimmed(a, e);
    assert a + " " + (b + " " + (c + " " + (d + " " + e))) == a + " " + (b + " " + c + " " + d + " " + e);
  }

  /** A written expression is read as it is meant, with or without a field of seconds in front. */
  lemma ExpressionOfText(x: Written, seconds: string)
    requires WrittenOk(x) && Word(seconds)
    ensures IsReadAs(Text5(x), x) && ParseCron(seconds + " " + Text5(x)) == ParseCron(Text5(x))
  {
    hide FieldText, FieldOk, Fields, Trim, FieldValues, Means, Word;
    FiveFields(x);
    FieldOfText(x.minute, 0, 59);
    FieldOfText(x.hour, 0, 23);
    FieldOfText(x.dom, 1, 31);
    FieldOfText(x.month, 1, 12);
    FieldOfText(x.dow, 0, 6);
    SecondsAreDropped(x, seconds);
  }

  lemma SecondsAreDropped(x: Written, seconds: string)
    requires WrittenOk(x) && Word(seconds)
    ensures Fields(Trim(seconds + " " + Text5(x))) == [seconds] + Fields(Trim(Text5(x)))
  {
    FiveFields(x);
    FieldIsAWord(x.dow, 0, 6);
    hide FieldText, Fields, Trim;
    var text, e := Text5(x), FieldText(x.dow, 0, 6);
    FirstWord(seconds, text);
    WordsAreTrimmed(seconds, e);
    assert text == text[..|text| - |e|] + e;
  }
}

/** Fragmenting long content for a platform (cli/gateway/content_adapter.go). */
module ContentAdapter {
  import opened Text
  import opened Pieces

  // ----- packing units: splitByParagraphs and splitByLines -----

  /** Within the limit, or a single unit. */
  predicate Fits(f: string, units: seq<string>, maxLen: int) { |f| <= maxLen || f in units }

  predicate AllFit(fragments: seq<string>, units: seq<string>, maxLen: int) {
    forall i :: 0 <= i < |fragments| ==> fragments[i] != "" && Fits(fragments[i], units, maxLen)
  }

  /** No two neighbours could have been one fragment. */
  predicate Tight(fragments: seq<string>, sep: string, maxLen: int) {
    forall i, j :: 0 <= i && j == i + 1 < |fragments| ==> |fragments[i]| + |sep| + |fragments[j]| > maxLen
  }

  predicate LastIsTight(fragments: seq<string>, current: string, sep: string, maxLen: int) {
    fragments != [] ==> |fragments[|fragments| - 1]| + |sep| + |current| > maxLen
  }

  /** Units from `from` up to, not including, `to`. */
  datatype Range = Range(from: nat, to: nat)

  predicate JoinOf(units: seq<string>, sep: string, f: string, r: Range) {
    r.from < r.to <= |units| && units[r.from] != "" && f == Join(units[r.from..r.to], sep)
  }

  predicate InSome(ranges: seq<Range>, k: nat) {
    exists i :: 0 <= i < |ranges| && ranges[i].from <= k < ranges[i].to
  }

  predicate AreJoins(units: seq<string>, sep: string, fragments: seq<string>, ranges: seq<Range>) {
    |ranges| == |fragments| && forall i :: 0 <= i < |ranges| ==> JoinOf(units, sep, fragments[i], ranges[i])
  }

  predicate InOrder(ranges: seq<Range>, n: nat) {
    && (forall i :: 0 <= i < |ranges| ==> ranges[i].to <= n)
    && (forall i, j :: 0 <= i < j < |ranges| ==> ranges[i].to <= ranges[j].from)
  }

  predicate Covers(units: seq<string>, n: nat, ranges: seq<Range>) {
    n <= |units| && forall k :: 0 <= k < n && units[k] != "" ==> InSome(ranges, k)
  }

  /** The fragments are joins of consecutive units, in order and without overlap, and leave out only empty ones of the first n. */
  predicate JoinsUnits(units: seq<string>, n: nat, sep: string, fragments: seq<string>, ranges: seq<Range>) {
    AreJoins(units, sep, fragments, ranges) && InOrder(ranges, n) && Covers(units, n, ranges)
  }

  /** No unit is cut: the fragments are joins of consecutive units, and every unit that is not empty is in one. */
  ghost predicate NoUnitIsCut(units: seq<string>, sep: string, fragments: seq<string>) {
    exists ranges :: JoinsUnits(units, |units|, sep, fragments, ranges)
  }

  /** The fragments with the one being built. */
  function WithCurrent(fragments: seq<string>, current: string): seq<string> {
    if current == "" then fragments else fragments + [current]
  }

  lemma CoversFirst(units: seq<string>, k: nat, ranges: seq<Range>)
    requires Covers(units, k, ranges) && k < |units|
    ensures units[k] == "" ==> Covers(units, k + 1, ranges)
    ensures Covers(units, k + 1, ranges + [Range(k, k + 1)])
  {
    var ranges' := ranges + [Range(k, k + 1)];
    assert ranges'[|ranges|].from <= k < ranges'[|ranges|].to;
    forall i | 0 <= i < k && units[i] != "" ensures InSome(ranges', i) {
      assert InSome(ranges, i);
      var j :| 0 <= j < |ranges| && ranges[j].from <= i < ranges[j].to;
      assert ranges'[j] == ranges[j];
    }
  }

  lemma CoversMore(units: seq<string>, k: nat, ranges: seq<Range>)
    requires Covers(units, k, ranges) && k < |units| && ranges != []
    requires var last := ranges[|ranges| - 1]; last.from < last.to == k
    ensures var n := |ranges| - 1; Covers(units, k + 1, ranges[n := Range(ranges[n].from, k + 1)])
  {
    var n := |ranges| - 1;
    var ranges' := ranges[n := Range(ranges[n].from, k + 1)];
    assert ranges'[n].from <= k < ranges'[n].to;
    forall i | 0 <= i < k && units[i] != "" ensures InSome(ranges', i) {
      assert InSome(ranges, i);
      var j :| 0 <= j < |ranges| && ranges[j].from <= i < ranges[j].to;
      assert ranges'[j].from <= i < ranges'[j].to;
    }
  }

  /** One more unit behind finished fragments. */
  lemma JoinsFirst(units: seq<string>, k: nat, sep: string, fragments: seq<string>, ranges: seq<Range>)
    returns (ranges': seq<Range>)
    requires JoinsUnits(units, k, sep, fragments, ranges) && k < |units|
    ensures JoinsUnits(units, k + 1, sep, WithCurrent(fragments, units[k]), ranges')
    ensures |ranges'| == |WithCurrent(fragments, units[k])|
    ensures units[k] != "" ==> ranges'[|fragments|].to == k + 1
  {
    hide Covers, JoinOf, InSome;
    ranges' := if units[k] == "" then ranges else ranges + [Range(k, k + 1)];
    CoversFirst(units, k, ranges);
    if units[k] != "" {
      JoinOfOne(units, k, sep);
    }
  }

  lemma JoinOfOne(units: seq<string>, k: nat, sep: string)
    requires k < |units| && units[k] != ""
    ensures JoinOf(units, sep, units[k], Range(k, k + 1))
  {
    assert units[k..k + 1] == [units[k]];
  }

  /** One more unit joins the last fragment. */
  lemma JoinsMore(units: seq<string>, k: nat, sep: string, fragments: seq<string>, current: string, ranges: seq<Range>)
    returns (ranges': seq<Range>)
    requires JoinsUnits(units, k, sep, fragments + [current], ranges) && k < |units|
    requires ranges[|fragments|].to == k
    ensures JoinsUnits(units, k + 1, sep, fragments + [current + sep + units[k]], ranges')
    ensures |ranges'| == |fragments| + 1 && ranges'[|fragments|].to == k + 1
  {
    hide Covers, Join, JoinOf;
    var n := |fragments|;
    var all := fragments + [current];
    assert all[n] == current && JoinOf(units, sep, all[n], ranges[n]);
    JoinOfMore(units, sep, current, ranges[n]);
    CoversMore(units, k, ranges);
    ranges' := ranges[n := Range(ranges[n].from, k + 1)];
    forall i | 0 <= i < n ensures JoinOf(units, sep, fragments[i], ranges'[i]) {
      assert all[i] == fragments[i];
    }
  }

  lemma JoinOfMore(units: seq<string>, sep: string, current: string, r: Range)
    requires JoinOf(units, sep, current, r) && r.to < |units|
    ensures r.from < r.to && JoinOf(units, sep, current + sep + units[r.to], Range(r.from, r.to + 1))
  {
    hide Join;
    JoinGrows(units[r.from..r.to], units[r.to], sep);
    assert units[r.from..r.to] + [units[r.to]] == units[r.from..r.to + 1];
  }

  lemma {:induction false} JoinGrows(parts: seq<string>, p: string, sep: string)
    requires parts != []
    ensures Join(parts + [p], sep) == Join(parts, sep) + sep + p
  {
    assert (parts + [p])[1..] == parts[1..] + [p];
    if |parts| > 1 {
      JoinGrows(parts[1..], p, sep);
      assert parts[0] + sep + (Join(parts[1..], sep) + sep + p) == parts[0] + sep + Join(parts[1..], sep) + sep + p;
    } else {
      assert Join([p], sep) == p && parts[1..] + [p] == [p];
    }
  }

  /** A part of a join is in it in one piece. */
  lemma {:induction false} PartOfJoin(parts: seq<string>, k: nat, sep: string) returns (before: string, after: string)
    requires k < |parts|
    ensures Join(parts, sep) == before + parts[k] + after
  {
    if k == 0 {
      before, after := "", if |parts| == 1 then "" else sep + Join(parts[1..], sep);
      assert |parts| > 1 ==> parts[0] + sep + Join(parts[1..], sep) == parts[0] + after;
      assert "" + parts[0] + after == parts[0] + after;
    } else {
      before, after := PartOfJoin(parts[1..], k - 1, sep);
      var head := parts[0] + sep;
      assert head + (before + parts[k] + after) == head + before + parts[k] + after;
      before := head + before;
    }
  }

  /** Every unit lies in one fragment, in one piece. */
  lemma UnitsAreWhole(units: seq<string>, sep: string, fragments: seq<string>, k: nat)
    returns (i: nat, before: string, after: string)
    requires NoUnitIsCut(units, sep, fragments) && k < |units| && units[k] != ""
    ensures i < |fragments| && fragments[i] == before + units[k] + after
  {
    hide JoinOf, Join;
    var ranges: seq<Range> :| JoinsUnits(units, |units|, sep, fragments, ranges);
    assert InSome(ranges, k);
    i :| 0 <= i < |ranges| && ranges[i].from <= k < ranges[i].to;
    before, after := PartOfFragment(units, sep, fragments[i], ranges[i], k);
  }

  lemma PartOfFragment(units: seq<string>, sep: string, f: string, r: Range, k: nat) returns (before: string, after: string)
    requires JoinOf(units, sep, f, r) && r.from <= k < r.to
    ensures k < |units| && f == before + units[k] + after
  {
    hide Join;
    before, after := PartOfJoin(units[r.from..r.to], k - r.from, sep);
  }

  /** What has been read: the fragments, and the unit being built with its separator. */
  ghost predicate Read(read: string, sep: string, fragments: seq<string>, gaps: seq<nat>, current: string) {
    && |gaps| == |fragments| + 1
    && read == Rejoin(fragments, gaps, sep) + (if current == "" then "" else current + sep)
    && (current == "" && read != "" ==> gaps[|fragments|] > 0)
  }

  lemma ReadFirst(read: string, sep: string, fragments: seq<string>, gaps: seq<nat>, p: string) returns (gaps': seq<nat>)
    requires Read(read, sep, fragments, gaps, "") && sep != ""
    ensures Read(read + p + sep, sep, fragments, gaps', p)
  {
    if p == "" {
      gaps' := gaps[|fragments| := gaps[|fragments|] + 1];
      RejoinWidens(fragments, gaps, sep);
      assert read + p + sep == read + sep;
    } else {
      gaps' := gaps;
      Associates(read, p, sep);
    }
  }

  lemma ReadMore(read: string, sep: string, fragments: seq<string>, gaps: seq<nat>, current: string, p: string)
    requires Read(read, sep, fragments, gaps, current) && current != "" && sep != ""
    ensures Read(read + p + sep, sep, fragments, gaps, current + sep + p)
  {
    var w := Rejoin(fragments, gaps, sep);
    assert w + (current + sep) + p + sep == w + (current + sep + p + sep);
  }

  lemma ReadFlush(read: string, sep: string, fragments: seq<string>, gaps: seq<nat>, current: string)
    requires Read(read, sep, fragments, gaps, current) && current != ""
    ensures Read(read, sep, fragments + [current], gaps + [1], "")
  {
    RejoinGrows(fragments, gaps, sep, current, 1);
    assert Repeat(sep, 1) == sep by {
      assert Repeat(sep, 0) == "";
    }
    var w := Rejoin(fragments, gaps, sep);
    Associates(w, current, sep);
  }

  lemma ReadAll(text: string, sep: string, fragments: seq<string>, gaps: seq<nat>, current: string)
    requires Read(text + sep, sep, fragments, gaps, current) && sep != ""
    ensures LosesOnly(sep, text, if current == "" then fragments else fragments + [current])
  {
    var n := |fragments|;
    if current != "" {
      RejoinGrows(fragments, gaps, sep, current, 0);
      var w := Rejoin(fragments, gaps, sep);
      Associates(w, current, sep);
      SameTail(text, w + current, sep);
      assert Repeat(sep, 0) == "";
    } else {
      var fewer := gaps[n := gaps[n] - 1];
      assert fewer[n := fewer[n] + 1] == gaps;
      RejoinWidens(fragments, fewer, sep);
      SameTail(text, Rejoin(fragments, fewer, sep), sep);
    }
  }

  lemma SameTail(a: string, b: string, c: string)
    requires a + c == b + c
    ensures a == b
  {
    assert (a + c)[..|a|] == a && (b + c)[..|b|] == b;
  }

  /** The invariant of the packing loop after k units. */
  ghost predicate Packed(units: seq<string>, k: nat, sep: string, maxLen: int, fragments: seq<string>, current: string,
                         gaps: seq<nat>, ranges: seq<Range>) {
    && k <= |units|
    && Read(Terminated(units[..k], sep), sep, fragments, gaps, current)
    && AllFit(fragments, units, maxLen) && (current != "" ==> Fits(current, units, maxLen))
    && Tight(fragments, sep, maxLen) && LastIsTight(fragments, current, sep, maxLen)
    && JoinsUnits(units, k, sep, WithCurrent(fragments, current), ranges)
    && (current != "" ==> |ranges| == |fragments| + 1 && ranges[|fragments|].to == k)
  }

  lemma TerminatedStep(units: seq<string>, k: nat, sep: string)
    requires k < |units|
    ensures Terminated(units[..k + 1], sep) == Terminated(units[..k], sep) + units[k] + sep
  {
    assert units[..k + 1][..k] == units[..k];
  }

  lemma PackFirst(units: seq<string>, k: nat, sep: string, maxLen: int, fragments: seq<string>,
                  gaps: seq<nat>, ranges: seq<Range>)
    returns (gaps': seq<nat>, ranges': seq<Range>)
    requires Packed(units, k, sep, maxLen, fragments, "", gaps, ranges) && k < |units| && sep != ""
    ensures Packed(units, k + 1, sep, maxLen, fragments, units[k], gaps', ranges')
  {
    hide JoinsUnits, Read, Terminated, Tight;
    TerminatedStep(units, k, sep);
    gaps' := ReadFirst(Terminated(units[..k], sep), sep, fragments, gaps, units[k]);
    ranges' := JoinsFirst(units, k, sep, fragments, ranges);
  }

  lemma PackMore(units: seq<string>, k: nat, sep: string, maxLen: int, fragments: seq<string>, current: string,
                 gaps: seq<nat>, ranges: seq<Range>)
    returns (ranges': seq<Range>)
    requires Packed(units, k, sep, maxLen, fragments, current, gaps, ranges) && k < |units| && sep != ""
    requires current != "" && |current| + |sep| + |units[k]| <= maxLen
    ensures Packed(units, k + 1, sep, maxLen, fragments, current + sep + units[k], gaps, ranges')
  {
    hide JoinsUnits, Read, Terminated, Tight;
    TerminatedStep(units, k, sep);
    ReadMore(Terminated(units[..k], sep), sep, fragments, gaps, current, units[k]);
    ranges' := JoinsMore(units, k, sep, fragments, current, ranges);
  }

  lemma PackFlush(units: seq<string>, k: nat, sep: string, maxLen: int, fragments: seq<string>, current: string,
                  gaps: seq<nat>, ranges: seq<Range>)
    returns (gaps': seq<nat>, ranges': seq<Range>)
    requires Packed(units, k, sep, maxLen, fragments, current, gaps, ranges) && k < |units| && sep != ""
    requires current != "" && |current| + |sep| + |units[k]| > maxLen
    ensures Packed(units, k + 1, sep, maxLen, fragments + [current], units[k], gaps', ranges')
  {
    hide JoinsUnits, Read, Terminated, Tight;
    TerminatedStep(units, k, sep);
    ReadFlush(Terminated(units[..k], sep), sep, fragments, gaps, current);
    gaps' := ReadFirst(Terminated(units[..k], sep), sep, fragments + [current], gaps + [1], units[k]);
    ranges' := JoinsFirst(units, k, sep, fragments + [current], ranges);
    TightGrows(fragments, current, sep, maxLen);
  }

  lemma TightGrows(fragments: seq<string>, current: string, sep: string, maxLen: int)
    requires Tight(fragments, sep, maxLen) && LastIsTight(fragments, current, sep, maxLen)
    ensures Tight(fragments + [current], sep, maxLen)
  {
  }

  /** What packing promises: only separators are lost, no unit is cut, and only a unit that is too long by itself exceeds the limit. */
  ghost predicate Packs(text: string, sep: string, maxLen: int, fragments: seq<string>)
    requires sep != ""
  {
    var units := SplitText(text, sep);
    && LosesOnly(sep, text, fragments)
    && AllFit(fragments, units, maxLen)
    && Tight(fragments, sep, maxLen)
    && NoUnitIsCut(units, sep, fragments)
  }

  lemma FitGrows(fragments: seq<string>, current: string, units: seq<string>, sep: string, maxLen: int)
    requires AllFit(fragments, units, maxLen) && (current != "" ==> Fits(current, units, maxLen))
    requires Tight(fragments, sep, maxLen) && LastIsTight(fragments, current, sep, maxLen)
    ensures var all := WithCurrent(fragments, current);
            AllFit(all, units, maxLen) && Tight(all, sep, maxLen)
  {
  }

  lemma PackEnd(text: string, sep: string, maxLen: int, fragments: seq<string>, current: string,
                gaps: seq<nat>, ranges: seq<Range>)
    requires sep != ""
    requires Packed(SplitText(text, sep), |SplitText(text, sep)|, sep, maxLen, fragments, current, gaps, ranges)
    ensures Packs(text, sep, maxLen, WithCurrent(fragments, current))
  {
    hide JoinsUnits;
    var units := SplitText(text, sep);
    assert units[..|units|] == units;
    SplitTextJoins(text, sep);
    ReadAll(text, sep, fragments, gaps, current);
    FitGrows(fragments, current, units, sep, maxLen);
  }

  method Pack(text: string, sep: string, maxLen: int) returns (fragments: seq<string>)
    requires sep != ""
    ensures Packs(text, sep, maxLen, fragments)
  {
    var units := SplitText(text, sep);
    var current := "";
    fragments := [];
    ghost var gaps: seq<nat>, ranges: seq<Range> := [0], [];
    assert units[..0] == [];
    for k := 0 to |units|
      invariant Packed(units, k, sep, maxLen, fragments, current, gaps, ranges)
    {
      var p := units[k];
      if |current| > 0 && |current| + |sep| + |p| > maxLen {
        gaps, ranges := PackFlush(units, k, sep, maxLen, fragments, current, gaps, ranges);
        fragments := fragments + [current];
        current := p;
      } else if |current| > 0 {
        ranges := PackMore(units, k, sep, maxLen, fragments, current, gaps, ranges);
        current := current + sep + p;
      } else {
        gaps, ranges := PackFirst(units, k, sep, maxLen, fragments, gaps, ranges);
        current := p;
      }
    }
    PackEnd(text, sep, maxLen, fragments, current, gaps, ranges);
    if |current| > 0 {
      fragments := fragments + [current];
    }
  }

  /** Every fragment is within the limit if and only if every unit is. */
  lemma PacksWithinLimit(text: string, sep: string, maxLen: int, fragments: seq<string>)
    requires sep != "" && maxLen >= 0 && Packs(text, sep, maxLen, fragments)
    ensures AllWithin(fragments, maxLen) <==> AllWithin(SplitText(text, sep), maxLen)
  {
    WithinLimit(SplitText(text, sep), sep, fragments, maxLen);
  }

  predicate AllWithin(pieces: seq<string>, maxLen: int) { forall i :: 0 <= i < |pieces| ==> |pieces[i]| <= maxLen }

  lemma WithinLimit(units: seq<string>, sep: string, fragments: seq<string>, maxLen: int)
    requires maxLen >= 0 && NoUnitIsCut(units, sep, fragments) && AllFit(fragments, units, maxLen)
    ensures AllWithin(fragments, maxLen) <==> AllWithin(units, maxLen)
  {
    hide NoUnitIsCut;
    if AllWithin(fragments, maxLen) {
      forall k | 0 <= k < |units| && units[k] != "" ensures |units[k]| <= maxLen {
        var i, before, after := UnitsAreWhole(units, sep, fragments, k);
      }
    } else {
      var i :| 0 <= i < |fragments| && |fragments[i]| > maxLen;
      assert Fits(fragments[i], units, maxLen);
    }
  }

  const PARAGRAPH := "\n\n"
  const NEWLINE := "\n"

  /** Packing leaves the text in one piece. */
  ghost predicate OnePiece(text: string, sep: string, maxLen: int)
    requires sep != ""
  {
    exists pieces :: |pieces| <= 1 && Packs(text, sep, maxLen, pieces)
  }

  method SplitByParagraphs(text: string, maxLen: int) returns (fragments: seq<string>)
    ensures fragments != [] ==> |fragments| >= 2 && Packs(text, PARAGRAPH, maxLen, fragments)
    ensures fragments == [] ==> OnePiece(text, PARAGRAPH, maxLen)
  {
    fragments := Pack(text, PARAGRAPH, maxLen);
    if |fragments| <= 1 {
      fragments := [];
    }
  }

  method SplitByLines(text: string, maxLen: int) returns (fragments: seq<string>)
    ensures fragments != [] ==> |fragments| >= 2 && Packs(text, NEWLINE, maxLen, fragments)
    ensures fragments == [] ==> OnePiece(text, NEWLINE, maxLen)
  {
    fragments := Pack(text, NEWLINE, maxLen);
    if |fragments| <= 1 {
      fragments := [];
    }
  }

  // ----- splitHard -----

  /** Nothing is lost, and every piece but the last is as long as it may be. */
  predicate CutHard(text: string, maxLen: int, fragments: seq<string>) {
    && Concat(fragments) == text
    && forall j :: 0 <= j < |fragments| ==> 0 < |fragments[j]| <= maxLen && (j < |fragments| - 1 ==> |fragments[j]| == maxLen)
  }

  method SplitHard(text: string, maxLen: int) returns (fragments: seq<string>)
    requires maxLen > 0 || text == ""
    ensures CutHard(text, maxLen, fragments)
    ensures |text| > maxLen > 0 ==> |fragments| >= 2
  {
    fragments := [];
    var i := 0;
    while i < |text|
      invariant 0 <= i && Concat(fragments) == text[..if i < |text| then i else |text|]
      invariant forall j :: 0 <= j < |fragments| ==>
                  0 < |fragments[j]| <= maxLen && (j < |fragments| - 1 || i < |text| ==> |fragments[j]| == maxLen)
      invariant fragments == [] ==> i == 0
      invariant |fragments| == 1 ==> i <= maxLen
      decreases |text| - i
    {
      var end := i + maxLen;
      if end > |text| {
        end := |text|;
      }
      ConcatGrows(fragments, text[i..end]);
      assert text[..i] + text[i..end] == text[..end];
      fragments := fragments + [text[i..end]];
      i := i + maxLen;
    }
    assert text[..|text|] == text;
  }

  // ----- splitBySections -----

  /** The regular expression's \s. */
  predicate HeadingSpace(c: char) { c == '\t' || c == '\n' || c == '\U{0C}' || c == '\r' || c == ' ' }

  predicate AllHashes(s: string) { forall i :: 0 <= i < |s| ==> s[i] == '#' }

  predicate IsMark(text: string, p: nat, k: nat) {
    p + k < |text| && AllHashes(text[p..p + k]) && HeadingSpace(text[p + k])
  }

  /** A line starts at p with one to six hashes and white space. */
  predicate IsHeading(text: string, p: int) {
    && 0 <= p < |text| && (p == 0 || text[p - 1] == '\n')
    && exists k :: 1 <= k <= 6 && IsMark(text, p, k)
  }

  /** Start positions of the matches before n. */
  function HeadingsBefore(text: string, n: nat): (r: seq<nat>)
    requires n <= |text|
    ensures forall i :: 0 <= i < |r| ==> r[i] < n && IsHeading(text, r[i])
    ensures forall i, j :: 0 <= i < j < |r| ==> r[i] < r[j]
  {
    if n == 0 then [] else
      var r := HeadingsBefore(text, n - 1);
      if IsHeading(text, n - 1) then r + [n - 1] else r
  }

  function Headings(text: string): seq<nat> { HeadingsBefore(text, |text|) }

  lemma {:induction false} EveryHeadingIsListed(text: string, n: nat, p: nat)
    requires n <= |text| && p < n && IsHeading(text, p)
    ensures p in HeadingsBefore(text, n)
  {
    if p < n - 1 {
      EveryHeadingIsListed(text, n - 1, p);
    }
  }

  /** Where section i starts and ends; what comes before the first heading belongs to the first section. */
  function SectionStart(text: string, cuts: seq<nat>, i: nat): nat
    requires i < |cuts|
  {
    if i == 0 then 0 else cuts[i]
  }

  function SectionEnd(text: string, cuts: seq<nat>, i: nat): nat
    requires i < |cuts|
  {
    if i + 1 < |cuts| then cuts[i + 1] else |text|
  }

  predicate SectionFits(text: string, cuts: seq<nat>, maxLen: int, i: nat)
    requires i < |cuts|
  {
    SectionEnd(text, cuts, i) - SectionStart(text, cuts, i) <= maxLen
  }

  /** The positions of headings, in order. */
  ghost predicate AreHeadings(text: string, cuts: seq<nat>) {
    && (forall i :: 0 <= i < |cuts| ==> cuts[i] < |text| && IsHeading(text, cuts[i]))
    && (forall i, j :: 0 <= i < j < |cuts| ==> cuts[i] < cuts[j])
  }

  /** Several headings, every section within the limit, and the text not. */
  predicate CanSplitBySections(text: string, maxLen: int) {
    var cuts := Headings(text);
    |cuts| >= 2 && |text| > maxLen && forall i :: 0 <= i < |cuts| ==> SectionFits(text, cuts, maxLen, i)
  }

  /** A heading with another one before it: only there is a text cut into sections. */
  ghost predicate IsCut(text: string, p: int) { IsHeading(text, p) && exists q :: 0 <= q < p && IsHeading(text, q) }

  /** Some cut lies within maxLen behind s. */
  ghost predicate CutWithin(text: string, s: nat, maxLen: int) { exists p :: s < p <= s + maxLen && IsCut(text, p) }

  lemma CutsAreCuts(text: string, j: nat)
    requires 0 < j < |Headings(text)|
    ensures IsCut(text, Headings(text)[j])
  {
    hide IsHeading;
    assert Headings(text)[0] < Headings(text)[j];
  }

  /** The section that an offset lies in. */
  lemma {:induction false} SectionOf(text: string, cuts: seq<nat>, s: nat, n: nat) returns (i: nat)
    requires AreHeadings(text, cuts) && 0 < n <= |cuts| && s < SectionEnd(text, cuts, n - 1)
    ensures i < n && SectionStart(text, cuts, i) <= s < SectionEnd(text, cuts, i)
  {
    hide IsHeading;
    if n == 1 || cuts[n - 1] <= s {
      i := n - 1;
    } else {
      i := SectionOf(text, cuts, s, n - 1);
    }
  }

  lemma SectionsFitMeansCuts(text: string, maxLen: int, s: nat)
    requires CanSplitBySections(text, maxLen) && s + maxLen < |text|
    ensures CutWithin(text, s, maxLen)
  {
    hide IsHeading, IsCut;
    var cuts := Headings(text);
    SectionGrows(text, cuts, 0);
    assert SectionFits(text, cuts, maxLen, 0);
    var i := SectionOf(text, cuts, s, |cuts|);
    assert SectionFits(text, cuts, maxLen, i);
    CutsAreCuts(text, i + 1);
  }

  lemma HeadingIsWithin(text: string, p: int)
    requires IsHeading(text, p)
    ensures 0 <= p < |text|
  {
  }

  lemma HeadingIndex(text: string, p: nat) returns (j: nat)
    requires IsHeading(text, p)
    ensures j < |Headings(text)| && Headings(text)[j] == p
  {
    HeadingIsWithin(text, p);
    EveryHeadingIsListed(text, |text|, p);
    hide IsHeading, HeadingsBefore;
    j :| 0 <= j < |Headings(text)| && Headings(text)[j] == p;
  }

  /** A cut is the start of a later section. */
  lemma CutIsAStart(text: string, p: nat) returns (j: nat)
    requires IsCut(text, p)
    ensures 0 < j < |Headings(text)| && Headings(text)[j] == p
  {
    hide IsHeading, HeadingsBefore;
    var q :| 0 <= q < p && IsHeading(text, q);
    j := HeadingIndex(text, p);
    var k := HeadingIndex(text, q);
    assert Headings(text)[k] < Headings(text)[j];
  }

  lemma NoStartInside(text: string, i: nat, j: nat)
    requires i < |Headings(text)| && 0 < j < |Headings(text)|
    ensures var cuts := Headings(text); cuts[j] <= SectionStart(text, cuts, i) || SectionEnd(text, cuts, i) <= cuts[j]
  {
    hide IsHeading, HeadingsBefore;
    var cuts := Headings(text);
    assert j > i + 1 ==> cuts[i + 1] < cuts[j];
    assert 0 < i && j < i ==> cuts[j] < cuts[i];
  }

  lemma CutsMeanSectionFits(text: string, maxLen: int, i: nat)
    requires i < |Headings(text)|
    requires forall s: nat :: s + maxLen < |text| ==> CutWithin(text, s, maxLen)
    ensures SectionFits(text, Headings(text), maxLen, i)
  {
    var cuts := Headings(text);
    var s, end := SectionStart(text, cuts, i), SectionEnd(text, cuts, i);
    SectionGrows(text, cuts, i);
    hide IsHeading, Headings, IsCut, SectionStart, SectionEnd;
    if end - s > maxLen {
      assert CutWithin(text, s, maxLen);
      var p :| s < p <= s + maxLen && IsCut(text, p);
      var j := CutIsAStart(text, p);
      NoStartInside(text, i, j);
    }
  }

  /**
    A text can be split by sections if and only if it is over the limit, has two headings, and wherever it goes on for
    more than the limit there is a cut within the limit.
   */
  lemma CanSplitMeaning(text: string, maxLen: int)
    ensures CanSplitBySections(text, maxLen) <==>
            && |text| > maxLen && (exists p :: IsCut(text, p))
            && (forall s: nat :: s + maxLen < |text| ==> CutWithin(text, s, maxLen))
  {
    hide IsHeading;
    var cuts := Headings(text);
    if CanSplitBySections(text, maxLen) {
      CutsAreCuts(text, 1);
      forall s: nat | s + maxLen < |text| ensures CutWithin(text, s, maxLen) {
        SectionsFitMeansCuts(text, maxLen, s);
      }
    }
    if p :| IsCut(text, p) {
      var q :| 0 <= q < p && IsHeading(text, q);
      HeadingIsWithin(text, p);
      EveryHeadingIsListed(text, |text|, p);
      EveryHeadingIsListed(text, |text|, q);
      var j :| 0 <= j < |cuts| && cuts[j] == p;
      var k :| 0 <= k < |cuts| && cuts[k] == q;
    }
    if forall s: nat :: s + maxLen < |text| ==> CutWithin(text, s, maxLen) {
      forall i | 0 <= i < |cuts| ensures SectionFits(text, cuts, maxLen, i) {
        CutsMeanSectionFits(text, maxLen, i);
      }
    }
  }

  lemma MarkOfHashes(text: string, p: nat, n: nat, k: nat)
    requires p + n < |text| && (forall i :: p <= i < p + n ==> text[i] == '#') && text[p + n] != '#'
    ensures IsMark(text, p, k) <==> k == n && HeadingSpace(text[p + n])
  {
    if p + k < |text| {
      assert AllHashes(text[p..p + k]) <==> forall i :: p <= i < p + k ==> text[i] == '#' by {
        assert forall i :: p <= i < p + k ==> text[i] == text[p..p + k][i - p];
      }
    }
  }

  /** A line of n hashes and a character c that is no hash is a heading if and only if n is 1 to 6 and c is white space. */
  lemma HeadingTexts(before: string, hashes: string, c: char, rest: string)
    requires (before == "" || before[|before| - 1] == '\n') && c != '#' && forall i :: 0 <= i < |hashes| ==> hashes[i] == '#'
    ensures IsHeading(before + hashes + [c] + rest, |before|) <==> 1 <= |hashes| <= 6 && c in " \t\n\r\U{0C}"
  {
    var text, p, n := before + hashes + [c] + rest, |before|, |hashes|;
    assert text[p + n] == c && forall i :: p <= i < p + n ==> text[i] == hashes[i - p];
    assert p > 0 ==> text[p - 1] == before[|before| - 1];
    forall k: nat ensures IsMark(text, p, k) <==> k == n && HeadingSpace(c) {
      MarkOfHashes(text, p, n, k);
    }
    hide IsMark;
    assert IsMark(text, p, n) <==> HeadingSpace(c);
  }

  /** A heading begins a line with a hash. */
  lemma HeadingsBeginLines(text: string, p: int)
    requires IsHeading(text, p)
    ensures 0 <= p < |text| && text[p] == '#' && (p == 0 || text[p - 1] == '\n')
  {
    var k :| 1 <= k <= 6 && IsMark(text, p, k);
    assert text[p..p + k][0] == '#';
  }

  /** Fragments that tile the text up to start, each cut at a heading, none over the limit, no two small enough to join. */
  predicate Sectioned(text: string, start: nat, fragments: seq<string>, maxLen: int) {
    && start <= |text| && Concat(fragments) == text[..start]
    && (forall j :: 0 <= j < |fragments| ==> 0 < |fragments[j]| <= maxLen)
    && (forall j :: 0 < j < |fragments| ==> IsHeading(text, |Concat(fragments[..j])|))
    && Tight(fragments, "", maxLen)
  }

  lemma TightWidens(fragments: seq<string>, more: string, maxLen: int)
    requires Tight(fragments, "", maxLen) && fragments != []
    ensures var n := |fragments| - 1; Tight(fragments[..n] + [fragments[n] + more], "", maxLen)
  {
  }

  lemma SectionJoins(text: string, start: nat, end: nat, fragments: seq<string>, maxLen: int)
    requires Sectioned(text, start, fragments, maxLen) && fragments != [] && start < end <= |text|
    requires |fragments[|fragments| - 1]| + (end - start) <= maxLen
    ensures var n := |fragments| - 1;
            Sectioned(text, end, fragments[..n] + [fragments[n] + text[start..end]], maxLen)
  {
    hide IsHeading, Concat, Tight;
    var n := |fragments| - 1;
    var init, last, section := fragments[..n], fragments[n], text[start..end];
    assert fragments == init + [last];
    ConcatGrows(init, last);
    ConcatGrows(init, last + section);
    assert Concat(init) + (last + section) == Concat(init) + last + section;
    assert text[..start] + section == text[..end];
    var all := init + [last + section];
    TightWidens(fragments, section, maxLen);
    forall j | 0 < j < |all| ensures IsHeading(text, |Concat(all[..j])|) {
      assert all[..j] == fragments[..j];
    }
  }

  lemma SectionStarts(text: string, start: nat, end: nat, fragments: seq<string>, maxLen: int)
    requires Sectioned(text, start, fragments, maxLen) && start < end <= |text| && end - start <= maxLen
    requires fragments != [] ==> IsHeading(text, start) && |fragments[|fragments| - 1]| + (end - start) > maxLen
    ensures Sectioned(text, end, fragments + [text[start..end]], maxLen)
  {
    hide IsHeading, Concat;
    var section, all := text[start..end], fragments + [text[start..end]];
    ConcatGrows(fragments, section);
    assert text[..start] + section == text[..end];
    forall j | 0 < j < |all| ensures IsHeading(text, |Concat(all[..j])|) {
      assert all[..j] == fragments[..j];
      assert fragments[..|fragments|] == fragments;
    }
  }

  /** Adds one section: to the last fragment if they fit together, else as a fragment of its own. */
  method AddSection(text: string, start: nat, end: nat, fragments: seq<string>, maxLen: int) returns (r: seq<string>)
    requires Sectioned(text, start, fragments, maxLen) && start < end <= |text| && end - start <= maxLen
    requires fragments != [] ==> IsHeading(text, start)
    ensures Sectioned(text, end, r, maxLen) && r != []
  {
    var section, n := text[start..end], |fragments|;
    if n > 0 && |fragments[n - 1]| + |section| <= maxLen {
      SectionJoins(text, start, end, fragments, maxLen);
      r := fragments[..n - 1] + [fragments[n - 1] + section];
    } else {
      SectionStarts(text, start, end, fragments, maxLen);
      r := fragments + [section];
    }
  }

  lemma SectionedParts(text: string, fragments: seq<string>, maxLen: int)
    requires Sectioned(text, |text|, fragments, maxLen) && fragments != []
    ensures |fragments| >= 2 <==> |text| > maxLen
  {
    var n := |fragments| - 1;
    assert fragments == fragments[..n] + [fragments[n]] && text[..|text|] == text;
    ConcatGrows(fragments[..n], fragments[n]);
    if n > 0 {
      assert fragments[..n][..n - 1] == fragments[..n - 1];
      var i := n - 1;
      assert n == i + 1;
      assert |fragments[i]| + |""| + |fragments[n]| > maxLen;
    }
  }

  /** Splits exactly when it can; then the fragments tile the text and each later one starts at a heading. */
  method SplitBySections(text: string, maxLen: int) returns (fragments: seq<string>)
    ensures fragments != [] <==> CanSplitBySections(text, maxLen)
    ensures fragments != [] ==> |fragments| >= 2 && Sectioned(text, |text|, fragments, maxLen) && Concat(fragments) == text
  {
    var indices := Headings(text);
    if |indices| <= 1 {
      return [];
    }
    fragments := PackSections(text, indices, maxLen);
    if |fragments| <= 1 {
      fragments := [];
    }
  }

  lemma SectionGrows(text: string, cuts: seq<nat>, i: nat)
    requires AreHeadings(text, cuts) && i < |cuts|
    ensures SectionStart(text, cuts, i) < SectionEnd(text, cuts, i) <= |text|
  {
  }

  method PackSections(text: string, indices: seq<nat>, maxLen: int) returns (fragments: seq<string>)
    requires AreHeadings(text, indices) && |indices| >= 2
    ensures fragments == [] <==> !forall i :: 0 <= i < |indices| ==> SectionFits(text, indices, maxLen, i)
    ensures fragments != [] ==> Sectioned(text, |text|, fragments, maxLen) && Concat(fragments) == text
    ensures fragments != [] ==> (|fragments| >= 2 <==> |text| > maxLen)
  {
    fragments := [];
    var start := 0;
    assert text[..0] == "" && Concat([]) == "";
    for i := 0 to |indices|
      invariant i < |indices| ==> start == SectionStart(text, indices, i)
      invariant i == |indices| ==> start == |text|
      invariant fragments == [] <==> i == 0
      invariant Sectioned(text, start, fragments, maxLen)
      invariant forall k :: 0 <= k < i ==> SectionFits(text, indices, maxLen, k)
    {
      var sectionEnd := if i + 1 < |indices| then indices[i + 1] else |text|;
      SectionGrows(text, indices, i);
      if sectionEnd - start > maxLen {
        assert !SectionFits(text, indices, maxLen, i);
        return [];
      }
      fragments := AddSection(text, start, sectionEnd, fragments, maxLen);
      start := sectionEnd;
    }
    SectionedParts(text, fragments, maxLen);
    assert text[..|text|] == text;
  }

  // ----- Fragment -----

  datatype ContentFragment = ContentFragment(index: nat, content: string, total: nat)

  function Contents(fragments: seq<ContentFragment>): (r: seq<string>)
    ensures |r| == |fragments| && forall i :: 0 <= i < |r| ==> r[i] == fragments[i].content
  {
    seq(|fragments|, i requires 0 <= i < |fragments| => fragments[i].content)
  }

  predicate Numbered(fragments: seq<ContentFragment>) {
    forall i :: 0 <= i < |fragments| ==> fragments[i].index == i && fragments[i].total == |fragments|
  }

  /** By sections if that can be done, else by paragraphs, else by lines, else hard; each only if the one before leaves one piece. */
  ghost predicate WellCut(text: string, maxLen: int, pieces: seq<string>) {
    if CanSplitBySections(text, maxLen) then Sectioned(text, |text|, pieces, maxLen)
    else Packs(text, PARAGRAPH, maxLen, pieces) || (OnePiece(text, PARAGRAPH, maxLen) && CutFiner(text, maxLen, pieces))
  }

  ghost predicate CutFiner(text: string, maxLen: int, pieces: seq<string>) {
    Packs(text, NEWLINE, maxLen, pieces) || (OnePiece(text, NEWLINE, maxLen) && CutHard(text, maxLen, pieces))
  }

  class Adapter {
    var maxTextLen: int

    constructor ()
      ensures maxTextLen == 16000
    {
      maxTextLen := 16000;
    }

    /** One fragment if and only if the trimmed text is within the limit. */
    method Fragment(raw: string) returns (out: seq<ContentFragment>)
      requires maxTextLen > 0 || Trim(raw) == ""
      ensures Numbered(out) && out != []
      ensures |Trim(raw)| <= maxTextLen || Trim(raw) == "" <==> |out| == 1
      ensures |out| == 1 ==> out[0].content == Trim(raw)
      ensures |out| > 1 ==> WellCut(Trim(raw), maxTextLen, Contents(out))
    {
      var text := Trim(raw);
      if text == "" {
        return [ContentFragment(0, "", 1)];
      }
      if |text| <= maxTextLen {
        return [ContentFragment(0, text, 1)];
      }
      hide Packs, CutHard, Sectioned, CanSplitBySections, OnePiece;
      var fragments := SplitBySections(text, maxTextLen);
      if |fragments| <= 1 {
        fragments := SplitByParagraphs(text, maxTextLen);
      }
      if |fragments| <= 1 {
        fragments := SplitByLines(text, maxTextLen);
      }
      if |fragments| <= 1 {
        fragments := SplitHard(text, maxTextLen);
      }
      out := Number(fragments);
    }
  }

  method Number(fragments: seq<string>) returns (out: seq<ContentFragment>)
    ensures Numbered(out) && Contents(out) == fragments
  {
    var total := |fragments|;
    out := [];
    for i := 0 to total
      invariant |out| == i
      invariant forall k :: 0 <= k < i ==> out[k] == ContentFragment(k, fragments[k], total)
    {
      out := out + [ContentFragment(i, fragments[i], total)];
    }
  }
}

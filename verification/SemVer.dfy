/** Skill versions and version constraints (cli/skills/market.go), after Semantic Versioning 2.0.0. */
module SemVer {
  import opened Text
  import Sorting

  datatype Version = Version(major: int, minor: int, patch: int, pre: string)

  // ----- parseSemVersion -----

  function TrimPrefix(s: string, p: string): string { if HasPrefix(s, p) then s[|p|..] else s }

  function Before(s: string, c: char): string { s[..Find(s, c)] }

  function AfterFirst(s: string, c: char): string { if Find(s, c) == |s| then "" else s[Find(s, c) + 1..] }

  /** The numbers of the dot-separated parts. */
  function Numbers(parts: seq<string>): (r: Option<seq<int>>)
    ensures r.Some? ==> |r.value| == |parts|
  {
    if parts == [] then Some([]) else
      var init, last := Numbers(parts[..|parts| - 1]), Trim(parts[|parts| - 1]);
      if init.None? || last == "" || Atoi(last).None? then None else Some(init.value + [Atoi(last).value])
  }

  function FromNumbers(ns: seq<int>, pre: string): Version {
    Version(if |ns| > 0 then ns[0] else 0, if |ns| > 1 then ns[1] else 0, if |ns| > 2 then ns[2] else 0, pre)
  }

  /** The text without a leading v and without build metadata. */
  function Core(raw: string): string { Before(Trim(TrimPrefix(Lower(raw), "v")), '+') }

  function ParseCore(core: string): Option<Version> {
    var parts := Split(Before(core, '-'), '.');
    if |parts| > 3 || Numbers(parts).None? then None
    else Some(FromNumbers(Numbers(parts).value, AfterFirst(core, '-')))
  }

  function Parse(raw: string): Option<Version> {
    if Trim(TrimPrefix(Lower(raw), "v")) == "" then None else ParseCore(Core(raw))
  }

  method ParseSemVersion(text: string) returns (r: Option<Version>)
    ensures r == Parse(text)
  {
    var raw := Trim(TrimPrefix(Lower(text), "v"));
    if raw == "" {
      return None;
    }
    var idx := Find(raw, '+');
    if idx < |raw| {
      raw := raw[..idx];
    } else {
      assert raw[..idx] == raw;
    }
    assert raw == Core(text);
    r := ParseCoreParts(raw);
  }

  method ParseCoreParts(core: string) returns (r: Option<Version>)
    ensures r == ParseCore(core)
  {
    var pre, raw := "", core;
    var idx := Find(raw, '-');
    if idx < |raw| {
      pre := raw[idx + 1..];
      raw := raw[..idx];
    } else {
      assert raw[..idx] == raw;
    }
    var parts := Split(raw, '.');
    if |parts| == 0 || |parts| > 3 {
      return None;
    }
    var ints := [0, 0, 0];
    for i := 0 to |parts|
      invariant |ints| == 3 && Numbers(parts[..i]).Some?
      invariant forall k :: 0 <= k < 3 ==> ints[k] == if k < i then Numbers(parts[..i]).value[k] else 0
    {
      assert parts[..i + 1][..i] == parts[..i];
      var part := Trim(parts[i]);
      var n := Atoi(part);
      if part == "" || n.None? {
        NotNumbers(parts, i + 1);
        return None;
      }
      ints := ints[i := n.value];
    }
    assert parts[..|parts|] == parts;
    r := Some(Version(ints[0], ints[1], ints[2], pre));
  }

  lemma {:induction false} NotNumbers(parts: seq<string>, k: nat)
    requires k <= |parts| && Numbers(parts[..k]).None?
    ensures Numbers(parts).None?
    decreases |parts| - k
  {
    if k < |parts| {
      assert parts[..k + 1][..k] == parts[..k];
      NotNumbers(parts, k + 1);
    } else {
      assert parts[..k] == parts;
    }
  }

  // ----- compareSemVersion: a total order -----

  function CompareInts(a: int, b: int): int { if a < b then -1 else if a > b then 1 else 0 }

  /** strings.Compare */
  function CompareTexts(a: string, b: string): int { if a == b then 0 else if Below(a, b) then -1 else 1 }

  function Compare(a: Version, b: Version): int {
    if a.major != b.major then CompareInts(a.major, b.major)
    else if a.minor != b.minor then CompareInts(a.minor, b.minor)
    else if a.patch != b.patch then CompareInts(a.patch, b.patch)
    else if a.pre == b.pre then 0
    else if a.pre == "" then 1
    else if b.pre == "" then -1
    else CompareTexts(a.pre, b.pre)
  }

  lemma TextsAreOrdered(a: string, b: string)
    ensures CompareTexts(a, b) == -CompareTexts(b, a) && CompareTexts(a, b) in {-1, 0, 1}
  {
    if a != b && !Below(a, b) && !Below(b, a) {
      NeitherBelowIsEqual(a, b);
    }
    if Below(a, b) {
      BelowIsAsymmetric(a, b);
    }
  }

  lemma TextsAreTransitive(a: string, b: string, c: string)
    requires CompareTexts(a, b) <= 0 && CompareTexts(b, c) <= 0
    ensures CompareTexts(a, c) <= 0
  {
    TextsAreOrdered(a, b);
    TextsAreOrdered(b, c);
    TextsAreOrdered(a, c);
    if a != b && b != c && a != c && !Below(a, c) {
      BelowIsAsymmetric(a, b);
      BelowIsAsymmetric(b, c);
      if Below(c, a) {
        NotBelowIsTransitive(c, b, a);
      }
    }
  }

  /** Swapping the arguments negates the result, equality is zero, and the order is transitive. */
  lemma CompareIsATotalOrder(a: Version, b: Version, c: Version)
    ensures Compare(a, b) == -Compare(b, a)
    ensures Compare(a, b) == 0 <==> a == b
    ensures Compare(a, b) <= 0 && Compare(b, c) <= 0 ==> Compare(a, c) <= 0
  {
    TextsAreOrdered(a.pre, b.pre);
    if CompareTexts(a.pre, b.pre) <= 0 && CompareTexts(b.pre, c.pre) <= 0 {
      TextsAreTransitive(a.pre, b.pre, c.pre);
    }
  }

  /** Section 11.3 of SemVer 2.0.0: a pre-release comes before its release and after everything before that. */
  lemma PreReleaseComesBefore(v: Version, pre: string, w: Version)
    requires v.pre == "" && pre != ""
    ensures Compare(v.(pre := pre), v) < 0
    ensures Compare(w, v) < 0 && (w.major, w.minor, w.patch) != (v.major, v.minor, v.patch) ==> Compare(w, v.(pre := pre)) < 0
  {
  }

  // ----- constraints -----

  datatype Op = Equal | NotEqual | Greater | AtLeast | Less | AtMost

  function ParseOperator(raw: string): (Op, string) {
    if HasPrefix(raw, ">=") then (AtLeast, Trim(raw[2..]))
    else if HasPrefix(raw, "<=") then (AtMost, Trim(raw[2..]))
    else if HasPrefix(raw, "!=") then (NotEqual, Trim(raw[2..]))
    else if HasPrefix(raw, "==") then (Equal, Trim(raw[2..]))
    else if HasPrefix(raw, ">") then (Greater, Trim(raw[1..]))
    else if HasPrefix(raw, "<") then (Less, Trim(raw[1..]))
    else if HasPrefix(raw, "=") then (Equal, Trim(raw[1..]))
    else (Equal, Trim(raw))
  }

  predicate MatchCaret(v: Version, base: Version) {
    Compare(v, base) >= 0 &&
    if base.major > 0 then v.major == base.major
    else if base.minor > 0 then v.major == 0 && v.minor == base.minor
    else v.major == 0 && v.minor == 0 && v.patch == base.patch
  }

  predicate MatchTilde(v: Version, base: Version) {
    Compare(v, base) >= 0 && v.major == base.major && v.minor == base.minor
  }

  predicate MatchOp(v: Version, op: Op, target: Version) {
    var cmp := Compare(v, target);
    match op
    case Equal => cmp == 0
    case NotEqual => cmp != 0
    case Greater => cmp > 0
    case AtLeast => cmp >= 0
    case Less => cmp < 0
    case AtMost => cmp <= 0
  }

  predicate MatchPart(v: Version, part: string) {
    var raw := Trim(part);
    if raw == "" then true
    else if HasPrefix(raw, "^") then
      var base := Parse(Trim(raw[1..]));
      base.Some? && MatchCaret(v, base.value)
    else if HasPrefix(raw, "~") then
      var base := Parse(Trim(raw[1..]));
      base.Some? && MatchTilde(v, base.value)
    else
      var (op, rhs) := ParseOperator(raw);
      var target := Parse(rhs);
      target.Some? && MatchOp(v, op, target.value)
  }

  predicate IsExact(constraint: string) { Parse(constraint).Some? }

  function CompareStrings(left: string, right: string): int {
    if Parse(left).Some? && Parse(right).Some? then Compare(Parse(left).value, Parse(right).value)
    else CompareTexts(Lower(Trim(left)), Lower(Trim(right)))
  }

  predicate MatchesAll(v: Version, parts: seq<string>) { forall i :: 0 <= i < |parts| ==> MatchPart(v, parts[i]) }

  /** The blank parts of a constraint are dropped; they would match anything. */
  predicate Matches(version: string, constraint: string) {
    var v, c := Trim(version), Trim(constraint);
    if c == "" then true
    else if v == "" then false
    else if IsExact(c) then CompareStrings(v, c) == 0
    else if Parse(v).None? then Lower(v) == Lower(c)
    else MatchesAll(Parse(v).value, Split(c, ','))
  }

  method SplitConstraintParts(raw: string) returns (out: seq<string>)
    ensures forall v :: MatchesAll(v, out) <==> MatchesAll(v, Split(raw, ','))
  {
    hide Trim, MatchPart, Split;
    var parts := Split(raw, ',');
    out := [];
    for i := 0 to |parts|
      invariant forall v :: MatchesAll(v, out) <==> forall k :: 0 <= k < i ==> MatchPart(v, parts[k])
    {
      var part := Trim(parts[i]);
      ghost var before := out;
      if part != "" {
        out := out + [part];
      }
      forall v ensures MatchesAll(v, out) <==> MatchesAll(v, before) && MatchPart(v, parts[i]) {
        PartIsTrimmed(v, parts[i]);
        if part != "" {
          MatchesOneMore(v, before, part);
        }
      }
    }
  }

  lemma MatchesOneMore(v: Version, parts: seq<string>, part: string)
    ensures MatchesAll(v, parts + [part]) <==> MatchesAll(v, parts) && MatchPart(v, part)
  {
    forall i | 0 <= i < |parts| ensures (parts + [part])[i] == parts[i] {
    }
    assert (parts + [part])[|parts|] == part;
  }

  lemma PartIsTrimmed(v: Version, part: string)
    ensures MatchPart(v, Trim(part)) == MatchPart(v, part)
    ensures Trim(part) == "" ==> MatchPart(v, part)
  {
    TrimIsTrimmed(part);
    TrimOfTrimmed(Trim(part));
  }

  method MatchesVersionConstraint(rawVersion: string, rawConstraint: string) returns (ok: bool)
    ensures ok == Matches(rawVersion, rawConstraint)
    // what is not a version matches an empty constraint, and one that differs from it at most in case
    ensures Trim(rawConstraint) == "" ==> ok
    ensures Trim(rawVersion) == "" && Trim(rawConstraint) != "" ==> !ok
    ensures Parse(Trim(rawVersion)).None? && Trim(rawVersion) != "" && Trim(rawConstraint) != "" ==>
              (ok <==> Lower(Trim(rawVersion)) == Lower(Trim(rawConstraint)))
  {
    TrimTwice(rawVersion);
    TrimTwice(rawConstraint);
    var version, constraint := Trim(rawVersion), Trim(rawConstraint);
    if constraint == "" {
      return true;
    }
    if version == "" {
      return false;
    }
    if IsExact(constraint) {
      return CompareStrings(version, constraint) == 0;
    }
    var versionSem := ParseSemVersion(version);
    if versionSem.None? {
      return Lower(version) == Lower(constraint);
    }
    ok := MatchesParts(versionSem.value, constraint);
  }

  method MatchesParts(version: Version, constraint: string) returns (ok: bool)
    ensures ok == MatchesAll(version, Split(constraint, ','))
  {
    hide MatchPart, Split;
    var parts := SplitConstraintParts(constraint);
    for i := 0 to |parts|
      invariant forall k :: 0 <= k < i ==> MatchPart(version, parts[k])
    {
      if !MatchPart(version, parts[i]) {
        assert !MatchesAll(version, parts);
        return false;
      }
    }
    assert MatchesAll(version, parts);
    ok := true;
  }

  // ----- what a constraint accepts is convex -----

  predicate InOrder(a: Version, b: Version, c: Version) { Compare(a, b) <= 0 && Compare(b, c) <= 0 }

  lemma OpIsConvex(a: Version, b: Version, c: Version, op: Op, t: Version)
    requires InOrder(a, b, c) && op != NotEqual && MatchOp(a, op, t) && MatchOp(c, op, t)
    ensures MatchOp(b, op, t)
  {
    CompareIsATotalOrder(a, b, t);
    CompareIsATotalOrder(b, c, t);
    CompareIsATotalOrder(t, a, b);
    CompareIsATotalOrder(a, t, b);
    CompareIsATotalOrder(c, t, b);
    CompareIsATotalOrder(t, b, a);
    CompareIsATotalOrder(b, t, a);
    CompareIsATotalOrder(t, c, b);
  }

  lemma CaretIsConvex(a: Version, b: Version, c: Version, base: Version)
    requires InOrder(a, b, c) && MatchCaret(a, base) && MatchCaret(c, base)
    ensures MatchCaret(b, base)
  {
    CompareIsATotalOrder(base, a, b);
    CompareIsATotalOrder(b, base, a);
  }

  lemma TildeIsConvex(a: Version, b: Version, c: Version, base: Version)
    requires InOrder(a, b, c) && MatchTilde(a, base) && MatchTilde(c, base)
    ensures MatchTilde(b, base)
  {
    CompareIsATotalOrder(base, a, b);
    CompareIsATotalOrder(b, base, a);
  }

  lemma PartIsConvex(a: Version, b: Version, c: Version, part: string)
    requires InOrder(a, b, c) && !HasPrefix(Trim(part), "!=") && MatchPart(a, part) && MatchPart(c, part)
    ensures MatchPart(b, part)
  {
    var raw := Trim(part);
    if raw != "" && HasPrefix(raw, "^") {
      CaretIsConvex(a, b, c, Parse(Trim(raw[1..])).value);
    } else if raw != "" && HasPrefix(raw, "~") {
      TildeIsConvex(a, b, c, Parse(Trim(raw[1..])).value);
    } else if raw != "" {
      var (op, rhs) := ParseOperator(raw);
      OpIsConvex(a, b, c, op, Parse(rhs).value);
    }
  }

  predicate ExcludesNothing(constraint: string) {
    forall i :: 0 <= i < |Split(constraint, ',')| ==> !HasPrefix(Trim(Split(constraint, ',')[i]), "!=")
  }

  lemma ExactIsConvex(a: Version, b: Version, c: Version, t: Version)
    requires InOrder(a, b, c) && Compare(a, t) == 0 && Compare(c, t) == 0
    ensures Compare(b, t) == 0
  {
    CompareIsATotalOrder(a, b, c);
    CompareIsATotalOrder(a, t, c);
    CompareIsATotalOrder(c, t, b);
    CompareIsATotalOrder(b, c, a);
  }

  /** Between two versions that a constraint without != accepts, it accepts every version. */
  lemma ConstraintsAreConvex(x: string, y: string, z: string, constraint: string)
    requires Parse(Trim(x)).Some? && Parse(Trim(y)).Some? && Parse(Trim(z)).Some?
    requires InOrder(Parse(Trim(x)).value, Parse(Trim(y)).value, Parse(Trim(z)).value)
    requires ExcludesNothing(Trim(constraint)) && Matches(x, constraint) && Matches(z, constraint)
    ensures Matches(y, constraint)
  {
    var a, b, c, t := Parse(Trim(x)).value, Parse(Trim(y)).value, Parse(Trim(z)).value, Trim(constraint);
    NothingIsNoVersion();
    if t != "" && IsExact(t) {
      ExactIsConvex(a, b, c, Parse(t).value);
    } else if t != "" {
      forall i | 0 <= i < |Split(t, ',')| ensures MatchPart(b, Split(t, ',')[i]) {
        PartIsConvex(a, b, c, Split(t, ',')[i]);
      }
    }
  }

  lemma NothingIsNoVersion()
    ensures Parse("").None?
  {
    assert Lower("") == "" && TrimPrefix("", "v") == "" && Trim("") == "";
  }

  lemma ExclusionOperator(raw: string)
    requires HasPrefix(raw, "!=")
    ensures ParseOperator(raw) == (NotEqual, Trim(raw[2..])) && raw != "" && !HasPrefix(raw, "^") && !HasPrefix(raw, "~")
  {
    assert raw[0] == '!';
  }

  lemma OperatorPart(v: Version, raw: string, op: Op, rhs: string, target: Version)
    requires raw != "" && Trim(raw) == raw && !HasPrefix(raw, "^") && !HasPrefix(raw, "~")
    requires ParseOperator(raw) == (op, rhs) && Parse(rhs) == Some(target)
    ensures MatchPart(v, raw) == MatchOp(v, op, target)
  {
  }

  lemma ExclusionPart(v: Version, part: string, target: Version)
    requires Trim(part) == part && HasPrefix(part, "!=") && Parse(Trim(part[2..])) == Some(target)
    ensures MatchPart(v, part) <==> Compare(v, target) != 0
  {
    ExclusionOperator(part);
    OperatorPart(v, part, NotEqual, Trim(part[2..]), target);
  }

  /** With != it need not be: it accepts what is on both sides of the target and not the target. */
  lemma ExclusionIsNotConvex(a: Version, c: Version, part: string, target: Version)
    requires Trim(part) == part && HasPrefix(part, "!=") && Parse(Trim(part[2..])) == Some(target)
    requires Compare(a, target) < 0 < Compare(c, target)
    ensures InOrder(a, target, c) && MatchPart(a, part) && MatchPart(c, part) && !MatchPart(target, part)
  {
    CompareIsATotalOrder(c, target, a);
    CompareIsATotalOrder(a, target, a);
    ExclusionPart(a, part, target);
    ExclusionPart(c, part, target);
    ExclusionPart(target, part, target);
  }

  /** Between two versions that a part accepts it accepts every version. */
  ghost predicate AcceptsBetween(part: string) {
    forall a, b, c :: InOrder(a, b, c) && MatchPart(a, part) && MatchPart(c, part) ==> MatchPart(b, part)
  }

  lemma ExclusionLeavesAGap(part: string)
    requires HasPrefix(Trim(part), "!=") && Parse(Trim(Trim(part)[2..])).Some?
    ensures !AcceptsBetween(part)
  {
    hide MatchPart, Parse, Trim;
    var raw := Trim(part);
    var t := Parse(Trim(raw[2..])).value;
    var a, c := t.(major := t.major - 1), t.(major := t.major + 1);
    TrimIsTrimmed(part);
    TrimOfTrimmed(raw);
    ExclusionIsNotConvex(a, c, raw, t);
    PartIsTrimmed(a, part);
    PartIsTrimmed(t, part);
    PartIsTrimmed(c, part);
  }

  /** A part accepts a convex set of versions if and only if it does not exclude a version. */
  lemma PartIsConvexExactly(part: string)
    ensures AcceptsBetween(part) <==> !(HasPrefix(Trim(part), "!=") && Parse(Trim(Trim(part)[2..])).Some?)
  {
    hide MatchPart, Parse, Trim, InOrder;
    if !HasPrefix(Trim(part), "!=") {
      forall a, b, c | InOrder(a, b, c) && MatchPart(a, part) && MatchPart(c, part) ensures MatchPart(b, part) {
        PartIsConvex(a, b, c, part);
      }
    } else if Parse(Trim(Trim(part)[2..])).None? {
      forall v ensures !MatchPart(v, part) {
        UnparsedExclusion(v, part);
      }
    } else {
      ExclusionLeavesAGap(part);
    }
  }

  lemma UnparsedExclusion(v: Version, part: string)
    requires HasPrefix(Trim(part), "!=") && Parse(Trim(Trim(part)[2..])).None?
    ensures !MatchPart(v, part)
  {
    ExclusionOperator(Trim(part));
  }

  // ----- findSkillItem -----

  datatype Item = Item(name: string, url: string, version: string)

  predicate Candidate(item: Item, name: string, constraint: string) {
    Lower(Trim(item.name)) == Lower(name) && Trim(item.url) != "" && Matches(item.version, constraint)
  }

  /** The order of the sort. */
  predicate Newer(x: Item, y: Item) { CompareStrings(x.version, y.version) > 0 }

  /** The candidates of a search, in the order of the catalog. */
  function Candidates(items: seq<Item>, name: string, constraint: string): (r: seq<Item>)
    ensures forall x :: x in r <==> x in items && Candidate(x, name, constraint)
  {
    if items == [] then [] else
      var rest, last := Candidates(items[..|items| - 1], name, constraint), items[|items| - 1];
      assert items == items[..|items| - 1] + [last];
      if Candidate(last, name, constraint) then rest + [last] else rest
  }

  /** Comparing version texts is a strict weak order of the candidates. */
  ghost predicate CandidatesAreOrdered(items: seq<Item>, name: string, constraint: string) {
    Sorting.Orders(Newer, multiset(Candidates(items, name, constraint)))
  }

  lemma NewerTexts(x: Item, y: Item, z: Item)
    requires Parse(x.version).None? && Parse(y.version).None? && Parse(z.version).None?
    ensures Newer(x, y) ==> !Newer(y, x)
    ensures !Newer(x, y) && !Newer(y, z) ==> !Newer(x, z)
  {
    var a, b, c := Lower(Trim(x.version)), Lower(Trim(y.version)), Lower(Trim(z.version));
    TextsAreOrdered(a, b);
    if CompareTexts(a, b) <= 0 && CompareTexts(b, c) <= 0 {
      TextsAreTransitive(a, b, c);
    }
  }

  lemma NewerVersions(x: Item, y: Item, z: Item)
    requires Parse(x.version).Some? && Parse(y.version).Some? && Parse(z.version).Some?
    ensures Newer(x, y) ==> !Newer(y, x)
    ensures !Newer(x, y) && !Newer(y, z) ==> !Newer(x, z)
  {
    CompareIsATotalOrder(Parse(x.version).value, Parse(y.version).value, Parse(z.version).value);
  }

  /** Candidates are ordered if all of their versions parse, and if none does. */
  lemma UniformVersionsAreOrdered(items: seq<Item>, name: string, constraint: string)
    requires forall x, y :: x in Candidates(items, name, constraint) && y in Candidates(items, name, constraint) ==>
                              (Parse(x.version).Some? <==> Parse(y.version).Some?)
    ensures CandidatesAreOrdered(items, name, constraint)
  {
    hide Newer, Candidates;
    var all := Candidates(items, name, constraint);
    assert forall x :: x in multiset(all) <==> x in all;
    forall x, y, z | x in all && y in all && z in all
      ensures Newer(x, y) ==> !Newer(y, x)
      ensures !Newer(x, y) && !Newer(y, z) ==> !Newer(x, z)
    {
      if Parse(x.version).Some? {
        NewerVersions(x, y, z);
      } else {
        NewerTexts(x, y, z);
      }
    }
  }

  /** No candidate is newer. */
  ghost predicate IsGreatest(x: Item, items: seq<Item>, name: string, constraint: string) {
    Sorting.IsLeast(Newer, Candidates(items, name, constraint), x)
  }

  /** What a search with candidates may find: the first of them in an order that the sort may leave. */
  ghost predicate MayFind(x: Item, items: seq<Item>, name: string, constraint: string) {
    exists sorted: seq<Item> ::
      sorted != [] && sorted[0] == x && Sorting.MayReturn(Newer, Candidates(items, name, constraint), sorted)
  }

  /** A search is sure to find a greatest candidate if and only if comparing version texts orders the candidates. */
  lemma GreatestIsFoundExactly(items: seq<Item>, name: string, constraint: string)
    requires Candidates(items, name, constraint) != []
    ensures (forall x :: MayFind(x, items, name, constraint) ==> IsGreatest(x, items, name, constraint)) <==>
              CandidatesAreOrdered(items, name, constraint)
  {
    hide Newer, Candidates, Sorting.MayReturn, Sorting.IsLeast, Sorting.Orders;
    var all := Candidates(items, name, constraint);
    Sorting.FirstIsLeastExactly(Newer, all);
    if CandidatesAreOrdered(items, name, constraint) {
      forall x | MayFind(x, items, name, constraint) ensures IsGreatest(x, items, name, constraint) {
        var sorted: seq<Item> :| sorted != [] && sorted[0] == x && Sorting.MayReturn(Newer, all, sorted);
      }
    } else if forall x :: MayFind(x, items, name, constraint) ==> IsGreatest(x, items, name, constraint) {
      forall sorted: seq<Item> | Sorting.MayReturn(Newer, all, sorted)
        ensures sorted != [] && Sorting.IsLeast(Newer, all, sorted[0])
      {
        MayReturnSame(all, sorted);
        assert MayFind(sorted[0], items, name, constraint);
      }
    }
  }

  lemma MayReturnSame(all: seq<Item>, sorted: seq<Item>)
    requires all != [] && Sorting.MayReturn(Newer, all, sorted)
    ensures sorted != []
  {
    Sorting.SameItems(all, sorted);
  }

  /**
    Texts that parse and texts that do not can be newer than each other in a circle: then no candidate of the search
    is greatest, whichever is found.
   */
  lemma MixedVersionsCanCycle(a: Item, b: Item, c: Item, name: string)
    requires a.version == "10.0.0" && b.version == "9.0.0" && c.version == "1z"
    requires forall x :: x in [a, b, c] ==> Lower(Trim(x.name)) == Lower(name) && Trim(x.url) != ""
    ensures Candidates([a, b, c], name, "") == [a, b, c]
    ensures forall x :: x in [a, b, c] ==> !IsGreatest(x, [a, b, c], name, "")
    ensures !CandidatesAreOrdered([a, b, c], name, "")
  {
    hide Newer, Candidates, Trim, Lower, CompareStrings;
    VersionsInCircle();
    NewerInCircle(a, b, c);
    AllAreCandidates(a, b, c, name);
    Sorting.CircleIsNoOrder(Newer, a, b, c);
  }

  lemma NewerInCircle(a: Item, b: Item, c: Item)
    requires CompareStrings(a.version, b.version) > 0 && CompareStrings(b.version, c.version) > 0
    requires CompareStrings(c.version, a.version) > 0
    ensures Newer(a, b) && Newer(b, c) && Newer(c, a)
  {
  }

  lemma AllAreCandidates(a: Item, b: Item, c: Item, name: string)
    requires forall x :: x in [a, b, c] ==> Lower(Trim(x.name)) == Lower(name) && Trim(x.url) != ""
    ensures Candidates([a, b, c], name, "") == [a, b, c]
  {
    hide Candidates, Trim, Lower, Matches;
    var all := [a, b, c];
    forall x | x in all ensures Candidate(x, name, "") {
      AnyVersionMatches(x.version);
    }
    AllKept(all, name, "");
  }

  lemma AnyVersionMatches(version: string)
    ensures Matches(version, "")
  {
    TrimOfTrimmed("");
  }

  lemma {:induction false} AllKept(items: seq<Item>, name: string, constraint: string)
    requires forall x :: x in items ==> Candidate(x, name, constraint)
    ensures Candidates(items, name, constraint) == items
  {
    hide Candidate;
    if items != [] {
      var rest := items[..|items| - 1];
      assert items == rest + [items[|items| - 1]];
      AllKept(rest, name, constraint);
    }
  }

  lemma VersionsInCircle()
    ensures CompareStrings("10.0.0", "9.0.0") > 0 && CompareStrings("9.0.0", "1z") > 0 && CompareStrings("1z", "10.0.0") > 0
  {
    hide Parse, Print, Show, CompareTexts, Lower, Trim;
    ShownDigits();
    ParseOfShow(Version(10, 0, 0, ""));
    ParseOfShow(Version(9, 0, 0, ""));
    NoNumberText("1z");
    TextsInCircle();
  }

  lemma ShownDigits()
    ensures Show(Version(10, 0, 0, "")) == "10.0.0" && Show(Version(9, 0, 0, "")) == "9.0.0"
    ensures Showable(Version(10, 0, 0, "")) && Showable(Version(9, 0, 0, ""))
  {
    assert Print(9) == "9" && Print(0) == "0" && Print(1) == "1" && 10 / 10 == 1;
    assert Print(10) == Print(1) + "0";
  }

  lemma TextsInCircle()
    ensures CompareTexts(Lower(Trim("9.0.0")), Lower(Trim("1z"))) > 0
    ensures CompareTexts(Lower(Trim("1z")), Lower(Trim("10.0.0"))) > 0
  {
    hide Trim, Lower;
    LowerTrimmed("1z");
    LowerTrimmed("9.0.0");
    LowerTrimmed("10.0.0");
    BelowFirst("1z", "9.0.0");
    BelowFirst("10.0.0"[1..], "1z"[1..]);
    assert Below("10.0.0", "1z");
    BelowIsAsymmetric("1z", "9.0.0");
    BelowIsAsymmetric("10.0.0", "1z");
  }

  lemma BelowFirst(a: string, b: string)
    requires a != "" && b != "" && a[0] < b[0]
    ensures Below(a, b)
  {
  }

  lemma LowerTrimmed(s: string)
    requires Trimmed(s) && Unchanged(s)
    ensures Lower(Trim(s)) == s
  {
    TrimOfTrimmed(s);
    LowerFixed(s);
  }

  lemma NoNumberText(s: string)
    requires s == "1z"
    ensures Parse(s).None?
  {
    ParsePlain(s);
    FindNone(s, '-');
    FindNone(s, '.');
    TrimOfTrimmed(s);
    assert s[..2] == s && !Digits(s) by { assert !IsDigit(s[1]); }
    assert Numbers([s]).None?;
  }

  /**
    Something is found exactly when there is a candidate, it is a candidate, and it is a greatest one if comparing
    version texts orders the candidates.
   */
  method FindSkillItem(items: seq<Item>, rawName: string, rawConstraint: string) returns (r: Option<Item>)
    ensures var name, constraint := Trim(rawName), Trim(rawConstraint);
            && (r.None? <==> name == "" || Candidates(items, name, constraint) == [])
            && (r.None? && name != "" ==> forall x :: x in items ==>
                  Lower(Trim(x.name)) != Lower(name) || Trim(x.url) == "" || !Matches(x.version, constraint))
            && (r.Some? ==> r.value in items && Lower(Trim(r.value.name)) == Lower(name) && Trim(r.value.url) != "" &&
                            Matches(r.value.version, constraint))
            && (r.Some? ==> r.value in Candidates(items, name, constraint) && MayFind(r.value, items, name, constraint))
            && (r.Some? && CandidatesAreOrdered(items, name, constraint) ==> IsGreatest(r.value, items, name, constraint))
  {
    hide Newer, Sorting.IsLeast, Sorting.Orders;
    var name, constraint := Trim(rawName), Trim(rawConstraint);
    if name == "" {
      return None;
    }
    var matches := CollectCandidates(items, name, constraint);
    if |matches| == 0 {
      return None;
    }
    var sorted := Sorting.Sort(matches, Newer);
    Sorting.SameItems(matches, sorted);
    r := Some(sorted[0]);
    if CandidatesAreOrdered(items, name, constraint) {
      Sorting.SortedFirstIsLeast(Newer, matches, sorted);
    }
  }

  method CollectCandidates(items: seq<Item>, name: string, constraint: string) returns (matches: seq<Item>)
    ensures matches == Candidates(items, name, constraint)
  {
    hide Matches;
    matches := [];
    for k := 0 to |items|
      invariant matches == Candidates(items[..k], name, constraint)
    {
      assert items[..k + 1][..k] == items[..k];
      var item := items[k];
      if Lower(Trim(item.name)) != Lower(name) {
        continue;
      }
      if Trim(item.url) == "" {
        continue;
      }
      var ok := MatchesVersionConstraint(item.version, constraint);
      if !ok {
        continue;
      }
      matches := matches + [item];
    }
    assert items[..|items|] == items;
  }

  // ----- printing and parsing -----

  function Show(v: Version): string
    requires v.major >= 0 && v.minor >= 0 && v.patch >= 0
  {
    Print(v.major) + "." + Print(v.minor) + "." + Print(v.patch) + (if v.pre == "" then "" else "-" + v.pre)
  }

  /** 64-bit natural numbers, and a pre-release text in lower case, without build metadata or white space at its end. */
  predicate Showable(v: Version) {
    && 0 <= v.major <= MAX_INT && 0 <= v.minor <= MAX_INT && 0 <= v.patch <= MAX_INT
    && Lower(v.pre) == v.pre && '+' !in v.pre && (v.pre != "" ==> !IsSpace(v.pre[|v.pre| - 1]))
  }

  lemma DigitsHaveNo(s: string, c: char)
    requires Digits(s) && !IsDigit(c)
    ensures c !in s
  {
  }

  lemma {:induction false} LowerFixed(s: string)
    requires forall i :: 0 <= i < |s| ==> ToLower(s[i]) == s[i]
    ensures Lower(s) == s
  {
  }

  lemma AtoiOfPrinted(n: nat)
    requires n <= MAX_INT
    ensures Trim(Print(n)) == Print(n) && Atoi(Print(n)) == Some(n)
  {
    var d := Print(n);
    DecimalOfPrint(n);
    assert IsDigit(d[0]) && IsDigit(d[|d| - 1]);
    TrimOfTrimmed(d);
  }

  lemma SplitDots(x: string, y: string, z: string)
    requires '.' !in x && '.' !in y && '.' !in z
    ensures Split(x + "." + (y + "." + z), '.') == [x, y, z]
  {
    var yz := y + "." + z;
    FindFirst(x, '.', yz);
    FindFirst(y, '.', z);
    FindNone(z, '.');
    assert (x + "." + yz)[..|x|] == x && (x + "." + yz)[|x| + 1..] == yz;
    assert yz[..|y|] == y && yz[|y| + 1..] == z;
    assert Split(yz, '.') == [y] + Split(z, '.');
  }

  /** A part that is read as n. */
  predicate IsNumber(part: string, n: int) { Trim(part) != "" && Atoi(Trim(part)) == Some(n) }

  lemma NumbersGrow(parts: seq<string>, ns: seq<int>, part: string, n: int)
    requires Numbers(parts) == Some(ns) && IsNumber(part, n)
    ensures Numbers(parts + [part]) == Some(ns + [n])
  {
    assert (parts + [part])[..|parts|] == parts;
  }

  lemma ThreeNumbers(a: string, b: string, c: string, x: int, y: int, z: int)
    requires IsNumber(a, x) && IsNumber(b, y) && IsNumber(c, z)
    ensures Numbers([a, b, c]) == Some([x, y, z])
  {
    NumbersGrow([], [], a, x);
    NumbersGrow([] + [a], [] + [x], b, y);
    NumbersGrow([] + [a] + [b], [] + [x] + [y], c, z);
    assert [] + [a] + [b] + [c] == [a, b, c] && [] + [x] + [y] + [z] == [x, y, z];
  }

  lemma NumbersOfThree(x: nat, y: nat, z: nat)
    requires x <= MAX_INT && y <= MAX_INT && z <= MAX_INT
    ensures Numbers([Print(x), Print(y), Print(z)]) == Some([x, y, z])
  {
    AtoiOfPrinted(x);
    AtoiOfPrinted(y);
    AtoiOfPrinted(z);
    ThreeNumbers(Print(x), Print(y), Print(z), x, y, z);
  }

  lemma ParseOfCore(x: nat, y: nat, z: nat, pre: string)
    requires x <= MAX_INT && y <= MAX_INT && z <= MAX_INT
    ensures var dotted := Print(x) + "." + (Print(y) + "." + Print(z));
            && '-' !in dotted
            && ParseCore(if pre == "" then dotted else dotted + "-" + pre) == Some(Version(x, y, z, pre))
  {
    var a, b, c := Print(x), Print(y), Print(z);
    DigitsHaveNo(a, '.');
    DigitsHaveNo(b, '.');
    DigitsHaveNo(c, '.');
    DigitsHaveNo(a, '-');
    DigitsHaveNo(b, '-');
    DigitsHaveNo(c, '-');
    SplitDots(a, b, c);
    NumbersOfThree(x, y, z);
    var dotted := a + "." + (b + "." + c);
    hide Print, Split, Numbers, Find;
    DashCuts(dotted, pre);
  }

  lemma DashCuts(dotted: string, pre: string)
    requires '-' !in dotted
    ensures var s := if pre == "" then dotted else dotted + "-" + pre;
            Before(s, '-') == dotted && AfterFirst(s, '-') == pre
  {
    if pre == "" {
      FindNone(dotted, '-');
    } else {
      FindFirst(dotted, '-', pre);
      var s := dotted + "-" + pre;
      assert s[..|dotted|] == dotted && s[|dotted| + 1..] == pre;
    }
  }

  /** Nothing in the text is changed by the parser's preparations. */
  predicate IsPlain(s: string) {
    s != "" && IsDigit(s[0]) && !IsSpace(s[|s| - 1]) && '+' !in s && Unchanged(s)
  }

  predicate Unchanged(s: string) { forall i :: 0 <= i < |s| ==> ToLower(s[i]) == s[i] }

  lemma PlainDigits(n: nat)
    ensures IsPlain(Print(n))
  {
    var d := Print(n);
    DigitsHaveNo(d, '+');
    assert IsDigit(d[0]) && IsDigit(d[|d| - 1]);
    forall i | 0 <= i < |d| ensures ToLower(d[i]) == d[i] {
      assert IsDigit(d[i]);
    }
  }

  lemma PlainConcat(a: string, c: char, b: string)
    requires IsPlain(a) && c != '+' && ToLower(c) == c && '+' !in b && Unchanged(b) && b != "" && !IsSpace(b[|b| - 1])
    ensures IsPlain(a + [c] + b)
  {
  }

  lemma ShowIsDotted(v: Version)
    requires Showable(v)
    ensures Show(v) == var dotted := Print(v.major) + "." + (Print(v.minor) + "." + Print(v.patch));
                       if v.pre == "" then dotted else dotted + "-" + v.pre
  {
    hide Print;
    var a, b, c := Print(v.major), Print(v.minor), Print(v.patch);
    var dotted := a + "." + (b + "." + c);
    assert a + "." + b + "." + c == dotted;
    assert dotted + "" == dotted;
    assert dotted + "-" + v.pre == dotted + ("-" + v.pre);
  }

  lemma ShowIsPlain(v: Version)
    requires Showable(v)
    ensures IsPlain(Show(v))
  {
    hide Print, IsPlain, Show;
    var a, b, c := Print(v.major), Print(v.minor), Print(v.patch);
    PlainDigits(v.major);
    PlainDigits(v.minor);
    PlainDigits(v.patch);
    DottedIsPlain(a, b, c);
    ShowIsDotted(v);
    if v.pre != "" {
      PreIsUnchanged(v.pre);
      PlainConcat(a + "." + b + "." + c, '-', v.pre);
    }
  }

  lemma DottedIsPlain(a: string, b: string, c: string)
    requires IsPlain(a) && IsPlain(b) && IsPlain(c)
    ensures IsPlain(a + "." + b + "." + c) && a + "." + b + "." + c == a + "." + (b + "." + c)
  {
    PlainConcat(a, '.', b);
    PlainConcat(a + "." + b, '.', c);
  }

  lemma PreIsUnchanged(pre: string)
    requires Lower(pre) == pre
    ensures Unchanged(pre)
  {
    forall i | 0 <= i < |pre| ensures ToLower(pre[i]) == pre[i] {
      assert Lower(pre)[i] == ToLower(pre[i]);
    }
  }

  /** Parsing undoes printing. */
  lemma ParseOfShow(v: Version)
    requires Showable(v)
    ensures Parse(Show(v)) == Some(v)
  {
    ShowIsPlain(v);
    ShowIsDotted(v);
    ParseOfCore(v.major, v.minor, v.patch, v.pre);
    ParsePlain(Show(v));
  }

  lemma ParsePlain(s: string)
    requires IsPlain(s)
    ensures Parse(s) == ParseCore(s)
  {
    LowerFixed(s);
    TrimOfTrimmed(s);
    FindNone(s, '+');
    assert Before(s, '+') == s;
  }

  lemma {:induction false} TrimLeftOfMore(t: string, more: string)
    requires more != "" && !IsSpace(more[0])
    ensures TrimLeft(t + more) == TrimLeft(t) + more
    decreases |t|
  {
    if t == "" {
      assert t + more == more;
    } else if IsSpace(t[0]) {
      assert (t + more)[1..] == t[1..] + more;
      TrimLeftOfMore(t[1..], more);
    }
  }

  lemma {:induction false} TrimRightUpTo(t: string, c: char, more: string)
    requires !IsSpace(c)
    ensures exists rest :: TrimRight(t + [c] + more) == t + [c] + rest
    decreases |more|
  {
    var s := t + [c] + more;
    if more != "" && IsSpace(more[|more| - 1]) {
      assert s[..|s| - 1] == t + [c] + more[..|more| - 1];
      TrimRightUpTo(t, c, more[..|more| - 1]);
    } else {
      assert s == t + [c] + more;
      assert TrimRight(s) == s by {
        if more == "" { assert s[|s| - 1] == c; } else { assert s[|s| - 1] == more[|more| - 1]; }
      }
    }
  }

  lemma TrimPrefixOfMore(s: string, more: string)
    requires s != "" || more == "" || more[0] != 'v'
    ensures TrimPrefix(s + more, "v") == TrimPrefix(s, "v") + more
  {
    if s != "" {
      assert (s + more)[..1] == s[..1];
    } else {
      assert s + more == more;
      assert |more| >= 1 ==> more[..1] == [more[0]];
    }
  }

  lemma TrimLeftIsTrim(t: string)
    requires t == "" || !IsSpace(t[|t| - 1])
    ensures Trim(t) == TrimLeft(t)
    ensures forall c :: c !in t ==> c !in TrimLeft(t)
  {
    TrimLeftDrops(t);
  }

  lemma CoreOfMore(t: string, b: string)
    requires (t == "" || !IsSpace(t[|t| - 1])) && '+' !in t
    ensures Trim(t + ("+" + b)) != "" && Before(Trim(t + ("+" + b)), '+') == Trim(t) == Before(Trim(t), '+')
  {
    TrimLeftIsTrim(t);
    TrimLeftOfMore(t, "+" + b);
    var l := TrimLeft(t);
    assert l + ("+" + b) == l + ['+'] + b;
    TrimRightUpTo(l, '+', b);
    var rest :| TrimRight(l + ['+'] + b) == l + ['+'] + rest;
    FindFirst(l, '+', rest);
    FindNone(l, '+');
    assert (l + ['+'] + rest)[..|l|] == l;
  }

  lemma NothingHasNoNumbers()
    ensures ParseCore("").None?
  {
    assert Before("", '-') == "" && Split("", '.') == [""];
    assert Trim("") == "" && [""][..0] == [];
    assert Numbers([""]).None?;
  }

  /** Section 10 of SemVer 2.0.0: build metadata is ignored. */
  lemma BuildIsIgnored(raw: string, build: string)
    requires Trimmed(raw) && '+' !in raw
    ensures Parse(raw + ("+" + build)) == Parse(raw)
  {
    var t, b := TrimPrefix(Lower(raw), "v"), Lower(build);
    LowerOfConcat(raw, "+" + build);
    LowerOfConcat("+", build);
    assert Lower("+") == "+";
    TrimPrefixOfMore(Lower(raw), "+" + b);
    assert '+' !in Lower(raw) by {
      forall i | 0 <= i < |raw| ensures Lower(raw)[i] != '+' {
        assert Lower(raw)[i] == ToLower(raw[i]) && raw[i] in raw;
      }
    }
    assert t == "" || !IsSpace(t[|t| - 1]) by {
      if t != "" {
        assert t[|t| - 1] == Lower(raw)[|raw| - 1] == ToLower(raw[|raw| - 1]);
      }
    }
    CoreOfMore(t, b);
    NothingHasNoNumbers();
  }
}

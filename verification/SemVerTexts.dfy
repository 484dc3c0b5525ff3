/**
  What version constraints accept (cli/skills/market.go), told by their texts: each operator against a printed version,
  and comma-separated lists of them.
 */
module SemVerTexts {
  import opened SemVer
  import opened Text

  // ----- the order -----

  /** Section 11 of SemVer 2.0.0, except that two pre-releases are compared as texts. */
  predicate Precedes(a: Version, b: Version) {
    || a.major < b.major
    || (a.major == b.major && a.minor < b.minor)
    || (a.major == b.major && a.minor == b.minor && a.patch < b.patch)
    || (a.major == b.major && a.minor == b.minor && a.patch == b.patch && a.pre != "" && b.pre == "")
    || (a.major == b.major && a.minor == b.minor && a.patch == b.patch && a.pre != "" && Below(a.pre, b.pre))
  }

  lemma CompareMeaning(a: Version, b: Version)
    ensures Compare(a, b) < 0 <==> Precedes(a, b)
    ensures Compare(a, b) > 0 <==> Precedes(b, a)
    ensures Compare(a, b) == 0 <==> a == b
  {
    TextsAreOrdered(a.pre, b.pre);
    if Below(a.pre, b.pre) {
      BelowIsAsymmetric(a.pre, b.pre);
    } else if Below(b.pre, a.pre) {
      BelowIsAsymmetric(b.pre, a.pre);
    }
  }

  /** Section 11.4.1 of SemVer 2.0.0 puts the pre-release 9 before the pre-release 10; as texts it is the other way round. */
  lemma NumericPreReleasesAreMisordered(v: Version)
    ensures Compare(v.(pre := "10"), v.(pre := "9")) < 0
  {
    BelowFirst("10", "9");
    CompareMeaning(v.(pre := "10"), v.(pre := "9"));
  }

  // ----- shorter texts -----

  lemma DottedIsParsed(s: string, parts: seq<string>, ns: seq<int>)
    requires IsPlain(s) && '-' !in s && Split(s, '.') == parts && |parts| <= 3 && Numbers(parts) == Some(ns)
    ensures Parse(s) == Some(FromNumbers(ns, ""))
  {
    ParsePlain(s);
    DashCuts(s, "");
    hide IsPlain, Split, Numbers, Parse, Find;
  }

  lemma OneNumber(a: string, x: nat)
    requires IsPlain(a) && '-' !in a && '.' !in a && IsNumber(a, x)
    ensures Parse(a) == Some(Version(x, 0, 0, ""))
  {
    hide Parse, IsPlain, IsNumber;
    SplitOnlyOne(a, '.');
    NumbersGrow([], [], a, x);
    assert [] + [a] == [a] && [] + [x as int] == [x];
    DottedIsParsed(a, [a], [x]);
  }

  lemma TwoNumbers(a: string, b: string, x: nat, y: nat)
    requires IsPlain(a + "." + b) && '-' !in a && '.' !in a && IsNumber(a, x) && '-' !in b && '.' !in b && IsNumber(b, y)
    ensures Parse(a + "." + b) == Some(Version(x, y, 0, ""))
  {
    hide Parse, IsPlain, IsNumber;
    SplitTwo(a, b);
    NumbersGrow([], [], a, x);
    assert [] + [a] == [a] && [] + [x as int] == [x];
    hide Numbers, Split;
    NumbersGrow([a], [x], b, y);
    assert [a] + [b] == [a, b] && [x as int] + [y] == [x, y];
    DottedIsParsed(a + "." + b, [a, b], [x, y]);
  }

  lemma PrintedNumber(x: nat)
    requires x <= MAX_INT
    ensures IsPlain(Print(x)) && '-' !in Print(x) && '.' !in Print(x) && IsNumber(Print(x), x)
  {
    PlainDigits(x);
    DigitsHaveNo(Print(x), '.');
    DigitsHaveNo(Print(x), '-');
    AtoiOfPrinted(x);
    hide Print, IsPlain, Digits;
  }

  /** Missing numbers are 0, and a leading v is dropped. */
  lemma ShortVersions(x: nat, y: nat)
    requires x <= MAX_INT && y <= MAX_INT
    ensures Parse(Print(x)) == Some(Version(x, 0, 0, "")) && Parse("v" + Print(x)) == Parse(Print(x))
    ensures Parse(Print(x) + "." + Print(y)) == Some(Version(x, y, 0, ""))
  {
    PrintedNumber(x);
    PrintedNumber(y);
    LeadingV(Print(x));
    hide Print, Parse, IsNumber;
    PlainConcat(Print(x), '.', Print(y));
    hide IsPlain;
    OneNumber(Print(x), x);
    TwoNumbers(Print(x), Print(y), x, y);
  }

  lemma SplitOnlyOne(a: string, c: char)
    requires c !in a
    ensures Split(a, c) == [a]
  {
    FindNone(a, c);
  }

  lemma SplitTwo(a: string, b: string)
    requires '.' !in a && '.' !in b
    ensures Split(a + "." + b, '.') == [a, b]
  {
    FindFirst(a, '.', b);
    FindNone(b, '.');
    assert (a + "." + b)[..|a|] == a && (a + "." + b)[|a| + 1..] == b;
    assert [a] + [b] == [a, b];
  }

  lemma LeadingV(s: string)
    requires IsPlain(s)
    ensures Parse("v" + s) == Parse(s) && Parse("V" + s) == Parse(s)
  {
    LowerFixed(s);
    LowerOfConcat("v", s);
    LowerOfConcat("V", s);
    assert Lower("v") == "v" && Lower("V") == "v";
    assert ("v" + s)[..1] == "v" && ("v" + s)[1..] == s;
    assert TrimPrefix(s, "v") == s;
  }

  // ----- one part of a constraint -----

  datatype Relation = AtLeast | AtMost | Other | Same | Is | Above | Under | Caret | Tilde | Bare

  function Sign(r: Relation): string {
    match r
    case AtLeast => ">="
    case AtMost => "<="
    case Other => "!="
    case Same => "=="
    case Is => "="
    case Above => ">"
    case Under => "<"
    case Caret => "^"
    case Tilde => "~"
    case Bare => ""
  }

  /** The numbers that a caret leaves free are those behind the first one that is not 0. */
  predicate Accepts(r: Relation, v: Version, t: Version) {
    match r
    case AtLeast => v == t || Precedes(t, v)
    case AtMost => v == t || Precedes(v, t)
    case Other => v != t
    case Same => v == t
    case Is => v == t
    case Above => Precedes(t, v)
    case Under => Precedes(v, t)
    case Caret =>
      (v == t || Precedes(t, v)) &&
      if t.major > 0 then v.major == t.major
      else if t.minor > 0 then v.major == 0 && v.minor == t.minor
      else v.major == 0 && v.minor == 0 && v.patch == t.patch
    case Tilde => (v == t || Precedes(t, v)) && v.major == t.major && v.minor == t.minor
    case Bare => v == t
  }

  datatype Part = Part(relation: Relation, target: Version)

  /** The target can be printed, and its text has no comma. */
  predicate PartOk(p: Part) { Showable(p.target) && ',' !in p.target.pre }

  function ShowPart(p: Part): string
    requires PartOk(p)
  {
    Sign(p.relation) + Show(p.target)
  }

  lemma SignedIsTrimmed(r: Relation, s: string)
    requires IsPlain(s)
    ensures Trim(Sign(r) + s) == Sign(r) + s && Trim(s) == s && Sign(r) + s != ""
  {
    TrimOfTrimmed(s);
    TrimOfTrimmed(Sign(r) + s);
  }

  function OpOf(r: Relation): Op
    requires !r.Caret? && !r.Tilde?
  {
    match r
    case AtLeast => Op.AtLeast
    case AtMost => Op.AtMost
    case Other => NotEqual
    case Above => Greater
    case Under => Less
    case _ => Equal
  }

  /** A sign in front of a digit: no longer operator begins there. */
  lemma SignIsFound(sign: string, s: string)
    requires |sign| <= 2 && s != "" && IsDigit(s[0]) && Trim(s) == s && Trim(sign + s) == sign + s
    ensures (sign + s)[|sign|..] == s && (sign == "" ==> sign + s == s)
    ensures |sign| == 2 ==> (sign + s)[..2] == sign && (sign + s)[0] == sign[0]
    ensures |sign| == 1 ==> (sign + s)[..1] == sign && (sign + s)[0] == sign[0] && (sign + s)[1] == s[0]
  {
  }

  lemma OperatorIsRead(r: Relation, s: string)
    requires IsPlain(s) && !r.Caret? && !r.Tilde?
    ensures var text := Sign(r) + s;
            !HasPrefix(text, "^") && !HasPrefix(text, "~") && ParseOperator(text) == (OpOf(r), s)
  {
    SignedIsTrimmed(r, s);
    SignIsFound(Sign(r), s);
    assert !IsDigit('=') && !IsDigit('>') && !IsDigit('<') && !IsDigit('!') && !IsDigit('^') && !IsDigit('~');
    assert s != "" && IsDigit(s[0]);
    hide Trim, IsPlain;
  }

  lemma RelationMeaning(v: Version, r: Relation, t: Version)
    ensures Accepts(r, v, t) <==>
            if r.Caret? then MatchCaret(v, t) else if r.Tilde? then MatchTilde(v, t) else MatchOp(v, OpOf(r), t)
  {
    CompareMeaning(v, t);
    hide Compare, Precedes;
  }

  lemma CaretPart(v: Version, s: string, t: Version)
    requires Trim("^" + s) == "^" + s && Trim(s) == s && Parse(s) == Some(t)
    ensures MatchPart(v, "^" + s) <==> MatchCaret(v, t)
  {
    hide Trim, Parse, MatchCaret;
    assert ("^" + s)[..1] == "^" && ("^" + s)[1..] == s;
  }

  lemma TildePart(v: Version, s: string, t: Version)
    requires Trim("~" + s) == "~" + s && Trim(s) == s && Parse(s) == Some(t)
    ensures MatchPart(v, "~" + s) <==> MatchTilde(v, t)
  {
    hide Trim, Parse, MatchTilde;
    assert ("~" + s)[..1] == "~" && ("~" + s)[1..] == s && ("~" + s)[0] != '^';
  }

  lemma OperatedPart(v: Version, r: Relation, s: string, t: Version)
    requires IsPlain(s) && !r.Caret? && !r.Tilde? && Parse(s) == Some(t)
    ensures MatchPart(v, Sign(r) + s) <==> MatchOp(v, OpOf(r), t)
  {
    OperatorIsRead(r, s);
    SignedIsTrimmed(r, s);
    hide IsPlain, ParseOperator, Parse, Trim, Sign, OpOf, MatchOp, MatchPart;
    OperatorPart(v, Sign(r) + s, OpOf(r), s, t);
  }

  lemma SignedPart(v: Version, r: Relation, s: string, t: Version)
    requires IsPlain(s) && Parse(s) == Some(t)
    ensures MatchPart(v, Sign(r) + s) <==> Accepts(r, v, t)
  {
    SignedIsTrimmed(r, s);
    RelationMeaning(v, r, t);
    hide IsPlain, Parse, Trim, MatchPart, Accepts, MatchOp, MatchCaret, MatchTilde, OpOf;
    if r.Caret? {
      CaretPart(v, s, t);
    } else if r.Tilde? {
      TildePart(v, s, t);
    } else {
      OperatedPart(v, r, s, t);
    }
  }

  /** What a part made of an operator and a printed version accepts. */
  lemma PartMeaning(v: Version, p: Part)
    requires PartOk(p)
    ensures MatchPart(v, ShowPart(p)) <==> Accepts(p.relation, v, p.target)
  {
    var s := Show(p.target);
    hide Show, Parse, Showable, MatchPart, Accepts, IsPlain, Sign;
    ShowIsPlain(p.target);
    ParseOfShow(p.target);
    SignedPart(v, p.relation, s, p.target);
  }

  // ----- a whole constraint -----

  predicate PartsOk(parts: seq<Part>) { parts != [] && forall i :: 0 <= i < |parts| ==> PartOk(parts[i]) }

  function ShowParts(parts: seq<Part>): (texts: seq<string>)
    requires forall i :: 0 <= i < |parts| ==> PartOk(parts[i])
    ensures |texts| == |parts| && forall i :: 0 <= i < |parts| ==> texts[i] == ShowPart(parts[i])
  {
    if parts == [] then [] else [ShowPart(parts[0])] + ShowParts(parts[1..])
  }

  function ShowConstraint(parts: seq<Part>): string
    requires PartsOk(parts)
  {
    Join(ShowParts(parts), ",")
  }

  predicate AcceptedByAll(v: Version, parts: seq<Part>) {
    forall i :: 0 <= i < |parts| ==> Accepts(parts[i].relation, v, parts[i].target)
  }

  /** Bytes that the parser's preparations leave alone, and no blank at either end. */
  predicate Quiet(s: string) { s != "" && Trimmed(s) && '+' !in s && Unchanged(s) }

  lemma QuietConcat(a: string, b: string)
    requires Quiet(a) && Quiet(b)
    ensures Quiet(a + "," + b)
  {
  }

  lemma PlainIsQuiet(s: string)
    requires IsPlain(s)
    ensures Quiet(s)
  {
  }

  lemma SignIsQuiet(r: Relation, s: string)
    requires IsPlain(s) && ',' !in s
    ensures Quiet(Sign(r) + s) && ',' !in Sign(r) + s
  {
    var g := Sign(r);
    assert forall i :: 0 <= i < |g| ==> !IsSpace(g[i]) && g[i] != '+' && g[i] != ',' && ToLower(g[i]) == g[i];
    hide Sign;
    forall i | 0 <= i < |g + s| ensures ToLower((g + s)[i]) == (g + s)[i] && (g + s)[i] != '+' && (g + s)[i] != ',' {
      assert i >= |g| ==> (g + s)[i] == s[i - |g|];
    }
  }

  lemma PartIsQuiet(p: Part)
    requires PartOk(p)
    ensures Quiet(ShowPart(p)) && ',' !in ShowPart(p)
  {
    hide IsPlain, Quiet, Sign;
    var s := Show(p.target);
    ShowIsPlain(p.target);
    ShowHasNoComma(p.target);
    hide Show;
    SignIsQuiet(p.relation, s);
  }

  lemma ShowHasNoComma(t: Version)
    requires Showable(t) && ',' !in t.pre
    ensures ',' !in Show(t)
  {
    DigitsHaveNo(Print(t.major), ',');
    DigitsHaveNo(Print(t.minor), ',');
    DigitsHaveNo(Print(t.patch), ',');
    hide Print;
  }

  lemma {:induction false} ConstraintIsQuiet(parts: seq<Part>)
    requires PartsOk(parts)
    ensures Quiet(ShowConstraint(parts))
  {
    hide ShowPart, Quiet, PartOk;
    PartIsQuiet(parts[0]);
    if |parts| > 1 {
      ConstraintIsQuiet(parts[1..]);
      QuietConcat(ShowPart(parts[0]), ShowConstraint(parts[1..]));
    }
  }

  lemma PartsAreSplit(parts: seq<Part>)
    requires PartsOk(parts)
    ensures Split(ShowConstraint(parts), ',') == ShowParts(parts)
  {
    hide ShowPart, PartOk;
    forall i | 0 <= i < |parts| ensures ',' !in ShowParts(parts)[i] {
      PartIsQuiet(parts[i]);
    }
    SplitOfJoin(ShowParts(parts));
  }

  lemma PartsAccept(v: Version, parts: seq<Part>)
    requires PartsOk(parts)
    ensures MatchesAll(v, ShowParts(parts)) <==> AcceptedByAll(v, parts)
  {
    hide ShowPart, MatchPart, Accepts, PartOk;
    forall i | 0 <= i < |parts| ensures MatchPart(v, ShowParts(parts)[i]) <==> Accepts(parts[i].relation, v, parts[i].target) {
      PartMeaning(v, parts[i]);
    }
  }

  // ----- when a list of parts is read as one version -----

  lemma QuietParse(s: string)
    requires Quiet(s) && s[0] != 'v'
    ensures Parse(s) == ParseCore(s)
  {
    LowerFixed(s);
    TrimOfTrimmed(s);
    FindNone(s, '+');
    assert s[..1][0] == s[0];
    assert Before(s, '+') == s;
    hide ParseCore;
  }

  /** Beginnings of an operator. */
  predicate IsSign(c: char) { c in ">=<!^~" }

  lemma {:induction false} NumberlessPart(first: string)
    requires first != "" && IsSign(first[0])
    ensures Numbers([first]).None?
  {
    assert TrimLeft(first) == first;
    TrimRightUpTo("", first[0], first[1..]);
    assert "" + [first[0]] + first[1..] == first;
    var rest :| TrimRight(first) == "" + [first[0]] + rest;
    assert Trim(first)[0] == first[0] && !IsDigit(first[0]);
    assert [first][..0] == [];
    assert Atoi(Trim(first)).None?;
  }

  lemma SignedIsNoVersion(s: string)
    requires Quiet(s) && IsSign(s[0])
    ensures Parse(s).None?
  {
    QuietParse(s);
    hide Parse, Quiet;
    var core := Before(s, '-');
    assert core[0] == s[0];
    var parts := Split(core, '.');
    assert parts[0] != "" && parts[0][0] == s[0];
    NumberlessPart(parts[0]);
    assert parts[..1] == [parts[0]];
    NotNumbers(parts, 1);
  }

  lemma NoNumberWithComma(c: string, more: string)
    requires c != "" && Digits(c)
    ensures Numbers([c + "," + more]).None?
  {
    var x := c + [','] + more;
    assert TrimLeft(x) == x by { assert IsDigit(x[0]) && x[0] == c[0]; }
    TrimRightUpTo(c, ',', more);
    var rest :| TrimRight(x) == c + [','] + rest;
    assert Trim(x)[|c|] == ',' && IsDigit(Trim(x)[0]) by { assert Trim(x)[0] == c[0]; }
    assert !Digits(Trim(x));
    assert [x][..0] == [];
  }

  lemma SplitThird(a: string, b: string, x: string)
    requires '.' !in a && '.' !in b
    ensures Split(a + "." + (b + "." + x), '.') == [a, b] + Split(x, '.')
  {
    var bx := b + "." + x;
    FindFirst(a, '.', bx);
    FindFirst(b, '.', x);
    assert (a + "." + bx)[..|a|] == a && (a + "." + bx)[|a| + 1..] == bx;
    assert bx[..|b|] == b && bx[|b| + 1..] == x;
    assert Split(bx, '.') == [b] + Split(x, '.');
    assert [a] + ([b] + Split(x, '.')) == [a, b] + Split(x, '.');
  }

  lemma CommaBehindNumbers(a: string, b: string, c: string, more: string)
    requires '.' !in a && '.' !in b && c != "" && Digits(c)
    ensures var parts := Split(a + "." + (b + "." + (c + "," + more)), '.'); |parts| > 3 || Numbers(parts).None?
  {
    var x := c + "," + more;
    SplitThird(a, b, x);
    var parts := [a, b] + Split(x, '.');
    if |parts| <= 3 {
      assert |Split(x, '.')| == 1;
      assert Split(x, '.') == [x];
      NoNumberWithComma(c, more);
      assert parts[..3] == parts && parts[..3][..2] == [a, b];
      LastFails([a, b], x);
    }
  }

  lemma LastFails(parts: seq<string>, last: string)
    requires Numbers([last]).None?
    ensures Numbers(parts + [last]).None?
  {
    assert [last][..0] == [];
    assert (parts + [last])[..|parts|] == parts;
  }

  lemma {:induction false} FindBehind(a: string, b: string, c: char)
    requires c !in a
    ensures Find(a + b, c) == |a| + Find(b, c)
  {
    if a == "" {
      assert a + b == b;
    } else {
      assert (a + b)[1..] == a[1..] + b;
      FindBehind(a[1..], b, c);
    }
  }

  lemma CommaListIsNoVersion(a: string, b: string, c: string, rest: string)
    requires '.' !in a && '.' !in b && c != "" && Digits(c) && '-' !in a && '-' !in b && '-' !in c
    ensures ParseCore(a + "." + (b + "." + c) + "," + rest).None?
  {
    var front, more := a + "." + (b + "." + c) + ",", Before(rest, '-');
    var s := front + rest;
    FindBehind(front, rest, '-');
    assert Before(s, '-') == front + more;
    assert front + more == a + "." + (b + "." + (c + "," + more));
    CommaBehindNumbers(a, b, c, more);
    hide Split, Numbers, Find, Digits;
  }

  lemma BareListIsNoVersion(t: Version, rest: string)
    requires Showable(t) && t.pre == "" && Quiet(rest)
    ensures Parse(Show(t) + "," + rest).None?
  {
    var a, b, c, shown := Print(t.major), Print(t.minor), Print(t.patch), Show(t);
    ShowIsPlain(t);
    ShowIsDotted(t);
    DigitsHaveNo(a, '-');
    DigitsHaveNo(b, '-');
    DigitsHaveNo(c, '-');
    DigitsHaveNo(a, '.');
    DigitsHaveNo(b, '.');
    hide Print, Show, Parse, Showable, Digits;
    PlainIsQuiet(shown);
    CommaListIsNoVersion(a, b, c, rest);
    hide Quiet;
    QuietConcat(shown, rest);
    assert (shown + "," + rest)[0] == shown[0];
    hide IsPlain, ParseCore;
    QuietParse(shown + "," + rest);
  }

  /** The version that a list with a bare pre-release in front is read as: the rest of the list belongs to the pre-release. */
  function Swallowing(t: Version, rest: string): Version { t.(pre := t.pre + "," + rest) }

  lemma SwallowingIsShowable(t: Version, rest: string)
    requires Showable(t) && t.pre != "" && Quiet(rest)
    ensures Showable(Swallowing(t, rest))
  {
    var pre := t.pre + "," + rest;
    PreIsUnchanged(t.pre);
    assert Unchanged(pre);
    LowerFixed(pre);
  }

  lemma SwallowingIsShown(t: Version, rest: string)
    requires Showable(t) && Showable(Swallowing(t, rest)) && t.pre != ""
    ensures Show(Swallowing(t, rest)) == Show(t) + "," + rest
  {
    hide Print;
    var dotted, pre := Print(t.major) + "." + Print(t.minor) + "." + Print(t.patch), t.pre + "," + rest;
    assert Show(t) == dotted + ("-" + t.pre);
    assert Show(Swallowing(t, rest)) == dotted + ("-" + pre);
    assert dotted + ("-" + pre) == dotted + ("-" + t.pre) + "," + rest;
  }

  lemma BarePreListIsOneVersion(t: Version, rest: string)
    requires Showable(t) && t.pre != "" && Quiet(rest)
    ensures Showable(Swallowing(t, rest)) && Show(Swallowing(t, rest)) == Show(t) + "," + rest
    ensures Parse(Show(t) + "," + rest) == Some(Swallowing(t, rest))
  {
    SwallowingIsShowable(t, rest);
    SwallowingIsShown(t, rest);
    hide Show, Parse, Showable, Quiet;
    ParseOfShow(Swallowing(t, rest));
  }

  lemma ParsedMatch(v: Version, constraint: string)
    requires Showable(v) && Quiet(constraint)
    ensures Matches(Show(v), constraint) <==>
            if Parse(constraint).Some? then v == Parse(constraint).value else MatchesAll(v, Split(constraint, ','))
  {
    ShowIsPlain(v);
    ParseOfShow(v);
    TrimOfTrimmed(Show(v));
    TrimOfTrimmed(constraint);
    if Parse(constraint).Some? {
      CompareMeaning(v, Parse(constraint).value);
    }
    hide Show, Parse, Trim, Split, MatchesAll, Compare, Precedes;
  }

  lemma ConstraintGrows(parts: seq<Part>)
    requires PartsOk(parts) && |parts| > 1
    ensures PartsOk(parts[1..]) && ShowConstraint(parts) == ShowPart(parts[0]) + "," + ShowConstraint(parts[1..])
  {
    hide ShowPart, PartOk;
  }

  /** The list is read as a single version. */
  predicate ReadAsOne(parts: seq<Part>)
    requires parts != []
  {
    parts[0].relation.Bare? && (|parts| == 1 || parts[0].target.pre != "")
  }

  lemma ReadAsOneExactly(parts: seq<Part>)
    requires PartsOk(parts)
    ensures Parse(ShowConstraint(parts)).Some? <==> ReadAsOne(parts)
    ensures ReadAsOne(parts) ==>
              Parse(ShowConstraint(parts)).value ==
              if |parts| == 1 then parts[0].target else Swallowing(parts[0].target, ShowConstraint(parts[1..]))
  {
    var t := parts[0].target;
    ConstraintIsQuiet(parts);
    assert PartOk(parts[0]);
    assert ShowPart(parts[0]) == Sign(parts[0].relation) + Show(t);
    if |parts| > 1 {
      ConstraintGrows(parts);
      ConstraintIsQuiet(parts[1..]);
    }
    hide ShowConstraint, Quiet, Parse, Show, Showable;
    if !parts[0].relation.Bare? {
      FirstIsASign(parts);
      SignedIsNoVersion(ShowConstraint(parts));
    } else {
      assert Sign(Bare) + Show(t) == Show(t);
      if |parts| == 1 {
        OnePart(parts);
        ParseOfShow(t);
      } else if t.pre == "" {
        BareListIsNoVersion(t, ShowConstraint(parts[1..]));
      } else {
        BarePreListIsOneVersion(t, ShowConstraint(parts[1..]));
      }
    }
  }

  lemma OnePart(parts: seq<Part>)
    requires PartsOk(parts) && |parts| == 1
    ensures ShowConstraint(parts) == ShowPart(parts[0])
  {
    hide ShowPart, PartOk;
  }

  lemma FirstIsASign(parts: seq<Part>)
    requires PartsOk(parts) && !parts[0].relation.Bare?
    ensures ShowConstraint(parts) != "" && IsSign(ShowConstraint(parts)[0])
  {
    if |parts| > 1 {
      ConstraintGrows(parts);
    } else {
      OnePart(parts);
    }
    hide ShowConstraint, Show, PartOk;
    assert ShowPart(parts[0])[0] == Sign(parts[0].relation)[0];
  }

  /** A version accepted by every part, as the code decides it from the texts. */
  lemma ListMeaning(v: Version, parts: seq<Part>)
    requires Showable(v) && PartsOk(parts) && (ReadAsOne(parts) ==> |parts| == 1)
    ensures Matches(Show(v), ShowConstraint(parts)) <==> AcceptedByAll(v, parts)
  {
    hide ShowConstraint, Quiet, Parse, Show, Showable, Matches, MatchPart, PartOk;
    ConstraintIsQuiet(parts);
    ReadAsOneExactly(parts);
    ParsedMatch(v, ShowConstraint(parts));
    PartsAreSplit(parts);
    PartsAccept(v, parts);
  }

  lemma SwallowingIsNotFirst(parts: seq<Part>, rest: string)
    requires parts != [] && parts[0].relation.Bare?
    ensures !AcceptedByAll(Swallowing(parts[0].target, rest), parts)
  {
    hide Precedes;
    assert |Swallowing(parts[0].target, rest).pre| > |parts[0].target.pre|;
    assert !Accepts(parts[0].relation, Swallowing(parts[0].target, rest), parts[0].target);
  }

  lemma ListIsSwallowed(parts: seq<Part>)
    requires PartsOk(parts) && |parts| > 1 && ReadAsOne(parts)
    ensures var v := Swallowing(parts[0].target, ShowConstraint(parts[1..]));
            Showable(v) && Matches(Show(v), ShowConstraint(parts)) && !AcceptedByAll(v, parts)
  {
    var t := parts[0].target;
    assert PartOk(parts[0]);
    var rest := ShowConstraint(parts[1..]);
    var v := Swallowing(t, rest);
    hide ShowConstraint, Quiet, Parse, Show, Matches, MatchPart, Swallowing, AcceptedByAll;
    ConstraintIsQuiet(parts[1..]);
    ConstraintIsQuiet(parts);
    ReadAsOneExactly(parts);
    BarePreListIsOneVersion(t, rest);
    ParsedMatch(v, ShowConstraint(parts));
    SwallowingIsNotFirst(parts, rest);
  }

  /**
    A comma-separated list accepts the versions that each of its parts accepts if and only if it does not begin with a
    bare pre-release: the parts behind that are read as belonging to the pre-release, and the list as one exact version.
   */
  lemma ListMeaningExactly(parts: seq<Part>)
    requires PartsOk(parts)
    ensures (forall v :: Showable(v) ==> (Matches(Show(v), ShowConstraint(parts)) <==> AcceptedByAll(v, parts))) <==>
            !(|parts| > 1 && parts[0].relation.Bare? && parts[0].target.pre != "")
  {
    hide ShowConstraint, Show, Matches, PartOk, Accepts, AcceptedByAll;
    if ReadAsOne(parts) && |parts| > 1 {
      ListIsSwallowed(parts);
    } else {
      forall v | Showable(v) ensures Matches(Show(v), ShowConstraint(parts)) <==> AcceptedByAll(v, parts) {
        ListMeaning(v, parts);
      }
    }
  }
}

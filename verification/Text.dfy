/**
  The string functions of Go's standard library that the modelled code calls, on text as a sequence of
  bytes (one `char` per byte), with ASCII white space and ASCII letter case.
 */
module Text {

  datatype Option<+T> = None | Some(value: T)

  predicate IsSpace(c: char) { c == ' ' || '\t' <= c <= '\r' }

  predicate Blank(s: string) { forall i :: 0 <= i < |s| ==> IsSpace(s[i]) }

  predicate Trimmed(s: string) { s == "" || (!IsSpace(s[0]) && !IsSpace(s[|s| - 1])) }

  function TrimLeft(s: string): string {
    if s != "" && IsSpace(s[0]) then TrimLeft(s[1..]) else s
  }

  function TrimRight(s: string): string {
    if s != "" && IsSpace(s[|s| - 1]) then TrimRight(s[..|s| - 1]) else s
  }

  lemma {:induction false} TrimLeftDrops(s: string)
    ensures var r := TrimLeft(s);
            |r| <= |s| && r == s[|s| - |r|..] && Blank(s[..|s| - |r|]) && (r != "" ==> !IsSpace(r[0]))
  {
    if s != "" && IsSpace(s[0]) {
      TrimLeftDrops(s[1..]);
      var r := TrimLeft(s);
      assert s[..|s| - |r|] == [s[0]] + s[1..][..|s| - 1 - |r|];
    }
  }

  lemma {:induction false} TrimRightDrops(s: string)
    ensures var r := TrimRight(s);
            |r| <= |s| && r == s[..|r|] && Blank(s[|r|..]) && (r != "" ==> !IsSpace(r[|r| - 1]))
  {
    if s != "" && IsSpace(s[|s| - 1]) {
      var n := |s| - 1;
      TrimRightDrops(s[..n]);
      var r := TrimRight(s);
      assert s[|r|..] == s[..n][|r|..] + [s[n]];
    }
  }

  /** strings.TrimSpace */
  function Trim(s: string): string { TrimRight(TrimLeft(s)) }

  lemma TrimIsTrimmed(s: string)
    ensures Trimmed(Trim(s)) && |Trim(s)| <= |s|
  {
    TrimLeftDrops(s);
    TrimRightDrops(TrimLeft(s));
  }

  lemma TrimOfTrimmed(s: string)
    requires Trimmed(s)
    ensures Trim(s) == s
  {
  }

  lemma TrimTwice(s: string)
    ensures Trim(Trim(s)) == Trim(s)
  {
    TrimIsTrimmed(s);
    TrimOfTrimmed(Trim(s));
  }

  /** Trimming drops white space at both ends and nothing else. */
  lemma TrimParts(s: string) returns (before: string, after: string)
    ensures Blank(before) && Blank(after) && s == before + Trim(s) + after
  {
    var l := TrimLeft(s);
    TrimLeftDrops(s);
    TrimRightDrops(l);
    before := s[..|s| - |l|];
    after := l[|Trim(s)|..];
  }

  lemma BlankTrimsToNothing(s: string)
    ensures Blank(s) <==> Trim(s) == ""
  {
    var before, after := TrimParts(s);
    if Trim(s) != "" {
      TrimIsTrimmed(s);
      assert s[|before|] == Trim(s)[0];
    } else {
      assert s == before + after;
    }
  }

  function ToLower(c: char): char { if 'A' <= c <= 'Z' then c + 32 as char else c }

  function Lower(s: string): (r: string)
    ensures |r| == |s| && forall i :: 0 <= i < |s| ==> r[i] == ToLower(s[i])
  {
    if s == "" then "" else [ToLower(s[0])] + Lower(s[1..])
  }

  lemma {:induction false} LowerOfConcat(a: string, b: string)
    ensures Lower(a + b) == Lower(a) + Lower(b)
  {
  }

  predicate HasPrefix(s: string, p: string) { |p| <= |s| && s[..|p|] == p }

  /** Position of the first c, or |s|. */
  function Find(s: string, c: char): (i: nat)
    ensures i <= |s|
    ensures i < |s| ==> s[i] == c
    ensures forall j :: 0 <= j < i ==> s[j] != c
  {
    if s == "" || s[0] == c then 0 else 1 + Find(s[1..], c)
  }

  lemma FindFirst(a: string, c: char, b: string)
    requires c !in a
    ensures Find(a + [c] + b, c) == |a|
  {
    var s := a + [c] + b;
    forall i | 0 <= i < |a| ensures s[i] != c {
      assert s[i] == a[i] && a[i] in a;
    }
    assert s[|a|] == c;
  }

  lemma FindNone(a: string, c: char)
    requires c !in a
    ensures Find(a, c) == |a|
  {
    forall i | 0 <= i < |a| ensures a[i] != c {
      assert a[i] in a;
    }
  }

  predicate Contains(s: string, c: char) { c in s }

  /** strings.Split with a one-byte separator. */
  function Split(s: string, c: char): (parts: seq<string>)
    ensures parts != []
  {
    var i := Find(s, c);
    if i == |s| then [s] else [s[..i]] + Split(s[i + 1..], c)
  }

  function Join(parts: seq<string>, sep: string): string {
    if parts == [] then "" else if |parts| == 1 then parts[0] else parts[0] + sep + Join(parts[1..], sep)
  }

  lemma FindCuts(s: string, c: char)
    requires Find(s, c) < |s|
    ensures s == s[..Find(s, c)] + [c] + s[Find(s, c) + 1..]
  {
  }

  lemma {:induction false} JoinSplit(s: string, c: char)
    ensures Join(Split(s, c), [c]) == s
  {
    var i := Find(s, c);
    if i < |s| {
      FindCuts(s, c);
      JoinSplit(s[i + 1..], c);
      JoinFirst(s[..i], Split(s[i + 1..], c), [c]);
    }
  }

  lemma JoinFirst(part: string, parts: seq<string>, sep: string)
    requires parts != []
    ensures Join([part] + parts, sep) == part + sep + Join(parts, sep)
  {
    assert ([part] + parts)[1..] == parts;
  }

  lemma SplitFirst(part: string, rest: string)
    requires ',' !in part
    ensures Split(part + "," + rest, ',') == [part] + Split(rest, ',')
  {
    FindFirst(part, ',', rest);
    var s := part + [','] + rest;
    assert s[..|part|] == part && s[|part| + 1..] == rest;
    hide Find;
  }

  lemma SplitOnly(part: string)
    requires ',' !in part
    ensures Split(part, ',') == [part]
  {
    FindNone(part, ',');
  }

  /** Splitting undoes joining. */
  lemma {:induction false} SplitOfJoin(parts: seq<string>)
    requires parts != [] && forall p :: p in parts ==> ',' !in p
    ensures Split(Join(parts, ","), ',') == parts
  {
    hide Split;
    assert parts[0] in parts;
    if |parts| == 1 {
      SplitOnly(parts[0]);
    } else {
      SplitOfJoin(parts[1..]);
      SplitFirst(parts[0], Join(parts[1..], ","));
      assert parts == [parts[0]] + parts[1..];
    }
  }

  /** strings.Fields: the maximal runs of non-space bytes. */
  function Fields(s: string): (parts: seq<string>)
    decreases |s|
  {
    TrimLeftDrops(s);
    var t := TrimLeft(s);
    if t == "" then [] else
      var n := WordLength(t);
      [t[..n]] + Fields(t[n..])
  }

  function WordLength(s: string): (n: nat)
    ensures n <= |s| && (forall i :: 0 <= i < n ==> !IsSpace(s[i]))
    ensures n < |s| ==> IsSpace(s[n])
  {
    if s == "" || IsSpace(s[0]) then 0 else 1 + WordLength(s[1..])
  }

  // ----- the order of texts, byte by byte -----

  predicate Below(a: string, b: string) {
    b != "" && (a == "" || a[0] < b[0] || (a[0] == b[0] && Below(a[1..], b[1..])))
  }

  lemma {:induction false} BelowIsAsymmetric(a: string, b: string)
    requires Below(a, b)
    ensures !Below(b, a)
  {
    if a != "" && a[0] == b[0] {
      BelowIsAsymmetric(a[1..], b[1..]);
    }
  }

  lemma {:induction false} NotBelowIsTransitive(a: string, b: string, c: string)
    requires !Below(a, b) && !Below(b, c)
    ensures !Below(a, c)
  {
    if a != "" && b != "" && c != "" && a[0] == b[0] == c[0] {
      NotBelowIsTransitive(a[1..], b[1..], c[1..]);
    }
  }

  lemma {:induction false} NeitherBelowIsEqual(a: string, b: string)
    requires !Below(a, b) && !Below(b, a)
    ensures a == b
  {
    if a != "" && b != "" {
      NeitherBelowIsEqual(a[1..], b[1..]);
      assert a == [a[0]] + a[1..] && b == [b[0]] + b[1..];
    }
  }

  // ----- decimal numbers -----

  const MAX_INT: int := 0x7FFF_FFFF_FFFF_FFFF
  const TWO63: int := 0x8000_0000_0000_0000
  const TWO64: int := 0x1_0000_0000_0000_0000

  /** Addition of Go's 64-bit int. */
  function WrapAdd(a: int, b: int): int
    requires -TWO63 <= a <= MAX_INT && -TWO63 <= b <= MAX_INT
  {
    if a + b > MAX_INT then a + b - TWO64 else if a + b < -TWO63 then a + b + TWO64 else a + b
  }

  predicate IsDigit(c: char) { '0' <= c <= '9' }

  predicate Digits(s: string) { forall i :: 0 <= i < |s| ==> IsDigit(s[i]) }

  /** Value of a string of digits. */
  function Decimal(s: string): nat
    requires Digits(s)
  {
    if s == "" then 0 else 10 * Decimal(s[..|s| - 1]) + (s[|s| - 1] - '0') as nat
  }

  /** The digits of n, as %d prints them. */
  function Print(n: nat): (s: string)
    ensures Digits(s) && s != ""
  {
    var last := [('0' as int + n % 10) as char];
    if n < 10 then last else Print(n / 10) + last
  }

  lemma {:induction false} DecimalOfPrint(n: nat)
    ensures Decimal(Print(n)) == n
  {
    if n >= 10 {
      DecimalOfPrint(n / 10);
      assert Print(n)[..|Print(n)| - 1] == Print(n / 10);
    }
  }

  /** strconv.Atoi: an optional sign and digits, within 64 bits. */
  function Atoi(s: string): (r: Option<int>)
    ensures r.Some? ==> -TWO63 <= r.value <= MAX_INT
  {
    var body := if s != "" && (s[0] == '-' || s[0] == '+') then s[1..] else s;
    if body == "" || !Digits(body) then None
    else
      var v: int := if s[0] == '-' then 0 - Decimal(body) else Decimal(body);
      if -TWO63 <= v <= MAX_INT then Some(v) else None
  }
}

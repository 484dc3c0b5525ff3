/** Cutting texts into pieces: what it means that nothing, or nothing but separators, is lost. */
module Pieces {

  /** strings.LastIndex with a one-byte text. */
  function LastIndex(s: string, c: char): (i: int)
    ensures -1 <= i < |s| && (i >= 0 ==> s[i] == c) && forall j :: i < j < |s| ==> s[j] != c
  {
    if s == "" then -1 else if s[|s| - 1] == c then |s| - 1 else LastIndex(s[..|s| - 1], c)
  }

  function Concat(pieces: seq<string>): string {
    if pieces == [] then "" else Concat(pieces[..|pieces| - 1]) + pieces[|pieces| - 1]
  }

  lemma ConcatGrows(pieces: seq<string>, p: string)
    ensures Concat(pieces + [p]) == Concat(pieces) + p
  {
    assert (pieces + [p])[..|pieces|] == pieces;
  }

  lemma {:induction false} ConcatFront(p: string, pieces: seq<string>)
    ensures Concat([p] + pieces) == p + Concat(pieces)
  {
    var n := |pieces|;
    if n == 0 {
      ConcatGrows([], p);
      assert [] + [p] == [p] + pieces;
    } else {
      assert ([p] + pieces)[..n] == [p] + pieces[..n - 1];
      ConcatFront(p, pieces[..n - 1]);
      assert p + (Concat(pieces[..n - 1]) + pieces[n - 1]) == p + Concat(pieces[..n - 1]) + pieces[n - 1];
    }
  }

  function Repeat(sep: string, n: nat): string {
    if n == 0 then "" else Repeat(sep, n - 1) + sep
  }

  /** gaps[0] separators, pieces[0], gaps[1] separators, pieces[1], and so on to the last gap. */
  function Rejoin(pieces: seq<string>, gaps: seq<nat>, sep: string): string
    requires |gaps| == |pieces| + 1
  {
    var n := |pieces|;
    if n == 0 then Repeat(sep, gaps[0]) else Rejoin(pieces[..n - 1], gaps[..n], sep) + pieces[n - 1] + Repeat(sep, gaps[n])
  }

  lemma RejoinGrows(pieces: seq<string>, gaps: seq<nat>, sep: string, p: string, g: nat)
    requires |gaps| == |pieces| + 1
    ensures Rejoin(pieces + [p], gaps + [g], sep) == Rejoin(pieces, gaps, sep) + p + Repeat(sep, g)
  {
    assert (pieces + [p])[..|pieces|] == pieces && (gaps + [g])[..|gaps|] == gaps;
  }

  lemma RejoinWidens(pieces: seq<string>, gaps: seq<nat>, sep: string)
    requires |gaps| == |pieces| + 1
    ensures var n := |pieces|; Rejoin(pieces, gaps[n := gaps[n] + 1], sep) == Rejoin(pieces, gaps, sep) + sep
  {
    var n := |pieces|;
    assert gaps[n := gaps[n] + 1][..n] == gaps[..n];
    if n > 0 {
      var w := Rejoin(pieces[..n - 1], gaps[..n], sep) + pieces[n - 1];
      assert w + (Repeat(sep, gaps[n]) + sep) == w + Repeat(sep, gaps[n]) + sep;
    }
  }

  /** The text is the pieces with nothing but separators before, between and after them. */
  ghost predicate LosesOnly(sep: string, text: string, pieces: seq<string>) {
    exists gaps: seq<nat> :: |gaps| == |pieces| + 1 && text == Rejoin(pieces, gaps, sep)
  }

  // ----- strings.Split -----

  /** Position of the first occurrence of sep, or |s|. */
  function FindText(s: string, sep: string): (i: nat)
    requires sep != ""
    ensures i <= |s| && (i < |s| ==> i + |sep| <= |s| && s[i..i + |sep|] == sep)
  {
    if |s| < |sep| then |s|
    else if s[..|sep|] == sep then 0
    else
      var i := FindText(s[1..], sep);
      assert i < |s| - 1 ==> s[1..][i..i + |sep|] == s[i + 1..i + 1 + |sep|];
      i + 1
  }

  /** sep occurs in s at i. */
  predicate OccursAt(s: string, sep: string, i: nat) { i + |sep| <= |s| && s[i..i + |sep|] == sep }

  lemma {:induction false} FindTextIsFirst(s: string, sep: string)
    requires sep != ""
    ensures forall j: nat :: j < FindText(s, sep) ==> !OccursAt(s, sep, j)
    ensures FindText(s, sep) < |s| ==> OccursAt(s, sep, FindText(s, sep))
  {
    if |s| >= |sep| && s[..|sep|] != sep {
      FindTextIsFirst(s[1..], sep);
      forall j: nat | 0 < j < FindText(s, sep) ensures !OccursAt(s, sep, j) {
        var k: nat := j - 1;
        assert !OccursAt(s[1..], sep, k);
        assert j + |sep| <= |s| ==> s[1..][k..k + |sep|] == s[j..j + |sep|];
      }
    }
  }

  function SplitText(s: string, sep: string): (r: seq<string>)
    requires sep != ""
    ensures r != []
    decreases |s|
  {
    var i := FindText(s, sep);
    if i == |s| then [s] else [s[..i]] + SplitText(s[i + |sep|..], sep)
  }

  /** No part of a split text holds a separator. */
  lemma {:induction false} PartsHaveNone(s: string, sep: string)
    requires sep != ""
    ensures forall p, j: nat :: p in SplitText(s, sep) ==> !OccursAt(p, sep, j)
    decreases |s|
  {
    var i := FindText(s, sep);
    FindTextIsFirst(s, sep);
    forall j: nat ensures !OccursAt(s[..i], sep, j) {
      assert j + |sep| <= i ==> s[..i][j..j + |sep|] == s[j..j + |sep|];
      assert j < i ==> !OccursAt(s, sep, j);
    }
    if i < |s| {
      PartsHaveNone(s[i + |sep|..], sep);
    } else {
      assert s[..i] == s;
    }
    hide FindText, OccursAt;
  }

  /** Every unit with a separator after it. */
  function Terminated(units: seq<string>, sep: string): string {
    if units == [] then "" else Terminated(units[..|units| - 1], sep) + units[|units| - 1] + sep
  }

  lemma {:induction false} TerminatedFront(u: string, units: seq<string>, sep: string)
    ensures Terminated([u] + units, sep) == u + sep + Terminated(units, sep)
  {
    var n := |units|;
    if n > 0 {
      assert ([u] + units)[..n] == [u] + units[..n - 1];
      TerminatedFront(u, units[..n - 1], sep);
      Regroup(u + sep, Terminated(units[..n - 1], sep), units[n - 1], sep);
    } else {
      assert ([u] + units)[..0] == [] && [u] + units == [u];
    }
  }

  lemma Regroup(a: string, b: string, c: string, d: string)
    ensures a + b + c + d == a + (b + c + d)
  {
  }

  lemma SplitTextStep(s: string, sep: string)
    requires sep != "" && FindText(s, sep) < |s|
    ensures var i := FindText(s, sep);
            var rest := s[i + |sep|..];
            && s == s[..i] + sep + rest && |rest| < |s|
            && SplitText(s, sep) == [s[..i]] + SplitText(rest, sep)
  {
    var i := FindText(s, sep);
    assert s == s[..i] + s[i..i + |sep|] + s[i + |sep|..];
  }

  lemma {:induction false} SplitTextJoins(s: string, sep: string)
    requires sep != ""
    ensures Terminated(SplitText(s, sep), sep) == s + sep
    decreases |s|
  {
    var i := FindText(s, sep);
    if i < |s| {
      var rest := s[i + |sep|..];
      SplitTextStep(s, sep);
      SplitTextJoins(rest, sep);
      TerminatedFront(s[..i], SplitText(rest, sep), sep);
      Associates(s[..i] + sep, rest, sep);
    } else {
      TerminatedFront(s, [], sep);
      assert [s] + [] == [s];
    }
  }

  lemma Associates(a: string, b: string, c: string)
    ensures a + b + c == a + (b + c)
  {
  }
}

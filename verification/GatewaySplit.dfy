/** Cutting an outgoing text to a platform's limit (cli/gateway/gateway.go, splitByMaxLen). */
module GatewaySplit {
  import opened Text
  import opened Pieces

  /** After the last newline among the first max bytes when that is in their second half, else after max bytes. */
  function CutAt(text: string, max: int): (cut: nat)
    requires 0 < max < |text| && Trimmed(text)
    ensures 0 < cut <= max
  {
    var split := LastIndex(text[..max], '\n');
    if split < max / 2 then max else split
  }

  /** The cut is at the last newline within the limit if that is in the second half, and else at the limit. */
  lemma CutAtMeaning(text: string, max: int)
    requires 0 < max < |text| && Trimmed(text)
    ensures var cut := CutAt(text, max);
            && (forall i :: cut < i < max ==> text[i] != '\n')
            && (if cut < max then text[cut] == '\n' && cut >= max / 2
                else forall i :: max / 2 <= i < max ==> text[i] != '\n')
  {
    var w, split := text[..max], LastIndex(text[..max], '\n');
    forall i | split < i < max ensures text[i] != '\n' {
      assert w[i] == text[i];
    }
  }

  function PiecesOf(text: string, max: int): seq<string>
    requires max > 0 && Trimmed(text)
    decreases |text|
  {
    if |text| <= max then (if text == "" then [] else [text])
    else
      var cut := CutAt(text, max);
      TrimIsTrimmed(text[cut..]);
      [Trim(text[..cut])] + PiecesOf(Trim(text[cut..]), max)
  }

  function AllPieces(text: string, max: int): seq<string> {
    TrimIsTrimmed(text);
    if Trim(text) == "" then [] else if max <= 0 then [Trim(text)] else PiecesOf(Trim(text), max)
  }

  method SplitByMaxLen(raw: string, max: int) returns (out: seq<string>)
    ensures out == AllPieces(raw, max)
  {
    var text := Trim(raw);
    TrimIsTrimmed(raw);
    if text == "" {
      return [];
    }
    if max <= 0 || |text| <= max {
      return [text];
    }
    out := [];
    ghost var all := PiecesOf(text, max);
    while |text| > max
      invariant Trimmed(text) && all == out + PiecesOf(text, max)
      decreases |text|
    {
      var split := LastIndex(text[..max], '\n');
      if split < max / 2 {
        split := max;
      }
      assert split == CutAt(text, max);
      TrimIsTrimmed(text[split..]);
      SplitStep(out, text, max);
      out := out + [Trim(text[..split])];
      text := Trim(text[split..]);
    }
    if text != "" {
      out := out + [text];
    }
  }

  lemma SplitStep(out: seq<string>, text: string, max: int)
    requires 0 < max < |text| && Trimmed(text)
    ensures var cut := CutAt(text, max);
            && Trimmed(Trim(text[cut..]))
            && out + PiecesOf(text, max) == out + [Trim(text[..cut])] + PiecesOf(Trim(text[cut..]), max)
  {
    TrimIsTrimmed(text[CutAt(text, max)..]);
  }

  /** The text is the pieces in order with nothing but white space between them. */
  ghost predicate CutsOnlySpace(text: string, pieces: seq<string>)
    decreases |pieces|
  {
    if pieces == [] then text == "" else
      exists n: nat :: StartsWith(text, pieces[0], n) && CutsOnlySpace(text[n..], pieces[1..])
  }

  /** The first n bytes are the piece and white space after it. */
  predicate StartsWith(text: string, piece: string, n: nat) {
    |piece| <= n <= |text| && text[..|piece|] == piece && Blank(text[|piece|..n])
  }

  predicate GoodPieces(pieces: seq<string>, max: int) {
    forall i :: 0 <= i < |pieces| ==> 0 < |pieces[i]| <= max && Trimmed(pieces[i])
  }

  lemma BlankConcat(a: string, b: string)
    requires Blank(a) && Blank(b)
    ensures Blank(a + b)
  {
  }

  lemma NoBlankAtTheEnds(a: string, b: string)
    requires Trimmed(a + b)
    ensures Blank(a) ==> a == ""
    ensures Blank(b) ==> b == ""
  {
    if a != "" {
      assert (a + b)[0] == a[0];
    }
    if b != "" {
      assert (a + b)[|a + b| - 1] == b[|b| - 1];
    }
  }

  lemma Between(head: string, gap: string, tail: string)
    requires Blank(gap)
    ensures StartsWith(head + gap + tail, head, |head| + |gap|) && (head + gap + tail)[|head| + |gap|..] == tail
  {
  }

  lemma LeadingBlankIsNothing(b: string, rest: string)
    requires Trimmed(b + rest) && Blank(b)
    ensures b == "" && b + rest == rest
  {
    NoBlankAtTheEnds(b, rest);
  }

  lemma TrailingBlankIsNothing(rest: string, b: string)
    requires Trimmed(rest + b) && Blank(b)
    ensures b == "" && rest + b == rest
  {
    NoBlankAtTheEnds(rest, b);
  }

  lemma BlankHeadIsNothing(head: string, gap: string, rest: string)
    requires Trimmed(head + gap + rest) && Blank(gap) && head + gap != ""
    ensures head != ""
  {
    NoBlankAtTheEnds(head + gap, rest);
  }

  lemma CutParts(b1: string, head: string, a1: string, b2: string, tail: string, a2: string)
    requires Blank(b1) && Blank(a1) && Blank(b2) && Blank(a2)
    requires Trimmed(b1 + head + a1 + (b2 + tail + a2)) && b1 + head + a1 != ""
    ensures head != "" && b1 + head + a1 + (b2 + tail + a2) == head + (a1 + b2) + tail && Blank(a1 + b2)
  {
    assert b1 + head + a1 + (b2 + tail + a2) == b1 + (head + a1 + (b2 + tail + a2));
    LeadingBlankIsNothing(b1, head + a1 + (b2 + tail + a2));
    assert head + a1 + (b2 + tail + a2) == head + a1 + b2 + tail + a2;
    TrailingBlankIsNothing(head + a1 + b2 + tail, a2);
    assert head + a1 + b2 + tail == head + (a1 + b2) + tail;
    BlankConcat(a1, b2);
    assert head + (a1 + b2) + tail == head + a1 + (b2 + tail);
    BlankHeadIsNothing(head, a1, b2 + tail);
  }

  /** The head and the tail of a cut, with the white space that is dropped between them. */
  lemma CutDropsSpace(text: string, cut: nat)
    requires Trimmed(text) && 0 < cut <= |text|
    ensures var head, tail := Trim(text[..cut]), Trim(text[cut..]);
            && head != "" && |tail| <= |text|
            && StartsWith(text, head, |text| - |tail|) && text[|text| - |tail|..] == tail
  {
    var b1, a1 := TrimParts(text[..cut]);
    var b2, a2 := TrimParts(text[cut..]);
    assert text == text[..cut] + text[cut..];
    CutParts(b1, Trim(text[..cut]), a1, b2, Trim(text[cut..]), a2);
    Between(Trim(text[..cut]), a1 + b2, Trim(text[cut..]));
  }

  /** Every piece is non-empty, trimmed and within the limit, and only white space is dropped, at the cuts. */
  lemma {:induction false} SplitIsGood(text: string, max: int)
    requires max > 0 && Trimmed(text)
    ensures GoodPieces(PiecesOf(text, max), max) && CutsOnlySpace(text, PiecesOf(text, max))
    decreases |text|
  {
    if |text| <= max {
      if text != "" {
        assert StartsWith(text, text, |text|);
        assert |[text][1..]| == 0 && text[|text|..] == "";
      }
    } else {
      var cut := CutAt(text, max);
      var head, tail := Trim(text[..cut]), Trim(text[cut..]);
      TrimIsTrimmed(text[..cut]);
      TrimIsTrimmed(text[cut..]);
      CutDropsSpace(text, cut);
      SplitIsGood(tail, max);
      hide PiecesOf, Trim, CutsOnlySpace, GoodPieces;
      PiecesGrow(text, head, tail, PiecesOf(tail, max), max);
    }
  }

  lemma PiecesGrow(text: string, head: string, tail: string, rest: seq<string>, max: int)
    requires |tail| <= |text| && StartsWith(text, head, |text| - |tail|) && text[|text| - |tail|..] == tail
    requires CutsOnlySpace(tail, rest) && GoodPieces(rest, max) && 0 < |head| <= max && Trimmed(head)
    ensures CutsOnlySpace(text, [head] + rest) && GoodPieces([head] + rest, max)
  {
    assert ([head] + rest)[1..] == rest;
  }

  /** For every text and limit; without a positive limit the text stays whole. */
  lemma SplitTextIsGood(text: string, max: int)
    ensures CutsOnlySpace(Trim(text), AllPieces(text, max))
    ensures max > 0 ==> GoodPieces(AllPieces(text, max), max)
    ensures AllPieces(text, max) == [] <==> Blank(text)
  {
    var t: string := Trim(text);
    TrimIsTrimmed(text);
    BlankTrimsToNothing(text);
    if t != "" && max > 0 {
      SplitIsGood(t, max);
    } else if t != "" {
      assert StartsWith(t, t, |t|);
      assert |[t][1..]| == 0 && t[|t|..] == "";
    }
  }
}

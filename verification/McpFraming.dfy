/**
  The message framing of the tool server on standard input and output (cli/mcp_stdio.go), in the style of the base
  protocol of the Language Server Protocol 3.17. Text is a sequence of bytes.
 */
module McpFraming {
  import opened Text
  import opened Arithmetic

  // ----- strconvAtoi -----

  /** A mathematical integer kept in 64 bits, two's complement. */
  function Wrap(x: int): int { (x + TWO63) % TWO64 - TWO63 }

  function AtoiLoop(s: string): Option<int> {
    if s == "" then Some(0) else
      var v, c := AtoiLoop(s[..|s| - 1]), s[|s| - 1];
      if v.None? || !IsDigit(c) then None else Some(Wrap(Wrap(v.value * 10) + (c - '0') as int))
  }

  method StrconvAtoi(s: string) returns (r: Option<int>)
    ensures r == AtoiLoop(s)
  {
    var v: int := 0;
    for i := 0 to |s|
      invariant AtoiLoop(s[..i]) == Some(v)
    {
      assert s[..i + 1][..i] == s[..i];
      var ch := s[i];
      if ch < '0' || ch > '9' {
        PrefixNotNumber(s, i + 1);
        return None;
      }
      v := Wrap(Wrap(v * 10) + (ch - '0') as int);
    }
    assert s[..|s|] == s;
    return Some(v);
  }

  lemma {:induction false} PrefixNotNumber(s: string, k: nat)
    requires k <= |s| && AtoiLoop(s[..k]).None?
    ensures AtoiLoop(s).None?
    decreases |s| - k
  {
    if k < |s| {
      assert s[..k + 1][..k] == s[..k];
      PrefixNotNumber(s, k + 1);
    } else {
      assert s[..k] == s;
    }
  }

  lemma WrapOfMultiple(x: int, y: int, k: int)
    requires x == y + k * TWO64
    ensures Wrap(x) == Wrap(y)
  {
    var q, r := (y + TWO63) / TWO64, (y + TWO63) % TWO64;
    assert x + TWO63 == (q + k) * TWO64 + r;
    ModIs(q + k, r, TWO64);
  }

  lemma WrapStep(v: int, d: int)
    ensures Wrap(Wrap(Wrap(v) * 10) + d) == Wrap(v * 10 + d)
  {
    var k := (v + TWO63) / TWO64;
    assert Wrap(v) == v - k * TWO64;
    var m := (Wrap(v) * 10 + TWO63) / TWO64;
    assert Wrap(Wrap(v) * 10) == Wrap(v) * 10 - m * TWO64;
    assert Wrap(Wrap(v) * 10) + d == v * 10 + d + (-10 * k - m) * TWO64;
    WrapOfMultiple(Wrap(Wrap(v) * 10) + d, v * 10 + d, -10 * k - m);
  }

  /** The loop accepts exactly the strings of digits, the empty one too, and computes their value in 64 bits. */
  lemma {:induction false} AtoiMeaning(s: string)
    ensures AtoiLoop(s) == if Digits(s) then Some(Wrap(Decimal(s))) else None
  {
    if s != "" {
      var init, c := s[..|s| - 1], s[|s| - 1];
      AtoiMeaning(init);
      assert s == init + [c];
      if Digits(init) && IsDigit(c) {
        assert Digits(s);
        WrapStep(Decimal(init), (c - '0') as int);
      }
    }
  }

  /** Reading a printed number gives it back if and only if it fits in 64 bits. */
  lemma AtoiOfPrint(n: nat)
    ensures AtoiLoop(Print(n)) == Some(n) <==> n <= MAX_INT
  {
    hide AtoiLoop, Print, Decimal, Wrap;
    AtoiMeaning(Print(n));
    DecimalOfPrint(n);
    WrapKeeps(n);
  }

  lemma WrapKeeps(n: nat)
    ensures Wrap(n) == n <==> n <= MAX_INT
  {
    if n <= MAX_INT {
      ModIs(0, n + TWO63, TWO64);
    }
  }

  // ----- readMCPPayload -----

  /** Results of a read: bytes, nothing for a blank line, io.EOF, io.ErrUnexpectedEOF, or an invalid length. */
  datatype Outcome = Payload(body: string) | Nothing | EndOfFile | UnexpectedEnd | Invalid

  datatype Reading = Reading(outcome: Outcome, rest: string)

  predicate HasLine(s: string) { Find(s, '\n') < |s| }

  /** The first line of s with its newline, and what follows it. */
  function Line(s: string): string
    requires HasLine(s)
  {
    s[..Find(s, '\n') + 1]
  }

  function AfterLine(s: string): (rest: string)
    requires HasLine(s)
    ensures |rest| < |s|
  {
    s[Find(s, '\n') + 1..]
  }

  /** The rest of the header, up to and including the first blank line. */
  function SkipHeader(s: string): Option<string> {
    if !HasLine(s) then None
    else if Trim(Line(s)) == "" then Some(AfterLine(s))
    else SkipHeader(AfterLine(s))
  }

  const HEADER := "content-length:"

  function HeaderLength(line: string): Option<int> {
    var n := AtoiLoop(Trim(AfterColon(line)));
    if n.None? || n.value <= 0 then None else n
  }

  /** strings.SplitN at the first colon, second part. */
  function AfterColon(line: string): string {
    if Find(line, ':') == |line| then "" else line[Find(line, ':') + 1..]
  }

  function ReadBody(n: nat, s: string): Reading {
    if n <= |s| then Reading(Payload(s[..n]), s[n..])
    else Reading(if s == "" then EndOfFile else UnexpectedEnd, "")
  }

  function ReadContents(n: nat, s: string): Reading {
    var body := SkipHeader(s);
    if body.None? then Reading(EndOfFile, "") else ReadBody(n, body.value)
  }

  function ReadOne(s: string): Reading {
    if !HasLine(s) then Reading(EndOfFile, "")
    else
      var trimmed, rest := Trim(Line(s)), AfterLine(s);
      if trimmed == "" then Reading(Nothing, rest)
      else if HasPrefix(Lower(trimmed), HEADER) then
        var n := HeaderLength(trimmed);
        if n.None? then Reading(Invalid, rest)
        else ReadContents(n.value, rest)
      else Reading(Payload(trimmed), rest)
  }

  class Reader {
    const data: string
    var pos: nat

    ghost predicate Valid() reads this { pos <= |data| }

    function Rest(): string
      reads this
      requires Valid()
    {
      data[pos..]
    }

    constructor (data: string)
      ensures Valid() && Rest() == data
    {
      this.data, pos := data, 0;
    }

    /** bufio's ReadString('\n'); at the end of the data the last, unfinished line is used up. */
    method ReadString() returns (line: string, ok: bool)
      requires Valid()
      modifies this
      ensures Valid() && ok == old(HasLine(Rest()))
      ensures ok ==> line == old(Line(Rest())) && Rest() == old(AfterLine(Rest()))
      ensures !ok ==> Rest() == ""
    {
      var i := Find(data[pos..], '\n');
      if i == |data| - pos {
        line, ok := data[pos..], false;
        pos := |data|;
      } else {
        line, ok := data[pos..pos + i + 1], true;
        assert line == data[pos..][..i + 1];
        assert data[pos + i + 1..] == data[pos..][i + 1..];
        pos := pos + i + 1;
      }
    }

    method ReadMCPPayload() returns (r: Outcome)
      requires Valid()
      modifies this
      ensures Valid() && Reading(r, Rest()) == old(ReadOne(Rest()))
    {
      var line, ok := ReadString();
      if !ok {
        return EndOfFile;
      }
      var trimmed := Trim(line);
      if trimmed == "" {
        return Nothing;
      }
      if HasPrefix(Lower(trimmed), HEADER) {
        var n := StrconvAtoi(Trim(AfterColon(trimmed)));
        if n.None? || n.value <= 0 {
          return Invalid;
        }
        r := ReadContent(n.value);
        return;
      }
      r := Payload(trimmed);
    }

    /** The rest of the header and the body. */
    method ReadContent(n: nat) returns (r: Outcome)
      requires Valid()
      modifies this
      ensures Valid()
      ensures Reading(r, Rest()) == old(ReadContents(n, Rest()))
    {
      ghost var start := SkipHeader(Rest());
      while true
        invariant Valid() && SkipHeader(Rest()) == start
        decreases |Rest()|
      {
        var h, more := ReadString();
        if !more {
          return EndOfFile;
        }
        if Trim(h) == "" {
          break;
        }
      }
      assert start == Some(Rest());
      if n <= |data| - pos {
        assert data[pos..pos + n] == Rest()[..n] && data[pos + n..] == Rest()[n..];
        r := Payload(data[pos..pos + n]);
        pos := pos + n;
      } else {
        r := if pos == |data| then EndOfFile else UnexpectedEnd;
        pos := |data|;
      }
    }

    /** The server's loop up to the error that ends it: the messages it handles, in order. */
    method Serve() returns (handled: seq<string>, end: Outcome)
      requires Valid()
      modifies this
      ensures (handled, end) == old(Session(Rest()))
    {
      handled := [];
      ghost var all := Session(Rest());
      assert [] + all.0 == all.0;
      while true
        invariant Valid() && all == Prepend(handled, Session(Rest()))
        decreases |Rest()|
      {
        ghost var before := Rest();
        ReadOneAdvances(before);
        SessionStep(handled, before);
        var payload := ReadMCPPayload();
        if payload.Payload? && payload.body != "" {
          handled := handled + [payload.body];
        } else if !payload.Payload? && payload != Nothing {
          end := payload;
          return;
        }
      }
    }
  }

  class Writer {
    var out: string

    constructor ()
      ensures out == ""
    {
      out := "";
    }

    method WriteMCPPayload(body: string)
      modifies this
      ensures out == old(out) + Frame(body)
    {
      out := out + (LABEL + " " + Print(|body|) + "\r\n\r\n");
      out := out + body;
    }
  }

  const LABEL := "Content-Length:"

  function Frame(body: string): string { LABEL + " " + Print(|body|) + "\r\n\r\n" + body }

  lemma {:induction false} SkipHeaderIsSuffix(s: string)
    ensures SkipHeader(s).Some? ==> |SkipHeader(s).value| < |s|
  {
    if HasLine(s) && Trim(Line(s)) != "" {
      SkipHeaderIsSuffix(AfterLine(s));
    }
  }

  /** Every read that does not end the session uses up input. */
  lemma ReadOneAdvances(s: string)
    ensures ReadOne(s).outcome.Payload? || ReadOne(s).outcome.Nothing? ==> |ReadOne(s).rest| < |s|
  {
    if HasLine(s) {
      SkipHeaderIsSuffix(AfterLine(s));
    }
  }

  /** What the server handles when its whole input is s, and the error it stops with. */
  function Session(s: string): (seq<string>, Outcome)
    decreases |s|
  {
    var r := ReadOne(s);
    ReadOneAdvances(s);
    if r.outcome.Payload? then
      var more := Session(r.rest);
      (if r.outcome.body == "" then more.0 else [r.outcome.body] + more.0, more.1)
    else if r.outcome.Nothing? then Session(r.rest)
    else ([], r.outcome)
  }

  function Prepend(handled: seq<string>, more: (seq<string>, Outcome)): (seq<string>, Outcome) {
    (handled + more.0, more.1)
  }

  lemma SessionStep(handled: seq<string>, s: string)
    ensures var r := ReadOne(s);
            Prepend(handled, Session(s)) ==
              if r.outcome.Payload? && r.outcome.body != "" then Prepend(handled + [r.outcome.body], Session(r.rest))
              else if r.outcome.Payload? || r.outcome.Nothing? then Prepend(handled, Session(r.rest))
              else (handled, r.outcome)
  {
    var r := ReadOne(s);
    if r.outcome.Payload? && r.outcome.body != "" {
      assert handled + ([r.outcome.body] + Session(r.rest).0) == handled + [r.outcome.body] + Session(r.rest).0;
    }
    assert handled + [] == handled;
  }

  // ----- reading undoes writing -----

  lemma LineOf(line: string, rest: string)
    requires '\n' !in line
    ensures var s := line + "\n" + rest; HasLine(s) && Line(s) == line + "\n" && AfterLine(s) == rest
  {
    var s := line + "\n" + rest;
    assert s[|line|] == '\n';
    forall i | 0 <= i < |line| ensures s[i] != '\n' {
      assert s[i] == line[i] && line[i] in line;
    }
    assert Find(s, '\n') == |line|;
  }

  lemma {:induction false} TrimLeftOfBlank(before: string, s: string)
    requires Blank(before) && (s != "" ==> !IsSpace(s[0]))
    ensures TrimLeft(before + s) == s
    decreases |before|
  {
    if before == "" {
      assert before + s == s;
    } else {
      assert (before + s)[1..] == before[1..] + s;
      TrimLeftOfBlank(before[1..], s);
    }
  }

  lemma {:induction false} TrimRightOfBlank(s: string, after: string)
    requires Blank(after) && (s != "" ==> !IsSpace(s[|s| - 1]))
    ensures TrimRight(s + after) == s
    decreases |after|
  {
    if after == "" {
      assert s + after == s;
    } else {
      assert (s + after)[..|s + after| - 1] == s + after[..|after| - 1];
      TrimRightOfBlank(s, after[..|after| - 1]);
    }
  }

  lemma TrimOfPadded(before: string, s: string, after: string)
    requires Blank(before) && Blank(after) && Trimmed(s) && s != ""
    ensures Trim(before + s + after) == s
  {
    assert before + s + after == before + (s + after);
    TrimLeftOfBlank(before, s + after);
    TrimRightOfBlank(s, after);
  }

  lemma PrintIsTrimmed(n: nat)
    ensures Trimmed(Print(n))
  {
    var d := Print(n);
    assert IsDigit(d[0]) && IsDigit(d[|d| - 1]);
  }

  /** The name of the length header with its colon, in any letter case. */
  predicate IsLabel(tag: string) { Lower(tag) == HEADER }

  /** A header line for n: white space is allowed around the number. */
  ghost predicate LengthLine(line: string, n: nat) {
    exists tag, before, after ::
      IsLabel(tag) && Blank(before) && Blank(after) && line == tag + (before + Print(n) + after)
  }

  predicate OnlyEndsInColon(s: string) {
    |s| == 15 && s[14] == ':' && forall i :: 0 <= i < 14 ==> s[i] != ':' && s[i] != '\n' && !IsSpace(s[i])
  }

  lemma HeaderEndsInColon()
    ensures OnlyEndsInColon(HEADER)
  {
    assert HEADER[0] == 'c' && HEADER[1] == 'o' && HEADER[2] == 'n' && HEADER[3] == 't' && HEADER[4] == 'e';
    assert HEADER[5] == 'n' && HEADER[6] == 't' && HEADER[7] == '-' && HEADER[8] == 'l' && HEADER[9] == 'e';
    assert HEADER[10] == 'n' && HEADER[11] == 'g' && HEADER[12] == 't' && HEADER[13] == 'h' && HEADER[14] == ':';
  }

  lemma LowerKeepsColons(s: string, low: string)
    requires Lower(s) == low && OnlyEndsInColon(low)
    ensures OnlyEndsInColon(s)
  {
    forall i | 0 <= i < 14 ensures s[i] != ':' && s[i] != '\n' && !IsSpace(s[i]) {
      assert low[i] == ToLower(s[i]);
    }
    assert low[14] == ToLower(s[14]);
  }

  lemma ColonSplits(tag: string, rest: string)
    requires OnlyEndsInColon(tag)
    ensures AfterColon(tag + rest) == rest
  {
    var s := tag + rest;
    assert s[14] == ':' && forall i :: 0 <= i < 14 ==> s[i] == tag[i];
    assert Find(s, ':') == 14;
  }

  lemma TrimmedConcat(a: string, b: string)
    requires a != "" && b != "" && !IsSpace(a[0]) && !IsSpace(b[|b| - 1])
    ensures Trimmed(a + b)
  {
  }

  lemma HeaderCore(tag: string, before: string, d: string, after: string)
    requires OnlyEndsInColon(tag) && Blank(before) && Blank(after) && Trimmed(d) && d != ""
    ensures var core := tag + (before + d);
            && Trim(tag + (before + d + after) + "\n") == core && core != ""
            && Trim(AfterColon(core)) == d && Lower(core)[..15] == Lower(tag)
  {
    var core := tag + (before + d);
    TrimmedConcat(tag, before + d);
    assert "" + core + (after + "\n") == tag + (before + d + after) + "\n";
    TrimOfPadded("", core, after + "\n");
    ColonSplits(tag, before + d);
    assert before + d + "" == before + d;
    TrimOfPadded(before, d, "");
    LowerOfConcat(tag, before + d);
  }

  /** What the reader makes of a trimmed line that announces n bytes. */
  predicate Announces(t: string, n: nat) {
    && t != "" && HasPrefix(Lower(t), HEADER)
    && (0 < n <= MAX_INT ==> HeaderLength(t) == Some(n))
    && (n == 0 ==> HeaderLength(t) == None)
  }

  lemma CoreAnnounces(core: string, n: nat)
    requires core != "" && HasPrefix(Lower(core), HEADER) && Trim(AfterColon(core)) == Print(n)
    ensures Announces(core, n)
  {
    hide AtoiLoop, Print, Trim, AfterColon, Lower;
    AtoiOfPrint(n);
  }

  lemma LabelledIsRead(tag: string, before: string, n: nat, after: string)
    requires OnlyEndsInColon(tag) && IsLabel(tag) && Blank(before) && Blank(after)
    ensures Announces(Trim(tag + (before + Print(n) + after) + "\n"), n)
  {
    PrintIsTrimmed(n);
    HeaderCore(tag, before, Print(n), after);
    CoreAnnounces(tag + (before + Print(n)), n);
  }

  lemma LengthLineIsRead(line: string, n: nat)
    requires LengthLine(line, n)
    ensures Announces(Trim(line + "\n"), n)
  {
    var tag, before, after :|
      IsLabel(tag) && Blank(before) && Blank(after) && line == tag + (before + Print(n) + after);
    HeaderEndsInColon();
    LowerKeepsColons(tag, HEADER);
    LabelledIsRead(tag, before, n, after);
  }

  /** Header lines with their newlines. */
  function Lines(lines: seq<string>): string {
    if lines == [] then "" else lines[0] + "\n" + Lines(lines[1..])
  }

  lemma BlankLine(l: string)
    ensures Blank(l) <==> Trim(l + "\n") == ""
  {
    BlankTrimsToNothing(l + "\n");
    forall i | 0 <= i < |l| ensures (l + "\n")[i] == l[i] {
    }
    if Blank(l) {
      assert Blank(l + "\n");
    }
  }

  lemma {:induction false} HeaderIsSkipped(lines: seq<string>, blank: string, rest: string)
    requires forall l :: l in lines ==> '\n' !in l && !Blank(l)
    requires Blank(blank) && '\n' !in blank
    ensures SkipHeader(Lines(lines) + (blank + "\n" + rest)) == Some(rest)
  {
    if lines == [] {
      assert Lines(lines) + (blank + "\n" + rest) == blank + "\n" + rest;
      LineOf(blank, rest);
      BlankLine(blank);
    } else {
      var more := Lines(lines[1..]) + (blank + "\n" + rest);
      assert Lines(lines) + (blank + "\n" + rest) == lines[0] + "\n" + more;
      LineOf(lines[0], more);
      BlankLine(lines[0]);
      HeaderIsSkipped(lines[1..], blank, rest);
    }
  }

  lemma ReadAnnounced(s: string, n: nat, body: string, rest: string)
    requires HasLine(s) && Announces(Trim(Line(s)), n) && 0 < n <= MAX_INT && |body| == n
    requires SkipHeader(AfterLine(s)) == Some(body + rest)
    ensures ReadOne(s) == Reading(Payload(body), rest)
  {
    assert (body + rest)[..n] == body && (body + rest)[n..] == rest;
  }

  lemma ReadAnnouncedNothing(s: string)
    requires HasLine(s) && Announces(Trim(Line(s)), 0)
    ensures ReadOne(s).outcome == Invalid
  {
  }

  /**
    A message whose header starts with its length, in any letter case and with any further header lines, is read
    as its body, and the reader is then at the byte after it.
   */
  lemma MessageIsRead(line: string, more: seq<string>, blank: string, body: string, rest: string)
    requires LengthLine(line, |body|) && '\n' !in line && 0 < |body| <= MAX_INT
    requires forall l :: l in more ==> '\n' !in l && !Blank(l)
    requires Blank(blank) && '\n' !in blank
    ensures ReadOne(line + "\n" + (Lines(more) + (blank + "\n" + (body + rest)))) == Reading(Payload(body), rest)
  {
    var tail := Lines(more) + (blank + "\n" + (body + rest));
    LineOf(line, tail);
    LengthLineIsRead(line, |body|);
    HeaderIsSkipped(more, blank, body + rest);
    ReadAnnounced(line + "\n" + tail, |body|, body, rest);
  }

  lemma LowerIs(s: string, low: string)
    requires |s| == |low| && forall i :: 0 <= i < |s| ==> ToLower(s[i]) == low[i]
    ensures Lower(s) == low
  {
  }

  lemma LabelChars()
    ensures |LABEL| == |HEADER| == 15 && forall i :: 0 <= i < 15 ==> ToLower(LABEL[i]) == HEADER[i]
  {
    assert ToLower(LABEL[0]) == HEADER[0]; assert ToLower(LABEL[1]) == HEADER[1]; assert ToLower(LABEL[2]) == HEADER[2];
    assert ToLower(LABEL[3]) == HEADER[3]; assert ToLower(LABEL[4]) == HEADER[4]; assert ToLower(LABEL[5]) == HEADER[5];
    assert ToLower(LABEL[6]) == HEADER[6]; assert ToLower(LABEL[7]) == HEADER[7]; assert ToLower(LABEL[8]) == HEADER[8];
    assert ToLower(LABEL[9]) == HEADER[9]; assert ToLower(LABEL[10]) == HEADER[10]; assert ToLower(LABEL[11]) == HEADER[11];
    assert ToLower(LABEL[12]) == HEADER[12]; assert ToLower(LABEL[13]) == HEADER[13]; assert ToLower(LABEL[14]) == HEADER[14];
  }

  lemma LabelIsLabel()
    ensures IsLabel(LABEL)
  {
    LabelChars();
    LowerIs(LABEL, HEADER);
  }

  lemma NoNewline(tag: string, before: string, d: string, after: string)
    requires OnlyEndsInColon(tag) && '\n' !in before && Digits(d) && '\n' !in after
    ensures '\n' !in tag + (before + d + after)
  {
    assert '\n' !in tag by {
      assert forall i :: 0 <= i < 15 ==> tag[i] != '\n';
    }
    assert '\n' !in d by {
      forall i | 0 <= i < |d| ensures d[i] != '\n' {
        assert IsDigit(d[i]);
      }
    }
  }

  function FrameLine(n: nat): string { LABEL + (" " + Print(n) + "\r") }

  lemma LengthLineIs(tag: string, before: string, n: nat, after: string)
    requires IsLabel(tag) && Blank(before) && Blank(after)
    ensures LengthLine(tag + (before + Print(n) + after), n)
  {
  }

  lemma TagLineIsRead(tag: string, n: nat)
    requires IsLabel(tag) && OnlyEndsInColon(tag)
    ensures LengthLine(tag + (" " + Print(n) + "\r"), n) && '\n' !in tag + (" " + Print(n) + "\r")
  {
    NoNewline(tag, " ", Print(n), "\r");
    LengthLineIs(tag, " ", n, "\r");
  }

  lemma LabelEndsInColon()
    ensures OnlyEndsInColon(LABEL)
  {
    LabelIsLabel();
    HeaderEndsInColon();
    LowerKeepsColons(LABEL, HEADER);
  }

  lemma FrameLineIsRead(n: nat)
    ensures LengthLine(FrameLine(n), n) && '\n' !in FrameLine(n)
  {
    LabelIsLabel();
    LabelEndsInColon();
    TagLineIsRead(LABEL, n);
  }

  lemma Regroup(a: string, b: string, c: string, cr: string, nl: string, body: string, rest: string)
    ensures a + b + c + (cr + nl + cr + nl) + body + rest == a + (b + c + cr) + nl + (cr + nl + (body + rest))
  {
  }

  lemma FrameParts(body: string, rest: string)
    ensures Frame(body) + rest == FrameLine(|body|) + "\n" + ("\r" + "\n" + (body + rest))
  {
    assert "\r\n\r\n" == "\r" + "\n" + "\r" + "\n";
    Regroup(LABEL, " ", Print(|body|), "\r", "\n", body, rest);
  }

  lemma LineThenBlankIsRead(line: string, body: string, rest: string)
    requires LengthLine(line, |body|) && '\n' !in line && 0 < |body| <= MAX_INT
    ensures ReadOne(line + "\n" + ("\r" + "\n" + (body + rest))) == Reading(Payload(body), rest)
  {
    assert Blank("\r") && '\n' !in "\r";
    MessageIsRead(line, [], "\r", body, rest);
    assert Lines([]) + ("\r" + "\n" + (body + rest)) == "\r" + "\n" + (body + rest);
  }

  lemma EmptyLengthIsInvalid(line: string, tail: string)
    requires LengthLine(line, 0) && '\n' !in line
    ensures ReadOne(line + "\n" + tail).outcome == Invalid
  {
    LineOf(line, tail);
    LengthLineIsRead(line, 0);
    ReadAnnouncedNothing(line + "\n" + tail);
  }

  /** A frame is read back if and only if its body is not empty; an empty body ends the session. */
  lemma FrameIsReadBack(body: string, rest: string)
    requires |body| <= MAX_INT
    ensures ReadOne(Frame(body) + rest) == Reading(Payload(body), rest) <==> body != ""
    ensures body == "" ==> ReadOne(Frame(body) + rest).outcome == Invalid
  {
    var line := FrameLine(|body|);
    FrameLineIsRead(|body|);
    FrameParts(body, rest);
    if body != "" {
      LineThenBlankIsRead(line, body, rest);
    } else {
      EmptyLengthIsInvalid(line, "\r" + "\n" + (body + rest));
    }
  }

  function Frames(bodies: seq<string>): string {
    if bodies == [] then "" else Frame(bodies[0]) + Frames(bodies[1..])
  }

  lemma SessionOfRead(s: string, body: string, rest: string)
    requires ReadOne(s) == Reading(Payload(body), rest) && body != ""
    ensures Session(s) == Prepend([body], Session(rest))
  {
    SessionStep([], s);
    assert [] + Session(s).0 == Session(s).0;
    assert [] + [body] == [body];
  }

  /** Reading undoes writing: the server handles exactly the bodies that were written, in order, then meets the end. */
  lemma {:induction false} ReadingUndoesWriting(bodies: seq<string>)
    requires forall b :: b in bodies ==> 0 < |b| <= MAX_INT
    ensures Session(Frames(bodies)) == (bodies, EndOfFile)
  {
    if bodies == [] {
      assert !HasLine("");
    } else {
      FrameIsReadBack(bodies[0], Frames(bodies[1..]));
      ReadingUndoesWriting(bodies[1..]);
      SessionOfRead(Frames(bodies), bodies[0], Frames(bodies[1..]));
      assert [bodies[0]] + bodies[1..] == bodies;
    }
  }
}

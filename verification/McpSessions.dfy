/** Sessions on input that is not a sequence of whole frames (cli/mcp_stdio.go): cut streams, bare lines and blank ones. */
module McpSessions {
  import opened McpFraming
  import opened Text

  // ----- a stream that is cut -----

  lemma NoLine(s: string)
    requires '\n' !in s
    ensures ReadOne(s) == Reading(EndOfFile, "") && SkipHeader(s).None?
  {
    FindNone(s, '\n');
  }

  /** What is read behind a line that announces a length. */
  lemma BehindLength(line: string, n: nat, tail: string)
    requires LengthLine(line, n) && '\n' !in line && 0 < n <= MAX_INT
    ensures ReadOne(line + "\n" + tail) == ReadContents(n, tail)
  {
    LineOf(line, tail);
    LengthLineIsRead(line, n);
  }

  lemma BlankEnds(tail: string)
    ensures SkipHeader("\r" + "\n" + tail) == Some(tail)
  {
    LineOf("\r", tail);
    assert Blank("\r");
    BlankLine("\r");
  }

  /** The header of a frame: everything in front of its body. */
  function HeaderOf(n: nat): string { "Content-Length: " + Print(n) + "\r\n\r\n" }

  lemma FrameIsHeaderAndBody(body: string)
    ensures Frame(body) == HeaderOf(|body|) + body
    ensures HeaderOf(|body|) == FrameLine(|body|) + "\n" + ("\r" + "\n")
  {
    assert LABEL + " " == "Content-Length: ";
    FrameParts("", "");
    FrameParts(body, "");
    assert Frame(body) + "" == Frame(body);
    hide Print;
    var p := Print(|body|);
    assert "Content-Length: " + p + "\r\n\r\n" == LABEL + (" " + p + "\r") + "\n" + ("\r" + "\n");
  }

  /** A frame that is cut in its body. */
  lemma CutBody(body: string, j: nat)
    requires 0 < |body| <= MAX_INT && j < |body|
    ensures ReadOne(HeaderOf(|body|) + body[..j]) == Reading(if j == 0 then EndOfFile else UnexpectedEnd, "")
  {
    var line := FrameLine(|body|);
    FrameLineIsRead(|body|);
    FrameIsHeaderAndBody(body);
    assert HeaderOf(|body|) + body[..j] == line + "\n" + ("\r" + "\n" + body[..j]);
    BehindLength(line, |body|, "\r" + "\n" + body[..j]);
    BlankEnds(body[..j]);
  }

  /** A frame that is cut in its header. */
  lemma CutHeader(n: nat, j: nat)
    requires 0 < n <= MAX_INT && j < |HeaderOf(n)|
    ensures ReadOne(HeaderOf(n)[..j]) == Reading(EndOfFile, "")
  {
    var line := FrameLine(n);
    FrameLineIsRead(n);
    HeaderParts(n);
    var s := HeaderOf(n)[..j];
    if j <= |line| {
      assert s == line[..j] && forall i :: 0 <= i < j ==> s[i] == line[i] && line[i] in line;
      NoLine(s);
    } else {
      var tail := if j == |line| + 1 then "" else "\r";
      assert s == line + "\n" + tail;
      BehindLength(line, n, tail);
      NoLine(tail);
    }
  }

  lemma HeaderParts(n: nat)
    ensures HeaderOf(n) == FrameLine(n) + "\n" + ("\r" + "\n") && |HeaderOf(n)| == |FrameLine(n)| + 3
  {
    hide Print;
    var p := Print(n);
    assert "Content-Length: " + p + "\r\n\r\n" == LABEL + (" " + p + "\r") + "\n" + ("\r" + "\n");
  }

  /**
    Reading a frame that is cut anywhere: the end of the data, unless the cut lies behind the first byte of the body;
    then it is an unexpected end.
   */
  lemma CutFrame(body: string, j: nat)
    requires 0 < |body| <= MAX_INT && j < |Frame(body)|
    ensures ReadOne(Frame(body)[..j]) == Reading(if j > |HeaderOf(|body|)| then UnexpectedEnd else EndOfFile, "")
  {
    FrameIsHeaderAndBody(body);
    var h := HeaderOf(|body|);
    hide HeaderOf, Frame;
    if j < |h| {
      assert Frame(body)[..j] == h[..j];
      CutHeader(|body|, j);
    } else {
      assert Frame(body)[..j] == h + body[..j - |h|];
      CutBody(body, j - |h|);
    }
  }

  lemma FrontFrame(body: string, bodies: seq<string>, tail: string)
    ensures Frames([body] + bodies) + tail == Frame(body) + (Frames(bodies) + tail)
  {
    assert ([body] + bodies)[1..] == bodies;
    hide Frame;
  }

  /** Frames in front of whatever else: their bodies are handled first. */
  lemma {:induction false} SessionOfFrames(bodies: seq<string>, tail: string)
    requires forall b :: b in bodies ==> 0 < |b| <= MAX_INT
    ensures Session(Frames(bodies) + tail) == Prepend(bodies, Session(tail))
  {
    hide Frame, Session, ReadOne;
    if bodies == [] {
      assert Frames([]) + tail == tail && [] + Session(tail).0 == Session(tail).0;
    } else {
      var body, more := bodies[0], bodies[1..];
      assert bodies == [body] + more && body in bodies;
      hide Frames;
      FrontFrame(body, more, tail);
      FrameIsReadBack(body, Frames(more) + tail);
      SessionOfFrames(more, tail);
      SessionOfRead(Frames(bodies) + tail, body, Frames(more) + tail);
      assert [body] + (more + Session(tail).0) == bodies + Session(tail).0;
    }
  }

  /**
    A stream of frames that is cut inside one of them: the server handles the bodies of all frames before and stops as
    for the end of its input, unless the cut lies behind the first byte of a body.
   */
  lemma CutSession(bodies: seq<string>, last: string, j: nat)
    requires forall b :: b in bodies ==> 0 < |b| <= MAX_INT
    requires 0 < |last| <= MAX_INT && j < |Frame(last)|
    ensures Session(Frames(bodies) + Frame(last)[..j]) ==
            (bodies, if j > |HeaderOf(|last|)| then UnexpectedEnd else EndOfFile)
  {
    SessionOfFrames(bodies, Frame(last)[..j]);
    CutFrame(last, j);
    hide Frame, HeaderOf, Frames, ReadOne;
    assert bodies + [] == bodies;
  }

  // ----- lines without a header -----

  /** A blank line is passed over; a line that does not begin with the header is a message by itself, trimmed. */
  lemma LineIsRead(line: string, rest: string)
    requires '\n' !in line
    ensures Blank(line) ==> ReadOne(line + "\n" + rest) == Reading(Nothing, rest)
    ensures !Blank(line) && !HasPrefix(Lower(Trim(line + "\n")), "content-length:") ==>
              ReadOne(line + "\n" + rest) == Reading(Payload(Trim(line + "\n")), rest)
  {
    LineOf(line, rest);
    BlankLine(line);
  }

  /** A length that is no positive number of 64 bits ends the session. */
  lemma BadLengthIsInvalid(line: string, rest: string)
    requires '\n' !in line && HasPrefix(Lower(Trim(line + "\n")), "content-length:")
    requires var n := AtoiLoop(Trim(AfterColon(Trim(line + "\n")))); n.None? || n.value <= 0
    ensures ReadOne(line + "\n" + rest) == Reading(Invalid, rest)
    ensures Session(line + "\n" + rest) == ([], Invalid)
  {
    LineOf(line, rest);
  }
}

/**
  Saving the manual servers (cli/mcpregistry/registry.go, SaveManualAndSync) with the normalisation that every
  encoding applies in place (cli/mcpclient/manager.go, EncodeServers): ids become slugs.
 */
module RegistrySave {
  import opened Text
  import opened FirstOfEach
  import opened Registry

  predicate SlugChar(c: char) { 'a' <= c <= 'z' || '0' <= c <= '9' }

  /** Lower-case letters and digits, with single dashes between them. */
  predicate IsSlug(s: string) {
    && s != "" && s[0] != '-' && s[|s| - 1] != '-'
    && (forall i :: 0 <= i < |s| ==> SlugChar(s[i]) || s[i] == '-')
    && (forall i, j :: 0 <= i < |s| && j == i + 1 < |s| ==> s[i] != '-' || s[j] != '-')
  }

  /** Every run of other characters becomes one dash. */
  function Dashed(s: string): string {
    if s == "" then "" else
      var d, c := Dashed(s[..|s| - 1]), s[|s| - 1];
      if SlugChar(c) then d + [c]
      else if d != "" && d[|d| - 1] == '-' then d
      else d + "-"
  }

  function StripLeft(s: string): string {
    if s != "" && s[0] == '-' then StripLeft(s[1..]) else s
  }

  function StripRight(s: string): string {
    if s != "" && s[|s| - 1] == '-' then StripRight(s[..|s| - 1]) else s
  }

  /** The slug of a text; without a letter or digit it is made from the clock. */
  function Slug(s: string, now: nat): string {
    var out := StripRight(StripLeft(Dashed(Lower(Trim(s)))));
    if out == "" then "mcp-" + Print(now) else out
  }

  method Slugify(text: string, now: nat) returns (out: string)
    ensures out == Slug(text, now)
  {
    var s := Lower(Trim(text));
    if s == "" {
      return "mcp-" + Print(now);
    }
    var b, prevDash := "", false;
    for i := 0 to |s|
      invariant b == Dashed(s[..i]) && prevDash == (b != "" && b[|b| - 1] == '-')
    {
      assert s[..i + 1][..i] == s[..i];
      if SlugChar(s[i]) {
        b, prevDash := b + [s[i]], false;
      } else if !prevDash {
        b, prevDash := b + "-", true;
      }
    }
    assert s[..|s|] == s;
    out := StripRight(StripLeft(b));
    if out == "" {
      return "mcp-" + Print(now);
    }
  }

  /** Characters of a slug, without two dashes in a row. */
  predicate DashSeparated(s: string) {
    && (forall i :: 0 <= i < |s| ==> SlugChar(s[i]) || s[i] == '-')
    && (forall i, j :: 0 <= i < |s| && j == i + 1 < |s| ==> s[i] != '-' || s[j] != '-')
  }

  lemma {:induction false} DashedIsSeparated(s: string)
    ensures DashSeparated(Dashed(s))
  {
    if s != "" {
      DashedIsSeparated(s[..|s| - 1]);
    }
  }

  lemma {:induction false} DashedOfSeparated(s: string)
    requires DashSeparated(s)
    ensures Dashed(s) == s
  {
    if s != "" {
      var n := |s| - 1;
      DashedOfSeparated(s[..n]);
      assert s == s[..n] + [s[n]];
      if s[n] == '-' && n > 0 {
        var m := n - 1;
        assert n == m + 1;
      }
    }
  }

  lemma {:induction false} StripLeftKeeps(s: string)
    requires DashSeparated(s)
    ensures DashSeparated(StripLeft(s)) && (StripLeft(s) != "" ==> StripLeft(s)[0] != '-')
  {
    if s != "" && s[0] == '-' {
      StripLeftKeeps(s[1..]);
    }
  }

  lemma {:induction false} StripRightKeeps(s: string)
    requires DashSeparated(s) && (s != "" ==> s[0] != '-')
    ensures var r := StripRight(s);
            DashSeparated(r) && (r != "" ==> r[0] != '-' && r[|r| - 1] != '-')
  {
    if s != "" && s[|s| - 1] == '-' {
      StripRightKeeps(s[..|s| - 1]);
    }
  }

  lemma ClockIsSlug(now: nat)
    ensures IsSlug("mcp-" + Print(now))
  {
    var d := Print(now);
    var s := "mcp-" + d;
    assert forall i :: 4 <= i < |s| ==> s[i] == d[i - 4] && IsDigit(s[i]);
    assert s[0] == 'm' && s[1] == 'c' && s[2] == 'p' && s[3] == '-';
  }

  lemma SlugIsSlug(s: string, now: nat)
    ensures IsSlug(Slug(s, now))
  {
    var d := Dashed(Lower(Trim(s)));
    DashedIsSeparated(Lower(Trim(s)));
    StripLeftKeeps(d);
    StripRightKeeps(StripLeft(d));
    ClockIsSlug(now);
  }

  lemma SlugCharsStay(s: string)
    requires IsSlug(s)
    ensures Trim(s) == s && Lower(s) == s
  {
    TrimOfTrimmed(s);
  }

  /** A slug is its own slug, whatever the clock says. */
  lemma SlugOfSlug(s: string, now: nat)
    requires IsSlug(s)
    ensures Slug(s, now) == s
  {
    SlugCharsStay(s);
    DashedOfSeparated(s);
    NothingToStrip(s);
    hide Dashed, Trim, Lower, Print, StripLeft, StripRight, IsSlug;
  }

  lemma NothingToStrip(s: string)
    requires s != "" && s[0] != '-' && s[|s| - 1] != '-'
    ensures StripRight(StripLeft(s)) == s
  {
  }

  // ----- what a slug is made of -----

  lemma LettersAndDigits(c: char)
    ensures SlugChar(c) <==> c in "abcdefghijklmnopqrstuvwxyz0123456789"
  {
  }

  /** The maximal runs of letters and digits. */
  function Runs(s: string): seq<string> {
    if s == "" then [] else
      var runs, init, c := Runs(s[..|s| - 1]), s[..|s| - 1], s[|s| - 1];
      if !SlugChar(c) then runs
      else if runs == [] || !SlugChar(init[|init| - 1]) then runs + [[c]]
      else runs[..|runs| - 1] + [runs[|runs| - 1] + [c]]
  }

  lemma {:induction false} JoinOneMore(runs: seq<string>, run: string)
    requires runs != []
    ensures Join(runs + [run], "-") == Join(runs, "-") + "-" + run
  {
    if |runs| == 1 {
      assert (runs + [run])[1..] == [run];
    } else {
      assert (runs + [run])[1..] == runs[1..] + [run];
      JoinOneMore(runs[1..], run);
    }
  }

  lemma JoinLonger(init: seq<string>, last: string, c: char)
    ensures Join(init + [last + [c]], "-") == Join(init + [last], "-") + [c]
  {
    if init != [] {
      JoinOneMore(init, last);
      JoinOneMore(init, last + [c]);
      hide Join;
      assert Join(init, "-") + "-" + (last + [c]) == Join(init, "-") + "-" + last + [c];
    }
  }

  /** The runs are not empty, and they end the text exactly if its last character belongs to one. */
  lemma {:induction false} RunsAreRuns(s: string)
    ensures forall r :: r in Runs(s) ==> r != "" && forall i :: 0 <= i < |r| ==> SlugChar(r[i])
    ensures Runs(s) == [] <==> forall i :: 0 <= i < |s| ==> !SlugChar(s[i])
  {
    if s != "" {
      RunsAreRuns(s[..|s| - 1]);
      var runs := Runs(s[..|s| - 1]);
      assert s == s[..|s| - 1] + [s[|s| - 1]];
      assert runs != [] ==> runs[|runs| - 1] in runs && forall r :: r in runs[..|runs| - 1] ==> r in runs;
    }
  }

  function Edge(c: char): string { if SlugChar(c) then "" else "-" }

  lemma DashedOneMore(s: string, c: char)
    ensures var d := Dashed(s);
            Dashed(s + [c]) == if SlugChar(c) then d + [c] else if d != "" && d[|d| - 1] == '-' then d else d + "-"
    ensures var runs := Runs(s);
            Runs(s + [c]) ==
              if !SlugChar(c) then runs
              else if runs == [] || !SlugChar(s[|s| - 1]) then runs + [[c]]
              else runs[..|runs| - 1] + [runs[|runs| - 1] + [c]]
  {
    assert (s + [c])[..|s|] == s;
  }

  /** The text's runs joined with dashes, with one more in front and at the end if other characters stand there. */
  function Joined(s: string): string
    requires s != ""
  {
    if Runs(s) == [] then "-" else Edge(s[0]) + Join(Runs(s), "-") + Edge(s[|s| - 1])
  }

  lemma JoinedCharacter(c: char)
    ensures Dashed([c]) == Joined([c]) && (SlugChar(c) ==> Runs([c]) != [])
  {
    DashedOneMore("", c);
    assert "" + [c] == [c] && Dashed("") == "" && Runs("") == [];
    hide Dashed, Runs;
    assert Join([[c]], "-") == [c] && "" + [c] + "" == [c];
  }

  lemma LetterHasARun(s: string)
    requires s != "" && SlugChar(s[0])
    ensures Runs(s) != []
  {
    RunsAreRuns(s);
  }

  lemma {:induction false} DashedIsJoined(s: string)
    requires s != ""
    ensures Dashed(s) == Joined(s)
    ensures SlugChar(s[0]) ==> Runs(s) != []
  {
    var init, c := s[..|s| - 1], s[|s| - 1];
    assert s == init + [c];
    if init == "" {
      JoinedCharacter(c);
    } else {
      DashedIsJoined(init);
      assert init[0] == s[0];
      hide Dashed, Join, Runs, SlugChar, Edge;
      if Runs(init) == [] {
        NoRunsYet(init, c);
      } else if SlugChar(c) {
        LetterAfterRuns(init, c);
      } else {
        DashAfterRuns(init, c);
      }
    }
    if SlugChar(s[0]) {
      LetterHasARun(s);
    }
  }

  lemma NoRunsYet(init: string, c: char)
    requires init != "" && Runs(init) == [] && !SlugChar(init[0]) && Dashed(init) == "-"
    ensures var s := init + [c];
            Dashed(s) == if Runs(s) == [] then "-" else Edge(s[0]) + Join(Runs(s), "-") + Edge(c)
  {
    DashedOneMore(init, c);
    assert Join([[c]], "-") == [c];
    hide Dashed, Join, Runs;
    if SlugChar(c) {
      assert [] + [[c]] == [[c]];
      assert "-" + [c] + "" == "-" + [c];
    }
  }

  lemma GrownJoin(runs: seq<string>, c: char)
    requires runs != []
    ensures Join(runs[..|runs| - 1] + [runs[|runs| - 1] + [c]], "-") == Join(runs, "-") + [c]
  {
    hide Join;
    assert runs == runs[..|runs| - 1] + [runs[|runs| - 1]];
    JoinLonger(runs[..|runs| - 1], runs[|runs| - 1], c);
  }

  lemma RunsOneMore(init: string, c: char)
    requires init != "" && Runs(init) != [] && SlugChar(c)
    ensures var runs := Runs(init);
            Runs(init + [c]) == if SlugChar(init[|init| - 1]) then runs[..|runs| - 1] + [runs[|runs| - 1] + [c]] else runs + [[c]]
  {
    DashedOneMore(init, c);
    hide Runs, Dashed;
  }

  /** The runs of init + [c], joined. */
  lemma LetterJoins(init: string, c: char)
    requires init != "" && Runs(init) != [] && SlugChar(c)
    ensures Runs(init + [c]) != []
    ensures Join(Runs(init + [c]), "-") == Join(Runs(init), "-") + Edge(init[|init| - 1]) + [c]
  {
    hide Runs, Join;
    RunsOneMore(init, c);
    if SlugChar(init[|init| - 1]) {
      GrownJoin(Runs(init), c);
      assert Join(Runs(init), "-") + "" == Join(Runs(init), "-");
    } else {
      JoinOneMore(Runs(init), [c]);
    }
  }

  lemma DashedLetter(init: string, c: char)
    requires SlugChar(c)
    ensures Dashed(init + [c]) == Dashed(init) + [c]
  {
    DashedOneMore(init, c);
    hide Runs, Dashed;
  }

  lemma Regroup(a: string, b: string, c: string, d: string)
    ensures a + b + c + d == a + (b + c + d) + ""
  {
  }

  lemma LetterAfterRuns(init: string, c: char)
    requires init != "" && Runs(init) != [] && SlugChar(c)
    requires Dashed(init) == Edge(init[0]) + Join(Runs(init), "-") + Edge(init[|init| - 1])
    ensures Runs(init + [c]) != [] && Dashed(init + [c]) == Edge(init[0]) + Join(Runs(init + [c]), "-") + Edge(c)
  {
    assert Edge(c) == "";
    hide Dashed, Join, Runs, Edge, SlugChar;
    LetterJoins(init, c);
    DashedLetter(init, c);
    Regroup(Edge(init[0]), Join(Runs(init), "-"), Edge(init[|init| - 1]), [c]);
  }

  lemma EndsInADash(s: string)
    requires s != "" && SlugChar(s[|s| - 1])
    ensures s + "-" != "" && (s + "-")[|s + "-"| - 1] == '-' && s[|s| - 1] != '-'
  {
  }

  lemma LastOfConcat(a: string, b: string)
    requires b != ""
    ensures a + b != "" && (a + b)[|a + b| - 1] == b[|b| - 1]
  {
  }

  lemma DashAfterRuns(init: string, c: char)
    requires init != "" && Runs(init) != [] && !SlugChar(c)
    requires Dashed(init) == Edge(init[0]) + Join(Runs(init), "-") + Edge(init[|init| - 1])
    ensures Runs(init + [c]) == Runs(init) && Dashed(init + [c]) == Edge(init[0]) + Join(Runs(init), "-") + Edge(c)
  {
    DashedOneMore(init, c);
    RunsAreRuns(init);
    JoinEndsInALetter(Runs(init));
    hide Dashed, Join, Runs;
    var front, joined := Edge(init[0]), Join(Runs(init), "-");
    LastOfConcat(front, joined);
    if SlugChar(init[|init| - 1]) {
      assert front + joined + "" == front + joined;
      EndsInADash(front + joined);
    } else {
      LastOfConcat(front + joined, "-");
    }
  }

  lemma {:induction false} JoinEndsInALetter(runs: seq<string>)
    requires forall r :: r in runs ==> r != "" && forall i :: 0 <= i < |r| ==> SlugChar(r[i])
    ensures runs != [] ==> Join(runs, "-") != "" && SlugChar(Join(runs, "-")[0]) && SlugChar(Join(runs, "-")[|Join(runs, "-")| - 1])
  {
    if runs != [] {
      assert runs[0] in runs;
      if |runs| > 1 {
        JoinEndsInALetter(runs[1..]);
      }
    }
  }

  lemma StripJoined(front: string, middle: string, end: string)
    requires front in {"", "-"} && end in {"", "-"}
    requires middle != "" && middle[0] != '-' && middle[|middle| - 1] != '-'
    ensures StripRight(StripLeft(front + middle + end)) == middle
  {
    var all := front + middle + end;
    if front == "-" {
      assert all[1..] == middle + end;
    }
    assert StripLeft(middle + end) == middle + end;
    if end == "-" {
      assert (middle + end)[..|middle|] == middle;
    } else {
      assert middle + end == middle;
    }
  }

  /** A slug is made of the runs of letters and digits of the lower-case text, in their order, with a dash between two. */
  lemma SlugMeaning(s: string, now: nat)
    ensures Runs(Lower(s)) != [] ==> Slug(s, now) == Join(Runs(Lower(Trim(s))), "-")
    ensures Runs(Lower(Trim(s))) == [] ==> Slug(s, now) == "mcp-" + Print(now)
    ensures Runs(Lower(Trim(s))) == [] <==> Runs(Lower(s)) == []
  {
    var t := Lower(Trim(s));
    RunsAreRuns(t);
    RunsAreRuns(Lower(s));
    JoinEndsInALetter(Runs(t));
    TrimKeepsLetters(s);
    hide Join, Runs, Dashed, StripLeft, StripRight, Lower, Trim;
    if t == "" {
      NoText();
    } else {
      DashedIsJoined(t);
      if Runs(t) == [] {
        OneDash();
      } else {
        StripJoined(Edge(t[0]), Join(Runs(t), "-"), Edge(t[|t| - 1]));
      }
    }
  }

  lemma NoText()
    ensures StripRight(StripLeft(Dashed(""))) == "" && Runs("") == []
  {
  }

  lemma OneDash()
    ensures StripRight(StripLeft("-")) == ""
  {
    assert "-"[1..] == "";
  }

  lemma TrimKeepsLetters(s: string)
    ensures (exists i :: 0 <= i < |Lower(s)| && SlugChar(Lower(s)[i])) <==>
            exists i :: 0 <= i < |Lower(Trim(s))| && SlugChar(Lower(Trim(s))[i])
  {
    var t := Trim(s);
    var before, after := TrimParts(s);
    hide Trim;
    forall i | 0 <= i < |s| && !(|before| <= i < |before| + |t|) ensures IsSpace(s[i]) {
      assert s[i] == if i < |before| then before[i] else after[i - |before| - |t|];
    }
    forall i | 0 <= i < |t| ensures s[|before| + i] == t[i] && Lower(s)[|before| + i] == Lower(t)[i] {
    }
    forall i | |before| <= i < |before| + |t| ensures Lower(s)[i] == Lower(t)[i - |before|] {
      assert s[|before| + (i - |before|)] == t[i - |before|];
    }
  }

  // ----- normalisation -----

  function FirstNonEmpty(a: string, b: string): string {
    if Trim(a) != "" then Trim(a) else if Trim(b) != "" then Trim(b) else ""
  }

  function Transport(transport: string, url: string): string {
    var t := Lower(Trim(transport));
    if t == "" then (if Trim(url) != "" then "http" else "stdio") else if t == "https" then "http" else t
  }

  function Normalize(x: Server, now: nat): Server {
    var id := Slug(FirstNonEmpty(x.id, x.name), now);
    x.(id := id,
       name := FirstNonEmpty(Trim(x.name), id),
       transport := Transport(x.transport, x.url),
       timeoutSec := if x.timeoutSec <= 0 then 20 else x.timeoutSec)
  }

  lemma LowerKeepsTrimmed(s: string)
    requires Trimmed(s)
    ensures Trimmed(Lower(s)) && Lower(Lower(s)) == Lower(s)
  {
  }

  predicate Plain(t: string) { Lower(Trim(t)) == t }

  lemma LiteralsArePlain()
    ensures Plain("http") && Plain("stdio")
  {
    TrimOfTrimmed("http");
    TrimOfTrimmed("stdio");
    assert Lower("http") == "http";
    assert Lower("stdio") == "stdio";
  }

  lemma LowerTrimIsPlain(t: string)
    ensures Plain(Lower(Trim(t)))
  {
    TrimIsTrimmed(t);
    LowerKeepsTrimmed(Trim(t));
    TrimOfTrimmed(Lower(Trim(t)));
  }

  lemma TransportStays(transport: string, url: string)
    ensures Transport(Transport(transport, url), url) == Transport(transport, url)
  {
    LiteralsArePlain();
    LowerTrimIsPlain(transport);
    var t := Transport(transport, url);
    assert Plain(t) && t != "" && t != "https";
  }

  lemma FirstNonEmptyIsTrimmed(a: string, b: string)
    ensures Trim(FirstNonEmpty(a, b)) == FirstNonEmpty(a, b)
  {
    TrimTwice(a);
    TrimTwice(b);
  }

  /** Normalising twice is normalising once, whatever the clock says the second time. */
  lemma NormalizeTwice(x: Server, now: nat, later: nat)
    ensures Normalize(Normalize(x, now), later) == Normalize(x, now)
    ensures IsSlug(Normalize(x, now).id)
  {
    var y := Normalize(x, now);
    SlugIsSlug(FirstNonEmpty(x.id, x.name), now);
    SlugCharsStay(y.id);
    SlugOfSlug(y.id, later);
    TransportStays(x.transport, x.url);
    FirstNonEmptyIsTrimmed(Trim(x.name), y.id);
    TrimTwice(x.name);
  }

  function Encoded(items: seq<Server>, clock: nat -> nat): (r: seq<Server>)
    ensures |r| == |items| && forall i :: 0 <= i < |r| ==> r[i] == Normalize(items[i], clock(i))
  {
    seq(|items|, i requires 0 <= i < |items| => Normalize(items[i], clock(i)))
  }

  /** EncodeServers normalises the caller's elements in place; the text it returns is left out. */
  method EncodeServers(items: array<Server>, clock: nat -> nat)
    modifies items
    ensures items[..] == Encoded(old(items[..]), clock)
  {
    hide Normalize, Encoded;
    ghost var before := items[..];
    ghost var all := Encoded(before, clock);
    for i := 0 to items.Length
      invariant forall k :: 0 <= k < i ==> items[k] == all[k]
      invariant forall k :: i <= k < items.Length ==> items[k] == before[k]
    {
      var item := NormalizeServer(items[i], clock(i));
      items[i] := item;
    }
    assert items[..] == all;
  }

  /**
    The id is the slug of the id or else of the name, a missing name is the id, a missing transport follows from the
    URL, https is http, a missing timeout is 20 seconds, and nothing else changes.
   */
  method NormalizeServer(item: Server, now: nat) returns (r: Server)
    ensures r == Normalize(item, now)
    ensures r.id == Slug(if Trim(item.id) != "" then Trim(item.id) else Trim(item.name), now)
    ensures r.name == if Trim(item.name) != "" then Trim(item.name) else r.id
    ensures var t := Lower(Trim(item.transport));
            && (t == "" && Trim(item.url) != "" ==> r.transport == "http")
            && (t == "" && Trim(item.url) == "" ==> r.transport == "stdio")
            && (t == "https" ==> r.transport == "http")
            && (t != "" && t != "https" ==> r.transport == t)
    ensures item.timeoutSec <= 0 ==> r.timeoutSec == 20
    ensures item.timeoutSec > 0 ==> r.timeoutSec == item.timeoutSec
    ensures r.(id := item.id, name := item.name, transport := item.transport, timeoutSec := item.timeoutSec) == item
  {
    var id := Slugify(FirstNonEmpty(item.id, item.name), now);
    SlugIsSlug(FirstNonEmpty(item.id, item.name), now);
    SlugCharsStay(id);
    TrimTwice(item.name);
    r := item.(id := id);
    r := r.(name := FirstNonEmpty(Trim(r.name), r.id));
    r := r.(transport := Lower(Trim(r.transport)));
    if r.transport == "" {
      r := r.(transport := if Trim(r.url) != "" then "http" else "stdio");
    }
    if r.transport == "https" {
      r := r.(transport := "http");
    }
    if r.timeoutSec <= 0 {
      r := r.(timeoutSec := 20);
    }
  }

  /** What is stored for the manual servers. */
  function StoredManual(manual: seq<Server>, clock: nat -> nat): seq<Server> { Encoded(Filtered(manual), clock) }

  /** The stored manual list and the stored merge of one save. */
  method SaveManualAndSync(manual: seq<Server>, auto: seq<Server>, clock: nat -> nat, laterClock: nat -> nat)
    returns (manualRaw: seq<Server>, mergedRaw: seq<Server>)
    ensures manualRaw == StoredManual(manual, clock)
    ensures exists merged :: IsMerge(manualRaw, auto, merged) && mergedRaw == Encoded(merged, laterClock)
  {
    var filtered := FilterManual(manual);
    var list := new Server[|filtered|](i requires 0 <= i < |filtered| => filtered[i]);
    assert list[..] == filtered;
    EncodeServers(list, clock);
    manualRaw := list[..];
    var merged := MergeWithSkillServers(list[..], auto);
    var all := new Server[|merged|](i requires 0 <= i < |merged| => merged[i]);
    assert all[..] == merged;
    EncodeServers(all, laterClock);
    mergedRaw := all[..];
  }

  // ----- loading -----

  /** The manual servers as loaded: the stored manual list if there is one, else the unmanaged part of the stored merge. */
  function Loaded(manualRaw: Option<seq<Server>>, mergedRaw: Option<seq<Server>>, clock: nat -> nat): seq<Server> {
    match (manualRaw, mergedRaw)
    case (Some(items), _) => Encoded(items, clock)
    case (None, Some(items)) => Filtered(Encoded(items, clock))
    case (None, None) => []
  }

  /** None is a setting that is missing or cannot be read; decoding normalises like encoding. */
  method LoadManual(manualRaw: Option<seq<Server>>, mergedRaw: Option<seq<Server>>, clock: nat -> nat)
    returns (items: seq<Server>)
    ensures items == Loaded(manualRaw, mergedRaw, clock)
  {
    if manualRaw.Some? {
      items := DecodeServers(manualRaw.value, clock);
    } else if mergedRaw.None? {
      items := [];
    } else {
      items := DecodeServers(mergedRaw.value, clock);
      items := FilterManual(items);
    }
  }

  method DecodeServers(raw: seq<Server>, clock: nat -> nat) returns (items: seq<Server>)
    ensures items == Encoded(raw, clock)
  {
    var list := new Server[|raw|](i requires 0 <= i < |raw| => raw[i]);
    assert list[..] == raw;
    EncodeServers(list, clock);
    items := list[..];
  }

  /** What a save stores, normalised once more, is what it stored. */
  lemma EncodedTwice(items: seq<Server>, clock: nat -> nat, later: nat -> nat)
    ensures Encoded(Encoded(items, clock), later) == Encoded(items, clock)
  {
    forall i | 0 <= i < |items| ensures Normalize(Encoded(items, clock)[i], later(i)) == Encoded(items, clock)[i] {
      NormalizeTwice(items[i], clock(i), later(i));
    }
  }

  /** A server that the merge took over from the stored manual list is not changed by normalising. */
  lemma ManualPartIsNormal(manual: seq<Server>, clock: nat -> nat, x: Server, now: nat)
    requires x in ManualPart(StoredManual(manual, clock))
    ensures Normalize(x, now) == x
    ensures ManualKey(x) == IdKey(x) == Some(x.id) && WithTrimmedId(x) == x
  {
    var raw := StoredManual(manual, clock);
    var kept := Keep(raw, IdKey);
    var i :| 0 <= i < |kept| && x == Reset(kept[i]);
    KeepMembers(raw, IdKey, kept[i]);
    var k :| 0 <= k < |raw| && raw[k] == kept[i];
    StoredKeys(manual, clock, k);
    NormalizeTwice(Filtered(manual)[k], clock(k), now);
    assert Trim("") == "";
  }

  lemma ManagedStays(x: Server, now: nat)
    requires x.readonly || Trim(x.managedBy) != ""
    ensures ManualKey(Normalize(x, now)).None?
  {
  }

  /** What is in the merge: the servers f entered by hand, and managed ones. */
  ghost predicate MergeOf(f: seq<Server>, merged: seq<Server>) {
    && (forall x :: x in f ==> x in merged)
    && (forall x :: x in merged ==> x in f || x.readonly || Trim(x.managedBy) != "")
    && (forall i, j :: 0 <= i < j < |merged| ==> IdKey(merged[i]) != IdKey(merged[j]))
  }

  lemma MergeIsOf(manual: seq<Server>, auto: seq<Server>, merged: seq<Server>)
    requires forall x :: x in auto ==> x.readonly || Trim(x.managedBy) != ""
    requires IsMerge(manual, auto, merged)
    ensures MergeOf(ManualPart(manual), merged)
  {
    hide Trim, WithAutos, Named, ManualPart, IdKey;
    MergedIdsAreDistinct(manual, auto, merged);
    var f := ManualPart(manual);
    var all := WithAutos(f, auto);
    EveryAutoIsAdded(f, auto);
    forall x | x in f ensures x in merged {
      assert x in all[..|f|] && x in multiset(all) && x in multiset(merged);
    }
    forall x | x in merged ensures x in f || x.readonly || Trim(x.managedBy) != "" {
      assert x in multiset(merged) && x in all;
      var k :| 0 <= k < |all| && all[k] == x;
      if k >= |f| {
        var n := k - |f|;
        NamedMembers(auto, Named(auto)[n]);
        assert EnteredAs(all[..|f| + n], Named(auto)[n], all[|f| + n]);
      }
    }
  }

  lemma FilterOfNormalised(f: seq<Server>, merged: seq<Server>, clock: nat -> nat, x: Server)
    requires MergeOf(f, merged)
    requires forall y, now :: y in f ==> Normalize(y, now) == y
    requires forall y :: y in f ==> ManualKey(y) == IdKey(y) == Some(y.id) && WithTrimmedId(y) == y
    ensures x in Filtered(Encoded(merged, clock)) <==> x in f
  {
    hide Normalize, IdKey, ManualKey, IsFirst, WithTrimmedId, Keep;
    var e := Encoded(merged, clock);
    var kept := Keep(e, ManualKey);
    forall i | 0 <= i < |merged| ensures merged[i] in f ==> e[i] == merged[i]
                                 ensures merged[i] !in f ==> ManualKey(e[i]).None? {
      if merged[i] !in f {
        ManagedStays(merged[i], clock(i));
      }
    }
    if x in f {
      var i :| 0 <= i < |merged| && merged[i] == x;
      FirstOfItsKey(f, merged, e, i);
      KeepMembers(e, ManualKey, x);
      var k :| 0 <= k < |kept| && kept[k] == x;
      assert Filtered(e)[k] == x;
    }
    if x in Filtered(e) {
      var k :| 0 <= k < |kept| && x == WithTrimmedId(kept[k]);
      KeptIsFromItems(e, kept[k]);
    }
  }

  lemma FirstOfItsKey(f: seq<Server>, merged: seq<Server>, e: seq<Server>, i: nat)
    requires |e| == |merged| && i < |merged| && merged[i] in f && MergeOf(f, merged)
    requires forall j :: 0 <= j < |merged| ==> if merged[j] in f then e[j] == merged[j] else ManualKey(e[j]).None?
    requires forall y :: y in f ==> ManualKey(y) == IdKey(y) == Some(y.id)
    ensures IsFirst(e, ManualKey, i)
  {
    hide IdKey, ManualKey;
    forall j | 0 <= j < i ensures ManualKey(e[j]) != ManualKey(e[i]) {
      assert IdKey(merged[j]) != IdKey(merged[i]);
    }
  }

  lemma KeptIsFromItems(e: seq<Server>, x: Server)
    requires x in Keep(e, ManualKey)
    ensures x in e && ManualKey(x).Some?
  {
    KeepMembers(e, ManualKey, x);
    var i :| IsFirst(e, ManualKey, i) && x == e[i];
  }

  /**
    Loading after a save: from the stored manual list it gives that list; from the stored merge it gives, up to
    order, the servers that the merge took over from that list.
   */
  lemma LoadAfterSave(manual: seq<Server>, auto: seq<Server>, merged: seq<Server>,
                      clock: nat -> nat, laterClock: nat -> nat, loadClock: nat -> nat, other: Option<seq<Server>>)
    requires forall x :: x in auto ==> x.readonly || Trim(x.managedBy) != ""
    requires IsMerge(StoredManual(manual, clock), auto, merged)
    ensures Loaded(Some(StoredManual(manual, clock)), other, loadClock) == StoredManual(manual, clock)
    ensures multiset(Loaded(None, Some(Encoded(merged, laterClock)), loadClock)) == multiset(ManualPart(StoredManual(manual, clock)))
  {
    hide Trim, Filtered, ManualPart, Encoded, Normalize, IsMerge, MergeOf;
    var f := ManualPart(StoredManual(manual, clock));
    EncodedTwice(Filtered(manual), clock, loadClock);
    EncodedTwice(merged, laterClock, loadClock);
    MergeIsOf(StoredManual(manual, clock), auto, merged);
    forall x, now | x in f ensures Normalize(x, now) == x {
      ManualPartIsNormal(manual, clock, x, now);
    }
    forall x | x in f ensures ManualKey(x) == IdKey(x) == Some(x.id) && WithTrimmedId(x) == x {
      ManualPartIsNormal(manual, clock, x, 0);
    }
    var e := Encoded(merged, laterClock);
    forall x ensures x in Filtered(e) <==> x in f {
      FilterOfNormalised(f, merged, laterClock, x);
    }
    FilteredIsApart(e);
    ManualPartIsApart(StoredManual(manual, clock));
    DistinctByKey(Filtered(e), IdKey);
    DistinctByKey(f, IdKey);
    Sorting.SameMembers(Filtered(e), f);
  }

  /** The fallback gives the stored manual list back if and only if the slugs differ and no ManagedBy is white space. */
  lemma FallbackLosesNothing(manual: seq<Server>, clock: nat -> nat)
    ensures multiset(ManualPart(StoredManual(manual, clock))) == multiset(StoredManual(manual, clock)) <==>
              SlugsDiffer(manual, clock) && forall x :: x in Filtered(manual) ==> x.managedBy == ""
  {
    hide Normalize;
    var raw := StoredManual(manual, clock);
    StoredApart(manual, clock);
    StoredIdKeys(manual, clock);
    KeepsAllOnlyIfApart(raw, IdKey);
    assert Apart(raw, IdKey) <==> SlugsDiffer(manual, clock);
    if SlugsDiffer(manual, clock) {
      KeepApart(raw, IdKey);
      assert ManualPart(raw) == ResetAll(raw);
      ResetOfStored(manual, clock);
    } else {
      assert |multiset(ManualPart(raw))| == |Keep(raw, IdKey)| < |raw| == |multiset(raw)|;
    }
  }

  lemma StoredIdKeys(manual: seq<Server>, clock: nat -> nat)
    ensures Apart(StoredManual(manual, clock), IdKey) <==> Apart(StoredManual(manual, clock), ManualKey)
  {
    var raw := StoredManual(manual, clock);
    forall i | 0 <= i < |raw| ensures IdKey(raw[i]) == ManualKey(raw[i]) {
      StoredKeys(manual, clock, i);
    }
  }

  lemma StoredLength(manual: seq<Server>, clock: nat -> nat)
    ensures |StoredManual(manual, clock)| == |Filtered(manual)|
  {
  }

  lemma StoredFields(manual: seq<Server>, clock: nat -> nat, i: nat)
    requires i < |Filtered(manual)|
    ensures var x := StoredManual(manual, clock)[i];
            Reset(x) == x.(managedBy := "") && x.managedBy == Filtered(manual)[i].managedBy
  {
    hide Trim, Slug, Filtered;
    FilteredKeys(manual, Filtered(manual)[i]);
    StoredKeys(manual, clock, i);
  }

  lemma ResetOfStored(manual: seq<Server>, clock: nat -> nat)
    ensures var raw := StoredManual(manual, clock);
            multiset(ResetAll(raw)) == multiset(raw) <==> forall x :: x in Filtered(manual) ==> x.managedBy == ""
  {
    hide StoredManual, Filtered, Reset;
    var raw, f := StoredManual(manual, clock), Filtered(manual);
    StoredLength(manual, clock);
    forall i | 0 <= i < |raw| ensures Reset(raw[i]) == raw[i].(managedBy := "") && raw[i].managedBy == f[i].managedBy {
      StoredFields(manual, clock, i);
    }
    if forall x :: x in f ==> x.managedBy == "" {
      assert ResetAll(raw) == raw;
    } else {
      var x :| x in f && x.managedBy != "";
      var i :| 0 <= i < |f| && f[i] == x;
      assert raw[i] in multiset(raw) && raw[i] !in ResetAll(raw);
      assert raw[i] !in multiset(ResetAll(raw));
    }
  }

  // ----- saving again -----

  /** No two servers entered by hand have the same slug. */
  ghost predicate SlugsDiffer(manual: seq<Server>, clock: nat -> nat) {
    var f := Filtered(manual);
    forall i, j :: 0 <= i < j < |f| ==> Slug(f[i].id, clock(i)) != Slug(f[j].id, clock(j))
  }

  lemma StoredKeys(manual: seq<Server>, clock: nat -> nat, i: nat)
    requires i < |Filtered(manual)|
    ensures var s, id := StoredManual(manual, clock)[i], Slug(Filtered(manual)[i].id, clock(i));
            s.id == id && Trim(id) == id && ManualKey(s) == Some(id)
  {
    var x := Filtered(manual)[i];
    FilteredKeys(manual, x);
    SlugIsSlug(x.id, clock(i));
    SlugCharsStay(Slug(x.id, clock(i)));
  }

  lemma StoredApart(manual: seq<Server>, clock: nat -> nat)
    ensures Apart(StoredManual(manual, clock), ManualKey) <==> SlugsDiffer(manual, clock)
  {
    forall i | 0 <= i < |Filtered(manual)|
      ensures ManualKey(StoredManual(manual, clock)[i]) == Some(Slug(Filtered(manual)[i].id, clock(i)))
    {
      StoredKeys(manual, clock, i);
    }
  }

  /**
    Saving what was stored stores the same again if and only if the slugs of the manual servers differ; otherwise
    the second save loses a server, however far apart the two saves are.
   */
  lemma SavingAgainLosesNothing(manual: seq<Server>, clock: nat -> nat, later: nat -> nat)
    ensures var first := StoredManual(manual, clock);
            var second := StoredManual(first, later);
            && (second == first <==> SlugsDiffer(manual, clock))
            && (|second| < |first| <==> !SlugsDiffer(manual, clock))
  {
    var first := StoredManual(manual, clock);
    StoredApart(manual, clock);
    KeepsAllOnlyIfApart(first, ManualKey);
    if SlugsDiffer(manual, clock) {
      KeepApart(first, ManualKey);
      forall i | 0 <= i < |first| ensures WithTrimmedId(first[i]) == first[i] {
        StoredKeys(manual, clock, i);
      }
      assert Filtered(first) == first;
      EncodedTwice(Filtered(manual), clock, later);
    }
  }

  lemma SlugOfSpaced(now: nat)
    ensures Slug("a b", now) == "a-b"
    ensures Slug("a-b", now) == "a-b"
  {
    TrimOfTrimmed("a b");
    assert Lower("a b") == "a b";
    assert IsSlug("a-b");
    SlugOfSlug("a-b", now);
    hide Trim, Lower, IsSlug;
    DashedSpace();
  }

  lemma DashedSpace()
    ensures Dashed("a b") == "a-b"
  {
    assert "a b"[..2] == "a " && "a "[..1] == "a" && "a"[..0] == "";
    assert Dashed("a") == "a";
    assert Dashed("a ") == "a-";
  }

  /** Such servers exist: two ids that are different as texts and one as slugs. */
  lemma SlugsCanCollide(a: Server, b: Server, clock: nat -> nat)
    requires a.id == "a b" && b.id == "a-b" && !a.readonly && !b.readonly && a.managedBy == "" && b.managedBy == ""
    ensures |Filtered([a, b])| == 2 && !SlugsDiffer([a, b], clock)
  {
    TrimOfTrimmed("a b");
    TrimOfTrimmed("a-b");
    assert Trim("") == "";
    KeepApart([a, b], ManualKey);
    SlugOfSpaced(clock(0));
    SlugOfSpaced(clock(1));
  }
}

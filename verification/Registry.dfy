/**
  The registry of tool servers (cli/mcpregistry/registry.go): filtering the servers that were entered by hand and
  merging them with the servers that skills bring along.
 */
module Registry {
  import opened Text
  import opened FirstOfEach
  import Sorting

  /** `rest` stands for the fields that these operations only copy. */
  datatype Server = Server(id: string, name: string, transport: string, url: string, timeoutSec: int, rest: string,
                           managedBy: string, readonly: bool)

  // ----- FilterManual -----

  /** The id under which a server entered by hand is kept. */
  function ManualKey(x: Server): Option<string> {
    if x.readonly || Trim(x.managedBy) != "" || Trim(x.id) == "" then None else Some(Trim(x.id))
  }

  function IdKey(x: Server): Option<string> { if Trim(x.id) == "" then None else Some(Trim(x.id)) }

  function WithTrimmedId(x: Server): Server { x.(id := Trim(x.id)) }

  function TrimIds(items: seq<Server>): (r: seq<Server>)
    ensures |r| == |items| && forall i :: 0 <= i < |r| ==> r[i] == WithTrimmedId(items[i])
  {
    seq(|items|, i requires 0 <= i < |items| => WithTrimmedId(items[i]))
  }

  lemma TrimIdsGrow(items: seq<Server>, x: Server)
    ensures TrimIds(items + [x]) == TrimIds(items) + [WithTrimmedId(x)]
  {
  }

  function Filtered(items: seq<Server>): seq<Server> { TrimIds(Keep(items, ManualKey)) }

  method FilterManual(items: seq<Server>) returns (out: seq<Server>)
    ensures out == Filtered(items)
  {
    out := [];
    var seen: set<string> := {};
    for k := 0 to |items|
      invariant out == TrimIds(Keep(items[..k], ManualKey))
      invariant seen == Keys(Keep(items[..k], ManualKey), ManualKey)
    {
      KeepStep(items, k, ManualKey);
      TrimIdsGrow(Keep(items[..k], ManualKey), items[k]);
      var item := items[k];
      if item.readonly || Trim(item.managedBy) != "" {
        continue;
      }
      item := item.(id := Trim(item.id));
      if item.id == "" || item.id in seen {
        continue;
      }
      seen := seen + {item.id};
      out := out + [item];
    }
    assert items[..|items|] == items;
  }

  // ----- MergeWithSkillServers -----

  function Reset(x: Server): Server { x.(readonly := false, managedBy := "", id := Trim(x.id)) }

  function ResetAll(items: seq<Server>): (r: seq<Server>)
    ensures |r| == |items| && forall i :: 0 <= i < |r| ==> r[i] == Reset(items[i])
  {
    seq(|items|, i requires 0 <= i < |items| => Reset(items[i]))
  }

  lemma ResetGrows(items: seq<Server>, x: Server)
    ensures ResetAll(items + [x]) == ResetAll(items) + [Reset(x)]
  {
  }

  function ManualPart(manual: seq<Server>): seq<Server> { ResetAll(Keep(manual, IdKey)) }

  function Candidate(base: string, i: nat): string { base + ("-" + Print(i)) }

  lemma CandidatesDiffer(base: string, i: nat, j: nat)
    requires Candidate(base, i) == Candidate(base, j)
    ensures i == j
  {
    assert Candidate(base, i)[|base|..] == "-" + Print(i) && Candidate(base, j)[|base|..] == "-" + Print(j);
    assert ("-" + Print(i))[1..] == Print(i) && ("-" + Print(j))[1..] == Print(j);
    DecimalOfPrint(i);
    DecimalOfPrint(j);
  }

  /** The search for a free suffix, each candidate it passes taken out of the set. */
  function FirstFree(base: string, seen: set<string>, i: nat): nat
    decreases |seen|
  {
    if Candidate(base, i) in seen then FirstFree(base, seen - {Candidate(base, i)}, i + 1) else i
  }

  /** The search ends within |seen| + 1 tries, at the least suffix that is not taken. */
  lemma {:induction false} FirstFreeMeaning(base: string, seen: set<string>, i: nat)
    ensures var n := FirstFree(base, seen, i);
            && i <= n <= i + |seen| && Candidate(base, n) !in seen
            && forall j :: i <= j < n ==> Candidate(base, j) in seen
    decreases |seen|
  {
    var c := Candidate(base, i);
    if c in seen {
      FirstFreeMeaning(base, seen - {c}, i + 1);
      var n := FirstFree(base, seen - {c}, i + 1);
      if Candidate(base, n) == c {
        CandidatesDiffer(base, n, i);
      }
    }
  }

  function AddAuto(merged: seq<Server>, item: Server): seq<Server> {
    var base, seen := Trim(item.id), Keys(merged, IdKey);
    if base == "" then merged
    else if base !in seen then merged + [item]
    else merged + [item.(id := Candidate(base, FirstFree(base, seen, 2)))]
  }

  function WithAutos(manual: seq<Server>, auto: seq<Server>): seq<Server> {
    if auto == [] then manual else AddAuto(WithAutos(manual, auto[..|auto| - 1]), auto[|auto| - 1])
  }

  /** The order of the output: by lower-cased trimmed id, byte by byte. */
  function SortKey(x: Server): string { Lower(Trim(x.id)) }

  predicate Less(x: Server, y: Server) { Below(SortKey(x), SortKey(y)) }

  lemma LessIsAnOrder()
    ensures Sorting.StrictWeakOrder(Less)
  {
    forall x, y | Less(x, y) ensures !Less(y, x) {
      BelowIsAsymmetric(SortKey(x), SortKey(y));
    }
    forall x, y, z | !Less(x, y) && !Less(y, z) ensures !Less(x, z) {
      NotBelowIsTransitive(SortKey(x), SortKey(y), SortKey(z));
    }
  }

  /** The loop over the suffixes has no bound of its own; `left` are the taken ids it has not met yet. */
  method FindSuffix(base: string, seen: set<string>) returns (candidate: string)
    ensures candidate == Candidate(base, FirstFree(base, seen, 2))
  {
    var i := 2;
    ghost var left := seen;
    candidate := Candidate(base, i);
    while candidate in seen
      invariant 2 <= i && candidate == Candidate(base, i) && left <= seen
      invariant forall j :: j >= i && Candidate(base, j) in seen ==> Candidate(base, j) in left
      invariant FirstFree(base, left, i) == FirstFree(base, seen, 2)
      decreases |left|
    {
      left := left - {candidate};
      forall j | j >= i + 1 && Candidate(base, j) in seen ensures Candidate(base, j) in left {
        if Candidate(base, j) == candidate {
          CandidatesDiffer(base, i, j);
        }
      }
      i := i + 1;
      candidate := Candidate(base, i);
    }
  }

  method GatherManual(manual: seq<Server>) returns (merged: seq<Server>, seen: set<string>)
    ensures merged == ManualPart(manual) && seen == Keys(merged, IdKey)
  {
    merged, seen := [], {};
    for k := 0 to |manual|
      invariant merged == ResetAll(Keep(manual[..k], IdKey))
      invariant seen == Keys(Keep(manual[..k], IdKey), IdKey)
    {
      KeepStep(manual, k, IdKey);
      ResetGrows(Keep(manual[..k], IdKey), manual[k]);
      var item := Reset(manual[k]);
      if item.id == "" || item.id in seen {
        continue;
      }
      seen := seen + {item.id};
      merged := merged + [item];
    }
    assert manual[..|manual|] == manual;
    KeysOfReset(Keep(manual, IdKey));
  }

  method AddSkillServers(manual: seq<Server>, auto: seq<Server>, taken: set<string>) returns (merged: seq<Server>)
    requires taken == Keys(manual, IdKey)
    ensures merged == WithAutos(manual, auto)
  {
    merged := manual;
    var seen := taken;
    for k := 0 to |auto|
      invariant merged == WithAutos(manual, auto[..k]) && seen == Keys(merged, IdKey)
    {
      WithAutosStep(manual, auto, k);
      AddAutoKeys(merged, auto[k]);
      var item := auto[k];
      var baseID := Trim(item.id);
      if baseID == "" {
        continue;
      }
      if baseID !in seen {
        seen := seen + {baseID};
        merged := merged + [item];
        continue;
      }
      var candidate := FindSuffix(baseID, seen);
      item := item.(id := candidate);
      seen := seen + {candidate};
      merged := merged + [item];
    }
    assert auto[..|auto|] == auto;
  }

  method MergeWithSkillServers(manual: seq<Server>, auto: seq<Server>) returns (merged: seq<Server>)
    ensures multiset(merged) == multiset(WithAutos(ManualPart(manual), auto)) && Sorting.Sorted(Less, merged)
  {
    var seen;
    merged, seen := GatherManual(manual);
    merged := AddSkillServers(merged, auto, seen);
    LessIsAnOrder();
    merged := Sorting.Sort(merged, Less);
  }

  // ----- ids -----

  lemma TrimmedEnds(a: string, b: string)
    requires Trimmed(a) && a != "" && b != "" && !IsSpace(b[|b| - 1])
    ensures Trimmed(a + b)
  {
  }

  lemma SuffixEnds(i: nat)
    ensures !IsSpace(("-" + Print(i))[|"-" + Print(i)| - 1])
  {
    var d := Print(i);
    assert ("-" + d)[|d|] == d[|d| - 1];
    assert IsDigit(d[|d| - 1]);
  }

  lemma TrimOfCandidate(s: string, i: nat)
    requires Trim(s) != ""
    ensures Trim(Candidate(Trim(s), i)) == Candidate(Trim(s), i)
  {
    SuffixEnds(i);
    TrimIsTrimmed(s);
    TrimmedEnds(Trim(s), "-" + Print(i));
    TrimOfTrimmed(Candidate(Trim(s), i));
  }

  lemma KeyOfReset(x: Server)
    ensures IdKey(Reset(x)) == IdKey(x)
  {
    TrimTwice(x.id);
  }

  lemma KeysOfReset(items: seq<Server>)
    ensures Keys(ResetAll(items), IdKey) == Keys(items, IdKey)
  {
    KeysOfMapped(items, ResetAll(items));
  }

  lemma KeysOfMapped(items: seq<Server>, mapped: seq<Server>)
    requires |mapped| == |items| && forall i :: 0 <= i < |items| ==> mapped[i] == Reset(items[i])
    ensures Keys(mapped, IdKey) == Keys(items, IdKey)
  {
    forall i | 0 <= i < |items| ensures IdKey(mapped[i]) == IdKey(items[i]) {
      KeyOfReset(items[i]);
    }
    SameKeys(items, mapped, IdKey);
  }

  lemma WithAutosStep(manual: seq<Server>, auto: seq<Server>, k: nat)
    requires k < |auto|
    ensures WithAutos(manual, auto[..k + 1]) == AddAuto(WithAutos(manual, auto[..k]), auto[k])
  {
    assert auto[..k + 1][..k] == auto[..k];
  }

  /** Adding a skill's server uses up its id, or a free id made from it. */
  lemma AddAutoKeys(merged: seq<Server>, item: Server)
    ensures var base, seen := Trim(item.id), Keys(merged, IdKey);
            Keys(AddAuto(merged, item), IdKey) ==
              if base == "" then seen else if base !in seen then seen + {base}
              else seen + {Candidate(base, FirstFree(base, seen, 2))}
  {
    var base, seen := Trim(item.id), Keys(merged, IdKey);
    if base != "" && base !in seen {
      KeysGrow(merged, item, IdKey);
    } else if base != "" {
      var i := FirstFree(base, seen, 2);
      TrimOfCandidate(item.id, i);
      var x := item.(id := Candidate(base, i));
      assert Candidate(base, i) != "" by { assert |Candidate(base, i)| >= |base|; }
      KeysGrow(merged, x, IdKey);
    }
  }

  // ----- what merging promises -----

  predicate Managed(x: Server) { ManualKey(x).None? }

  lemma ManualPartIsApart(manual: seq<Server>)
    ensures Apart(ManualPart(manual), IdKey)
  {
    KeepIsApart(manual, IdKey);
    var kept := Keep(manual, IdKey);
    forall i | 0 <= i < |kept| ensures IdKey(ResetAll(kept)[i]) == IdKey(kept[i]) {
      KeyOfReset(kept[i]);
    }
  }

  lemma AddAutoKeepsApart(merged: seq<Server>, item: Server)
    requires Apart(merged, IdKey)
    ensures Apart(AddAuto(merged, item), IdKey)
  {
    var base, seen := Trim(item.id), Keys(merged, IdKey);
    if base != "" {
      var x := if base !in seen then item else item.(id := Candidate(base, FirstFree(base, seen, 2)));
      FirstFreeMeaning(base, seen, 2);
      if base in seen {
        TrimOfCandidate(item.id, FirstFree(base, seen, 2));
        assert |x.id| >= |base|;
      }
      assert IdKey(x).Some? && IdKey(x).value !in seen;
      ApartGrows(merged, x, IdKey);
    }
  }

  lemma {:induction false} WithAutosIsApart(manual: seq<Server>, auto: seq<Server>)
    requires Apart(manual, IdKey)
    ensures Apart(WithAutos(manual, auto), IdKey)
  {
    if auto != [] {
      WithAutosIsApart(manual, auto[..|auto| - 1]);
      AddAutoKeepsApart(WithAutos(manual, auto[..|auto| - 1]), auto[|auto| - 1]);
    }
  }

  /** The autos that have an id, in order. */
  function Named(auto: seq<Server>): seq<Server> {
    if auto == [] then [] else
      var rest, x := Named(auto[..|auto| - 1]), auto[|auto| - 1];
      if Trim(x.id) == "" then rest else rest + [x]
  }

  /** A server entered under its own id when that is free, else under the first free id made from it. */
  ghost predicate EnteredAs(before: seq<Server>, item: Server, x: Server) {
    var base, seen := Trim(item.id), Keys(before, IdKey);
    if base !in seen then x == item
    else exists i :: IsNumbered(base, seen, i) && x == item.(id := Candidate(base, i))
  }

  predicate IsNumbered(base: string, seen: set<string>, i: nat) {
    2 <= i <= |seen| + 2 && Candidate(base, i) !in seen && forall j :: 2 <= j < i ==> Candidate(base, j) in seen
  }

  /** Every auto with an id is added exactly once, changed in its id alone and only when that is taken. */
  lemma {:induction false} EveryAutoIsAdded(manual: seq<Server>, auto: seq<Server>)
    ensures var all, named := WithAutos(manual, auto), Named(auto);
            && |all| == |manual| + |named| && all[..|manual|] == manual
            && forall k :: 0 <= k < |named| ==> EnteredAs(all[..|manual| + k], named[k], all[|manual| + k])
  {
    if auto != [] {
      var rest, item := auto[..|auto| - 1], auto[|auto| - 1];
      EveryAutoIsAdded(manual, rest);
      var before, base := WithAutos(manual, rest), Trim(item.id);
      if base != "" {
        FirstFreeMeaning(base, Keys(before, IdKey), 2);
        var all, named := WithAutos(manual, auto), Named(auto);
        assert base in Keys(before, IdKey) ==> IsNumbered(base, Keys(before, IdKey), FirstFree(base, Keys(before, IdKey), 2));
        assert all == before + [all[|before|]] && all[..|before|] == before;
        assert EnteredAs(all[..|before|], item, all[|before|]);
        forall k | 0 <= k < |named| ensures EnteredAs(all[..|manual| + k], named[k], all[|manual| + k]) {
          if k < |named| - 1 {
            assert all[..|manual| + k] == before[..|manual| + k];
          }
        }
      }
    }
  }

  /** The merge, in whatever order the sort leaves servers of equal keys. */
  ghost predicate IsMerge(manual: seq<Server>, auto: seq<Server>, merged: seq<Server>) {
    multiset(merged) == multiset(WithAutos(ManualPart(manual), auto)) && Sorting.Sorted(Less, merged)
  }

  /** Ids in the result are non-blank and pairwise distinct after trimming. */
  lemma MergedIdsAreDistinct(manual: seq<Server>, auto: seq<Server>, merged: seq<Server>)
    requires IsMerge(manual, auto, merged)
    ensures Apart(merged, IdKey)
    ensures forall i :: 0 <= i < |merged| ==> Trim(merged[i].id) != ""
    ensures forall i, j :: 0 <= i < j < |merged| ==> Trim(merged[i].id) != Trim(merged[j].id)
  {
    ManualPartIsApart(manual);
    WithAutosIsApart(ManualPart(manual), auto);
    ApartOfPermutation(WithAutos(ManualPart(manual), auto), merged, IdKey);
  }

  /** The first server of each id that was entered by hand is in the merge, as one that is not managed. */
  lemma FirstsAreMerged(manual: seq<Server>, auto: seq<Server>, merged: seq<Server>, i: nat)
    requires IsMerge(manual, auto, merged) && i < |manual| && Trim(manual[i].id) != ""
    requires forall j :: 0 <= j < i ==> Trim(manual[j].id) != Trim(manual[i].id)
    ensures manual[i].(readonly := false, managedBy := "", id := Trim(manual[i].id)) in merged
  {
    hide Trim, WithAutos;
    var x, kept := manual[i], Keep(manual, IdKey);
    assert IsFirst(manual, IdKey, i);
    KeepMembers(manual, IdKey, x);
    var k :| 0 <= k < |kept| && kept[k] == x;
    var f := ManualPart(manual);
    assert f[k] == Reset(x);
    EveryAutoIsAdded(f, auto);
    var all := WithAutos(f, auto);
    assert all[..|f|][k] == f[k];
    assert all[k] in multiset(all) && all[k] in multiset(merged);
  }

  lemma AutosStayManaged(before: seq<Server>, item: Server, x: Server)
    requires EnteredAs(before, item, x) && (item.readonly || Trim(item.managedBy) != "")
    ensures Managed(x)
  {
  }

  lemma {:induction false} NamedMembers(auto: seq<Server>, x: Server)
    ensures x in Named(auto) ==> x in auto
  {
    if auto != [] {
      NamedMembers(auto[..|auto| - 1], x);
    }
  }

  lemma FilteredKeys(manual: seq<Server>, x: Server)
    requires x in Filtered(manual)
    ensures !x.readonly && Trim(x.managedBy) == "" && Trim(x.id) == x.id && x.id != ""
  {
    var kept := Keep(manual, ManualKey);
    var i :| 0 <= i < |kept| && x == WithTrimmedId(kept[i]);
    KeepIsApart(manual, ManualKey);
    TrimTwice(kept[i].id);
  }

  lemma FilteredIsApart(manual: seq<Server>)
    ensures Apart(Filtered(manual), ManualKey) && Apart(Filtered(manual), IdKey)
  {
    var kept := Keep(manual, ManualKey);
    KeepIsApart(manual, ManualKey);
    forall i | 0 <= i < |kept|
      ensures ManualKey(Filtered(manual)[i]) == ManualKey(kept[i]) == IdKey(Filtered(manual)[i])
    {
      TrimTwice(kept[i].id);
    }
  }

  lemma FilterMembersOfMerge(f: seq<Server>, all: seq<Server>, merged: seq<Server>, x: Server)
    requires Apart(merged, IdKey) && multiset(merged) == multiset(all) && |f| <= |all| && all[..|f|] == f
    requires forall y :: y in f ==> !y.readonly && y.managedBy == "" && Trim(y.id) == y.id && y.id != ""
    requires forall k :: |f| <= k < |all| ==> Managed(all[k])
    ensures x in Filtered(merged) <==> x in f
  {
    var kept := Keep(merged, ManualKey);
    assert Trim("") == "";
    if x in f {
      assert x in all && x in multiset(all) && x in merged;
      var i :| 0 <= i < |merged| && merged[i] == x;
      assert IsFirst(merged, ManualKey, i) by {
        forall j | 0 <= j < i ensures ManualKey(merged[j]) != ManualKey(merged[i]) {
          assert IdKey(merged[j]) != IdKey(merged[i]);
        }
      }
      KeepMembers(merged, ManualKey, x);
      var k :| 0 <= k < |kept| && kept[k] == x;
      assert Filtered(merged)[k] == x;
    }
    if x in Filtered(merged) {
      var k :| 0 <= k < |kept| && x == WithTrimmedId(kept[k]);
      KeepMembers(merged, ManualKey, kept[k]);
      var i :| IsFirst(merged, ManualKey, i) && kept[k] == merged[i];
      assert kept[k] in multiset(merged) && kept[k] in all;
      var n :| 0 <= n < |all| && all[n] == kept[k];
      assert n < |f| && f[n] == kept[k];
    }
  }

  lemma DistinctByKey(items: seq<Server>, key: Server -> Option<string>)
    requires Apart(items, key)
    ensures forall i, j :: 0 <= i < j < |items| ==> items[i] != items[j]
  {
    forall i, j | 0 <= i < j < |items| ensures items[i] != items[j] {
      assert key(items[i]) != key(items[j]);
    }
  }

  lemma ResetOfFiltered(manual: seq<Server>)
    ensures ManualPart(Filtered(manual)) == ResetAll(Filtered(manual))
    ensures Apart(ResetAll(Filtered(manual)), IdKey)
    ensures forall y :: y in ResetAll(Filtered(manual)) ==>
                          !y.readonly && y.managedBy == "" && Trim(y.id) == y.id && y.id != ""
  {
    FilteredIsApart(manual);
    KeepApart(Filtered(manual), IdKey);
    ManualPartIsApart(Filtered(manual));
    forall i | 0 <= i < |Filtered(manual)|
      ensures var y := ResetAll(Filtered(manual))[i];
              !y.readonly && y.managedBy == "" && Trim(y.id) == y.id && y.id != ""
    {
      FilteredKeys(manual, Filtered(manual)[i]);
    }
  }

  /**
    Filtering a merge gives the filtered manual servers back, up to order and with ManagedBy cleared; they come back
    unchanged if and only if none of them had a ManagedBy of white space only.
   */
  lemma FilterUndoesMerge(manual: seq<Server>, auto: seq<Server>, merged: seq<Server>)
    requires forall x :: x in auto ==> x.readonly || Trim(x.managedBy) != ""
    requires IsMerge(Filtered(manual), auto, merged)
    ensures multiset(Filtered(merged)) == multiset(ResetAll(Filtered(manual)))
    ensures multiset(Filtered(merged)) == multiset(Filtered(manual)) <==> forall x :: x in Filtered(manual) ==> x.managedBy == ""
  {
    hide Trim, WithAutos, Named, EnteredAs, Filtered, ResetAll, ManualKey, IdKey, Managed;
    var f := ResetAll(Filtered(manual));
    ResetOfFiltered(manual);
    MergedIdsAreDistinct(Filtered(manual), auto, merged);
    var all := WithAutos(f, auto);
    EveryAutoIsAdded(f, auto);
    forall k | |f| <= k < |all| ensures Managed(all[k]) {
      var n := k - |f|;
      NamedMembers(auto, Named(auto)[n]);
      AutosStayManaged(all[..|f| + n], Named(auto)[n], all[|f| + n]);
    }
    forall x ensures x in Filtered(merged) <==> x in f {
      FilterMembersOfMerge(f, all, merged, x);
    }
    FilteredIsApart(merged);
    DistinctByKey(Filtered(merged), IdKey);
    DistinctByKey(f, IdKey);
    Sorting.SameMembers(Filtered(merged), f);
    ResetIsIdentity(manual);
  }

  /** A ManagedBy of one space passes the filter as none and does not come back from the merge. */
  lemma SpaceIsNotGivenBack(x: Server, merged: seq<Server>)
    requires x.id == "a" && x.managedBy == " " && !x.readonly && IsMerge(Filtered([x]), [], merged)
    ensures Filtered([x]) == [x] && multiset(Filtered(merged)) != multiset([x])
  {
    TrimOfTrimmed("a");
    assert Trim(" ") == "" by { BlankTrimsToNothing(" "); }
    KeepApart([x], ManualKey);
    assert Filtered([x]) == [x] && x in [x];
    FilterUndoesMerge([x], [], merged);
  }

  lemma ResetIsIdentity(manual: seq<Server>)
    ensures multiset(ResetAll(Filtered(manual))) == multiset(Filtered(manual)) <==>
            forall x :: x in Filtered(manual) ==> x.managedBy == ""
  {
    var f := Filtered(manual);
    forall i | 0 <= i < |f| ensures Reset(f[i]) == f[i].(managedBy := "") {
      FilteredKeys(manual, f[i]);
    }
    if forall x :: x in f ==> x.managedBy == "" {
      assert ResetAll(f) == f;
    } else {
      var x :| x in f && x.managedBy != "";
      assert x in multiset(f) && x !in ResetAll(f);
      assert x !in multiset(ResetAll(f));
    }
  }
}

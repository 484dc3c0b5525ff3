/** When an approval request is granted, told from the calls of a run (cli/approval/manager.go). */
module ApprovalRuns {
  import opened Approval
  import opened FirstOfEach
  import opened Text

  // ----- what a strategy asks for, told from the texts of the rule -----

  predicate Meets(strategy: string, approvers: seq<string>, voters: set<string>) {
    if Trim(strategy) == "all" then
      if forall i :: 0 <= i < |approvers| ==> Trim(approvers[i]) == "" then |voters| >= 2
      else forall i :: 0 <= i < |approvers| && Trim(approvers[i]) != "" ==> Trim(approvers[i]) in voters
    else |voters| >= 1
  }

  function TrimmedNames(names: seq<string>): set<string> { set i | 0 <= i < |names| :: Trim(names[i]) }

  lemma OneMoreName(names: seq<string>, last: string)
    ensures TrimmedNames(names + [last]) == TrimmedNames(names) + {Trim(last)}
  {
    hide Trim;
    var more := names + [last];
    assert more[|names|] == last && forall i :: 0 <= i < |names| ==> more[i] == names[i];
    forall v ensures v in TrimmedNames(more) <==> v in TrimmedNames(names) || v == Trim(last) {
      if v in TrimmedNames(names) {
        var i :| 0 <= i < |names| && Trim(names[i]) == v;
        assert Trim(more[i]) == v;
      }
      if v == Trim(last) {
        assert Trim(more[|names|]) == v;
      }
    }
  }

  lemma {:induction false} CountNames(names: seq<string>)
    requires Distinct(names)
    ensures |TrimmedNames(names)| == |names|
  {
    hide Trim;
    if names != [] {
      var init, last := names[..|names| - 1], names[|names| - 1];
      assert names == init + [last];
      CountNames(init);
      OneMoreName(init, last);
      assert Trim(last) !in TrimmedNames(init);
      hide TrimmedNames;
    }
  }

  lemma ContainsIsIn(names: seq<string>, v: string)
    ensures Approval.Contains(names, v) <==> Trim(v) in TrimmedNames(names)
  {
  }

  /** The names of a list are the trimmed texts that are not blank. */
  lemma NamesMembers(values: seq<string>, v: string)
    ensures v in Names(values) <==> v != "" && exists i :: 0 <= i < |values| && Trim(values[i]) == v
  {
    hide Trim;
    var kept := Keep(values, NameKey);
    KeysOfKeep(values, NameKey);
    forall x | x in kept ensures NameKey(x).Some? {
      KeepMembers(values, NameKey, x);
    }
    assert v in Names(values) <==> v in Keys(kept, NameKey) by {
      if v in Names(values) {
        var i :| 0 <= i < |kept| && Trim(kept[i]) == v;
        assert kept[i] in kept && NameKey(kept[i]) == Some(v);
      }
      if v in Keys(kept, NameKey) {
        var x :| x in kept && NameKey(x) == Some(v);
        var i :| 0 <= i < |kept| && kept[i] == x;
        assert Names(values)[i] == v;
      }
    }
    if v in Keys(values, NameKey) {
      var x :| x in values && NameKey(x) == Some(v);
      var i :| 0 <= i < |values| && values[i] == x;
      assert Trim(values[i]) == v;
    }
    if i :| 0 <= i < |values| && Trim(values[i]) == v && v != "" {
      assert values[i] in values && NameKey(values[i]) == Some(v);
    }
  }

  /** A stored request that was opened under these terms. */
  predicate HasTerms(req: Request, strategy: string, approvers: seq<string>, expiresAt: int) {
    && req.strategy == NormalizeStrategy(strategy) && req.approvers == Names(approvers) && req.expiresAt == expiresAt
    && Distinct(req.approvedBy)
  }

  lemma SatisfiedMeets(req: Request, strategy: string, approvers: seq<string>, expiresAt: int)
    requires HasTerms(req, strategy, approvers, expiresAt)
    ensures Satisfied(req) <==> Meets(strategy, approvers, TrimmedNames(req.approvedBy))
  {
    hide Trim, Names;
    CountNames(req.approvedBy);
    var names := Names(approvers);
    forall v ensures v in names <==> v != "" && exists i :: 0 <= i < |approvers| && Trim(approvers[i]) == v {
      NamesMembers(approvers, v);
    }
    forall v | v in names ensures Trim(v) == v {
      var i :| 0 <= i < |approvers| && Trim(approvers[i]) == v;
      TrimTwice(approvers[i]);
    }
    forall v ensures Approval.Contains(req.approvedBy, v) <==> Trim(v) in TrimmedNames(req.approvedBy) {
      ContainsIsIn(req.approvedBy, v);
    }
    if names == [] {
      forall i | 0 <= i < |approvers| ensures Trim(approvers[i]) == "" {
        NamesMembers(approvers, Trim(approvers[i]));
      }
    } else {
      NamedApprovers(approvers, names, req.approvedBy);
    }
  }

  /** Every name of the list has approved if and only if every text has whose trimmed form is not blank. */
  lemma NamedApprovers(approvers: seq<string>, names: seq<string>, approvedBy: seq<string>)
    requires names != [] && names == Names(approvers)
    ensures exists i :: 0 <= i < |approvers| && Trim(approvers[i]) != ""
    ensures (forall k :: 0 <= k < |names| ==> Approval.Contains(approvedBy, names[k])) <==>
            forall i :: 0 <= i < |approvers| && Trim(approvers[i]) != "" ==> Trim(approvers[i]) in TrimmedNames(approvedBy)
  {
    hide Trim, Names, TrimmedNames, Approval.Contains;
    assert names[0] in names;
    NamesMembers(approvers, names[0]);
    var first :| 0 <= first < |approvers| && Trim(approvers[first]) == names[0];
    forall k | 0 <= k < |names|
      ensures exists i :: 0 <= i < |approvers| && Trim(approvers[i]) == names[k] != ""
      ensures Approval.Contains(approvedBy, names[k]) <==> names[k] in TrimmedNames(approvedBy)
    {
      assert names[k] in names;
      NamesMembers(approvers, names[k]);
      var i :| 0 <= i < |approvers| && Trim(approvers[i]) == names[k];
      TrimTwice(approvers[i]);
      ContainsIsIn(approvedBy, names[k]);
    }
    forall i | 0 <= i < |approvers| && Trim(approvers[i]) != "" ensures Trim(approvers[i]) in names {
      NamesMembers(approvers, Trim(approvers[i]));
    }
  }

  // ----- what the calls of a run tell -----

  /** A call that looks at the clock: every one but an Approve or Reject without an id. */
  predicate Looks(op: Op) { op.Evaluate? || op.List? || Trim(op.id) != "" }

  /** Whom an approval counts for. */
  function VoteOf(actor: string): string { if Trim(actor) != "" then Trim(actor) else "anonymous" }

  lemma VotesCount(actor: string)
    ensures VoteOf(actor) == Actor(actor)
  {
  }

  /** The people who approve the id before a call finds the clock past its expiry. */
  function Voters(ops: seq<Op>, id: string, expiresAt: int): set<string> {
    if ops == [] || (Looks(ops[0]) && ops[0].now > expiresAt) then {} else
      (if ops[0].Approve? && Trim(ops[0].id) == id then {VoteOf(ops[0].actor)} else {}) + Voters(ops[1..], id, expiresAt)
  }

  predicate RejectedIn(ops: seq<Op>, id: string) { exists k :: 0 <= k < |ops| && ops[k].Reject? && Trim(ops[k].id) == id }

  /** What the calls make of a stored request, one after the other. */
  function Becomes(req: Request, ops: seq<Op>, id: string): Request
    decreases |ops|
  {
    if ops == [] then req else Becomes(OnRequest(ops[0], id, req), ops[1..], id)
  }

  lemma {:induction false} RunBecomes(requests: Requests, ops: seq<Op>, hits: (Rule, EvalInput) -> bool, id: string)
    requires id in requests && OpensNone(ops, id, hits)
    ensures id in Run(requests, ops, hits) && Run(requests, ops, hits)[id] == Becomes(requests[id], ops, id)
  {
    if ops != [] {
      var init, op := ops[..|ops| - 1], ops[|ops| - 1];
      assert ops == init + [op];
      RunBecomes(requests, init, hits, id);
      ApplyPointwise(Run(requests, init, hits), op, hits, id);
      BecomesAtLast(requests[id], init, op, id);
    }
  }

  lemma {:induction false} BecomesAtLast(req: Request, ops: seq<Op>, op: Op, id: string)
    ensures Becomes(req, ops + [op], id) == OnRequest(op, id, Becomes(req, ops, id))
    decreases |ops|
  {
    hide OnRequest;
    if ops == [] {
      assert ([] + [op])[1..] == [];
      assert Becomes(OnRequest(op, id, req), [], id) == OnRequest(op, id, req);
    } else {
      assert (ops + [op])[1..] == ops[1..] + [op];
      BecomesAtLast(OnRequest(ops[0], id, req), ops[1..], op, id);
    }
  }

  lemma RejectedFirst(ops: seq<Op>, id: string)
    requires ops != []
    ensures RejectedIn(ops, id) <==> (ops[0].Reject? && Trim(ops[0].id) == id) || RejectedIn(ops[1..], id)
  {
    assert forall k :: 0 <= k < |ops| - 1 ==> ops[1..][k] == ops[k + 1];
    assert forall k :: 0 < k < |ops| ==> ops[k] == ops[1..][k - 1];
  }

  /** A request that is neither open nor approved is never granted, and an approved one until it is rejected. */
  lemma {:induction false} ClosedStays(req: Request, ops: seq<Op>, id: string)
    requires req.status != Pending && id != ""
    ensures Becomes(req, ops, id).status == Approved <==> req.status == Approved && !RejectedIn(ops, id)
    decreases |ops|
  {
    if ops != [] {
      RejectedFirst(ops, id);
      hide RejectedIn;
      ClosedStays(OnRequest(ops[0], id, req), ops[1..], id);
    }
  }

  lemma AppendedNames(names: seq<string>, actor: string)
    requires Trim(actor) == actor
    ensures TrimmedNames(AppendUnique(names, actor)) == TrimmedNames(names) + {actor}
  {
    hide Trim;
    ContainsIsIn(names, actor);
    OneMoreName(names, actor);
    hide TrimmedNames;
  }

  lemma ActorIsTrimmed(raw: string)
    ensures Trim(Actor(raw)) == Actor(raw)
  {
    TrimTwice(raw);
    TrimOfTrimmed("anonymous");
  }

  /** More people never ask for more. */
  lemma MeetsGrows(strategy: string, approvers: seq<string>, some: set<string>, more: set<string>)
    requires Meets(strategy, approvers, some) && some <= more
    ensures Meets(strategy, approvers, more)
  {
    SubsetCounts(some, more);
    hide Trim;
  }

  lemma SubsetCounts(some: set<string>, more: set<string>)
    requires some <= more
    ensures |some| <= |more|
  {
    assert more == some + (more - some);
  }

  /** An open request after one call. */
  lemma OpenStep(req: Request, op: Op, id: string, strategy: string, approvers: seq<string>, expiresAt: int)
    requires req.status == Pending && id != "" && HasTerms(req, strategy, approvers, expiresAt)
    requires !Meets(strategy, approvers, TrimmedNames(req.approvedBy))
    ensures var req', names := OnRequest(op, id, req), TrimmedNames(req.approvedBy);
            if Looks(op) && op.now > expiresAt then req'.status != Pending && req'.status != Approved
            else if op.Approve? && Trim(op.id) == id then
              && HasTerms(req', strategy, approvers, expiresAt) && TrimmedNames(req'.approvedBy) == names + {Actor(op.actor)}
              && req'.status == (if Meets(strategy, approvers, names + {Actor(op.actor)}) then Approved else Pending)
            else if op.Reject? && Trim(op.id) == id then req'.status == Rejected
            else req' == req
  {
    if op.Approve? && Trim(op.id) == id && !(Looks(op) && op.now > expiresAt) {
      ApproveOpen(req, Actor(op.actor), op.at, strategy, approvers, expiresAt) by {
        ActorIsTrimmed(op.actor);
      }
      hide Meets, Names, Actor, ApproveOne, TrimmedNames, NormalizeStrategy;
    } else {
      hide Meets, Names, Actor, ApproveOne, TrimmedNames, NormalizeStrategy;
    }
  }

  lemma ApproveOpen(req: Request, actor: string, at: int, strategy: string, approvers: seq<string>, expiresAt: int)
    requires req.status == Pending && HasTerms(req, strategy, approvers, expiresAt) && Trim(actor) == actor
    ensures var req', names := ApproveOne(req, actor, at), TrimmedNames(req.approvedBy) + {actor};
            && HasTerms(req', strategy, approvers, expiresAt) && TrimmedNames(req'.approvedBy) == names
            && req'.status == (if Meets(strategy, approvers, names) then Approved else Pending)
  {
    AppendKeepsDistinct(req.approvedBy, actor);
    AppendedNames(req.approvedBy, actor);
    var more := req.(approvedBy := AppendUnique(req.approvedBy, actor));
    SatisfiedMeets(more, strategy, approvers, expiresAt);
    hide Meets, Names, TrimmedNames, NormalizeStrategy, AppendUnique, Satisfied;
  }

  /** An open request comes to be granted if and only if it is never rejected and enough people approve it in time. */
  lemma {:induction false} OpenIsGranted(req: Request, ops: seq<Op>, id: string, strategy: string, approvers: seq<string>,
                                         expiresAt: int)
    requires req.status == Pending && id != "" && HasTerms(req, strategy, approvers, expiresAt)
    requires !Meets(strategy, approvers, TrimmedNames(req.approvedBy))
    ensures Becomes(req, ops, id).status == Approved <==>
            !RejectedIn(ops, id) && Meets(strategy, approvers, TrimmedNames(req.approvedBy) + Voters(ops, id, expiresAt))
    decreases |ops|
  {
    hide OnRequest, HasTerms, Meets, TrimmedNames, RejectedIn, Looks, Actor, VoteOf;
    var names := TrimmedNames(req.approvedBy);
    if ops == [] {
      assert names + {} == names;
    } else {
      var op, rest := ops[0], ops[1..];
      var req' := OnRequest(op, id, req);
      OpenStep(req, op, id, strategy, approvers, expiresAt);
      if op.Approve? {
        VotesCount(op.actor);
      }
      RejectedFirst(ops, id);
      if req'.status != Pending {
        ClosedStays(req', rest, id);
        if req'.status == Approved {
          MeetsGrows(strategy, approvers, names + {Actor(op.actor)}, names + Voters(ops, id, expiresAt));
        } else {
          assert Voters(ops, id, expiresAt) == {} || RejectedIn(ops, id);
          assert names + {} == names;
        }
      } else {
        OpenIsGranted(req', rest, id, strategy, approvers, expiresAt);
        assert TrimmedNames(req'.approvedBy) + Voters(rest, id, expiresAt) == names + Voters(ops, id, expiresAt);
      }
    }
  }

  lemma NewIsGranted(after: Requests, rule: Rule, now: int, nanos: nat, ops: seq<Op>, hits: (Rule, EvalInput) -> bool,
                     id: string, expiresAt: int)
    requires expiresAt == now + (if rule.expiresInSec > 900 then rule.expiresInSec else 900) * 1_000_000_000
    requires id != "" && id in after && after[id] == NewRequest(rule, now, nanos) && OpensNone(ops, id, hits)
    ensures Granted(Run(after, ops, hits), id) <==>
            !RejectedIn(ops, id) && Meets(rule.strategy, rule.approvers, Voters(ops, id, expiresAt))
  {
    var req := NewRequest(rule, now, nanos);
    hide Apply, NewRequest, Meets, Voters, HasTerms, RejectedIn, OnRequest, Run, Becomes, OpensNone;
    NewIsUnmet(rule, now, nanos, expiresAt);
    RunBecomes(after, ops, hits, id);
    OpenIsGranted(req, ops, id, rule.strategy, rule.approvers, expiresAt);
    assert TrimmedNames(req.approvedBy) + Voters(ops, id, expiresAt) == Voters(ops, id, expiresAt);
  }

  /**
    A request that a rule opened is granted at the end of a run, in which no other request takes its id, if and only if
    nobody rejects it and enough people approve it before the first call after its expiry: with the strategy "all" every
    named approver, or two people if none is named, and otherwise one.
   */
  lemma GrantedExactly(requests: Requests, input: EvalInput, rules: seq<Rule>, i: nat, now: int, nanos: nat,
                       ops: seq<Op>, hits: (Rule, EvalInput) -> bool)
    requires i < |rules| && hits(rules[i], input) && forall j :: 0 <= j < i ==> !hits(rules[j], input)
    requires "approval_request_id" in input.params ==> Trim(input.params["approval_request_id"]) == ""
    requires OpensNone(ops, "apr_" + Print(nanos), hits)
    ensures var id, rule := "apr_" + Print(nanos), rules[i];
            var expiresAt := now + (if rule.expiresInSec > 900 then rule.expiresInSec else 900) * 1_000_000_000;
            Granted(Run(requests, [Evaluate(input, rules, now, nanos)] + ops, hits), id) <==>
            !RejectedIn(ops, id) && Meets(rule.strategy, rule.approvers, Voters(ops, id, expiresAt))
  {
    var id, rule, open := "apr_" + Print(nanos), rules[i], Evaluate(input, rules, now, nanos);
    var expiresAt := now + (if rule.expiresInSec > 900 then rule.expiresInSec else 900) * 1_000_000_000;
    hide Apply, Opens, NewRequest, Meets, Voters, RejectedIn, Print, Trim, FirstHit, Run, OpensNone, Granted;
    NewIsStored(requests, input, rules, i, now, nanos, hits);
    RunFirst(requests, open, ops, hits);
    NewIsGranted(Apply(requests, open, hits), rule, now, nanos, ops, hits, id, expiresAt);
  }

  lemma NewIsStored(requests: Requests, input: EvalInput, rules: seq<Rule>, i: nat, now: int, nanos: nat,
                    hits: (Rule, EvalInput) -> bool)
    requires i < |rules| && hits(rules[i], input) && forall j :: 0 <= j < i ==> !hits(rules[j], input)
    requires "approval_request_id" in input.params ==> Trim(input.params["approval_request_id"]) == ""
    ensures var id, after := "apr_" + Print(nanos), Apply(requests, Evaluate(input, rules, now, nanos), hits);
            id != "" && id in after && after[id] == NewRequest(rules[i], now, nanos)
  {
    FirstHitIs(rules, input, hits, i);
    hide NewRequest, FirstHit, Print, Trim;
    var open := Evaluate(input, rules, now, nanos);
    assert AskedID(input) == "" && Opens(open, "apr_" + Print(nanos), hits);
    ApplyPointwise(requests, open, hits, "apr_" + Print(nanos));
  }

  lemma NewIsUnmet(rule: Rule, now: int, nanos: nat, expiresAt: int)
    requires expiresAt == now + (if rule.expiresInSec > 900 then rule.expiresInSec else 900) * 1_000_000_000
    ensures var req := NewRequest(rule, now, nanos);
            && req.status == Pending && HasTerms(req, rule.strategy, rule.approvers, expiresAt)
            && req.approvedBy == [] && TrimmedNames(req.approvedBy) == {}
            && !Meets(rule.strategy, rule.approvers, {})
  {
    hide Names, Trim;
  }

  lemma {:induction false} FirstHitIs(rules: seq<Rule>, input: EvalInput, hits: (Rule, EvalInput) -> bool, i: nat)
    requires i < |rules| && hits(rules[i], input) && forall j :: 0 <= j < i ==> !hits(rules[j], input)
    ensures FirstHit(rules, input, hits) == i
  {
  }

  lemma {:induction false} RunFirst(requests: Requests, op: Op, ops: seq<Op>, hits: (Rule, EvalInput) -> bool)
    ensures Run(requests, [op] + ops, hits) == Run(Apply(requests, op, hits), ops, hits)
  {
    hide Apply;
    if ops == [] {
      assert [op] + [] == [op] && [op][..0] == [];
      assert Run(requests, [op], hits) == Apply(Run(requests, [], hits), op, hits);
    } else {
      var init, last := ops[..|ops| - 1], ops[|ops| - 1];
      assert ([op] + ops)[..|ops|] == [op] + init;
      RunFirst(requests, op, init, hits);
    }
  }
}

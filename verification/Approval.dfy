/** The lifecycle of approval requests (cli/approval/manager.go). Times are nanoseconds. */
module Approval {
  import opened Text
  import opened FirstOfEach

  datatype Strategy = Single | All | Any

  datatype Status = Pending | Approved | Rejected | Expired

  /** `rest` stands for what only the matching of rules looks at. */
  datatype Rule = Rule(id: string, strategy: string, approvers: seq<string>, expiresInSec: int, rest: string)

  datatype Request = Request(id: string, ruleID: string, strategy: Strategy, approvers: seq<string>,
                             approvedBy: seq<string>, rejectedBy: seq<string>, status: Status,
                             createdAt: int, expiresAt: int, completedAt: Option<int>)

  type Requests = map<string, Request>

  datatype EvalInput = EvalInput(tool: string, risk: string, params: map<string, string>)

  datatype Message = NoMessage | NotFound | IsExpired | IsRejected | IsPending | Reason(ruleID: string)

  datatype EvalResult = EvalResult(requiresApproval: bool, requestID: string, message: Message)

  const SECOND := 1_000_000_000
  const REQUEST_PARAM := "approval_request_id"

  // ----- small helpers -----

  function NormalizeStrategy(s: string): (r: Strategy)
    ensures r.All? <==> Trim(s) == "all"
    ensures r.Any? <==> Trim(s) == "any"
  {
    if Trim(s) == "all" then All else if Trim(s) == "any" then Any else Single
  }

  function NameKey(v: string): Option<string> { if Trim(v) == "" then None else Some(Trim(v)) }

  function TrimAll(values: seq<string>): (r: seq<string>)
    ensures |r| == |values| && forall i :: 0 <= i < |r| ==> r[i] == Trim(values[i])
  {
    seq(|values|, i requires 0 <= i < |values| => Trim(values[i]))
  }

  /** Trimmed, without blanks and repetitions. */
  function Names(values: seq<string>): seq<string> { TrimAll(Keep(values, NameKey)) }

  method NormalizeStringList(values: seq<string>) returns (out: seq<string>)
    ensures out == Names(values)
  {
    out := [];
    var seen: set<string> := {};
    for k := 0 to |values|
      invariant out == TrimAll(Keep(values[..k], NameKey)) && seen == Keys(Keep(values[..k], NameKey), NameKey)
    {
      KeepStep(values, k, NameKey);
      var v := Trim(values[k]);
      if v == "" || v in seen {
        continue;
      }
      seen := seen + {v};
      out := out + [v];
    }
    assert values[..|values|] == values;
  }

  predicate Contains(list: seq<string>, value: string) {
    exists i :: 0 <= i < |list| && Trim(list[i]) == Trim(value)
  }

  function AppendUnique(list: seq<string>, value: string): seq<string> {
    if Contains(list, value) then list else list + [value]
  }

  function Actor(raw: string): string { if Trim(raw) == "" then "anonymous" else Trim(raw) }

  /** What a strategy asks for. */
  predicate Satisfied(req: Request) {
    match req.strategy
    case All => if req.approvers == [] then |req.approvedBy| >= 2
                else forall i :: 0 <= i < |req.approvers| ==> Contains(req.approvedBy, req.approvers[i])
    case Any => |req.approvedBy| >= 1
    case Single => |req.approvedBy| >= 1
  }

  method ApprovalSatisfied(req: Request) returns (ok: bool)
    ensures ok == Satisfied(req)
  {
    if req.strategy == All {
      if |req.approvers| == 0 {
        return |req.approvedBy| >= 2;
      }
      for i := 0 to |req.approvers|
        invariant forall k :: 0 <= k < i ==> Contains(req.approvedBy, req.approvers[k])
      {
        if !Contains(req.approvedBy, req.approvers[i]) {
          return false;
        }
      }
      return true;
    }
    ok := |req.approvedBy| >= 1;
  }

  // ----- the operations on the stored requests -----

  function ExpireOne(req: Request, now: int): Request {
    if req.status == Pending && now > req.expiresAt then req.(status := Expired, completedAt := Some(now)) else req
  }

  function ExpireAll(requests: Requests, now: int): Requests { map id | id in requests :: ExpireOne(requests[id], now) }

  function ApproveOne(req: Request, actor: string, at: int): Request {
    if req.status != Pending then req
    else
      var more := req.(approvedBy := AppendUnique(req.approvedBy, actor));
      if Satisfied(more) then more.(status := Approved, completedAt := Some(at)) else more
  }

  function RejectOne(req: Request, actor: string, at: int): Request {
    req.(rejectedBy := AppendUnique(req.rejectedBy, actor), status := Rejected, completedAt := Some(at))
  }

  function ApproveIn(requests: Requests, rawID: string, rawActor: string, now: int, at: int): Requests {
    var id, all := Trim(rawID), ExpireAll(requests, now);
    if id == "" then requests else if id !in all then all else all[id := ApproveOne(all[id], Actor(rawActor), at)]
  }

  function RejectIn(requests: Requests, rawID: string, rawActor: string, now: int, at: int): Requests {
    var id, all := Trim(rawID), ExpireAll(requests, now);
    if id == "" then requests else if id !in all then all else all[id := RejectOne(all[id], Actor(rawActor), at)]
  }

  function AskedID(input: EvalInput): string {
    if REQUEST_PARAM in input.params then Trim(input.params[REQUEST_PARAM]) else ""
  }

  /** Index of the first rule that hits, or |rules|. */
  function FirstHit(rules: seq<Rule>, input: EvalInput, hits: (Rule, EvalInput) -> bool): (i: nat)
    ensures i <= |rules| && (i < |rules| ==> hits(rules[i], input)) && forall j :: 0 <= j < i ==> !hits(rules[j], input)
  {
    if rules == [] || hits(rules[0], input) then 0 else 1 + FirstHit(rules[1..], input, hits)
  }

  /** The id of a new request is made from the clock. */
  function NewID(nanos: nat): string { "apr_" + Print(nanos) }

  function NewRequest(rule: Rule, now: int, nanos: nat): Request {
    Request(NewID(nanos), rule.id, NormalizeStrategy(rule.strategy), Names(rule.approvers), [], [], Pending, now,
            now + (if rule.expiresInSec > 900 then rule.expiresInSec else 900) * SECOND, None)
  }

  function EvaluateIn(requests: Requests, rules: seq<Rule>, input: EvalInput, hits: (Rule, EvalInput) -> bool,
                      now: int, nanos: nat): Requests {
    var all, i := ExpireAll(requests, now), FirstHit(rules, input, hits);
    if AskedID(input) != "" || i == |rules| then all else all[NewID(nanos) := NewRequest(rules[i], now, nanos)]
  }

  class Manager {
    var rules: seq<Rule>
    var requests: Requests

    constructor (rules: seq<Rule>)
      ensures this.rules == rules && requests == map[]
    {
      this.rules, requests := rules, map[];
    }

    method ExpireRequests(now: int)
      modifies this`requests
      ensures requests == ExpireAll(old(requests), now)
    {
      var left := requests.Keys;
      ghost var all := ExpireAll(requests, now);
      while left != {}
        invariant left <= requests.Keys == old(requests).Keys
        invariant forall id :: id in requests ==> requests[id] == if id in left then old(requests)[id] else all[id]
      {
        var id :| id in left;
        left := left - {id};
        var req := requests[id];
        if req.status == Pending && now > req.expiresAt {
          requests := requests[id := req.(status := Expired, completedAt := Some(now))];
        }
      }
    }

    /** With the id of a request it passes exactly when that request is approved; without one, when no rule hits. */
    method Evaluate(input: EvalInput, hits: (Rule, EvalInput) -> bool, now: int, nanos: nat) returns (r: EvalResult)
      modifies this`requests
      ensures requests == EvaluateIn(old(requests), rules, input, hits, now, nanos)
      ensures var id := if "approval_request_id" in input.params then Trim(input.params["approval_request_id"]) else "";
              && (id != "" ==> (!r.requiresApproval <==> Granted(old(requests), id)))
              && (id == "" ==> (!r.requiresApproval <==> forall k :: 0 <= k < |rules| ==> !hits(rules[k], input)))
              && (r.requiresApproval ==> r.requestID == if id != "" then id else "apr_" + Print(nanos))
              && (id in requests && id != "" ==>
                    (r.message.IsPending? <==> requests[id].status == Pending) &&
                    (r.message.IsRejected? <==> requests[id].status == Rejected) &&
                    (r.message.IsExpired? <==> requests[id].status == Expired))
    {
      ExpireRequests(now);
      var approvalID := AskedID(input);
      if approvalID != "" {
        if approvalID !in requests {
          return EvalResult(true, approvalID, NotFound);
        }
        var req := requests[approvalID];
        if req.status == Approved {
          return EvalResult(false, "", NoMessage);
        }
        if req.status == Expired {
          return EvalResult(true, approvalID, IsExpired);
        }
        if req.status == Rejected {
          return EvalResult(true, approvalID, IsRejected);
        }
        return EvalResult(true, approvalID, IsPending);
      }
      for i := 0 to |rules|
        invariant forall j :: 0 <= j < i ==> !hits(rules[j], input)
        invariant requests == ExpireAll(old(requests), now)
      {
        if !hits(rules[i], input) {
          continue;
        }
        assert i == FirstHit(rules, input, hits);
        var approvers := NormalizeStringList(rules[i].approvers);
        var expires := if rules[i].expiresInSec > 900 then rules[i].expiresInSec else 900;
        var req := Request(NewID(nanos), rules[i].id, NormalizeStrategy(rules[i].strategy), approvers, [], [], Pending,
                           now, now + expires * SECOND, None);
        requests := requests[req.id := req];
        return EvalResult(true, req.id, Reason(rules[i].id));
      }
      r := EvalResult(false, "", NoMessage);
    }

    method Approve(rawID: string, rawActor: string, now: int, at: int) returns (r: Option<Request>)
      modifies this`requests
      ensures requests == ApproveIn(old(requests), rawID, rawActor, now, at)
      ensures r == if Trim(rawID) in requests && Trim(rawID) != "" then Some(requests[Trim(rawID)]) else None
    {
      var id, actor := Trim(rawID), Trim(rawActor);
      if id == "" {
        return None;
      }
      if actor == "" {
        actor := "anonymous";
      }
      ExpireRequests(now);
      if id !in requests {
        return None;
      }
      var req := requests[id];
      if req.status != Pending {
        assert requests[id := req] == requests;
        return Some(req);
      }
      req := req.(approvedBy := AppendUnique(req.approvedBy, actor));
      var ok := ApprovalSatisfied(req);
      if ok {
        req := req.(status := Approved, completedAt := Some(at));
      }
      requests := requests[id := req];
      r := Some(req);
    }

    method Reject(rawID: string, rawActor: string, now: int, at: int) returns (r: Option<Request>)
      modifies this`requests
      ensures requests == RejectIn(old(requests), rawID, rawActor, now, at)
      ensures r == if Trim(rawID) in requests && Trim(rawID) != "" then Some(requests[Trim(rawID)]) else None
    {
      var id, actor := Trim(rawID), Trim(rawActor);
      if id == "" {
        return None;
      }
      if actor == "" {
        actor := "anonymous";
      }
      ExpireRequests(now);
      if id !in requests {
        return None;
      }
      var req := requests[id];
      req := req.(rejectedBy := AppendUnique(req.rejectedBy, actor));
      req := req.(status := Rejected, completedAt := Some(at));
      requests := requests[id := req];
      r := Some(req);
    }
  }

  predicate Granted(requests: Requests, id: string) { id in requests && requests[id].status == Approved }

  // ----- runs -----

  datatype Op =
    | Evaluate(input: EvalInput, rules: seq<Rule>, now: int, nanos: nat)
    | Approve(id: string, actor: string, now: int, at: int)
    | Reject(id: string, actor: string, now: int, at: int)
    | List(now: int)

  /** The rules in force are part of an Evaluate: SetRules may have replaced them. */
  function Apply(requests: Requests, op: Op, hits: (Rule, EvalInput) -> bool): Requests {
    match op
    case Evaluate(input, rules, now, nanos) => EvaluateIn(requests, rules, input, hits, now, nanos)
    case Approve(id, actor, now, at) => ApproveIn(requests, id, actor, now, at)
    case Reject(id, actor, now, at) => RejectIn(requests, id, actor, now, at)
    case List(now) => ExpireAll(requests, now)
  }

  function Run(requests: Requests, ops: seq<Op>, hits: (Rule, EvalInput) -> bool): Requests {
    if ops == [] then requests else Apply(Run(requests, ops[..|ops| - 1], hits), ops[|ops| - 1], hits)
  }

  /** The operation opens a request under this id. */
  predicate Opens(op: Op, id: string, hits: (Rule, EvalInput) -> bool) {
    op.Evaluate? && AskedID(op.input) == "" && FirstHit(op.rules, op.input, hits) < |op.rules| && NewID(op.nanos) == id
  }

  /** Somebody has approved this id in the run. */
  predicate HasApproved(ops: seq<Op>, id: string, actor: string) {
    exists k :: 0 <= k < |ops| && ops[k].Approve? && Trim(ops[k].id) == id && Actor(ops[k].actor) == actor
  }

  predicate Distinct(names: seq<string>) {
    forall i, j :: 0 <= i < j < |names| ==> Trim(names[i]) != Trim(names[j])
  }

  /** A stored request: nobody counts twice, it is approved only with its strategy satisfied and open only without. */
  predicate RequestOk(id: string, req: Request) {
    && req.id == id && Distinct(req.approvedBy)
    && (req.status == Approved ==> Satisfied(req))
    && (req.status == Pending ==> !Satisfied(req))
    && (req.status == Rejected ==> req.rejectedBy != [])
    && (req.completedAt.None? <==> req.status == Pending)
  }

  predicate AllOk(requests: Requests) { forall id :: id in requests ==> RequestOk(id, requests[id]) }

  predicate BackedBy(ops: seq<Op>, id: string, req: Request) {
    forall i :: 0 <= i < |req.approvedBy| ==> HasApproved(ops, id, req.approvedBy[i])
  }

  lemma AppendKeepsDistinct(names: seq<string>, value: string)
    requires Distinct(names)
    ensures Distinct(AppendUnique(names, value))
  {
  }

  lemma ExpireKeepsOk(id: string, req: Request, now: int)
    requires RequestOk(id, req)
    ensures RequestOk(id, ExpireOne(req, now))
  {
  }

  lemma ApproveKeepsOk(id: string, req: Request, actor: string, at: int)
    requires RequestOk(id, req)
    ensures RequestOk(id, ApproveOne(req, actor, at))
  {
    AppendKeepsDistinct(req.approvedBy, actor);
  }

  lemma RejectKeepsOk(id: string, req: Request, actor: string, at: int)
    requires RequestOk(id, req)
    ensures RequestOk(id, RejectOne(req, actor, at))
  {
  }

  lemma NewIsOk(rule: Rule, now: int, nanos: nat)
    ensures RequestOk(NewID(nanos), NewRequest(rule, now, nanos))
  {
    var req := NewRequest(rule, now, nanos);
    assert !Contains([], "");
    if req.approvers != [] {
      assert !Contains(req.approvedBy, req.approvers[0]);
    }
  }

  /** What an operation makes of one stored request. */
  function OnRequest(op: Op, id: string, req: Request): Request {
    match op
    case Evaluate(_, _, now, _) => ExpireOne(req, now)
    case Approve(i, actor, now, at) =>
      if Trim(i) == "" then req
      else if Trim(i) == id then ApproveOne(ExpireOne(req, now), Actor(actor), at) else ExpireOne(req, now)
    case Reject(i, actor, now, at) =>
      if Trim(i) == "" then req
      else if Trim(i) == id then RejectOne(ExpireOne(req, now), Actor(actor), at) else ExpireOne(req, now)
    case List(now) => ExpireOne(req, now)
  }

  lemma ApplyPointwise(requests: Requests, op: Op, hits: (Rule, EvalInput) -> bool, id: string)
    ensures id in Apply(requests, op, hits) <==> id in requests || Opens(op, id, hits)
    ensures id in requests && !Opens(op, id, hits) ==> Apply(requests, op, hits)[id] == OnRequest(op, id, requests[id])
    ensures Opens(op, id, hits) ==>
              Apply(requests, op, hits)[id] == NewRequest(op.rules[FirstHit(op.rules, op.input, hits)], op.now, op.nanos)
  {
  }

  lemma OnRequestKeepsOk(op: Op, id: string, req: Request)
    requires RequestOk(id, req)
    ensures RequestOk(id, OnRequest(op, id, req))
  {
    if op.Evaluate? || op.List? || Trim(op.id) != "" {
      ExpireKeepsOk(id, req, op.now);
      if op.Approve? {
        ApproveKeepsOk(id, ExpireOne(req, op.now), Actor(op.actor), op.at);
      } else if op.Reject? {
        RejectKeepsOk(id, ExpireOne(req, op.now), Actor(op.actor), op.at);
      }
    }
  }

  lemma ApplyKeepsOk(requests: Requests, op: Op, hits: (Rule, EvalInput) -> bool)
    requires AllOk(requests)
    ensures AllOk(Apply(requests, op, hits))
  {
    forall id | id in Apply(requests, op, hits) ensures RequestOk(id, Apply(requests, op, hits)[id]) {
      ApplyPointwise(requests, op, hits, id);
      if Opens(op, id, hits) {
        NewIsOk(op.rules[FirstHit(op.rules, op.input, hits)], op.now, op.nanos);
      } else {
        OnRequestKeepsOk(op, id, requests[id]);
      }
    }
  }

  lemma {:induction false} RunKeepsOk(requests: Requests, ops: seq<Op>, hits: (Rule, EvalInput) -> bool)
    requires AllOk(requests)
    ensures AllOk(Run(requests, ops, hits))
  {
    if ops != [] {
      RunKeepsOk(requests, ops[..|ops| - 1], hits);
      ApplyKeepsOk(Run(requests, ops[..|ops| - 1], hits), ops[|ops| - 1], hits);
    }
  }

  // ----- what a request may become -----

  /**
    Rejected is final, expired never becomes approved, nothing becomes pending again, the terms of a request never
    change, and its approvals are only added to, and only while it is open.
   */
  predicate MayBecome(a: Request, b: Request) {
    && b.(approvedBy := a.approvedBy, rejectedBy := a.rejectedBy, status := a.status, completedAt := a.completedAt) == a
    && a.approvedBy <= b.approvedBy && (a.status != Pending ==> b.approvedBy == a.approvedBy)
    && a.rejectedBy <= b.rejectedBy
    && match a.status
       case Pending => true
       case Approved => b.status in {Approved, Rejected}
       case Expired => b.status in {Expired, Rejected}
       case Rejected => b.status == Rejected
  }

  lemma MayBecomeIsTransitive(a: Request, b: Request, c: Request)
    requires MayBecome(a, b) && MayBecome(b, c)
    ensures MayBecome(a, c)
  {
  }

  lemma OnRequestMayBecome(op: Op, id: string, req: Request)
    ensures MayBecome(req, OnRequest(op, id, req))
  {
  }

  predicate OpensNone(ops: seq<Op>, id: string, hits: (Rule, EvalInput) -> bool) {
    forall k :: 0 <= k < |ops| ==> !Opens(ops[k], id, hits)
  }

  /** Over any run in which no new request takes its id, a request only becomes what it may. */
  lemma {:induction false} RequestsOnlyAdvance(requests: Requests, ops: seq<Op>, hits: (Rule, EvalInput) -> bool, id: string)
    requires id in requests && OpensNone(ops, id, hits)
    ensures id in Run(requests, ops, hits) && MayBecome(requests[id], Run(requests, ops, hits)[id])
  {
    if ops != [] {
      var init, op := ops[..|ops| - 1], ops[|ops| - 1];
      RequestsOnlyAdvance(requests, init, hits, id);
      var before := Run(requests, init, hits);
      ApplyPointwise(before, op, hits, id);
      OnRequestMayBecome(op, id, before[id]);
      MayBecomeIsTransitive(requests[id], before[id], Run(requests, ops, hits)[id]);
    }
  }

  /** A closed request is pending again after an operation if and only if a new request took its id. */
  lemma ReopenedOnlyByCollision(requests: Requests, op: Op, hits: (Rule, EvalInput) -> bool, id: string)
    requires id in requests && requests[id].status != Pending
    ensures id in Apply(requests, op, hits)
    ensures Apply(requests, op, hits)[id].status == Pending <==> Opens(op, id, hits)
  {
    ApplyPointwise(requests, op, hits, id);
    if !Opens(op, id, hits) {
      OnRequestMayBecome(op, id, requests[id]);
    }
  }

  /** Two requests opened within one nanosecond: the first is rejected, and pending again once the second is there. */
  lemma RejectedIsOpenAgain(rule: Rule, input: EvalInput, hits: (Rule, EvalInput) -> bool, now: int, nanos: nat)
    requires hits(rule, input) && input.params == map[]
    ensures var open := Evaluate(input, [rule], now, nanos);
            var reject := Reject(NewID(nanos), "somebody", now, now);
            var before, after := Run(map[], [open, reject], hits), Run(map[], [open, reject, open], hits);
            && NewID(nanos) in before && before[NewID(nanos)].status == Rejected
            && NewID(nanos) in after && after[NewID(nanos)].status == Pending
  {
    var open, id := Evaluate(input, [rule], now, nanos), NewID(nanos);
    var reject := Reject(id, "somebody", now, now);
    assert FirstHit([rule], input, hits) == 0 && AskedID(input) == "" && Opens(open, id, hits);
    NewIDIsTrimmed(nanos);
    var none, one: Requests := map[], Apply(map[], open, hits);
    var two := Apply(one, reject, hits);
    RunOfThree(open, reject, hits);
    ApplyPointwise(none, open, hits, id);
    ApplyPointwise(one, reject, hits, id);
    ApplyPointwise(two, open, hits, id);
  }

  lemma NewIDIsTrimmed(nanos: nat)
    ensures Trim(NewID(nanos)) == NewID(nanos) != ""
  {
    var d := Print(nanos);
    assert IsDigit(d[|d| - 1]);
    TrimOfTrimmed(NewID(nanos));
  }

  lemma RunOfThree(a: Op, b: Op, hits: (Rule, EvalInput) -> bool)
    ensures Run(map[], [a, b], hits) == Apply(Apply(map[], a, hits), b, hits)
    ensures Run(map[], [a, b, a], hits) == Apply(Apply(Apply(map[], a, hits), b, hits), a, hits)
  {
    hide Apply;
    assert [a, b, a][..2] == [a, b] && [a, b][..1] == [a] && [a][..0] == [];
    assert Run(map[], [a], hits) == Apply(Run(map[], [], hits), a, hits);
    assert Run(map[], [a, b], hits) == Apply(Run(map[], [a], hits), b, hits);
  }

  /** A request becomes approved only by an approval that is in time. */
  lemma ApprovedInTime(requests: Requests, op: Op, hits: (Rule, EvalInput) -> bool, id: string)
    requires id in requests && requests[id].status != Approved && Granted(Apply(requests, op, hits), id)
    ensures op.Approve? && Trim(op.id) == id && requests[id].status == Pending && op.now <= requests[id].expiresAt
  {
    ApplyPointwise(requests, op, hits, id);
  }

  // ----- whose approvals count -----

  lemma HasApprovedGrows(ops: seq<Op>, op: Op, id: string, actor: string)
    requires HasApproved(ops, id, actor)
    ensures HasApproved(ops + [op], id, actor)
  {
    var k :| 0 <= k < |ops| && ops[k].Approve? && Trim(ops[k].id) == id && Actor(ops[k].actor) == actor;
    assert (ops + [op])[k] == ops[k];
  }

  lemma BackedByGrows(ops: seq<Op>, op: Op, id: string, req: Request)
    requires BackedBy(ops, id, req)
    ensures BackedBy(ops + [op], id, OnRequest(op, id, req))
  {
    var all := OnRequest(op, id, req).approvedBy;
    forall i | 0 <= i < |all| ensures HasApproved(ops + [op], id, all[i]) {
      if i < |req.approvedBy| {
        assert all[i] == req.approvedBy[i];
        HasApprovedGrows(ops, op, id, all[i]);
      } else {
        assert (ops + [op])[|ops|] == op;
      }
    }
  }

  /** Every name that counts as an approval of a request is that of somebody who has approved it. */
  lemma {:induction false} ApprovalsAreBacked(ops: seq<Op>, hits: (Rule, EvalInput) -> bool, id: string)
    requires id in Run(map[], ops, hits)
    ensures BackedBy(ops, id, Run(map[], ops, hits)[id])
  {
    if ops != [] {
      var init, op := ops[..|ops| - 1], ops[|ops| - 1];
      var before := Run(map[], init, hits);
      assert ops == init + [op];
      ApplyPointwise(before, op, hits, id);
      if !Opens(op, id, hits) {
        ApprovalsAreBacked(init, hits, id);
        BackedByGrows(init, op, id, before[id]);
      }
    }
  }

  /**
    What the executor relies on: when an id is granted, its strategy has been met by different people, each of whom
    approved that id: all named approvers, two if none are named for "all", one for the other strategies.
   */
  lemma GrantedMeansApproved(ops: seq<Op>, hits: (Rule, EvalInput) -> bool, id: string)
    requires Granted(Run(map[], ops, hits), id)
    ensures var req := Run(map[], ops, hits)[id];
            && Distinct(req.approvedBy) && BackedBy(ops, id, req)
            && (req.strategy == All && req.approvers != [] ==>
                  forall i :: 0 <= i < |req.approvers| ==>
                    exists name :: Trim(name) == Trim(req.approvers[i]) && HasApproved(ops, id, name))
            && (req.strategy == All && req.approvers == [] ==> |req.approvedBy| >= 2)
            && |req.approvedBy| >= 1
  {
    RunKeepsOk(map[], ops, hits);
    ApprovalsAreBacked(ops, hits, id);
    var req := Run(map[], ops, hits)[id];
    if req.strategy == All && req.approvers != [] {
      forall i | 0 <= i < |req.approvers|
        ensures exists name :: Trim(name) == Trim(req.approvers[i]) && HasApproved(ops, id, name)
      {
        assert Contains(req.approvedBy, req.approvers[i]);
        var k :| 0 <= k < |req.approvedBy| && Trim(req.approvedBy[k]) == Trim(req.approvers[i]);
        assert HasApproved(ops, id, req.approvedBy[k]);
      }
      assert Contains(req.approvedBy, req.approvers[0]);
    }
  }
}

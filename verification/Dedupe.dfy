/**
  The deduplication cache (cli/gateway/reliability.go): keys with an expiry time, purged on every call.
 */
module Dedupe {

  type Time = int

  type Items = map<string, Time>

  /** What purge leaves: it deletes what `now` is after, so an entry outlives its expiry instant. */
  function Purged(m: Items, now: Time): Items { map k | k in m && now <= m[k] :: m[k] }

  /** What Seen and Exists look for. */
  predicate Live(m: Items, key: string, now: Time) { key in m && now < m[key] }

  datatype Op = Seen(key: string, ttl: int) | Exists(key: string) | Mark(key: string, ttl: int)

  datatype Call = Call(at: Time, op: Op)

  datatype Outcome = Outcome(items: Items, answer: bool)

  /** An operation on items that have been purged, or not. */
  function Answer(m: Items, c: Call): Outcome {
    if c.op.key == "" then Outcome(m, false) else
      match c.op
      case Seen(key, ttl) =>
        if Live(m, key, c.at) then Outcome(m, true) else Outcome(m[key := c.at + ttl], false)
      case Exists(key) => Outcome(m, Live(m, key, c.at))
      case Mark(key, ttl) => Outcome(m[key := c.at + ttl], false)
  }

  /** The cache as it is: it purges first. */
  function Step(m: Items, c: Call): Outcome {
    if c.op.key == "" then Outcome(m, false) else Answer(Purged(m, c.at), c)
  }

  class DedupeCache {
    var items: Items

    constructor ()
      ensures items == map[]
    {
      items := map[];
    }

    method Purge(now: Time)
      modifies this
      ensures items == Purged(old(items), now)
    {
      var keys := items.Keys;
      while keys != {}
        invariant keys <= old(items).Keys
        invariant items == map k | k in old(items) && (k in keys || now <= old(items)[k]) :: old(items)[k]
        decreases |keys|
      {
        var k :| k in keys;
        if now > items[k] {
          items := items - {k};
        }
        keys := keys - {k};
      }
    }

    method SeenKey(key: string, ttl: int, now: Time) returns (seen: bool)
      modifies this
      ensures Outcome(items, seen) == Step(old(items), Call(now, Seen(key, ttl)))
    {
      if key == "" {
        return false;
      }
      Purge(now);
      if key in items && now < items[key] {
        return true;
      }
      items := items[key := now + ttl];
      seen := false;
    }

    method ExistsKey(key: string, now: Time) returns (exists_: bool)
      modifies this
      ensures Outcome(items, exists_) == Step(old(items), Call(now, Exists(key)))
    {
      if key == "" {
        return false;
      }
      Purge(now);
      exists_ := key in items && now < items[key];
    }

    method MarkKey(key: string, ttl: int, now: Time)
      modifies this
      ensures Outcome(items, false) == Step(old(items), Call(now, Mark(key, ttl)))
    {
      if key == "" {
        return;
      }
      Purge(now);
      items := items[key := now + ttl];
    }
  }

  // ----- runs on a clock that does not go back -----

  predicate InOrder(calls: seq<Call>, start: Time)
    decreases |calls|
  {
    calls == [] || (start <= calls[0].at && InOrder(calls[1..], calls[0].at))
  }

  function Answers(m: Items, calls: seq<Call>): seq<bool>
    decreases |calls|
  {
    if calls == [] then [] else
      var o := Step(m, calls[0]);
      [o.answer] + Answers(o.items, calls[1..])
  }

  function AnswersUnpurged(m: Items, calls: seq<Call>): seq<bool>
    decreases |calls|
  {
    if calls == [] then [] else
      var o := Answer(m, calls[0]);
      [o.answer] + AnswersUnpurged(o.items, calls[1..])
  }

  /** From `now` on, m and n show the same. */
  ghost predicate Alike(m: Items, n: Items, now: Time) {
    forall k :: (Live(m, k, now) <==> Live(n, k, now)) && (Live(m, k, now) ==> m[k] == n[k])
  }

  lemma StepsAlike(m: Items, n: Items, c: Call, start: Time)
    requires Alike(m, n, start) && start <= c.at
    ensures Step(m, c).answer == Answer(n, c).answer
    ensures Alike(Step(m, c).items, Answer(n, c).items, c.at)
  {
    var p := if c.op.key == "" then m else Purged(m, c.at);
    forall k ensures Live(p, k, c.at) <==> Live(n, k, c.at) {
      assert (Live(m, k, start) <==> Live(n, k, start)) && (Live(m, k, start) ==> m[k] == n[k]);
    }
    forall k | Live(p, k, c.at) ensures p[k] == n[k] {
      assert Live(m, k, start);
    }
  }

  /** The purging cache answers every sequence of calls like one that never purges. */
  lemma {:induction false} PurgingIsUnobservable(m: Items, n: Items, calls: seq<Call>, start: Time)
    requires Alike(m, n, start) && InOrder(calls, start)
    ensures Answers(m, calls) == AnswersUnpurged(n, calls)
    decreases |calls|
  {
    if calls != [] {
      StepsAlike(m, n, calls[0], start);
      PurgingIsUnobservable(Step(m, calls[0]).items, Answer(n, calls[0]).items, calls[1..], calls[0].at);
    }
  }

  function Reached(m: Items, calls: seq<Call>): Items
    decreases |calls|
  {
    if calls == [] then m else Reached(Step(m, calls[0]).items, calls[1..])
  }

  /** No Mark of the key among the calls moves its expiry to before `until`. */
  predicate NotShortened(calls: seq<Call>, key: string, until: Time) {
    forall c :: c in calls && c.op.Mark? && c.op.key == key ==> until <= c.at + c.op.ttl
  }

  /** As long as the clock is before `until`, a key that expires no earlier stays seen. */
  lemma {:induction false} StaysSeen(m: Items, calls: seq<Call>, key: string, until: Time, start: Time)
    requires key in m && until <= m[key] && InOrder(calls, start) && NotShortened(calls, key, until)
    requires forall c :: c in calls ==> c.at < until
    ensures key in Reached(m, calls) && until <= Reached(m, calls)[key]
    decreases |calls|
  {
    if calls != [] {
      var c, rest := calls[0], calls[1..];
      assert c in calls && forall x :: x in rest ==> x in calls;
      StaysSeen(Step(m, c).items, rest, key, until, c.at);
    }
  }

  /**
    Two calls of Seen that accept the same key are at least the first one's TTL apart, unless a Mark of that
    key between them moves its expiry forward.
   */
  lemma AcceptedSeensAreApart(m: Items, first: Call, between: seq<Call>, second: Call)
    requires first.op.Seen? && second.op.Seen? && first.op.key == second.op.key != ""
    requires InOrder([first] + between + [second], first.at)
    requires !Step(m, first).answer
    requires !Step(Reached(Step(m, first).items, between), second).answer
    requires NotShortened(between, first.op.key, first.at + first.op.ttl)
    ensures first.at + first.op.ttl <= second.at
  {
    var m', key, until := Step(m, first).items, first.op.key, first.at + first.op.ttl;
    if second.at < until {
      var calls := between + [second];
      assert ([first] + between + [second])[1..] == calls;
      TimesBound(between, first.at, second);
      StaysSeen(m', between, key, until, first.at);
      assert Live(Purged(Reached(m', between), second.at), key, second.at);
    }
  }

  predicate NoMark(calls: seq<Call>) { forall c :: c in calls ==> !c.op.Mark? }

  lemma {:induction false} AnswerAt(m: Items, calls: seq<Call>, k: nat)
    requires k < |calls|
    ensures |Answers(m, calls)| == |calls|
    ensures Answers(m, calls)[k] == Step(Reached(m, calls[..k]), calls[k]).answer
    decreases |calls|
  {
    if k == 0 {
      assert calls[..0] == [];
      if |calls| > 1 {
        AnswerAt(Step(m, calls[0]).items, calls[1..], 0);
      }
    } else {
      assert calls[..k][1..] == calls[1..][..k - 1];
      AnswerAt(Step(m, calls[0]).items, calls[1..], k - 1);
    }
  }

  lemma {:induction false} ReachedLater(m: Items, a: seq<Call>, b: seq<Call>)
    ensures Reached(m, a + b) == Reached(Reached(m, a), b)
    decreases |a|
  {
    if a == [] {
      assert a + b == b;
    } else {
      assert (a + b)[1..] == a[1..] + b;
      ReachedLater(Step(m, a[0]).items, a[1..], b);
    }
  }

  lemma {:induction false} InOrderFrom(calls: seq<Call>, start: Time, i: nat, j: nat)
    requires InOrder(calls, start) && i < j <= |calls|
    ensures InOrder(calls[i..j], calls[i].at)
    decreases |calls|, j
  {
    if i > 0 {
      assert calls[i..j] == calls[1..][i - 1..j - 1];
      InOrderFrom(calls[1..], calls[0].at, i - 1, j - 1);
    } else {
      assert calls[0..j][1..] == calls[1..][..j - 1];
      if j > 1 {
        InOrderFrom(calls[1..], calls[0].at, 0, j - 1);
        assert calls[1..][0..j - 1] == calls[1..][..j - 1];
      }
    }
  }

  lemma Between<T>(s: seq<T>, i: nat, j: nat)
    requires i < j < |s|
    ensures s[..j] == s[..i] + ([s[i]] + s[i + 1..j])
    ensures s[i..j + 1] == [s[i]] + s[i + 1..j] + [s[j]]
  {
  }

  /** A cache that is never marked accepts a key again only when the TTL it was accepted with is over. */
  lemma UnmarkedSeensAreApart(calls: seq<Call>, start: Time, i: nat, j: nat)
    requires InOrder(calls, start) && NoMark(calls) && i < j < |calls| == |Answers(map[], calls)|
    requires calls[i].op.Seen? && calls[j].op.Seen? && calls[i].op.key == calls[j].op.key != ""
    requires !Answers(map[], calls)[i] && !Answers(map[], calls)[j]
    ensures calls[i].at + calls[i].op.ttl <= calls[j].at
  {
    hide Step, Answers;
    var before, between := calls[..i], calls[i + 1..j];
    AnswerAt(map[], calls, i);
    AnswerAt(map[], calls, j);
    InOrderFrom(calls, start, i, j + 1);
    Between(calls, i, j);
    ReachedLater(map[], before, [calls[i]] + between);
    assert ([calls[i]] + between)[1..] == between;
    assert forall c :: c in between ==> c in calls;
    AcceptedSeensAreApart(Reached(map[], before), calls[i], between, calls[j]);
  }

  lemma {:induction false} TimesBound(calls: seq<Call>, start: Time, last: Call)
    requires InOrder(calls + [last], start)
    ensures InOrder(calls, start) && forall c :: c in calls ==> c.at <= last.at
    ensures start <= last.at
    decreases |calls|
  {
    if calls != [] {
      assert (calls + [last])[1..] == calls[1..] + [last];
      TimesBound(calls[1..], calls[0].at, last);
    }
  }

  /** The expiry of a key after the calls, told from the calls alone: the last Mark or accepted Seen sets it. */
  function ExpiryAfter(calls: seq<Call>, key: string, expiry: Time): Time
    decreases |calls|
  {
    if calls == [] then expiry else ExpiryAfter(calls[1..], key, NextExpiry(calls[0], key, expiry))
  }

  function NextExpiry(c: Call, key: string, expiry: Time): Time {
    if c.op.key == key && (c.op.Mark? || (c.op.Seen? && expiry <= c.at)) then c.at + c.op.ttl else expiry
  }

  /** From `now` on the key is live until its expiry and not after. */
  ghost predicate LiveUntil(m: Items, key: string, now: Time, expiry: Time) {
    forall t: Time :: now <= t ==> (Live(m, key, t) <==> t < expiry)
  }

  function EndOf(calls: seq<Call>, start: Time): Time { if calls == [] then start else calls[|calls| - 1].at }

  lemma StepKeepsExpiry(m: Items, c: Call, key: string, expiry: Time, start: Time)
    requires key != "" && LiveUntil(m, key, start, expiry) && start <= c.at
    ensures LiveUntil(Step(m, c).items, key, c.at, NextExpiry(c, key, expiry))
  {
    assert Live(m, key, c.at) <==> c.at < expiry;
    forall t: Time | c.at <= t
      ensures Live(Step(m, c).items, key, t) <==> t < NextExpiry(c, key, expiry)
    {
      assert Live(m, key, t) <==> t < expiry;
    }
  }

  lemma {:induction false} ReachedKeepsExpiry(m: Items, calls: seq<Call>, key: string, expiry: Time, start: Time)
    requires key != "" && LiveUntil(m, key, start, expiry) && InOrder(calls, start)
    ensures LiveUntil(Reached(m, calls), key, EndOf(calls, start), ExpiryAfter(calls, key, expiry))
    decreases |calls|
  {
    if calls != [] {
      StepKeepsExpiry(m, calls[0], key, expiry, start);
      var next := NextExpiry(calls[0], key, expiry);
      ReachedKeepsExpiry(Step(m, calls[0]).items, calls[1..], key, next, calls[0].at);
      assert EndOf(calls[1..], calls[0].at) == EndOf(calls, start);
    }
  }

  /** Every answer is told by the calls before: a key has been seen exactly until its expiry. */
  lemma AnswersAreTold(calls: seq<Call>, start: Time, k: nat)
    requires InOrder(calls, start) && k < |calls|
    ensures |Answers(map[], calls)| == |calls|
    ensures Answers(map[], calls)[k] <==>
            calls[k].op.key != "" && !calls[k].op.Mark? && calls[k].at < ExpiryAfter(calls[..k], calls[k].op.key, start)
  {
    var c, key, before := calls[k], calls[k].op.key, calls[..k];
    AnswerAt(map[], calls, k);
    OrderedBefore(calls, start, k);
    if key != "" {
      var m: Items := map[];
      assert LiveUntil(m, key, start, start);
      ReachedKeepsExpiry(m, before, key, start, start);
      hide Reached, Answers, ExpiryAfter, InOrder;
      assert Live(Reached(m, before), key, c.at) <==> c.at < ExpiryAfter(before, key, start);
    }
  }

  lemma {:induction false} OrderedBefore(calls: seq<Call>, start: Time, k: nat)
    requires InOrder(calls, start) && k < |calls|
    ensures InOrder(calls[..k], start) && EndOf(calls[..k], start) <= calls[k].at
    decreases k
  {
    if k > 0 {
      assert calls[..k][1..] == calls[1..][..k - 1];
      OrderedBefore(calls[1..], calls[0].at, k - 1);
      assert EndOf(calls[..k], start) == EndOf(calls[1..][..k - 1], calls[0].at);
    }
  }

  /** A call with a key drops exactly the other entries that had expired before it; a call without one drops nothing. */
  lemma ExpiredAreDropped(m: Items, calls: seq<Call>, last: Call)
    ensures var before, after := Reached(m, calls), Reached(m, calls + [last]);
            && (last.op.key == "" ==> after == before)
            && (last.op.key != "" ==> forall k :: k != last.op.key ==>
                  (k in after <==> k in before && last.at <= before[k]) && (k in after ==> after[k] == before[k]))
  {
    ReachedLater(m, calls, [last]);
    assert [last][1..] == [];
    assert Reached(Reached(m, calls), [last]) == Step(Reached(m, calls), last).items;
  }

  /** However the calls between them go, a later Seen of the key is accepted only at `until` or later. */
  ghost predicate LaterSeensWait(m: Items, between: seq<Call>, key: string, start: Time, until: Time) {
    forall t: Time, ttl: int ::
      EndOf(between, start) <= t && !Step(Reached(m, between), Call(t, Seen(key, ttl))).answer ==> until <= t
  }

  lemma SeenAnswers(m: Items, key: string, t: Time, ttl: int, now: Time, expiry: Time)
    requires key != "" && LiveUntil(m, key, now, expiry) && now <= t
    ensures Step(m, Call(t, Seen(key, ttl))).answer <==> t < expiry
  {
    assert Live(m, key, t) <==> t < expiry;
  }

  /** Accepted calls of Seen are a TTL apart exactly when the calls between them leave the key's expiry where it was or later. */
  lemma SeensAreApartExactly(m: Items, first: Call, between: seq<Call>)
    requires first.op.Seen? && first.op.key != "" && !Step(m, first).answer && first.op.ttl >= 0
    requires InOrder(between, first.at) && EndOf(between, first.at) < first.at + first.op.ttl
    ensures var key, until := first.op.key, first.at + first.op.ttl;
            LaterSeensWait(Step(m, first).items, between, key, first.at, until) <==> until <= ExpiryAfter(between, key, until)
  {
    var m', key, until := Step(m, first).items, first.op.key, first.at + first.op.ttl;
    assert LiveUntil(m', key, first.at, until);
    ReachedKeepsExpiry(m', between, key, until, first.at);
    var end, expiry := EndOf(between, first.at), ExpiryAfter(between, key, until);
    forall t: Time, ttl: int | end <= t
      ensures Step(Reached(m', between), Call(t, Seen(key, ttl))).answer <==> t < expiry
    {
      SeenAnswers(Reached(m', between), key, t, ttl, end, expiry);
    }
    if expiry < until {
      var t := if end <= expiry then expiry else end;
      assert !Step(Reached(m', between), Call(t, Seen(key, 0))).answer;
    }
  }

  /** The exception is real: a Mark with a short TTL lets the same key be accepted again early. */
  lemma MarkShortens()
    ensures var calls := [Call(0, Seen("k", 10)), Call(1, Mark("k", 1)), Call(5, Seen("k", 10))];
            Answers(map[], calls) == [false, false, false]
  {
    var m0: Items := map[];
    var m1: Items := map["k" := 10];
    var m2: Items := map["k" := 2];
    var c0, c1, c2 := Call(0, Seen("k", 10)), Call(1, Mark("k", 1)), Call(5, Seen("k", 10));
    assert Step(m0, c0) == Outcome(m1, false);
    assert Step(m1, c1) == Outcome(m2, false);
    assert !Step(m2, c2).answer;
    assert [c0, c1, c2][1..] == [c1, c2] && [c1, c2][1..] == [c2] && [c2][1..] == [];
    assert Answers(m2, [c2]) == [false];
    assert Answers(m1, [c1, c2]) == [false, false];
  }
}

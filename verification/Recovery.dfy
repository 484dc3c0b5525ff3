/**
  Crash recovery (cli/engine/service.go) on top of the lane queue.

  SendMessage stores a user message and then enqueues the task that answers it; the task stores one
  assistant message.  After a crash only the transcripts are left, and recovery rebuilds the outstanding
  work from them.  An envelope is named by the user message it carries, and a lane by its session.
 */
module Recovery {
  import opened LaneQueue

  type SessionId = LaneId
  type MsgId = EnvId

  /** ListMessages is called with this limit; it returns the oldest messages. */
  const RECOVERY_LIMIT := 10000

  datatype Role = User | Assistant | Other

  /** A stored message.  `answers` is a history: the user message an assistant message was produced for. */
  datatype Msg = Msg(id: MsgId, role: Role, answers: MsgId)

  // ----- transcripts -----

  function UserIds(m: seq<Msg>): seq<MsgId> {
    if m == [] then [] else
      var rest := UserIds(m[..|m| - 1]);
      if m[|m| - 1].role.User? then rest + [m[|m| - 1].id] else rest
  }

  function Answers(m: seq<Msg>): seq<MsgId> {
    if m == [] then [] else
      var rest := Answers(m[..|m| - 1]);
      if m[|m| - 1].role.Assistant? then rest + [m[|m| - 1].answers] else rest
  }

  /** collectPendingUserMessages: a user message joins the line, an assistant message dismisses the head of the line. */
  function Pending(m: seq<Msg>): seq<MsgId> {
    if m == [] then [] else
      var line := Pending(m[..|m| - 1]);
      match m[|m| - 1].role
      case User => line + [m[|m| - 1].id]
      case Assistant => if line != [] then line[1..] else line
      case Other => line
  }

  /** How many more user than assistant messages there are. */
  function Excess(m: seq<Msg>): int { |UserIds(m)| - |Answers(m)| }

  /** A transcript in which the n-th assistant message answers the n-th user message, and comes after it. */
  predicate Orderly(m: seq<Msg>) {
    m == [] ||
    var init, last := m[..|m| - 1], m[|m| - 1];
    && Orderly(init)
    && (last.role.Assistant? ==>
          |Answers(init)| < |UserIds(init)| && last.answers == UserIds(init)[|Answers(init)|])
  }

  lemma Appended(m: seq<Msg>, x: Msg)
    ensures UserIds(m + [x]) == UserIds(m) + (if x.role.User? then [x.id] else [])
    ensures Answers(m + [x]) == Answers(m) + (if x.role.Assistant? then [x.answers] else [])
    ensures Orderly(m + [x]) <==> Orderly(m) && (x.role.Assistant? ==>
              |Answers(m)| < |UserIds(m)| && x.answers == UserIds(m)[|Answers(m)|])
    ensures Pending(m + [x]) ==
              match x.role
              case User => Pending(m) + [x.id]
              case Assistant => if Pending(m) != [] then Pending(m)[1..] else []
              case Other => Pending(m)
  {
    assert (m + [x])[..|m|] == m;
  }

  lemma DistinctAppend(s: seq<MsgId>, x: MsgId)
    ensures Distinct(s + [x]) <==> Distinct(s) && x !in s
  {
    var t := s + [x];
    if Distinct(t) {
      assert forall i :: 0 <= i < |s| ==> t[i] == s[i] && t[i] != t[|s|];
    }
  }

  lemma DistinctPart(a: seq<MsgId>, b: seq<MsgId>)
    requires Distinct(a + b)
    ensures Distinct(a) && Distinct(b) && forall e :: e in b ==> e !in a
  {
    var s := a + b;
    assert forall i :: 0 <= i < |a| ==> s[i] == a[i];
    assert forall i :: 0 <= i < |b| ==> s[|a| + i] == b[i];
  }

  /** The transcript lemma: the line is exactly the user messages without a recorded reply, in order. */
  lemma {:induction false} PendingIsUnanswered(m: seq<Msg>)
    requires Orderly(m)
    ensures Answers(m) <= UserIds(m)
    ensures Pending(m) == UserIds(m)[|Answers(m)|..]
  {
    if m != [] {
      PendingIsUnanswered(m[..|m| - 1]);
    }
  }

  lemma {:induction false} Concatenated(m: seq<Msg>, t: seq<Msg>)
    ensures UserIds(m + t) == UserIds(m) + UserIds(t)
    ensures Answers(m + t) == Answers(m) + Answers(t)
    ensures Orderly(m + t) ==> Orderly(m)
  {
    if t == [] {
      assert m + t == m;
    } else {
      assert (m + t)[..|m + t| - 1] == m + t[..|t| - 1];
      Concatenated(m, t[..|t| - 1]);
    }
  }

  lemma Snoc<T>(m: seq<T>, k: nat, i: nat)
    requires k <= i < |m|
    ensures m[k..i] + [m[i]] == m[k..i + 1]
  {
  }

  /** Excess of user over assistant messages in messages k to i. */
  function ExcessIn(m: seq<Msg>, k: nat, i: nat): int
    requires k <= i <= |m|
  {
    Excess(m[k..i])
  }

  function Weight(x: Msg): int { match x.role case User => 1 case Assistant => -1 case Other => 0 }

  lemma ExcessGrows(m: seq<Msg>, k: nat, i: nat)
    requires k <= i < |m|
    ensures ExcessIn(m, k, i + 1) == ExcessIn(m, k, i) + Weight(m[i])
  {
    Snoc(m, k, i);
    Appended(m[k..i], m[i]);
  }

  /** n is the largest excess of any tail of the first i messages. */
  ghost predicate LargestExcess(m: seq<Msg>, i: nat, n: nat)
    requires i <= |m|
  {
    && (exists k: nat :: k <= i && ExcessIn(m, k, i) == n)
    && (forall k: nat :: k <= i ==> ExcessIn(m, k, i) <= n)
  }

  lemma LargestExcessGrows(m: seq<Msg>, i: nat, n: nat)
    requires i < |m| && LargestExcess(m, i, n)
    ensures LargestExcess(m, i + 1, if n + Weight(m[i]) >= 0 then n + Weight(m[i]) else 0)
  {
    var n' := if n + Weight(m[i]) >= 0 then n + Weight(m[i]) else 0;
    assert ExcessIn(m, i + 1, i + 1) == 0;
    var j := i + 1;
    forall k: nat | k <= j ensures ExcessIn(m, k, j) <= n' {
      if k <= i { ExcessGrows(m, k, i); }
    }
    var k: nat :| k <= i && ExcessIn(m, k, i) == n;
    ExcessGrows(m, k, i);
    assert ExcessIn(m, if n + Weight(m[i]) >= 0 then k else i + 1, i + 1) == n';
  }

  lemma NoExcessYet(m: seq<Msg>)
    ensures LargestExcess(m, 0, 0)
  {
    assert ExcessIn(m, 0, 0) == 0;
  }

  lemma {:induction false} PendingIsATail(m: seq<Msg>)
    ensures var p, u := Pending(m), UserIds(m); |p| <= |u| && p == u[|u| - |p|..]
  {
    if m != [] {
      PendingIsATail(m[..|m| - 1]);
    }
  }

  /**
    The loop of collectPendingUserMessages, on any transcript: it returns the last `n` user messages, where
    `n` is the largest excess of user over assistant messages in any tail of the transcript.
   */
  method CollectPendingUserMessages(messages: seq<Msg>) returns (pending: seq<MsgId>)
    ensures pending == Pending(messages)
    ensures LargestExcess(messages, |messages|, |pending|)
    ensures |pending| <= |UserIds(messages)| && pending == UserIds(messages)[|UserIds(messages)| - |pending|..]
  {
    hide LargestExcess, Excess;
    pending := [];
    NoExcessYet(messages);
    for i := 0 to |messages|
      invariant pending == Pending(messages[..i])
      invariant LargestExcess(messages, i, |pending|)
    {
      var msg := messages[i];
      Snoc(messages, 0, i);
      Appended(messages[..i], msg);
      LargestExcessGrows(messages, i, |pending|);
      ghost var before := |pending|;
      match msg.role {
        case User => pending := pending + [msg.id];
        case Assistant =>
          if |pending| > 0 {
            pending := pending[1..];
          }
        case Other =>
      }
      assert |pending| == if before + Weight(msg) >= 0 then before + Weight(msg) else 0;
    }
    assert messages[..|messages|] == messages;
    PendingIsATail(messages);
  }

  // ----- the recovery limit -----

  function Listed(m: seq<Msg>): seq<Msg> { if |m| <= RECOVERY_LIMIT then m else m[..RECOVERY_LIMIT] }

  /**
    The messages from number 10001 on, which recovery does not read, have as many replies as user messages, and if they
    have any, so have the first 10000.
   */
  predicate ListsEnough(m: seq<Msg>) {
    |m| > 10000 ==>
      var listed, rest := m[..10000], m[10000..];
      && |UserIds(rest)| == |Answers(rest)|
      && (|UserIds(rest)| == 0 || |UserIds(listed)| == |Answers(listed)|)
  }

  /** When reading only the oldest messages finds the right line. */
  lemma ListedPendingIsRight(m: seq<Msg>)
    requires Orderly(m) && Distinct(UserIds(m))
    ensures Pending(Listed(m)) == Pending(m) <==> ListsEnough(m)
  {
    hide Orderly, Pending, UserIds, Answers;
    var p, tail := Listed(m), m[|Listed(m)|..];
    assert p + tail == m;
    Concatenated(p, tail);
    PendingIsUnanswered(p);
    PendingIsUnanswered(m);
    var n := |UserIds(tail)|;
    if n == |Answers(tail)| {
      assert |Pending(p)| == |Pending(m)|;
      if n > 0 && Pending(p) != [] {
        assert Pending(p)[0] == UserIds(m)[|Answers(p)|];
        assert Pending(m)[0] == UserIds(m)[|Answers(m)|];
      }
    }
  }

  /** n user messages, each followed by its reply. */
  function Answered(n: nat): seq<Msg> {
    if n == 0 then [] else Answered(n - 1) + [Msg(2 * n - 2, User, 0), Msg(2 * n - 1, Assistant, 2 * n - 2)]
  }

  lemma {:induction false} AnsweredIsOrderly(n: nat)
    ensures var m := Answered(n);
            && |m| == 2 * n && Orderly(m) && Distinct(UserIds(m)) && Pending(m) == []
            && UserIds(m) == Answers(m) && forall e :: e in UserIds(m) ==> e < 2 * n
  {
    if n > 0 {
      hide Orderly, Distinct, Pending, UserIds, Answers, Answered;
      AnsweredIsOrderly(n - 1);
      AnsweredGrows(Answered(n - 1), 2 * n - 2);
      AnsweredStep(n);
    }
  }

  lemma AnsweredStep(n: nat)
    requires n > 0
    ensures Answered(n) == Answered(n - 1) + [Msg(2 * n - 2, User, 0)] + [Msg(2 * n - 1, Assistant, 2 * n - 2)]
  {
  }

  /** One more answered message at the end of an answered transcript. */
  lemma AnsweredGrows(m: seq<Msg>, id: MsgId)
    requires Orderly(m) && Distinct(UserIds(m)) && Pending(m) == [] && UserIds(m) == Answers(m) && id !in UserIds(m)
    ensures var m' := m + [Msg(id, User, 0)] + [Msg(id + 1, Assistant, id)];
            && Orderly(m') && Distinct(UserIds(m')) && Pending(m') == []
            && UserIds(m') == Answers(m') && UserIds(m') == UserIds(m) + [id]
  {
    hide Orderly, Distinct, Pending, UserIds, Answers;
    var u := Msg(id, User, 0);
    Appended(m, u);
    DistinctAppend(UserIds(m), id);
    Appended(m + [u], Msg(id + 1, Assistant, id));
    assert UserIds(m + [u]) == UserIds(m) + [id] && UserIds(m) + [id] + [] == UserIds(m) + [id];
  }

  lemma ListedUpTo(m: seq<Msg>, x: Msg)
    requires |m| == 10000
    ensures Listed(m + [x]) == m
    ensures !x.role.Other? ==> !ListsEnough(m + [x])
  {
    assert (m + [x])[..10000] == m && (m + [x])[10000..] == [x];
    Appended([], x);
    assert [] + [x] == [x];
  }

  /** After 5000 answered messages an open one is not recovered. */
  lemma RecoveryMissesLateMessages(n: nat)
    requires n == 5000
    ensures var m := Answered(n) + [Msg(2 * n, User, 0)];
            && Orderly(m) && Distinct(UserIds(m)) && !ListsEnough(m)
            && Pending(m) == [2 * n] && Pending(Listed(m)) == []
  {
    hide Orderly, Distinct, Answered, Pending, UserIds, Answers, ListsEnough, Listed;
    var m, u := Answered(n), Msg(2 * n, User, 0);
    AnsweredIsOrderly(n);
    Appended(m, u);
    DistinctAppend(UserIds(m), u.id);
    ListedUpTo(m, u);
  }

  /** A message whose reply is message number 10001 is recovered although it has been answered. */
  lemma RecoveryRepeatsLateReplies(n: nat)
    requires n == 4999
    ensures var m := Answered(n) + [Msg(2 * n, User, 0)] + [Msg(2 * n + 1, User, 0)] + [Msg(2 * n + 2, Assistant, 2 * n)];
            && Orderly(m) && Distinct(UserIds(m)) && !ListsEnough(m)
            && 2 * n in Answers(m) && Pending(m) == [2 * n + 1] && Pending(Listed(m)) == [2 * n, 2 * n + 1]
  {
    hide Orderly, Distinct, Answered, Pending, UserIds, Answers, ListsEnough, Listed;
    AnsweredIsOrderly(n);
    TwoOpen(Answered(n), 2 * n);
    ListedUpTo(Answered(n) + [Msg(2 * n, User, 0)] + [Msg(2 * n + 1, User, 0)], Msg(2 * n + 2, Assistant, 2 * n));
  }

  /** Two more user messages at the end of an answered transcript, and a reply to the first. */
  lemma TwoOpen(m: seq<Msg>, id: MsgId)
    requires Orderly(m) && Distinct(UserIds(m)) && Pending(m) == [] && UserIds(m) == Answers(m)
    requires forall e :: e in UserIds(m) ==> e < id
    ensures var open := m + [Msg(id, User, 0)] + [Msg(id + 1, User, 0)];
            var all := open + [Msg(id + 2, Assistant, id)];
            && Pending(open) == [id, id + 1] && Orderly(all) && Distinct(UserIds(all))
            && Pending(all) == [id + 1] && id in Answers(all)
  {
    hide Orderly, Distinct, Pending, UserIds, Answers;
    var u, v, r := Msg(id, User, 0), Msg(id + 1, User, 0), Msg(id + 2, Assistant, id);
    Appended(m, u);
    Appended(m + [u], v);
    Appended(m + [u] + [v], r);
    DistinctAppend(UserIds(m), id);
    DistinctAppend(UserIds(m) + [id], id + 1);
    assert UserIds(m) + [id] + [id + 1] + [] == UserIds(m) + [id] + [id + 1];
    assert [] + [id] + [id + 1] == [id, id + 1];
  }

  // ----- tasks that fail -----

  /** Each reply answers an earlier user message, and no two answer the same: what is left if tasks fail now and then. */
  predicate Answering(m: seq<Msg>) {
    m == [] ||
    var init, last := m[..|m| - 1], m[|m| - 1];
    Answering(init) && (last.role.Assistant? ==> last.answers in UserIds(init) && last.answers !in Answers(init))
  }

  lemma {:induction false} DistinctWithin(a: seq<MsgId>, b: seq<MsgId>)
    requires Distinct(a) && forall e :: e in a ==> e in b
    ensures |a| <= |b|
  {
    if a != [] {
      var last := a[|a| - 1];
      assert last in a;
      var i :| 0 <= i < |b| && b[i] == last;
      var rest := b[..i] + b[i + 1..];
      assert a == a[..|a| - 1] + [last];
      DistinctAppend(a[..|a| - 1], last);
      forall e | e in a[..|a| - 1] ensures e in rest {
        assert e in a && e in b && e != last;
        var k :| 0 <= k < |b| && b[k] == e;
        assert k < i ==> rest[k] == e;
        assert k > i ==> rest[k - 1] == e;
      }
      DistinctWithin(a[..|a| - 1], rest);
    }
  }

  /** Then recovery collects as many messages as have no reply, the latest ones. */
  lemma {:induction false} PendingIsLatest(m: seq<Msg>)
    requires Answering(m)
    ensures Distinct(Answers(m)) && forall e :: e in Answers(m) ==> e in UserIds(m)
    ensures |Answers(m)| <= |UserIds(m)| && Pending(m) == UserIds(m)[|Answers(m)|..]
  {
    if m != [] {
      var init, last := m[..|m| - 1], m[|m| - 1];
      PendingIsLatest(init);
      assert m == init + [last];
      Appended(init, last);
      hide Pending, Answers, UserIds, Answering;
      if last.role.Assistant? {
        DistinctAppend(Answers(init), last.answers);
        DistinctWithin(Answers(init) + [last.answers], UserIds(init));
      }
    }
  }

  /** No message with a reply comes after one without. */
  predicate AnsweredFirst(users: seq<MsgId>, answers: seq<MsgId>) {
    forall i, j :: 0 <= i < j < |users| && users[j] in answers ==> users[i] in answers
  }

  lemma AnsweredArePrefix(users: seq<MsgId>, answers: seq<MsgId>)
    requires Distinct(users) && Distinct(answers) && forall e :: e in answers ==> e in users
    requires AnsweredFirst(users, answers)
    ensures |answers| <= |users| && forall i :: 0 <= i < |users| ==> (users[i] in answers <==> i < |answers|)
  {
    DistinctWithin(answers, users);
    forall i | 0 <= i < |users| ensures users[i] in answers <==> i < |answers| {
      if users[i] in answers {
        assert users == users[..i + 1] + users[i + 1..];
        DistinctPart(users[..i + 1], users[i + 1..]);
        DistinctWithin(users[..i + 1], answers);
      } else {
        forall e | e in answers ensures e in users[..i] {
          var k :| 0 <= k < |users| && users[k] == e;
          assert k < i;
        }
        DistinctWithin(answers, users[..i]);
      }
    }
  }

  /**
    Recovery collects exactly the messages without a reply if and only if no message with a reply comes after one
    without: a failed task must not have been followed by a successful one of its session.
   */
  lemma CollectsUnansweredExactly(m: seq<Msg>)
    requires Answering(m) && Distinct(UserIds(m))
    ensures (forall e :: e in Pending(m) <==> e in UserIds(m) && e !in Answers(m)) <==> AnsweredFirst(UserIds(m), Answers(m))
  {
    PendingIsLatest(m);
    hide Pending, Answers, UserIds, Answering;
    var u, a, p := UserIds(m), Answers(m), Pending(m);
    assert forall i :: |a| <= i < |u| ==> p[i - |a|] == u[i];
    assert u == u[..|a|] + p;
    DistinctPart(u[..|a|], p);
    assert forall i :: 0 <= i < |a| ==> u[..|a|][i] == u[i];
    assert forall i :: 0 <= i < |u| ==> (u[i] in p <==> |a| <= i);
    if AnsweredFirst(u, a) {
      AnsweredArePrefix(u, a);
    }
    if forall e :: e in p <==> e in u && e !in a {
      assert forall i :: 0 <= i < |u| ==> (u[i] in a <==> i < |a|);
    }
  }

  /** The first of two tasks fails and the second replies: recovery has the answered message answered again and forgets the other. */
  lemma FailedTaskIsForgotten()
    ensures var m := [Msg(0, User, 0)] + [Msg(1, User, 0)] + [Msg(2, Assistant, 1)];
            Answering(m) && UserIds(m) == [0, 1] && Answers(m) == [1] && Pending(m) == [1]
  {
    var m0, m1 := [Msg(0, User, 0)], [Msg(0, User, 0)] + [Msg(1, User, 0)];
    assert [] + [Msg(0, User, 0)] == m0;
    Appended([], Msg(0, User, 0));
    Appended(m0, Msg(1, User, 0));
    Appended(m1, Msg(2, Assistant, 1));
    assert (m1 + [Msg(2, Assistant, 1)])[..2] == m1 && m1[..1] == m0 && m0[..0] == [];
    assert [0] + [1] == [0, 1] && 1 in UserIds(m1);
    assert Answering([]) && Answering(m0) && Answering(m1);
  }

  // ----- recovery while somebody else answers -----

  /** The sequence w is made of a and b, each in its order. */
  predicate Interleaves(w: seq<MsgId>, a: seq<MsgId>, b: seq<MsgId>)
    decreases |w|
  {
    if w == [] then a == [] && b == []
    else (a != [] && w[0] == a[0] && Interleaves(w[1..], a[1..], b)) || (b != [] && w[0] == b[0] && Interleaves(w[1..], a, b[1..]))
  }

  lemma {:induction false} InterleavedItems(w: seq<MsgId>, a: seq<MsgId>, b: seq<MsgId>)
    requires Interleaves(w, a, b)
    ensures multiset(w) == multiset(a) + multiset(b)
    decreases |w|
  {
    if w != [] {
      assert w == [w[0]] + w[1..];
      if a != [] && w[0] == a[0] && Interleaves(w[1..], a[1..], b) {
        assert a == [a[0]] + a[1..];
        InterleavedItems(w[1..], a[1..], b);
      } else {
        assert b == [b[0]] + b[1..];
        InterleavedItems(w[1..], a, b[1..]);
      }
    }
  }

  lemma {:induction false} DistinctCounts(s: seq<MsgId>)
    ensures Distinct(s) <==> forall e :: multiset(s)[e] <= 1
  {
    if s != [] {
      var rest, last := s[..|s| - 1], s[|s| - 1];
      assert s == rest + [last];
      DistinctCounts(rest);
      DistinctAppend(rest, last);
      assert last in rest <==> last in multiset(rest);
      assert forall e :: multiset(s)[e] == multiset(rest)[e] + if e == last then 1 else 0;
    }
  }

  /**
    Recovery reads a session some of whose open messages are being answered already, by a task of the same process that
    came in before it or by the draining parent of a handoff.  However the replies of the two then come in, no message
    is answered twice if and only if none was being answered.
   */
  lemma OverlapAnswersOnceExactly(m: seq<Msg>, served: seq<MsgId>, replies: seq<MsgId>)
    requires Orderly(m) && Distinct(UserIds(m)) && forall e :: e in served ==> e in Pending(m)
    requires Interleaves(replies, served, Pending(m))
    ensures Distinct(Answers(m) + replies) <==> served == []
  {
    PendingIsUnanswered(m);
    InterleavedItems(replies, served, Pending(m));
    hide Orderly, Pending, Answers, UserIds, Interleaves, Distinct;
    var all := Answers(m) + replies;
    assert UserIds(m) == Answers(m) + Pending(m);
    DistinctCounts(all);
    DistinctCounts(UserIds(m));
    assert multiset(all) == multiset(UserIds(m)) + multiset(served);
    if served == [] {
      assert multiset(all) == multiset(UserIds(m));
    } else {
      var e := served[0];
      assert e in served && e in Pending(m) && e in UserIds(m);
      assert e in multiset(UserIds(m)) && e in multiset(served);
      assert multiset(all)[e] >= 2;
    }
  }

  // ----- the engine: SendMessage, runAssistant and recovery over the queue -----

  datatype Engine = Engine(
    concurrency: int,
    store: map<SessionId, seq<Msg>>,          // survives a crash
    nextId: MsgId,
    // lost in a crash
    queue: Queue,
    outbox: map<SessionId, seq<MsgId>>,       // messages whose Enqueue call has not been made yet
    submitting: map<SessionId, MsgId>,        // the message whose Enqueue call has not returned yet
    recovered: set<SessionId>,                // sessions recovery has read since the start of the process
    replied: set<MsgId>,                      // tasks that have stored their assistant message
    // history
    owner: map<MsgId, SessionId>              // session of every user message
  )

  /** A first start: sessions without messages. */
  function Start(concurrency: int, sessions: set<SessionId>): Engine {
    Engine(concurrency, map s | s in sessions :: [], 0, New(concurrency), map[], map[], {}, {}, map[])
  }

  datatype Action =
    | Say(s: SessionId)        // SendMessage stores a user message
    | Submit(s: SessionId)     // Enqueue is called for the next message of the outbox
    | Work(step: Step)         // the queue moves by itself
    | Reply(w: WorkerId)       // runAssistant stores the assistant message
    | Crash                    // the process dies; a new one starts
    | Recover(s: SessionId)    // recovery reads a session and lines its pending messages up

  function OutboxOf(en: Engine, s: SessionId): seq<MsgId> { if s in en.outbox then en.outbox[s] else [] }

  predicate Possible(en: Engine, a: Action) {
    match a
    case Say(s) => s in en.store && s in en.recovered && OutboxOf(en, s) == [] && s !in en.submitting
    case Submit(s) => OutboxOf(en, s) != [] && s !in en.submitting && Enabled(en.queue, Lookup(OutboxOf(en, s)[0], s))
    case Work(step) => Internal(step) && Enabled(en.queue, step) &&
                       (step.Release? ==> en.queue.workers[step.w].point.e in en.replied)
    case Reply(w) => w in en.queue.workers && en.queue.workers[w].point.Running? &&
                     en.queue.workers[w].point.e !in en.replied && en.queue.workers[w].lane in en.store
    case Crash => true
    case Recover(s) => s in en.store && s !in en.recovered
  }

  function Act(en: Engine, a: Action): Engine
    requires Possible(en, a)
  {
    match a
    case Say(s) =>
      en.(store := en.store[s := en.store[s] + [Msg(en.nextId, User, 0)]], nextId := en.nextId + 1,
          outbox := en.outbox[s := [en.nextId]], owner := en.owner[en.nextId := s])
    case Submit(s) =>
      var e := OutboxOf(en, s)[0];
      en.(queue := Next(en.queue, Lookup(e, s)), outbox := en.outbox[s := en.outbox[s][1..]],
          submitting := en.submitting[s := e])
    case Work(step) =>
      en.(queue := Next(en.queue, step),
          submitting := if step.Send? then en.submitting - {en.queue.sending[step.e]} else en.submitting)
    case Reply(w) =>
      var s, e := en.queue.workers[w].lane, en.queue.workers[w].point.e;
      en.(store := en.store[s := en.store[s] + [Msg(en.nextId, Assistant, e)]], nextId := en.nextId + 1,
          replied := en.replied + {e})
    case Crash =>
      en.(queue := New(en.concurrency), outbox := map[], submitting := map[], recovered := {}, replied := {})
    case Recover(s) =>
      en.(outbox := en.outbox[s := Pending(Listed(en.store[s]))], recovered := en.recovered + {s})
  }

  // ----- invariant -----

  /** Program point of a lane's worker; idle if it has none. */
  function PointOf(q: Queue, l: LaneId): Point {
    if l in q.spawned && q.spawned[l] in q.workers then q.workers[q.spawned[l]].point else Idle
  }

  function BufferOf(q: Queue, l: LaneId): seq<EnvId> { if l in q.lanes then q.lanes[l] else [] }

  /** The message a worker holds and has not answered yet. */
  function AtWork(en: Engine, s: SessionId): seq<MsgId> {
    var p := PointOf(en.queue, s);
    if p.Idle? || p.e in en.replied then [] else [p.e]
  }

  function InLane(en: Engine, s: SessionId): seq<MsgId> { BufferOf(en.queue, s) }

  function Entering(en: Engine, s: SessionId): seq<MsgId> { if s in en.submitting then [en.submitting[s]] else [] }

  /** The messages of a session on their way to an answer, the next one first. */
  function Line(en: Engine, s: SessionId): seq<MsgId> {
    AtWork(en, s) + InLane(en, s) + Entering(en, s) + OutboxOf(en, s)
  }

  /** A session's user messages are new to it and to all others. */
  predicate TranscriptOk(en: Engine, s: SessionId)
    requires s in en.store
  {
    && Distinct(UserIds(en.store[s]))
    && (forall e :: e in UserIds(en.store[s]) ==> e in en.owner && en.owner[e] == s)
  }

  /** A session recovery has read has each of its messages in line at most once; any other session has none. */
  predicate LineOk(en: Engine, s: SessionId)
    requires s in en.store
  {
    if s in en.recovered then
      Distinct(Line(en, s)) && forall e :: e in Line(en, s) ==> e in UserIds(en.store[s]) && e !in en.replied
    else s !in en.queue.lanes && s !in en.queue.spawned && s !in en.submitting && s !in en.outbox
  }

  predicate OutboxOk(en: Engine, s: SessionId) {
    forall e :: e in OutboxOf(en, s) ==> e !in en.queue.home
  }

  ghost predicate QueueUse(en: Engine) {
    && !en.queue.closed && en.queue.cancelled == {}
    && (forall e :: e in en.queue.home ==> e in en.owner && en.owner[e] == en.queue.home[e])
    && (forall e :: e in en.queue.sending ==> en.queue.sending[e] in en.submitting && en.submitting[en.queue.sending[e]] == e)
    && (forall s :: s in en.submitting ==> en.submitting[s] in en.queue.sending && en.queue.sending[en.submitting[s]] == s)
    && (forall s :: s in en.queue.spawned || s in en.submitting || s in en.outbox ==> s in en.store)
    && (forall w :: w in en.queue.workers && en.queue.workers[w].point.Reporting? ==> en.queue.workers[w].point.e in en.replied)
    && (forall e :: e in en.replied ==> e in en.queue.home)
    && (forall e :: e in en.queue.home ==> en.queue.home[e] in en.queue.spawned)
    && (forall e :: e in en.owner ==> e < en.nextId)
  }

  /** What the invariant says about one session. */
  ghost predicate SessionOk(en: Engine, s: SessionId)
    requires s in en.store
  {
    TranscriptOk(en, s) && LineOk(en, s) && OutboxOk(en, s)
  }

  ghost predicate SessionsOk(en: Engine) {
    en.recovered <= en.store.Keys && forall s {:trigger SessionOk(en, s)} :: s in en.store ==> SessionOk(en, s)
  }

  /** The invariant of every action, whatever recovery reads. */
  ghost predicate EngineInv(en: Engine) { Inv(en.queue) && QueueUse(en) && SessionsOk(en) }

  lemma StartOk(concurrency: int, sessions: set<SessionId>)
    ensures EngineInv(Start(concurrency, sessions))
  {
  }

  // ----- how an action moves a session's line -----

  lemma LineFrame(en: Engine, en': Engine, s: SessionId)
    requires InLane(en', s) == InLane(en, s) && OutboxOf(en', s) == OutboxOf(en, s)
    requires Entering(en', s) == Entering(en, s) && AtWork(en', s) == AtWork(en, s)
    ensures Line(en', s) == Line(en, s)
  {
  }

  lemma LookupEffect(q: Queue, e: EnvId, lane: LaneId, l: LaneId)
    requires Enabled(q, Lookup(e, lane))
    requires lane !in q.lanes ==> PointOf(q, lane).Idle?
    requires l in q.spawned ==> q.spawned[l] != q.nextWorker
    ensures var q' := Next(q, Lookup(e, lane)); PointOf(q', l) == PointOf(q, l) && BufferOf(q', l) == BufferOf(q, l)
  {
    NextOfLookup(q, e, lane);
    hide Next, Enabled, TrailOf;
  }

  lemma SubmitKeepsLine(en: Engine, a: Action, s: SessionId)
    requires a.Submit? && Possible(en, a)
    requires a.s !in en.queue.lanes ==> PointOf(en.queue, a.s).Idle?
    requires s in en.queue.spawned ==> en.queue.spawned[s] != en.queue.nextWorker
    ensures Line(Act(en, a), s) == Line(en, s)
  {
    hide Next, PointOf, BufferOf, OutboxOf, Entering;
    var en' := Act(en, a);
    LookupEffect(en.queue, OutboxOf(en, a.s)[0], a.s, s);
    SubmitMoves(en, a, s);
    assert AtWork(en', s) == AtWork(en, s) && InLane(en', s) == InLane(en, s);
    var front := AtWork(en, s) + InLane(en, s);
    assert front + Entering(en, s) + OutboxOf(en, s) == front + (Entering(en, s) + OutboxOf(en, s));
    assert front + Entering(en', s) + OutboxOf(en', s) == front + (Entering(en', s) + OutboxOf(en', s));
  }

  lemma SubmitMoves(en: Engine, a: Action, s: SessionId)
    requires a.Submit? && Possible(en, a)
    ensures var en' := Act(en, a); Entering(en', s) + OutboxOf(en', s) == Entering(en, s) + OutboxOf(en, s)
    ensures Act(en, a).queue == Next(en.queue, Lookup(OutboxOf(en, a.s)[0], a.s)) && Act(en, a).replied == en.replied
  {
    hide Next;
  }

  // What a queue step does to the envelopes of one lane; steps of other lanes do nothing to it.

  lemma SendEffect(q: Queue, e: EnvId, l: LaneId)
    requires Enabled(q, Send(e))
    ensures var q' := Next(q, Send(e));
            && PointOf(q', l) == PointOf(q, l)
            && BufferOf(q', l) == BufferOf(q, l) + (if q.sending[e] == l then [e] else [])
  {
  }

  lemma TakeEffect(q: Queue, w: WorkerId, l: LaneId)
    requires Enabled(q, Take(w)) && StepFacts(q, Take(w))
    requires l in q.spawned && q.spawned[l] in q.workers ==> q.workers[q.spawned[l]].lane == l
    ensures var q' := Next(q, Take(w));
            if q.workers[w].lane == l
            then PointOf(q, l).Idle? && BufferOf(q, l) != [] &&
                 PointOf(q', l) == Waiting(BufferOf(q, l)[0]) && BufferOf(q', l) == BufferOf(q, l)[1..]
            else PointOf(q', l) == PointOf(q, l) && BufferOf(q', l) == BufferOf(q, l)
  {
  }

  predicate Passes(step: Step, w: WorkerId) { step == Acquire(w) || step == Release(w) || step == Report(w) }

  /** Where the worker is after Acquire, Release or Report. */
  function Passed(p: Point): Point {
    match p
    case Waiting(e) => Running(e)
    case Running(e) => Reporting(e)
    case _ => Idle
  }

  lemma PassEffect(q: Queue, step: Step, w: WorkerId, l: LaneId)
    requires Passes(step, w) && Enabled(q, step) && StepFacts(q, step)
    requires l in q.spawned && q.spawned[l] in q.workers ==> q.workers[q.spawned[l]].lane == l
    ensures var q' := Next(q, step);
            && BufferOf(q', l) == BufferOf(q, l)
            && PointOf(q', l) == if q.workers[w].lane == l then Passed(PointOf(q, l)) else PointOf(q, l)
    ensures q.workers[w].lane == l ==> PointOf(q, l) == q.workers[w].point
  {
  }

  lemma SendKeepsLine(en: Engine, e: EnvId, s: SessionId)
    requires Possible(en, Work(Send(e)))
    requires en.queue.sending[e] in en.submitting && en.submitting[en.queue.sending[e]] == e
    ensures Line(Act(en, Work(Send(e))), s) == Line(en, s)
  {
    hide Next, PointOf, BufferOf;
    var en' := Act(en, Work(Send(e)));
    SendEffect(en.queue, e, s);
    assert InLane(en', s) + Entering(en', s) == InLane(en, s) + Entering(en, s);
    assert AtWork(en', s) == AtWork(en, s);
    SameMiddle(AtWork(en, s), InLane(en, s), Entering(en, s), InLane(en', s), Entering(en', s));
  }

  lemma SameMiddle(a: seq<MsgId>, b: seq<MsgId>, c: seq<MsgId>, b': seq<MsgId>, c': seq<MsgId>)
    requires b' + c' == b + c
    ensures a + b' + c' == a + b + c
  {
    assert a + b + c == a + (b + c) && a + b' + c' == a + (b' + c');
  }

  lemma TakeKeepsLine(en: Engine, w: WorkerId, s: SessionId)
    requires Possible(en, Work(Take(w))) && StepFacts(en.queue, Take(w))
    requires s in en.queue.spawned && en.queue.spawned[s] in en.queue.workers ==>
               en.queue.workers[en.queue.spawned[s]].lane == s
    requires BufferOf(en.queue, s) != [] ==> BufferOf(en.queue, s)[0] !in en.replied
    ensures Line(Act(en, Work(Take(w))), s) == Line(en, s)
  {
    hide Next, PointOf, BufferOf;
    var en' := Act(en, Work(Take(w)));
    TakeEffect(en.queue, w, s);
    assert AtWork(en', s) + InLane(en', s) == AtWork(en, s) + InLane(en, s);
  }

  lemma PassKeepsLine(en: Engine, step: Step, w: WorkerId, s: SessionId)
    requires Passes(step, w) && Possible(en, Work(step)) && StepFacts(en.queue, step)
    requires s in en.queue.spawned && en.queue.spawned[s] in en.queue.workers ==>
               en.queue.workers[en.queue.spawned[s]].lane == s
    requires en.queue.workers[w].point.Reporting? ==> en.queue.workers[w].point.e in en.replied
    ensures Line(Act(en, Work(step)), s) == Line(en, s)
  {
    var en' := Act(en, Work(step));
    PassEffect(en.queue, step, w, s);
    assert AtWork(en', s) == AtWork(en, s);
  }

  /** What the invariant says about the moving envelope and the worker of session s. */
  predicate WorkFacts(en: Engine, step: Step, s: SessionId)
    requires Possible(en, Work(step))
  {
    var q := en.queue;
    && StepFacts(q, step) && !q.closed && q.cancelled == {}
    && (s in q.spawned && q.spawned[s] in q.workers ==> q.workers[q.spawned[s]].lane == s)
    && (BufferOf(q, s) != [] ==> BufferOf(q, s)[0] !in en.replied)
    && match step
       case Send(e) => q.sending[e] in en.submitting && en.submitting[q.sending[e]] == e
       case Report(w) => q.workers[w].point.e in en.replied
       case _ => true
  }

  /** The queue moving by itself changes no session's line. */
  lemma WorkKeepsLine(en: Engine, step: Step, s: SessionId)
    requires Possible(en, Work(step)) && WorkFacts(en, step, s)
    ensures Line(Act(en, Work(step)), s) == Line(en, s)
  {
    match step
    case Send(e) => SendKeepsLine(en, e, s);
    case Take(w) => TakeKeepsLine(en, w, s);
    case Acquire(w) => PassKeepsLine(en, step, w, s);
    case Release(w) => PassKeepsLine(en, step, w, s);
    case Report(w) => PassKeepsLine(en, step, w, s);
  }

  lemma HomeStays(q: Queue, step: Step)
    requires Internal(step) && Enabled(q, step)
    ensures Next(q, step).home == q.home && Next(q, step).closed == q.closed && Next(q, step).cancelled == q.cancelled
  {
  }

  lemma ReplyLine(en: Engine, w: WorkerId)
    requires Possible(en, Reply(w))
    requires PointOf(en.queue, en.queue.workers[w].lane) == en.queue.workers[w].point
    ensures var l := en.queue.workers[w].lane;
            Line(en, l) == [en.queue.workers[w].point.e] + Line(Act(en, Reply(w)), l)
  {
    var en', l, e := Act(en, Reply(w)), en.queue.workers[w].lane, en.queue.workers[w].point.e;
    assert AtWork(en', l) == [] && AtWork(en, l) == [e];
    assert InLane(en', l) == InLane(en, l) && Entering(en', l) == Entering(en, l) && OutboxOf(en', l) == OutboxOf(en, l);
  }

  lemma ReplyFacts(q: Queue, w: WorkerId, s: SessionId)
    requires WorkersInv(q) && TrailInv(q) && HeldInv(q) && w in q.workers && q.workers[w].point.Running?
    ensures var l, e := q.workers[w].lane, q.workers[w].point.e;
            && PointOf(q, l) == q.workers[w].point
            && e in q.home && q.home[e] == l
            && (s == l || PointOf(q, s).Idle? || PointOf(q, s).e != e)
  {
    HeldIsTaken(q, w);
    if !PointOf(q, s).Idle? {
      HeldIsTaken(q, q.spawned[s]);
    }
  }

  lemma SubmitFacts(en: Engine, a: Action)
    requires a.Submit? && EngineInv(en) && Possible(en, a)
    ensures a.s in en.store && SessionOk(en, a.s) && OutboxOf(en, a.s)[0] !in en.queue.sending
    ensures a.s in en.queue.lanes ==> a.s in en.queue.spawned
    ensures a.s !in en.queue.lanes ==> PointOf(en.queue, a.s).Idle?
    ensures forall l :: l in en.queue.spawned ==> en.queue.spawned[l] != en.queue.nextWorker
  {
  }

  lemma BufferedIsNotReplied(en: Engine, s: SessionId)
    requires s in en.store && LineOk(en, s) && BufferOf(en.queue, s) != []
    ensures BufferOf(en.queue, s)[0] !in en.replied
  {
    assert BufferOf(en.queue, s)[0] in Line(en, s);
  }

  lemma SenderIsRecovered(en: Engine, e: EnvId)
    requires EngineInv(en) && e in en.queue.sending
    ensures en.queue.sending[e] in en.submitting && en.submitting[en.queue.sending[e]] == e
    ensures en.queue.sending[e] in en.recovered
  {
    hide Inv, Line;
    assert SessionOk(en, en.queue.sending[e]);
  }

  lemma WorkFactsHold(en: Engine, step: Step, s: SessionId)
    requires EngineInv(en) && Possible(en, Work(step)) && s in en.store
    ensures SessionOk(en, s) && WorkFacts(en, step, s)
    ensures step.Send? ==> en.queue.sending[step.e] in en.recovered
  {
    hide SessionOk, SendingInv, TokensInv, TrailInv, HeldInv, ResultsInv, BufferOf, StepFacts;
    FactsHold(en.queue, step);
    assert SessionOk(en, s);
    if BufferOf(en.queue, s) != [] {
      assert LineOk(en, s) by { OfSession(en, s); }
      BufferedIsNotReplied(en, s);
    }
    if step.Send? {
      SenderIsRecovered(en, step.e);
    }
  }

  lemma OfSession(en: Engine, s: SessionId)
    requires s in en.store && SessionOk(en, s)
    ensures TranscriptOk(en, s) && LineOk(en, s) && OutboxOk(en, s)
  {
  }

  /** The user message an action adds to a session. */
  function Said(en: Engine, a: Action, s: SessionId): seq<MsgId> { if a == Say(s) then [en.nextId] else [] }

  /** The message of a session that an action answers. */
  function Done(en: Engine, a: Action, s: SessionId): seq<MsgId>
    requires Possible(en, a)
  {
    if a.Reply? && en.queue.workers[a.w].lane == s then [en.queue.workers[a.w].point.e] else []
  }

  /** The transcript lemma of the engine: what an action adds to a session. */
  lemma TranscriptMoves(en: Engine, a: Action, s: SessionId)
    requires Possible(en, a) && s in en.store
    ensures Act(en, a).store.Keys == en.store.Keys
    ensures UserIds(Act(en, a).store[s]) == UserIds(en.store[s]) + Said(en, a, s)
    ensures Answers(Act(en, a).store[s]) == Answers(en.store[s]) + Done(en, a, s)
    ensures !a.Say? && !a.Reply? ==> Act(en, a).store == en.store
  {
    if a.Say? {
      Appended(en.store[a.s], Msg(en.nextId, User, 0));
    } else if a.Reply? {
      Appended(en.store[en.queue.workers[a.w].lane], Msg(en.nextId, Assistant, en.queue.workers[a.w].point.e));
    }
  }

  /** The line lemma: a user message joins the line of its session and the answered message leaves it at the head. */
  lemma LineMoves(en: Engine, a: Action, s: SessionId)
    requires EngineInv(en) && Possible(en, a) && s in en.store
    requires !a.Crash? && a != Recover(s)
    ensures Line(en, s) + Said(en, a, s) == Done(en, a, s) + Line(Act(en, a), s)
  {
    hide Inv, QueueUse, SessionOk;
    match a
    case Say(_) => SayMovesLine(en, a, s);
    case Submit(_) =>
      SubmitFacts(en, a);
      SubmitKeepsLine(en, a, s);
    case Work(step) =>
      WorkFactsHold(en, step, s);
      WorkKeepsLine(en, step, s);
    case Reply(w) => ReplyMovesLine(en, w, s);
    case Recover(_) => LineFrame(en, Act(en, a), s);
  }

  lemma SayMovesLine(en: Engine, a: Action, s: SessionId)
    requires a.Say? && Possible(en, a)
    ensures Line(Act(en, a), s) == Line(en, s) + Said(en, a, s)
  {
    var en' := Act(en, a);
    assert AtWork(en', s) == AtWork(en, s) && InLane(en', s) == InLane(en, s) && Entering(en', s) == Entering(en, s);
  }

  lemma ReplyMovesLine(en: Engine, w: WorkerId, s: SessionId)
    requires EngineInv(en) && Possible(en, Reply(w))
    ensures Line(en, s) == Done(en, Reply(w), s) + Line(Act(en, Reply(w)), s)
  {
    hide QueueUse, SessionsOk;
    ReplyFacts(en.queue, w, s);
    if s == en.queue.workers[w].lane {
      ReplyLine(en, w);
    } else {
      LineFrame(en, Act(en, Reply(w)), s);
    }
  }

  /** A session that recovery reads gets the line that recovery finds. */
  lemma RecoveredLine(en: Engine, s: SessionId)
    requires Possible(en, Recover(s)) && LineOk(en, s)
    ensures Line(Act(en, Recover(s)), s) == Pending(Listed(en.store[s]))
  {
    var en' := Act(en, Recover(s));
    assert AtWork(en', s) == [] && InLane(en', s) == [] && Entering(en', s) == [];
  }

  // ----- every action keeps the invariant -----

  lemma ActionKeepsTranscript(en: Engine, a: Action, s: SessionId)
    requires Possible(en, a) && s in en.store && TranscriptOk(en, s) && en.nextId !in en.owner
    ensures s in Act(en, a).store && TranscriptOk(Act(en, a), s)
  {
    TranscriptMoves(en, a, s);
    assert forall e :: e in en.owner ==> e in Act(en, a).owner && Act(en, a).owner[e] == en.owner[e];
  }

  /** What recovery lines up are different user messages of the session. */
  lemma ListedPendingIsOwn(m: seq<Msg>)
    requires Distinct(UserIds(m))
    ensures Distinct(Pending(Listed(m))) && forall e :: e in Pending(Listed(m)) ==> e in UserIds(m)
  {
    var p, tail := Listed(m), m[|Listed(m)|..];
    assert p + tail == m;
    Concatenated(p, tail);
    PendingIsATail(p);
    DistinctPart(UserIds(p), UserIds(tail));
    var k := |UserIds(p)| - |Pending(p)|;
    assert UserIds(p)[..k] + Pending(p) == UserIds(p);
    DistinctPart(UserIds(p)[..k], Pending(p));
  }

  /** The message a worker is about to answer is the first in its session's line. */
  lemma AnsweredIsInLine(en: Engine, w: WorkerId)
    requires EngineInv(en) && Possible(en, Reply(w))
    ensures var l, e := en.queue.workers[w].lane, en.queue.workers[w].point.e;
            && l in en.recovered && PointOf(en.queue, l) == en.queue.workers[w].point
            && Line(en, l) != [] && Line(en, l)[0] == e && e in en.queue.home
            && e in en.owner && en.owner[e] == l
  {
    var l, e := en.queue.workers[w].lane, en.queue.workers[w].point.e;
    ReplyFacts(en.queue, w, l);
    assert SessionOk(en, l);
    assert Line(en, l)[0] == AtWork(en, l)[0];
  }

  lemma LineStaysOk(en: Engine, en': Engine, s: SessionId, said: seq<MsgId>, done: seq<MsgId>)
    requires s in en.store && s in en'.store && s in en.recovered && s in en'.recovered && LineOk(en, s)
    requires Line(en, s) + said == done + Line(en', s)
    requires UserIds(en'.store[s]) == UserIds(en.store[s]) + said
    requires |said| <= 1 && forall e :: e in said ==> e !in UserIds(en.store[s]) && e !in en.replied
    requires forall e :: e in en'.replied && e !in en.replied ==> e in done || e !in Line(en, s)
    requires forall e :: e in en'.replied ==> e !in said
    ensures LineOk(en', s)
  {
    hide Line;
    var after := Line(en', s);
    assert Distinct(Line(en, s) + said) by {
      if said == [] {
        assert Line(en, s) + said == Line(en, s);
      } else {
        DistinctAppend(Line(en, s), said[0]);
        assert said == [said[0]];
      }
    }
    DistinctPart(done, after);
    forall e | e in after ensures e in UserIds(en'.store[s]) && e !in en'.replied {
      assert e in done + after;
      assert e in Line(en, s) || e in said;
    }
  }

  lemma SaidIsNew(en: Engine, a: Action, s: SessionId)
    requires QueueUse(en) && Possible(en, a) && s in en.store && TranscriptOk(en, s)
    ensures forall e :: e in Said(en, a, s) ==> e !in UserIds(en.store[s]) && e !in en.replied && e !in Act(en, a).replied
    ensures en.nextId !in en.owner && en.nextId !in en.queue.home
  {
  }

  lemma RepliedAfter(en: Engine, a: Action, s: SessionId)
    requires EngineInv(en) && Possible(en, a) && s in en.store && !a.Crash?
    ensures forall e :: e in Act(en, a).replied && e !in en.replied ==> e in Done(en, a, s) || e !in Line(en, s)
  {
    if a.Reply? && en.queue.workers[a.w].lane != s {
      assert SessionOk(en, s);
      AnsweredIsInLine(en, a.w);
      LineIsOwn(en, s);
    }
  }

  lemma LineIsOwn(en: Engine, s: SessionId)
    requires s in en.store && SessionOk(en, s) && QueueUse(en)
    ensures forall e :: e in Line(en, s) ==> e in en.owner && en.owner[e] == s
    ensures Distinct(Line(en, s))
  {
    if s !in en.recovered {
      assert Line(en, s) == [];
    }
  }

  lemma RecoverKeepsLine(en: Engine, s: SessionId)
    requires Possible(en, Recover(s)) && SessionOk(en, s) && QueueUse(en)
    ensures LineOk(Act(en, Recover(s)), s) && OutboxOk(Act(en, Recover(s)), s)
  {
    RecoveredLine(en, s);
    ListedPendingIsOwn(en.store[s]);
    assert forall e :: e in UserIds(en.store[s]) ==> e !in en.queue.home && e !in en.replied;
  }

  /** A session that recovery has not read stays out of the queue. */
  lemma UnreadStaysOut(en: Engine, a: Action, s: SessionId)
    requires EngineInv(en) && Possible(en, a) && s in en.store && s !in en.recovered && !a.Crash? && a != Recover(s)
    ensures LineOk(Act(en, a), s)
  {
    hide Inv, Line, UserIds;
    assert SessionOk(en, s);
    match a
    case Submit(_) => LookupQueue(en.queue, OutboxOf(en, a.s)[0], a.s);
    case Work(step) =>
      if step.Send? {
        SenderIsRecovered(en, step.e);
      }
      WorkersStay(en.queue, step);
      assert s in en.queue.lanes <==> s in Next(en.queue, step).lanes.Keys;
    case _ =>
  }

  lemma ActionKeepsLine(en: Engine, a: Action, s: SessionId)
    requires EngineInv(en) && Possible(en, a) && s in en.store
    ensures s in Act(en, a).store && LineOk(Act(en, a), s)
  {
    hide Inv, Line, Act, LineOk, OutboxOk, Possible, Said, Done;
    assert SessionOk(en, s);
    TranscriptMoves(en, a, s);
    if a.Crash? {
      CrashLine(en, s);
    } else if a == Recover(s) {
      RecoverKeepsLine(en, s);
    } else if s !in en.recovered {
      UnreadStaysOut(en, a, s);
    } else {
      LineMoves(en, a, s);
      SaidIsNew(en, a, s);
      RepliedAfter(en, a, s);
      RecoveredAfter(en, a, s);
      LineStaysOk(en, Act(en, a), s, Said(en, a, s), Done(en, a, s));
    }
  }

  lemma CrashLine(en: Engine, s: SessionId)
    requires s in en.store
    ensures LineOk(Act(en, Crash), s) && OutboxOk(Act(en, Crash), s)
  {
  }

  lemma RecoveredAfter(en: Engine, a: Action, s: SessionId)
    requires Possible(en, a)
    ensures s in Act(en, a).recovered <==> !a.Crash? && (s in en.recovered || a == Recover(s))
    ensures |Said(en, a, s)| <= 1
  {
  }

  lemma ActionKeepsOutbox(en: Engine, a: Action, s: SessionId)
    requires EngineInv(en) && Possible(en, a) && s in en.store
    ensures OutboxOk(Act(en, a), s)
  {
    hide Inv, Line, UserIds, Next, SessionOk;
    assert SessionOk(en, s);
    OfSession(en, s);
    match a
    case Say(_) => SaidIsNew(en, a, s);
    case Submit(_) =>
      SubmitFacts(en, a);
      OutboxIsOwn(en, s);
      OutboxIsOwn(en, a.s);
      LookupQueue(en.queue, OutboxOf(en, a.s)[0], a.s);
    case Work(step) => HomeStays(en.queue, step);
    case Crash => CrashLine(en, s);
    case Recover(_) =>
      if a.s == s {
        RecoverKeepsLine(en, s);
      }
    case _ =>
  }

  lemma OutboxIsOwn(en: Engine, s: SessionId)
    requires s in en.store && SessionOk(en, s) && QueueUse(en)
    ensures Distinct(OutboxOf(en, s))
    ensures forall e :: e in OutboxOf(en, s) ==> e in en.owner && en.owner[e] == s
  {
    LineIsOwn(en, s);
    var front := AtWork(en, s) + InLane(en, s) + Entering(en, s);
    assert Line(en, s) == front + OutboxOf(en, s);
    assert forall i :: 0 <= i < |OutboxOf(en, s)| ==> Line(en, s)[|front| + i] == OutboxOf(en, s)[i];
  }

  lemma ActionKeepsSessions(en: Engine, a: Action)
    requires EngineInv(en) && Possible(en, a)
    ensures SessionsOk(Act(en, a))
  {
    hide Act, Inv, Possible, TranscriptOk, LineOk, OutboxOk, QueueUse;
    forall s | s in en.store ensures s in Act(en, a).store && SessionOk(Act(en, a), s) {
      assert SessionOk(en, s);
      SaidIsNew(en, a, s);
      ActionKeepsTranscript(en, a, s);
      ActionKeepsLine(en, a, s);
      ActionKeepsOutbox(en, a, s);
    }
    SessionsStay(en, a);
  }

  lemma SessionsStay(en: Engine, a: Action)
    requires Possible(en, a) && en.recovered <= en.store.Keys
    ensures Act(en, a).store.Keys == en.store.Keys && Act(en, a).recovered <= en.store.Keys
    ensures forall s :: s in Act(en, a).store <==> s in en.store
  {
  }

  // How the engine uses the queue.

  lemma StoreKeepsUse(en: Engine, a: Action)
    requires (a.Say? || a.Crash? || a.Recover?) && Possible(en, a) && QueueUse(en)
    ensures QueueUse(Act(en, a))
  {
  }

  lemma SubmitKeepsUse(en: Engine, a: Action)
    requires a.Submit? && Possible(en, a) && QueueUse(en)
    requires OutboxOf(en, a.s)[0] in en.owner && en.owner[OutboxOf(en, a.s)[0]] == a.s
    requires OutboxOf(en, a.s)[0] !in en.queue.sending
    requires a.s in en.queue.lanes ==> a.s in en.queue.spawned
    ensures QueueUse(Act(en, a))
  {
    hide Next;
    LookupQueue(en.queue, OutboxOf(en, a.s)[0], a.s);
    LookupReporting(en.queue, OutboxOf(en, a.s)[0], a.s);
    SubmittedUse(en, Act(en, a), OutboxOf(en, a.s)[0], a.s);
  }

  lemma SubmittedUse(en: Engine, en': Engine, e: MsgId, s: SessionId)
    requires QueueUse(en) && s in en.store && s !in en.submitting && e !in en.queue.home && e !in en.queue.sending
    requires e in en.owner && en.owner[e] == s
    requires s in en.queue.lanes ==> s in en.queue.spawned
    requires var q, q' := en.queue, en'.queue;
             && q'.sending == q.sending[e := s] && q'.home == q.home[e := s]
             && q'.closed == q.closed && q'.cancelled == q.cancelled
             && (forall l :: l in q'.spawned <==> l in q.spawned || (l == s && s !in q.lanes))
             && (forall w :: w in q'.workers && q'.workers[w].point.Reporting? ==> w in q.workers && q.workers[w] == q'.workers[w])
    requires en'.submitting == en.submitting[s := e] && en'.outbox.Keys == en.outbox.Keys
    requires en'.store == en.store && en'.owner == en.owner && en'.replied == en.replied && en'.nextId == en.nextId
    ensures QueueUse(en')
  {
    assert forall e' :: e' in en.queue.sending ==> en.queue.sending[e'] != s;
    assert forall l :: l in en'.outbox <==> l in en'.outbox.Keys;
  }

  lemma LookupQueue(q: Queue, e: EnvId, lane: LaneId)
    requires Enabled(q, Lookup(e, lane))
    ensures var q' := Next(q, Lookup(e, lane));
            && q'.sending == q.sending[e := lane] && q'.home == q.home[e := lane]
            && q'.closed == q.closed && q'.cancelled == q.cancelled
            && q'.lanes.Keys == q.lanes.Keys + {lane}
            && (forall l :: l in q'.lanes <==> l in q.lanes || l == lane)
            && (forall l :: l in q'.spawned <==> l in q.spawned || (l == lane && lane !in q.lanes))
  {
    hide Next, Enabled;
    LookupFields(q, e, lane);
    LookupLanes(q, e, lane);
  }

  lemma LookupFields(q: Queue, e: EnvId, lane: LaneId)
    requires Enabled(q, Lookup(e, lane))
    ensures var q' := Next(q, Lookup(e, lane));
            && q'.sending == q.sending[e := lane] && q'.home == q.home[e := lane]
            && q'.closed == q.closed && q'.cancelled == q.cancelled
  {
    NextOfLookup(q, e, lane);
    hide Next, Enabled, TrailOf;
  }

  lemma LookupLanes(q: Queue, e: EnvId, lane: LaneId)
    requires Enabled(q, Lookup(e, lane))
    ensures var q' := Next(q, Lookup(e, lane));
            && q'.lanes == (if lane in q.lanes then q.lanes else q.lanes[lane := []])
            && q'.spawned == (if lane in q.lanes then q.spawned else q.spawned[lane := q.nextWorker])
  {
    NextOfLookup(q, e, lane);
    hide Next, Enabled, TrailOf;
  }

  lemma LookupReporting(q: Queue, e: EnvId, lane: LaneId)
    requires Enabled(q, Lookup(e, lane))
    ensures var q' := Next(q, Lookup(e, lane));
            forall w :: w in q'.workers && q'.workers[w].point.Reporting? ==> w in q.workers && q.workers[w] == q'.workers[w]
  {
    NextOfLookup(q, e, lane);
    hide Next, Enabled, TrailOf;
  }

  /** What the queue's own steps do to the parts that QueueUse speaks of. */
  lemma WorkEffect(q: Queue, step: Step)
    requires Internal(step) && Enabled(q, step) && !q.closed && q.cancelled == {}
    ensures var q' := Next(q, step);
            && q'.closed == q.closed && q'.home == q.home && q'.spawned == q.spawned && q'.cancelled == q.cancelled
            && q'.sending == if step.Send? then q.sending - {step.e} else q.sending
  {
  }

  lemma WorkReporting(q: Queue, step: Step, w: WorkerId)
    requires Internal(step) && Enabled(q, step) && w in Next(q, step).workers && Next(q, step).workers[w].point.Reporting?
    ensures w in q.workers
    ensures if step == Release(w) then q.workers[w].point.Running? && Next(q, step).workers[w].point.e == q.workers[w].point.e
            else q.workers[w] == Next(q, step).workers[w]
  {
  }

  lemma WorkKeepsUse(en: Engine, step: Step)
    requires Possible(en, Work(step)) && QueueUse(en)
    ensures QueueUse(Act(en, Work(step)))
  {
    hide Next, Enabled, Internal;
    var en' := Act(en, Work(step));
    WorkEffect(en.queue, step);
    forall w | w in en'.queue.workers && en'.queue.workers[w].point.Reporting?
      ensures en'.queue.workers[w].point.e in en.replied
    {
      WorkReporting(en.queue, step, w);
    }
    if step.Send? {
      SendsFrom(en.queue, step);
    }
  }

  lemma SendsFrom(q: Queue, step: Step)
    requires Enabled(q, step) && step.Send?
    ensures step.e in q.sending
  {
  }

  lemma ReplyKeepsUse(en: Engine, w: WorkerId)
    requires Possible(en, Reply(w)) && QueueUse(en) && en.queue.workers[w].point.e in en.queue.home
    ensures QueueUse(Act(en, Reply(w)))
  {
  }

  lemma ActionKeepsUse(en: Engine, a: Action)
    requires EngineInv(en) && Possible(en, a)
    ensures Inv(Act(en, a).queue) && QueueUse(Act(en, a))
  {
    hide Inv, QueueUse, SessionOk, Next;
    match a
    case Submit(s) =>
      SubmitFacts(en, a);
      OutboxIsOwn(en, s);
      StepKeepsInv(en.queue, Lookup(OutboxOf(en, s)[0], s));
      SubmitKeepsUse(en, a);
    case Work(step) =>
      StepKeepsInv(en.queue, step);
      WorkKeepsUse(en, step);
    case Reply(w) =>
      AnsweredIsInLine(en, w);
      ReplyKeepsUse(en, w);
    case _ => StoreKeepsUse(en, a);
  }

  /** No action, recovery and crashes included, breaks the invariant. */
  lemma ActionKeepsInv(en: Engine, a: Action)
    requires EngineInv(en) && Possible(en, a)
    ensures EngineInv(Act(en, a))
  {
    hide Inv, QueueUse, SessionsOk, Act, Possible;
    ActionKeepsUse(en, a);
    ActionKeepsSessions(en, a);
  }

  // ----- runs with any number of crashes -----

  predicate CanRun(en: Engine, acts: seq<Action>)
    decreases |acts|
  {
    acts == [] || (Possible(en, acts[0]) && CanRun(Act(en, acts[0]), acts[1..]))
  }

  function Reached(en: Engine, acts: seq<Action>): Engine
    requires CanRun(en, acts)
    decreases |acts|
  {
    if acts == [] then en else Reached(Act(en, acts[0]), acts[1..])
  }

  lemma {:induction false} RunKeepsEngineInv(en: Engine, acts: seq<Action>)
    requires EngineInv(en) && CanRun(en, acts)
    ensures EngineInv(Reached(en, acts))
    decreases |acts|
  {
    hide EngineInv, Act, Possible;
    if acts != [] {
      ActionKeepsInv(en, acts[0]);
      RunKeepsEngineInv(Act(en, acts[0]), acts[1..]);
    }
  }

  // ----- when the transcripts stay right -----

  /** The n-th reply answers the n-th user message, and once recovered the line is exactly the messages without one. */
  predicate Right(en: Engine, s: SessionId)
    requires s in en.store
  {
    Orderly(en.store[s]) && (s in en.recovered ==> Line(en, s) == Pending(en.store[s]))
  }

  ghost predicate Sound(en: Engine) { forall s :: s in en.store ==> Right(en, s) }

  predicate Reads(en: Engine, a: Action)
    requires Possible(en, a)
  {
    a.Recover? ==> ListsEnough(en.store[a.s])
  }

  /** Only recovery can go wrong. */
  lemma ActionKeepsRight(en: Engine, a: Action, s: SessionId)
    requires EngineInv(en) && Possible(en, a) && s in en.store && Right(en, s) && a != Recover(s)
    ensures s in Act(en, a).store && Right(Act(en, a), s)
  {
    hide EngineInv, Line, Answers, UserIds, LineOk;
    RecoveredAfter(en, a, s);
    if a.Crash? {
      assert Act(en, a).store == en.store;
    } else {
      LineMoves(en, a, s);
      if a == Say(s) {
        Appended(en.store[s], Msg(en.nextId, User, 0));
      } else if a.Reply? && en.queue.workers[a.w].lane == s {
        ReplyKeepsRight(en, a.w);
      } else {
        assert Line(en, s) + [] == Line(en, s) && [] + Line(Act(en, a), s) == Line(Act(en, a), s);
      }
    }
  }

  lemma ReplyKeepsRight(en: Engine, w: WorkerId)
    requires EngineInv(en) && Possible(en, Reply(w)) && Right(en, en.queue.workers[w].lane)
    ensures Right(Act(en, Reply(w)), en.queue.workers[w].lane)
  {
    hide Inv, QueueUse, SessionsOk, Line;
    var l, e := en.queue.workers[w].lane, en.queue.workers[w].point.e;
    AnsweredIsInLine(en, w);
    PendingIsUnanswered(en.store[l]);
    Appended(en.store[l], Msg(en.nextId, Assistant, e));
    ReplyLine(en, w);
    assert Line(Act(en, Reply(w)), l) == Line(en, l)[1..];
  }

  lemma RecoverIsRightExactly(en: Engine, s: SessionId)
    requires EngineInv(en) && Possible(en, Recover(s)) && Right(en, s)
    ensures Right(Act(en, Recover(s)), s) <==> ListsEnough(en.store[s])
  {
    hide Inv, QueueUse, Line, ListsEnough;
    assert SessionOk(en, s);
    RecoveredLine(en, s);
    ListedPendingIsRight(en.store[s]);
  }

  lemma ActionIsSoundExactly(en: Engine, a: Action)
    requires EngineInv(en) && Possible(en, a) && Sound(en)
    ensures Sound(Act(en, a)) <==> Reads(en, a)
  {
    hide EngineInv, Right, ListsEnough, Act, Possible;
    var en' := Act(en, a);
    SessionKeysStay(en, a);
    forall s | s in en.store && a != Recover(s) ensures Right(en', s) {
      ActionKeepsRight(en, a, s);
    }
    if a.Recover? {
      RecoverIsPossible(en, a.s);
      RecoverIsRightExactly(en, a.s);
    }
  }

  lemma SessionKeysStay(en: Engine, a: Action)
    requires Possible(en, a)
    ensures forall s :: s in Act(en, a).store <==> s in en.store
    ensures a.Recover? ==> a.s in en.store
  {
  }

  predicate AlwaysReads(en: Engine, acts: seq<Action>)
    requires CanRun(en, acts)
    decreases |acts|
  {
    acts == [] || (Reads(en, acts[0]) && AlwaysReads(Act(en, acts[0]), acts[1..]))
  }

  ghost predicate AlwaysSound(en: Engine, acts: seq<Action>)
    requires CanRun(en, acts)
    decreases |acts|
  {
    Sound(en) && (acts == [] || AlwaysSound(Act(en, acts[0]), acts[1..]))
  }

  /** A run stays sound exactly if each of its recoveries reads enough of its transcript. */
  lemma {:induction false} RunIsSoundExactly(en: Engine, acts: seq<Action>)
    requires EngineInv(en) && Sound(en) && CanRun(en, acts)
    ensures AlwaysSound(en, acts) <==> AlwaysReads(en, acts)
    ensures AlwaysReads(en, acts) ==> Sound(Reached(en, acts))
    decreases |acts|
  {
    hide EngineInv, Sound, Reads, Act, Possible;
    if acts != [] {
      ActionKeepsInv(en, acts[0]);
      ActionIsSoundExactly(en, acts[0]);
      if Sound(Act(en, acts[0])) {
        RunIsSoundExactly(Act(en, acts[0]), acts[1..]);
      }
    }
  }

  /**
    Safety, in every state of every run whose recoveries read enough, whatever crashes it contains: the
    n-th assistant message of a session answers its n-th user message, no message is answered twice, and
    the line of a recovered session is exactly the messages without a reply, in order.
   */
  lemma AnsweredAtMostOnceInOrder(concurrency: int, sessions: set<SessionId>, acts: seq<Action>, s: SessionId)
    requires CanRun(Start(concurrency, sessions), acts) && AlwaysReads(Start(concurrency, sessions), acts)
    requires s in Reached(Start(concurrency, sessions), acts).store
    ensures var en := Reached(Start(concurrency, sessions), acts);
            var m := en.store[s];
            && Distinct(UserIds(m))
            && Answers(m) <= UserIds(m)
            && (s in en.recovered ==> Line(en, s) == UserIds(m)[|Answers(m)|..])
  {
    hide Inv, QueueUse, Line;
    var start := Start(concurrency, sessions);
    StartOk(concurrency, sessions);
    assert Sound(start);
    RunKeepsEngineInv(start, acts);
    RunIsSoundExactly(start, acts);
    var en := Reached(start, acts);
    assert SessionOk(en, s) && Right(en, s);
    PendingIsUnanswered(en.store[s]);
  }

  // ----- coming to rest -----

  /** What happens without new messages and without a crash. */
  predicate Unprompted(a: Action) { a.Submit? || a.Work? || a.Reply? || a.Recover? }

  ghost predicate Settled(en: Engine) { forall a: Action :: Unprompted(a) ==> !Possible(en, a) }

  lemma InternalIsPossible(en: Engine, step: Step)
    requires EngineInv(en) && Internal(step)
    ensures Enabled(en.queue, step) ==> Possible(en, Work(step)) || (step.Release? && Possible(en, Reply(step.w)))
  {
    hide SessionsOk, TokensInv, TrailInv, HeldInv, ResultsInv, SendingInv;
    if step.Release? && step.w in en.queue.workers {
      assert en.queue.workers[step.w].lane in en.queue.spawned;
    }
  }

  lemma SettledQueueIsQuiescent(en: Engine)
    requires EngineInv(en) && Settled(en)
    ensures Quiescent(en.queue)
  {
    hide EngineInv, Enabled, Possible;
    forall step: Step | Internal(step) ensures !Enabled(en.queue, step) {
      assert Unprompted(Work(step));
      assert step.Release? ==> Unprompted(Reply(step.w));
      InternalIsPossible(en, step);
    }
  }

  lemma QuiescentLineIsOutbox(q: Queue, l: LaneId)
    requires Inv(q) && Quiescent(q)
    ensures PointOf(q, l).Idle? && BufferOf(q, l) == [] && q.sending == map[]
    ensures forall e :: Fresh(q, e) <==> e !in q.home && e !in q.results
  {
    QuiescentMeansResolved(q);
    assert l in q.lanes ==> q.spawned[l] in q.workers;
  }

  lemma NobodyIsSubmitting(en: Engine, s: SessionId)
    requires EngineInv(en) && Quiescent(en.queue)
    ensures s !in en.submitting
  {
    hide SessionsOk, Inv, Quiescent;
    QuiescentLineIsOutbox(en.queue, s);
  }

  lemma OutboxIsSubmittable(en: Engine, s: SessionId)
    requires EngineInv(en) && Quiescent(en.queue) && s in en.store && s !in en.submitting
    ensures OutboxOf(en, s) != [] ==> Possible(en, Submit(s))
  {
    hide Inv, Quiescent, TranscriptOk, LineOk;
    QuiescentLineIsOutbox(en.queue, s);
    assert SessionOk(en, s);
    if OutboxOf(en, s) != [] {
      assert OutboxOf(en, s)[0] in OutboxOf(en, s);
      QuiescentIsFresh(en.queue, OutboxOf(en, s)[0]);
    }
  }

  lemma QuiescentIsFresh(q: Queue, e: EnvId)
    requires Inv(q) && Quiescent(q) && !q.closed && e !in q.home
    ensures Fresh(q, e)
  {
    assert EnvelopeOk(q, e);
  }

  /** At rest recovery has read every session and nothing is in line. */
  lemma SettledLine(en: Engine, s: SessionId)
    requires EngineInv(en) && Settled(en) && s in en.store
    ensures s in en.recovered && Line(en, s) == []
  {
    hide EngineInv, Possible, Enabled;
    SettledQueueIsQuiescent(en);
    NobodyIsSubmitting(en, s);
    OutboxIsSubmittable(en, s);
    assert Unprompted(Recover(s)) && Unprompted(Submit(s));
    RecoverIsPossible(en, s);
    assert Inv(en.queue) by { QueueInv(en); }
    QuiescentLineIsOutbox(en.queue, s);
  }

  lemma QueueInv(en: Engine)
    requires EngineInv(en)
    ensures Inv(en.queue)
  {
  }

  lemma RecoverIsPossible(en: Engine, s: SessionId)
    requires s in en.store
    ensures s in en.recovered <==> !Possible(en, Recover(s))
  {
  }

  /** The replies a session will have: what is in line, or what recovery will line up, comes after the present ones. */
  function Planned(en: Engine, s: SessionId): seq<MsgId>
    requires s in en.store
  {
    Answers(en.store[s]) + if s in en.recovered then Line(en, s) else Pending(Listed(en.store[s]))
  }

  lemma UnpromptedKeepsPlan(en: Engine, a: Action, s: SessionId)
    requires EngineInv(en) && Possible(en, a) && Unprompted(a) && s in en.store
    ensures s in Act(en, a).store && Planned(Act(en, a), s) == Planned(en, s)
    ensures UserIds(Act(en, a).store[s]) == UserIds(en.store[s])
  {
    hide Inv, QueueUse, Line, Pending, Act, UserIds, Answers, Possible;
    TranscriptMoves(en, a, s);
    RecoveredAfter(en, a, s);
    assert SessionOk(en, s);
    if a == Recover(s) {
      RecoverIsPossible(en, s);
      RecoveredLine(en, s);
    } else if s in en.recovered {
      LineMoves(en, a, s);
      assert Line(en, s) + [] == Line(en, s);
      Regroup(Answers(en.store[s]), Done(en, a, s), Line(Act(en, a), s));
    } else {
      UnreadIsNotAnswered(en, a, s);
    }
  }

  lemma Regroup(a: seq<MsgId>, b: seq<MsgId>, c: seq<MsgId>)
    ensures (a + b) + c == a + (b + c)
  {
  }

  lemma UnreadIsNotAnswered(en: Engine, a: Action, s: SessionId)
    requires EngineInv(en) && Possible(en, a) && Unprompted(a) && s in en.store && s !in en.recovered
    ensures Act(en, a).store[s] == en.store[s]
  {
    hide Inv, QueueUse, SessionsOk, Line;
    if a.Reply? {
      AnsweredIsInLine(en, a.w);
    }
  }

  predicate AllUnprompted(acts: seq<Action>) { forall a :: a in acts ==> Unprompted(a) }

  /**
    Whatever happens without new messages and crashes, the replies at rest are the planned ones: those
    already there, then those in line or found by recovery, each answered exactly once and in order.
   */
  lemma {:induction false} RestIsThePlan(en: Engine, acts: seq<Action>, s: SessionId)
    requires EngineInv(en) && CanRun(en, acts) && AllUnprompted(acts) && Settled(Reached(en, acts)) && s in en.store
    ensures s in Reached(en, acts).store && Answers(Reached(en, acts).store[s]) == Planned(en, s)
    ensures UserIds(Reached(en, acts).store[s]) == UserIds(en.store[s])
    decreases |acts|
  {
    hide EngineInv, Act, Possible, UserIds, Answers, Settled, Line, Unprompted;
    if acts == [] {
      SettledLine(en, s);
    } else {
      assert acts[0] in acts;
      UnpromptedKeepsPlan(en, acts[0], s);
      ActionKeepsInv(en, acts[0]);
      RestIsThePlan(Act(en, acts[0]), acts[1..], s);
    }
  }

  /**
    From a sound state, coming to rest answers every user message of a session exactly once and in
    order if and only if recovery has read the session rightly already or reads enough of it.
   */
  lemma AllAnsweredExactly(en: Engine, acts: seq<Action>, s: SessionId)
    requires EngineInv(en) && Sound(en) && CanRun(en, acts) && AllUnprompted(acts) && Settled(Reached(en, acts))
    requires s in en.store
    ensures s in Reached(en, acts).store
    ensures Answers(Reached(en, acts).store[s]) == UserIds(Reached(en, acts).store[s]) <==>
              s in en.recovered || ListsEnough(en.store[s])
  {
    hide Inv, QueueUse, Act, Possible, Settled, Line, Unprompted, ListsEnough;
    RestIsThePlan(en, acts, s);
    assert SessionOk(en, s) && Right(en, s);
    var m := en.store[s];
    PendingIsUnanswered(m);
    ListedPendingIsRight(m);
    assert UserIds(m) == Answers(m) + Pending(m);
    if Answers(m) + Pending(Listed(m)) == Answers(m) + Pending(m) {
      assert (Answers(m) + Pending(Listed(m)))[|Answers(m)|..] == Pending(Listed(m));
      assert (Answers(m) + Pending(m))[|Answers(m)|..] == Pending(m);
    }
  }

  /** A bound on what the process can do by itself before it is at rest. */
  ghost function Potential(en: Engine): nat {
    |en.store.Keys - en.recovered| + 7 * |en.owner.Keys - en.queue.home.Keys| + |en.owner.Keys - en.replied| +
    Measure(en.queue)
  }

  lemma RecoverGetsCloser(en: Engine, s: SessionId)
    requires Possible(en, Recover(s))
    ensures Potential(Act(en, Recover(s))) < Potential(en)
  {
    hide Measure, Act, Possible;
    RecoverStays(en, s);
    OneMore(en.store.Keys, en.recovered, s);
  }

  lemma RecoverStays(en: Engine, s: SessionId)
    requires Possible(en, Recover(s))
    ensures var en' := Act(en, Recover(s));
            && en'.store == en.store && en'.owner == en.owner && en'.replied == en.replied && en'.queue == en.queue
            && s in en.store && s !in en.recovered && en'.recovered == en.recovered + {s}
  {
    hide Pending, Listed;
  }

  lemma OneMore<T>(all: set<T>, some: set<T>, x: T)
    requires x in all && x !in some
    ensures |all - (some + {x})| == |all - some| - 1
  {
    assert all - (some + {x}) == (all - some) - {x};
  }

  lemma SubmitGetsCloser(en: Engine, s: SessionId)
    requires OutboxOf(en, s) != [] && Possible(en, Submit(s)) && OutboxOf(en, s)[0] in en.owner && Inv(en.queue)
    ensures Potential(Act(en, Submit(s))) < Potential(en)
  {
    hide Next, Enabled, Inv, Act, OutboxOf, Measure, Possible;
    var e, en' := OutboxOf(en, s)[0], Act(en, Submit(s));
    SubmitMoves(en, Submit(s), s);
    SubmitStays(en, s);
    LookupRaisesMeasure(en.queue, Lookup(e, s));
    LookupFields(en.queue, e, s);
    assert en'.queue.home.Keys == en.queue.home.Keys + {e};
    OneMore(en.owner.Keys, en.queue.home.Keys, e);
  }

  lemma SubmitStays(en: Engine, s: SessionId)
    requires Possible(en, Submit(s))
    ensures var en' := Act(en, Submit(s));
            en'.store == en.store && en'.recovered == en.recovered && en'.owner == en.owner && en'.replied == en.replied
    ensures OutboxOf(en, s) != [] && OutboxOf(en, s)[0] !in en.queue.home
    ensures Enabled(en.queue, Lookup(OutboxOf(en, s)[0], s))
  {
    hide Next;
  }

  lemma ReplyGetsCloser(en: Engine, w: WorkerId)
    requires Possible(en, Reply(w)) && en.queue.workers[w].point.e in en.owner
    ensures Potential(Act(en, Reply(w))) < Potential(en)
  {
    hide Measure;
    var en', e := Act(en, Reply(w)), en.queue.workers[w].point.e;
    assert en'.store.Keys == en.store.Keys;
    OneMore(en.owner.Keys, en.replied, e);
  }

  lemma WorkGetsCloser(en: Engine, step: Step)
    requires Possible(en, Work(step)) && Inv(en.queue)
    ensures Potential(Act(en, Work(step))) < Potential(en)
  {
    InternalStepLowersMeasure(en.queue, step);
    HomeStays(en.queue, step);
    hide Next, Inv, Enabled;
  }

  /** Nothing the process does by itself can go on forever. */
  lemma UnpromptedGetsCloser(en: Engine, a: Action)
    requires EngineInv(en) && Possible(en, a) && Unprompted(a)
    ensures Potential(Act(en, a)) < Potential(en)
  {
    hide Potential, SessionOk;
    match a
    case Recover(s) => RecoverGetsCloser(en, s);
    case Submit(s) =>
      SubmitFacts(en, a);
      OutboxIsOwn(en, s);
      SubmitGetsCloser(en, s);
    case Reply(w) =>
      AnsweredIsInLine(en, w);
      ReplyGetsCloser(en, w);
    case Work(step) => WorkGetsCloser(en, step);
  }

  /** However the process goes on by itself, it takes at most Potential(en) actions. */
  lemma {:induction false} UnpromptedRunsEnd(en: Engine, acts: seq<Action>)
    requires EngineInv(en) && CanRun(en, acts) && AllUnprompted(acts)
    ensures |acts| <= Potential(en)
    decreases |acts|
  {
    hide EngineInv, Act, Possible, Potential, Unprompted;
    if acts != [] {
      assert acts[0] in acts && forall a :: a in acts[1..] ==> a in acts;
      UnpromptedGetsCloser(en, acts[0]);
      ActionKeepsInv(en, acts[0]);
      UnpromptedRunsEnd(Act(en, acts[0]), acts[1..]);
    }
  }

  /** Unless everything is at rest, there is a step that brings it closer. */
  lemma StepTowardsRest(en: Engine) returns (a: Action)
    requires EngineInv(en) && !Settled(en)
    ensures Unprompted(a) && Possible(en, a)
    ensures EngineInv(Act(en, a)) && Potential(Act(en, a)) < Potential(en)
  {
    hide EngineInv, Act, Potential;
    a :| Unprompted(a) && Possible(en, a);
    UnpromptedGetsCloser(en, a);
    ActionKeepsInv(en, a);
  }

  /** In a sound state at rest every user message of every session has exactly one reply, in order. */
  lemma SettledMeansAllAnswered(en: Engine, s: SessionId)
    requires EngineInv(en) && Sound(en) && Settled(en) && s in en.store
    ensures Answers(en.store[s]) == UserIds(en.store[s])
  {
    hide EngineInv, Sound, Settled, ListsEnough;
    SettledLine(en, s);
    assert CanRun(en, []) && AllUnprompted([]) && Reached(en, []) == en;
    AllAnsweredExactly(en, [], s);
  }

  /** At rest every session takes a new message. */
  lemma RestTakesMessages(en: Engine, s: SessionId)
    requires EngineInv(en) && Settled(en) && s in en.store
    ensures Possible(en, Say(s))
  {
    SettledLine(en, s);
    hide EngineInv, Settled, AtWork, InLane;
    assert |Line(en, s)| == |AtWork(en, s)| + |InLane(en, s)| + |Entering(en, s)| + |OutboxOf(en, s)|;
  }

  /** From every state that keeps the invariant the process can come to rest by itself. */
  lemma ComeToRest(en: Engine) returns (acts: seq<Action>)
    requires EngineInv(en)
    ensures CanRun(en, acts) && AllUnprompted(acts) && Settled(Reached(en, acts))
    decreases Potential(en)
  {
    hide EngineInv, Act, Settled, Possible, Potential;
    if Settled(en) {
      acts := [];
    } else {
      var a := StepTowardsRest(en);
      var rest := ComeToRest(Act(en, a));
      acts := [a] + rest;
      assert acts[1..] == rest;
    }
  }

  /**
    Progress: from every state of every run the process can come to rest by itself (and by
    UnpromptedRunsEnd it cannot go on forever).  Then the planned replies have been given, and if the
    state was sound these answer every user message exactly once if and only if recovery has read the
    session or reads enough of it.
   */
  lemma DrainSessions(en: Engine) returns (acts: seq<Action>)
    requires EngineInv(en)
    ensures CanRun(en, acts) && AllUnprompted(acts) && Settled(Reached(en, acts))
    ensures forall s :: s in en.store ==> s in Reached(en, acts).store && Answers(Reached(en, acts).store[s]) == Planned(en, s)
    ensures Sound(en) ==> forall s :: s in en.store ==>
              (Answers(Reached(en, acts).store[s]) == UserIds(Reached(en, acts).store[s]) <==>
               s in en.recovered || ListsEnough(en.store[s]))
  {
    hide EngineInv, Sound, Settled, ListsEnough, Reached, CanRun, AllUnprompted, Planned, Answers, UserIds;
    acts := ComeToRest(en);
    forall s | s in en.store
      ensures s in Reached(en, acts).store && Answers(Reached(en, acts).store[s]) == Planned(en, s)
      ensures Sound(en) ==> (Answers(Reached(en, acts).store[s]) == UserIds(Reached(en, acts).store[s]) <==>
                             s in en.recovered || ListsEnough(en.store[s]))
    {
      RestIsThePlan(en, acts, s);
      if Sound(en) {
        AllAnsweredExactly(en, acts, s);
      }
    }
  }
}

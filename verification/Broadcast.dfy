/** RDM requests to several ports: joining the replies of a broadcast into one answer. */
module Broadcasts {
  import opened Sequences
  import opened Dmx
  import opened Discovery
  import opened Universes

  type Packet = seq<byte>

  /** The response codes the joins tell apart, and the others. */
  datatype Code = WasBroadcast | DubResponse | Timeout | DiscoveryNotSupported | UnknownUid | Other(value: nat)

  /** What one port passes to the callback it was given. */
  datatype Reply = Reply(code: Code, packets: seq<Packet>)

  /** What the caller's callback is run with. */
  datatype Answer = Answer(code: Code, packets: seq<Packet>)

  // ---------- the joins, on the replies in order of arrival ----------

  /** The last reply that is not RDM_WAS_BROADCAST decides a plain broadcast. */
  function PlainCode(replies: seq<Reply>): Code {
    if replies == [] then WasBroadcast
    else
      var last := replies[|replies| - 1];
      if last.code != WasBroadcast then last.code else PlainCode(replies[..|replies| - 1])
  }

  ghost predicate Has(replies: seq<Reply>, code: Code) {
    exists i :: 0 <= i < |replies| && replies[i].code == code
  }

  /** A DUB response beats a timeout, and a timeout beats the rest, of which the last one counts. */
  ghost function DubCode(replies: seq<Reply>): Code {
    if Has(replies, DubResponse) then DubResponse
    else if Has(replies, Timeout) then Timeout
    else if replies == [] then DiscoveryNotSupported
    else replies[|replies| - 1].code
  }

  /** The packets of all replies, in order of arrival. */
  function AllPackets(replies: seq<Reply>): seq<Packet> {
    if replies == [] then [] else AllPackets(replies[..|replies| - 1]) + replies[|replies| - 1].packets
  }

  /** The answer to a completed broadcast; a plain one passes on the packets of the last reply only. */
  ghost function Joined(isDub: bool, replies: seq<Reply>): Answer
    requires replies != []
  {
    if isDub then Answer(DubCode(replies), AllPackets(replies))
    else Answer(PlainCode(replies), replies[|replies| - 1].packets)
  }

  // ---------- the tracker ----------

  /** Counts the replies to one broadcast, and runs the caller's callback on the last. */
  class Tracker {
    const isDub: bool
    const expected: nat
    var current: nat
    var code: Code
    var packets: seq<Packet>
    /** The runs of the caller's callback. */
    var answers: seq<Answer>
    /** The replies so far, in order of arrival. */
    ghost var replies: seq<Reply>

    constructor (isDub: bool, expected: nat)
      ensures this.isDub == isDub && this.expected == expected && Valid() && replies == [] && answers == []
    {
      this.isDub, this.expected := isDub, expected;
      current, packets, answers, replies := 0, [], [], [];
      code := if isDub then DiscoveryNotSupported else WasBroadcast;
    }

    ghost predicate Valid()
      reads this
    {
      && current == |replies| <= expected
      && code == (if isDub then DubCode(replies) else PlainCode(replies))
      && (isDub ==> packets == AllPackets(replies))
      && answers == if |replies| < expected || expected == 0 then [] else [Joined(isDub, replies)]
    }

    method HandleBroadcastAck(reply: Reply)
      requires Valid() && !isDub && |replies| < expected
      modifies this
      ensures Valid() && replies == old(replies) + [reply]
    {
      replies := replies + [reply];
      assert replies[..|replies| - 1] == old(replies);
      current := current + 1;
      if reply.code != WasBroadcast {
        code := reply.code;
      }
      if current == expected {
        answers := answers + [Answer(code, reply.packets)];
      }
    }

    method HandleBroadcastDiscovery(reply: Reply)
      requires Valid() && isDub && |replies| < expected
      modifies this
      ensures Valid() && replies == old(replies) + [reply]
    {
      replies := replies + [reply];
      assert replies[..|replies| - 1] == old(replies);
      DubStep(old(replies), reply);
      current := current + 1;
      if reply.code == DubResponse {
        code := DubResponse;
      } else if reply.code == Timeout && code != DubResponse {
        code := Timeout;
      } else if code != DubResponse && code != Timeout {
        code := reply.code;
      }
      packets := packets + reply.packets;
      if current == expected {
        answers := answers + [Answer(code, packets)];
      }
    }

    method Handle(reply: Reply)
      requires Valid() && |replies| < expected
      modifies this
      ensures Valid() && replies == old(replies) + [reply]
    {
      if isDub {
        HandleBroadcastDiscovery(reply);
      } else {
        HandleBroadcastAck(reply);
      }
    }
  }

  lemma DubStep(replies: seq<Reply>, reply: Reply)
    ensures forall code :: Has(replies + [reply], code) <==> Has(replies, code) || reply.code == code
    ensures DubCode(replies) == DubResponse <==> Has(replies, DubResponse)
    ensures DubCode(replies) == Timeout <==> Has(replies, Timeout) && !Has(replies, DubResponse)
  {
    var longer := replies + [reply];
    forall code | Has(replies, code)
      ensures Has(longer, code)
    {
      var i :| 0 <= i < |replies| && replies[i].code == code;
      assert longer[i].code == code;
    }
    assert longer[|replies|].code == reply.code;
  }

  // ---------- a whole broadcast ----------

  /** `at` lists positions below `n`, none twice. */
  ghost predicate Positions(at: seq<nat>, n: nat) {
    NoDup(at) && forall k :: 0 <= k < |at| ==> at[k] < n
  }

  /** The elements of `s` at the given positions. */
  function Pick<T>(s: seq<T>, at: seq<nat>): (r: seq<T>)
    requires forall k :: 0 <= k < |at| ==> at[k] < |s|
    ensures |r| == |at| && forall k :: 0 <= k < |at| ==> r[k] == s[at[k]]
  {
    seq(|at|, k requires 0 <= k < |at| => s[at[k]])
  }

  /** `s` without its element at `k`. */
  function Without<T>(s: seq<T>, k: nat): (r: seq<T>)
    requires k < |s|
    ensures |r| == |s| - 1 && multiset(s) == multiset(r) + multiset{s[k]}
    ensures forall i :: 0 <= i < |r| ==> r[i] == s[if i < k then i else i + 1]
  {
    assert s == s[..k] + [s[k]] + s[k + 1..];
    s[..k] + s[k + 1..]
  }

  /** Positions that cover everything below `n + 1` cover everything below `n` without their `n`. */
  lemma WithoutLast(at: seq<nat>, n: nat, k: nat)
    requires Positions(at, n + 1) && k < |at| && at[k] == n && forall i: nat :: i <= n ==> i in at
    ensures Positions(Without(at, k), n) && forall i: nat :: i < n ==> i in Without(at, k)
  {
    var rest := Without(at, k);
    forall i: nat | i < n
      ensures i in rest
    {
      assert i in at;
      var j :| 0 <= j < |at| && at[j] == i;
      assert rest[if j < k then j else j - 1] == i;
    }
  }

  /** Picking every position once rearranges the sequence. */
  lemma {:induction false} PickAll<T>(s: seq<T>, at: seq<nat>)
    requires Positions(at, |s|) && forall i: nat :: i < |s| ==> i in at
    ensures multiset(Pick(s, at)) == multiset(s)
  {
    if |s| > 0 {
      var n: nat := |s| - 1;
      assert n in at;
      var k :| 0 <= k < |at| && at[k] == n;
      WithoutLast(at, n, k);
      PickAll(s[..n], Without(at, k));
      hide Positions;
      assert s == s[..n] + [s[n]];
      assert Pick(s[..n], Without(at, k)) == Without(Pick(s, at), k);
    }
  }

  /** Distinct positions below `n` are at most `n`. */
  lemma {:induction false} Fits(at: seq<nat>, n: nat)
    requires Positions(at, n)
    ensures |at| <= n
    decreases n
  {
    if at != [] {
      assert at[0] < n;
      if k :| 0 <= k < |at| && at[k] == n - 1 {
        Fits(Without(at, k), n - 1);
      } else {
        Fits(at, n - 1);
      }
    }
  }

  /** The ports in `prompt` reply while the request is being sent out, the rest later, in the given order. */
  method Collect(isDub: bool, replies: seq<Reply>, prompt: set<nat>, order: seq<nat>) returns (tracker: Tracker)
    requires Positions(order, |replies|) && forall i: nat :: i < |replies| ==> (i in order <==> i !in prompt)
    ensures fresh(tracker) && tracker.Valid() && tracker.isDub == isDub && tracker.expected == |replies|
    ensures multiset(tracker.replies) == multiset(replies)
  {
    hide DubCode;
    hide PlainCode;
    hide Tracker.Valid;
    tracker := new Tracker(isDub, |replies|);
    ghost var heard: seq<nat> := [];
    for i := 0 to |replies|
      invariant tracker.Valid() && tracker.isDub == isDub && tracker.expected == |replies|
      invariant Positions(heard, i) && forall k: nat :: k < i ==> (k in heard <==> k in prompt)
      invariant tracker.replies == Pick(replies, heard)
    {
      if i in prompt {
        Fits(heard, i);
        tracker.Handle(replies[i]);
        heard := heard + [i];
      }
    }
    assert Positions(heard + order, |replies|) by {
      assert forall k :: 0 <= k < |order| ==> order[k] in order;
      assert forall k :: 0 <= k < |heard| ==> heard[k] in heard;
    }
    Fits(heard + order, |replies|);
    for j := 0 to |order|
      invariant tracker.Valid() && tracker.isDub == isDub && tracker.expected == |replies|
      invariant tracker.replies == Pick(replies, heard + order[..j])
    {
      tracker.Handle(replies[order[j]]);
    }
    assert order[..|order|] == order;
    PickAll(replies, heard + order);
  }

  /**
   * A broadcast to `|replies|` ports of which those in `prompt` reply while the request is being sent out and the rest
   * later, in any order. The caller's callback runs once, with the join of one reply of each port in order of arrival,
   * which is the right answer for the ports; if there is no port it never runs.
   */
  method SendBroadcast(isDub: bool, replies: seq<Reply>, prompt: set<nat>, order: seq<nat>)
      returns (answers: seq<Answer>, ghost arrivals: seq<Reply>)
    requires Positions(order, |replies|) && forall i: nat :: i < |replies| ==> (i in order <==> i !in prompt)
    ensures multiset(arrivals) == multiset(replies) && |arrivals| == |replies|
    ensures answers == if replies == [] then [] else [Joined(isDub, arrivals)]
    ensures |answers| == 1 <==> replies != []
    ensures forall a :: a in answers ==> RightAnswer(isDub, replies, a) && AnswerTo(isDub, arrivals, a)
  {
    hide RightAnswer;
    hide AnswerTo;
    hide DubCode;
    hide PlainCode;
    hide Positions;
    var tracker := Collect(isDub, replies, prompt, order);
    arrivals := tracker.replies;
    assert |arrivals| == |multiset(arrivals)| == |multiset(replies)| == |replies|;
    answers := tracker.answers;
    if replies != [] {
      AnswerOfPorts(isDub, replies, arrivals);
      JoinedIsAnswerTo(isDub, arrivals);
    }
  }

  // ---------- what the joins mean, whatever the order ----------

  /** A plain broadcast reports RDM_WAS_BROADCAST exactly when every port did; otherwise it reports a port's error. */
  lemma {:induction false} PlainIsBroadcastWhenAllAre(replies: seq<Reply>)
    ensures PlainCode(replies) == WasBroadcast <==> forall i :: 0 <= i < |replies| ==> replies[i].code == WasBroadcast
    ensures PlainCode(replies) == WasBroadcast || Has(replies, PlainCode(replies))
  {
    if replies != [] {
      PlainIsBroadcastWhenAllAre(replies[..|replies| - 1]);
    }
  }

  predicate Documented(code: Code) {
    code.DubResponse? || code.Timeout? || code.DiscoveryNotSupported?
  }

  /** The documented codes, by precedence. */
  function Precedence(code: Code): nat
    requires Documented(code)
  {
    match code
    case DubResponse => 2
    case Timeout => 1
    case DiscoveryNotSupported => 0
  }

  /** With the documented codes a DUB broadcast reports the highest precedence that any port reported. */
  lemma DubIsPrecedenceMax(replies: seq<Reply>)
    requires replies != []
    requires forall i :: 0 <= i < |replies| ==> Documented(replies[i].code)
    ensures Has(replies, DubCode(replies)) && Documented(DubCode(replies))
    ensures forall i :: 0 <= i < |replies| ==> Precedence(replies[i].code) <= Precedence(DubCode(replies))
  {
    assert Has(replies, replies[|replies| - 1].code);
  }

  lemma SameCodes(a: seq<Reply>, b: seq<Reply>)
    requires multiset(a) == multiset(b)
    ensures forall code :: Has(a, code) <==> Has(b, code)
  {
    forall code
      ensures Has(a, code) <==> Has(b, code)
    {
      assert Has(a, code) <==> exists r :: r in multiset(a) && r.code == code by { HasIn(a, code); }
      assert Has(b, code) <==> exists r :: r in multiset(b) && r.code == code by { HasIn(b, code); }
    }
  }

  lemma HasIn(replies: seq<Reply>, code: Code)
    ensures Has(replies, code) <==> exists r :: r in multiset(replies) && r.code == code
  {
    if r :| r in multiset(replies) && r.code == code {
      assert r in replies;
    }
  }

  /**
   * What the answer to a broadcast is to be, in terms of the ports' replies and not of their order of arrival: a plain
   * one is RDM_WAS_BROADCAST exactly when every port said so, and else reports what some port did; a DUB one has the
   * highest precedence that any port reported, if all keep to the documented codes, and carries every packet of every
   * port once.
   */
  ghost predicate RightAnswer(isDub: bool, replies: seq<Reply>, answer: Answer) {
    if isDub then
      && multiset(answer.packets) == multiset(AllPackets(replies))
      && ((forall i :: 0 <= i < |replies| ==> Documented(replies[i].code)) ==>
            && Documented(answer.code) && Has(replies, answer.code)
            && forall i :: 0 <= i < |replies| ==> Precedence(replies[i].code) <= Precedence(answer.code))
    else
      && (answer.code == WasBroadcast <==> forall i :: 0 <= i < |replies| ==> replies[i].code == WasBroadcast)
      && Has(replies, answer.code)
  }

  /** The join of one reply of each port, in whatever order they arrive, is the right answer. */
  lemma AnswerOfPorts(isDub: bool, replies: seq<Reply>, arrivals: seq<Reply>)
    requires replies != [] && |arrivals| == |replies| && multiset(arrivals) == multiset(replies)
    ensures RightAnswer(isDub, replies, Joined(isDub, arrivals))
  {
    SameCodes(arrivals, replies);
    PacketsConserved(arrivals, replies);
    PlainIsBroadcastWhenAllAre(arrivals);
    assert (exists i :: 0 <= i < |replies| && replies[i].code != WasBroadcast) <==>
           exists i :: 0 <= i < |arrivals| && arrivals[i].code != WasBroadcast by {
      assert forall i :: 0 <= i < |replies| ==> Has(replies, replies[i].code);
      assert forall i :: 0 <= i < |arrivals| ==> Has(arrivals, arrivals[i].code);
    }
    if forall i :: 0 <= i < |replies| ==> Documented(replies[i].code) {
      forall i | 0 <= i < |arrivals|
        ensures Documented(arrivals[i].code)
      {
        assert Has(arrivals, arrivals[i].code);
      }
      DubIsPrecedenceMax(arrivals);
      forall i | 0 <= i < |replies|
        ensures Precedence(replies[i].code) <= Precedence(DubCode(arrivals))
      {
        assert Has(replies, replies[i].code);
      }
    }
  }

  /** The replies with the one at `i` arriving last. */
  function Last(replies: seq<Reply>, i: nat): (r: seq<Reply>)
    requires i < |replies|
    ensures multiset(r) == multiset(replies) && |r| == |replies| && r[|r| - 1] == replies[i]
  {
    assert replies == replies[..i] + [replies[i]] + replies[i + 1..];
    replies[..i] + replies[i + 1..] + [replies[i]]
  }

  /** The code of a DUB broadcast does not depend on the order of arrival exactly if some port reports a DUB response or a timeout, or all report the same. */
  lemma DubOrderIrrelevant(replies: seq<Reply>)
    ensures (forall other: seq<Reply> :: multiset(other) == multiset(replies) ==> DubCode(other) == DubCode(replies))
            <==> Has(replies, DubResponse) || Has(replies, Timeout)
                 || forall i, j :: 0 <= i < j < |replies| ==> replies[i].code == replies[j].code
  {
    if i, j :| 0 <= i < j < |replies| && replies[i].code != replies[j].code && !Has(replies, DubResponse) && !Has(replies, Timeout) {
      SameCodes(Last(replies, i), replies);
      SameCodes(Last(replies, j), replies);
      assert DubCode(Last(replies, i)) != DubCode(Last(replies, j));
    } else {
      forall other: seq<Reply> | multiset(other) == multiset(replies)
        ensures DubCode(other) == DubCode(replies)
      {
        SameCodes(other, replies);
        assert |other| == |multiset(other)| == |multiset(replies)| == |replies|;
        if other != [] {
          assert Has(other, other[|other| - 1].code);
        }
      }
    }
  }

  /** The code of a plain broadcast does not depend on the order of arrival exactly if all errors are the same. */
  lemma PlainOrderIrrelevant(replies: seq<Reply>)
    ensures (forall other: seq<Reply> :: multiset(other) == multiset(replies) ==> PlainCode(other) == PlainCode(replies))
            <==> forall i, j :: 0 <= i < j < |replies| && replies[i].code != WasBroadcast && replies[j].code != WasBroadcast ==>
                   replies[i].code == replies[j].code
  {
    if i, j :| 0 <= i < j < |replies| && replies[i].code != WasBroadcast && replies[j].code != WasBroadcast && replies[i].code != replies[j].code {
      LastDecides(Last(replies, i));
      LastDecides(Last(replies, j));
    } else {
      hide PlainCode;
      forall other: seq<Reply> | multiset(other) == multiset(replies)
        ensures PlainCode(other) == PlainCode(replies)
      {
        SameCodes(other, replies);
        ErrorOfSome(replies);
        ErrorOfSome(other);
        if PlainCode(replies) != WasBroadcast || PlainCode(other) != WasBroadcast {
          SameError(replies, other, PlainCode(replies), PlainCode(other));
        }
      }
    }
  }

  lemma LastDecides(replies: seq<Reply>)
    requires replies != [] && replies[|replies| - 1].code != WasBroadcast
    ensures PlainCode(replies) == replies[|replies| - 1].code
  {
  }

  lemma ErrorOfSome(replies: seq<Reply>)
    ensures PlainCode(replies) != WasBroadcast ==> Has(replies, PlainCode(replies))
    ensures PlainCode(replies) == WasBroadcast ==> forall code :: Has(replies, code) ==> code == WasBroadcast
  {
    PlainIsBroadcastWhenAllAre(replies);
    hide PlainCode;
  }

  /** If all errors are the same, and the codes that occur are too, so are two codes that stand for what occurs. */
  lemma SameError(a: seq<Reply>, b: seq<Reply>, c: Code, d: Code)
    requires forall code :: Has(a, code) <==> Has(b, code)
    requires forall i, j :: 0 <= i < j < |a| && a[i].code != WasBroadcast && a[j].code != WasBroadcast ==> a[i].code == a[j].code
    requires if c != WasBroadcast then Has(a, c) else forall code :: Has(a, code) ==> code == WasBroadcast
    requires if d != WasBroadcast then Has(b, d) else forall code :: Has(b, code) ==> code == WasBroadcast
    ensures c == d
  {
    if c != WasBroadcast && d != WasBroadcast {
      assert Has(a, c) && Has(a, d);
      var i :| 0 <= i < |a| && a[i].code == c;
      var j :| 0 <= j < |a| && a[j].code == d;
    }
  }

  /** No packet is lost or duplicated: the packets delivered are those of the replies, whatever the order of arrival. */
  lemma {:induction false} PacketsConserved(a: seq<Reply>, b: seq<Reply>)
    requires multiset(a) == multiset(b)
    ensures multiset(AllPackets(a)) == multiset(AllPackets(b))
    decreases |a|
  {
    assert |a| == |multiset(a)| == |multiset(b)| == |b|;
    if a != [] {
      hide AllPackets;
      var k := Whereabouts(a[0], b);
      var rest, before, after := a[1..], b[..k], b[k + 1..];
      SplitAt(a, 0);
      SplitAt(b, k);
      MiddleApart([], [a[0]], rest);
      MiddleApart(before, [a[0]], after);
      SameWithout(multiset([] + rest), multiset(before + after), a[0]);
      PacketsConserved([] + rest, before + after);
      PacketsAround([], a[0], rest);
      PacketsAround(before, a[0], after);
    }
  }

  lemma Whereabouts<T>(x: T, s: seq<T>) returns (k: nat)
    requires x in multiset(s)
    ensures k < |s| && s[k] == x
  {
    k :| 0 <= k < |s| && s[k] == x;
  }

  lemma SplitAt<T>(s: seq<T>, k: nat)
    requires k < |s|
    ensures s == s[..k] + [s[k]] + s[k + 1..]
  {
  }

  lemma SameWithout<T>(a: multiset<T>, b: multiset<T>, x: T)
    requires a + multiset{x} == b + multiset{x}
    ensures a == b
  {
    assert a == a + multiset{x} - multiset{x};
    assert b == b + multiset{x} - multiset{x};
  }

  lemma PacketsOfOneMore(replies: seq<Reply>, r: Reply)
    ensures AllPackets(replies + [r]) == AllPackets(replies) + r.packets
  {
    assert (replies + [r])[..|replies|] == replies;
  }

  lemma PacketsAround(before: seq<Reply>, r: Reply, after: seq<Reply>)
    ensures multiset(AllPackets(before + [r] + after)) == multiset(AllPackets(before + after)) + multiset(r.packets)
  {
    hide AllPackets;
    PacketsOfOneMore(before, r);
    PacketsOfParts(before + [r], after);
    PacketsOfParts(before, after);
    MiddleApart(AllPackets(before), r.packets, AllPackets(after));
  }

  lemma MiddleApart<T>(x: seq<T>, y: seq<T>, z: seq<T>)
    ensures multiset(x + y + z) == multiset(x + z) + multiset(y)
  {
  }

  /** Each reply's packets are delivered together, in order of arrival. */
  lemma {:induction false} PacketsOfParts(a: seq<Reply>, b: seq<Reply>)
    ensures AllPackets(a + b) == AllPackets(a) + AllPackets(b)
    decreases |b|
  {
    if b == [] {
      assert a + b == a;
    } else {
      var n := |b| - 1;
      PacketsOfParts(a, b[..n]);
      var s := a + b;
      assert s[..|s| - 1] == a + b[..n] && s[|s| - 1] == b[n];
    }
  }

  // ---------- what the joins mean, in order of arrival ----------

  /** `packets` starts with those of the first reply, goes on with those of the second, and ends with those of the last. */
  ghost predicate InOrder(packets: seq<Packet>, replies: seq<Reply>) {
    if replies == [] then packets == []
    else replies[0].packets <= packets && InOrder(packets[|replies[0].packets|..], replies[1..])
  }

  /**
   * The answer to these replies in order of arrival. A plain one has the code of the last that is not RDM_WAS_BROADCAST, or
   * that code if there is none, and the packets of the last. A DUB one is a DUB response if any reply is, else a timeout if
   * any is, else it has the code of the last; and it has the packets of all replies, in order.
   */
  ghost predicate AnswerTo(isDub: bool, replies: seq<Reply>, answer: Answer)
    requires replies != []
  {
    var last := replies[|replies| - 1];
    if isDub then
      && InOrder(answer.packets, replies)
      && answer.code == if exists r :: r in replies && r.code == DubResponse then DubResponse
                        else if exists r :: r in replies && r.code == Timeout then Timeout
                        else last.code
    else
      && answer.packets == last.packets
      && (|| (answer.code == WasBroadcast && forall r :: r in replies ==> r.code == WasBroadcast)
          || exists k :: && 0 <= k < |replies| && answer.code == replies[k].code != WasBroadcast
                         && forall i :: k < i < |replies| ==> replies[i].code == WasBroadcast)
  }

  lemma JoinedIsAnswerTo(isDub: bool, replies: seq<Reply>)
    requires replies != []
    ensures AnswerTo(isDub, replies, Joined(isDub, replies))
  {
    AllInOrder(replies);
    LastErrorCounts(replies);
    hide InOrder;
    hide AllPackets;
    hide PlainCode;
    assert forall code :: Has(replies, code) ==> exists r :: r in replies && r.code == code;
    forall r | r in replies
      ensures Has(replies, r.code)
    {
    }
  }

  lemma {:induction false} LastErrorCounts(replies: seq<Reply>)
    ensures || (PlainCode(replies) == WasBroadcast && forall r :: r in replies ==> r.code == WasBroadcast)
            || exists k :: && 0 <= k < |replies| && PlainCode(replies) == replies[k].code != WasBroadcast
                           && forall i :: k < i < |replies| ==> replies[i].code == WasBroadcast
  {
    if replies != [] {
      var n := |replies| - 1;
      LastErrorCounts(replies[..n]);
      if replies[n].code == WasBroadcast {
        assert forall k :: 0 <= k < n ==> replies[..n][k] == replies[k];
      }
    }
  }

  lemma {:induction false} AllInOrder(replies: seq<Reply>)
    ensures InOrder(AllPackets(replies), replies)
  {
    if replies != [] {
      var first, rest := replies[0], replies[1..];
      assert replies == [first] + rest;
      PacketsOfParts([first], rest);
      PacketsOfOneMore([], first);
      assert AllPackets([first]) == first.packets by { assert [] + [first] == [first]; }
      AllInOrder(rest);
      assert AllPackets(replies)[|first.packets|..] == AllPackets(rest);
    }
  }

  // ---------- where a request goes ----------

  datatype Destination = Unicast(uid: Uid) | Broadcast

  /** What the output ports of a universe reply, in the order the universe lists them. */
  function RepliesOf(outputs: seq<Port>, replyOf: map<Port, Reply>): (r: seq<Reply>)
    requires forall p :: p in outputs ==> p in replyOf
    ensures |r| == |outputs| && forall i :: 0 <= i < |r| ==> r[i] == replyOf[outputs[i]]
  {
    seq(|outputs|, i requires 0 <= i < |outputs| => replyOf[outputs[i]])
  }

  /**
   * An RDM request to a universe. A broadcast goes to every output port, and is answered with the join of one reply of
   * each, in whatever order they arrive, or not at all if there is no port. Another request goes to the port that owns
   * the UID, and is answered with what that one replies; for a UID that nobody owns it goes to no port, and is answered
   * at once. No request goes to a port that is not on the universe.
   */
  method SendRdmRequest(universe: Universe, destination: Destination, isDub: bool, replyOf: map<Port, Reply>, prompt: set<nat>, order: seq<nat>)
      returns (targets: seq<Port>, answers: seq<Answer>, ghost arrivals: seq<Reply>)
    requires universe.OwnersBound() && forall p :: p in universe.outputs ==> p in replyOf
    requires Positions(order, |universe.outputs|) && forall i: nat :: i < |universe.outputs| ==> (i in order <==> i !in prompt)
    ensures forall p :: p in targets ==> p in universe.outputs
    ensures destination.Broadcast? ==> targets == universe.outputs && (|answers| == if targets == [] then 0 else 1)
    ensures destination.Broadcast? ==> multiset(arrivals) == multiset(RepliesOf(universe.outputs, replyOf)) && |arrivals| == |targets|
    ensures destination.Broadcast? ==> forall a :: a in answers ==> AnswerTo(isDub, arrivals, a)
    ensures destination.Broadcast? ==> forall a :: a in answers ==> RightAnswer(isDub, RepliesOf(universe.outputs, replyOf), a)
    ensures destination.Unicast? && destination.uid in universe.uids ==>
              var owner := universe.uids[destination.uid];
              targets == [owner] && answers == [Answer(replyOf[owner].code, replyOf[owner].packets)]
    ensures destination.Unicast? && destination.uid !in universe.uids ==> targets == [] && answers == [Answer(UnknownUid, [])]
  {
    hide RightAnswer;
    hide AnswerTo;
    hide Positions;
    arrivals := [];
    match destination {
      case Broadcast =>
        targets := universe.outputs;
        answers, arrivals := SendBroadcast(isDub, RepliesOf(targets, replyOf), prompt, order);
      case Unicast(uid) =>
        if uid in universe.uids {
          var owner := universe.uids[uid];
          targets, answers := [owner], [Answer(replyOf[owner].code, replyOf[owner].packets)];
        } else {
          targets, answers := [], [Answer(UnknownUid, [])];
        }
    }
  }
}

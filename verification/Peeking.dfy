/**
 One page of one source (handlers_browse.go, peekMessagesForSource): requests of at most 250 messages,
 each from one past the last sequence number seen.
 */
module Peeking {
  import opened Common

  const MAX_SEQUENCE: int := 0x7fff_ffff_ffff_ffff
  const INNER_BATCH_SIZE := 250

  datatype Message = Message(sequence: Option<int>, deadLetter: bool, size: nat, body: int)

  /** The next sequence number, unless the 64-bit range ends. */
  function NextSequenceNumber(sequence: int): Option<int> {
    if sequence == MAX_SEQUENCE then None else Some(sequence + 1)
  }

  /** Broker order: sequence numbers, where present, increase. */
  predicate Ordered(source: seq<Message>) {
    forall i, j :: 0 <= i < j < |source| && source[i].sequence.Some? && source[j].sequence.Some? ==>
      source[i].sequence.value < source[j].sequence.value
  }

  /** Broker order with every message numbered, as a real entity has it. */
  predicate Numbered(source: seq<Message>) {
    Ordered(source) &&
    forall i :: 0 <= i < |source| ==> source[i].sequence.Some? && 0 <= source[i].sequence.value <= MAX_SEQUENCE
  }

  predicate Before(m: Message, from: int) { m.sequence.Some? && m.sequence.value < from }

  /** How many messages lie before the cursor. */
  function Skip(source: seq<Message>, from: Option<int>): (n: nat)
    ensures n <= |source|
    ensures from.Some? && n > 0 ==> Before(source[n - 1], from.value)
    ensures from.Some? ==> forall i :: n <= i < |source| ==> !Before(source[i], from.value)
    ensures from == None ==> n == 0
  {
    if from == None || |source| == 0 then 0
    else if Before(source[|source| - 1], from.value) then |source|
    else Skip(source[..|source| - 1], from)
  }

  function AtOrAfter(source: seq<Message>, from: Option<int>): seq<Message> {
    source[Skip(source, from)..]
  }

  predicate Advances(m: Message) { m.sequence.Some? && NextSequenceNumber(m.sequence.value).Some? }

  /** How many messages a cursor can be carried over, and the one that stops it. */
  function Reach(messages: seq<Message>): (n: nat)
    ensures n <= |messages|
    ensures forall i :: 0 <= i < n - 1 ==> Advances(messages[i])
    ensures n < |messages| ==> n > 0 && !Advances(messages[n - 1])
  {
    if |messages| == 0 then 0
    else if !Advances(messages[0]) then 1
    else 1 + Reach(messages[1..])
  }

  /** The page: the first `count` messages at or after the cursor, as far as the cursor reaches. */
  function Page(source: seq<Message>, count: nat, start: Option<int>): seq<Message> {
    var rest := AtOrAfter(source, start);
    rest[..Min(count, Reach(rest))]
  }

  predicate StandsAt(messages: seq<Message>, source: seq<Message>, p: nat) {
    p + |messages| <= |source| && messages == source[p..p + |messages|]
  }

  /** The broker: some of what lies at or after the cursor, nothing only when nothing does. */
  method PeekMessages(source: seq<Message>, n: nat, from: Option<int>) returns (messages: seq<Message>, ok: bool)
    requires n > 0
    ensures |messages| <= n && (ok ==> StandsAt(messages, source, Skip(source, from)))
    ensures ok ==> (|messages| == 0 <==> Skip(source, from) == |source|)
  {
    ok := *;
    var p := Skip(source, from);
    messages := [];
    if p < |source| {
      assert 1 <= 1 <= n;
      var k: nat :| 1 <= k <= n && p + k <= |source|;
      messages := source[p..p + k];
    }
  }

  /** One past a message's number is exactly past that message. */
  lemma SkipPast(source: seq<Message>, i: nat)
    requires Ordered(source) && i < |source| && source[i].sequence.Some?
    ensures Skip(source, Some(source[i].sequence.value + 1)) == i + 1
  {
    var next := source[i].sequence.value + 1;
    var n := Skip(source, Some(next));
    assert Before(source[i], next);
    assert n - 1 <= i by {
      assert n > 0 && Before(source[n - 1], next);
    }
  }

  lemma ReachAtLeast(messages: seq<Message>, k: nat)
    requires k <= |messages| && forall i :: 0 <= i < k ==> Advances(messages[i])
    ensures Reach(messages) >= k
    ensures k < |messages| ==> Reach(messages) > k
    ensures k < |messages| && !Advances(messages[k]) ==> Reach(messages) == k + 1
  {
    assert Reach(messages) < |messages| ==> !Advances(messages[Reach(messages) - 1]);
  }

  predicate AllAdvance(messages: seq<Message>) { forall i :: 0 <= i < |messages| ==> Advances(messages[i]) }

  /** The cursor cannot pass the last message, and passed all others. */
  ghost predicate StoppedAt(source: seq<Message>, p: nat, messages: seq<Message>) {
    |messages| > 0 && StandsAt(messages, source, p) && !Advances(messages[|messages| - 1]) &&
    AllAdvance(messages[..|messages| - 1])
  }

  /** What the loop knows: `messages` are those from position `p` on, and the cursor stands right after them. */
  ghost predicate Gathered(source: seq<Message>, p: nat, messages: seq<Message>, from: Option<int>) {
    StandsAt(messages, source, p) && Skip(source, from) == p + |messages| && AllAdvance(messages)
  }

  lemma StandsLonger(messages: seq<Message>, source: seq<Message>, p: nat)
    requires StandsAt(messages, source, p) && p + |messages| < |source|
    ensures StandsAt(messages + [source[p + |messages|]], source, p)
  {
  }

  lemma GatherOne(source: seq<Message>, p: nat, messages: seq<Message>, from: Option<int>)
    requires Ordered(source) && Gathered(source, p, messages, from)
    requires p + |messages| < |source| && Advances(source[p + |messages|])
    ensures var m := source[p + |messages|];
            Gathered(source, p, messages + [m], NextSequenceNumber(m.sequence.value))
  {
    StandsLonger(messages, source, p);
    SkipPast(source, p + |messages|);
  }

  /** A page ends where the count does, where the source does, or with a message the cursor cannot pass. */
  lemma PageEnds(source: seq<Message>, start: Option<int>, messages: seq<Message>, count: nat)
    requires StandsAt(messages, source, Skip(source, start)) && |messages| <= count
    requires forall i :: 0 <= i < |messages| - 1 ==> Advances(messages[i])
    requires |messages| == 0 || Advances(messages[|messages| - 1]) ==>
               |messages| == count || Skip(source, start) + |messages| == |source|
    ensures messages == Page(source, count, start)
  {
    var p, k := Skip(source, start), |messages|;
    var rest := AtOrAfter(source, start);
    assert forall i :: 0 <= i < k ==> rest[i] == messages[i];
    assert rest[..k] == messages;
    if k > 0 && !Advances(messages[k - 1]) {
      ReachAtLeast(rest, k - 1);
    } else {
      assert forall i :: 0 <= i < k ==> Advances(rest[i]);
      ReachAtLeast(rest, k);
    }
  }

  /** Takes a batch message by message, up to the first one the cursor cannot pass. */
  method TakeBatch(messages: seq<Message>, batch: seq<Message>, fromSeqNum: Option<int>,
                   ghost source: seq<Message>, ghost p: nat)
      returns (taken: seq<Message>, from: Option<int>, canAdvance: bool)
    requires Ordered(source) && Gathered(source, p, messages, fromSeqNum)
    requires StandsAt(batch, source, p + |messages|)
    ensures |taken| <= |messages| + |batch|
    ensures canAdvance ==> |taken| == |messages| + |batch| && Gathered(source, p, taken, from)
    ensures !canAdvance ==> StoppedAt(source, p, taken)
  {
    taken, from, canAdvance := messages, fromSeqNum, true;
    for i := 0 to |batch|
      invariant |taken| == |messages| + i
      invariant Gathered(source, p, taken, from)
    {
      var msg := batch[i];
      assert msg == source[p + |taken|];
      if !Advances(msg) {
        StandsLonger(taken, source, p);
        assert (taken + [msg])[..|taken|] == taken;
        return taken + [msg], from, false;
      }
      GatherOne(source, p, taken, from);
      taken := taken + [msg];
      from := NextSequenceNumber(msg.sequence.value);
    }
  }

  /** One request to the broker, and whether it was answered. */
  datatype PeekCall = PeekCall(asked: nat, got: nat, ok: bool)

  /** Requests are of bounded size; only the last can have failed, and then the page fails. */
  predicate Called(log: seq<PeekCall>, ok: bool) {
    if |log| == 0 then ok
    else
      var last := log[|log| - 1];
      1 <= last.asked <= INNER_BATCH_SIZE && last.got <= last.asked && (ok <==> last.ok) && Called(log[..|log| - 1], true)
  }

  lemma CalledOnce(log: seq<PeekCall>, c: PeekCall)
    requires Called(log, true) && 1 <= c.asked <= INNER_BATCH_SIZE && c.got <= c.asked
    ensures Called(log + [c], c.ok)
  {
    assert (log + [c])[..|log|] == log;
  }

  /** One page's requests after another's that all went well. */
  lemma {:induction false} CalledBoth(first: seq<PeekCall>, second: seq<PeekCall>, ok: bool)
    requires Called(first, true) && Called(second, ok)
    ensures Called(first + second, ok)
    decreases |second|
  {
    var n := |second| - 1;
    if |second| == 0 {
      assert first + second == first;
    } else {
      CalledBoth(first, second[..n], true);
      assert (first + second)[..|first| + n] == first + second[..n];
    }
  }

  lemma PageIsStopped(source: seq<Message>, p: nat, start: Option<int>, messages: seq<Message>, count: nat)
    requires p == Skip(source, start) && StoppedAt(source, p, messages) && |messages| <= count
    ensures messages == Page(source, count, start) && !AllAdvance(messages)
  {
    assert forall i :: 0 <= i < |messages| - 1 ==> messages[..|messages| - 1][i] == messages[i];
    PageEnds(source, start, messages, count);
  }

  /** The loop may stop where the count is reached, the source ends, or the cursor cannot pass. */
  lemma PageIsWhole(source: seq<Message>, p: nat, start: Option<int>, messages: seq<Message>, from: Option<int>, count: nat)
    requires p == Skip(source, start) && Gathered(source, p, messages, from) && |messages| <= count
    requires |messages| == count || Skip(source, from) == |source|
    ensures messages == Page(source, count, start) && AllAdvance(messages)
  {
    PageEnds(source, start, messages, count);
  }

  /** One bounded request, entered in the log. */
  method Request(source: seq<Message>, missing: nat, from: Option<int>, log: seq<PeekCall>)
      returns (batch: seq<Message>, ok: bool, next: seq<PeekCall>)
    requires missing > 0 && Called(log, true)
    ensures |batch| <= missing && Called(next, ok)
    ensures ok ==> StandsAt(batch, source, Skip(source, from)) && (|batch| == 0 <==> Skip(source, from) == |source|)
  {
    var fetchCount := Min(missing, INNER_BATCH_SIZE);
    batch, ok := PeekMessages(source, fetchCount, from);
    CalledOnce(log, PeekCall(fetchCount, |batch|, ok));
    next := log + [PeekCall(fetchCount, |batch|, ok)];
  }

  method PeekMessagesForSource(source: seq<Message>, count: nat, start: Option<int>)
      returns (messages: seq<Message>, canAdvance: bool, ok: bool, log: seq<PeekCall>)
    requires Ordered(source)
    ensures ok ==> messages == Page(source, count, start)
    ensures ok ==> (canAdvance <==> AllAdvance(messages))
    ensures Called(log, ok)
  {
    messages, canAdvance, ok, log := [], true, true, [];
    var fromSeqNum := start;
    ghost var p := Skip(source, start);
    while |messages| < count
      invariant canAdvance && ok && |messages| <= count
      invariant Gathered(source, p, messages, fromSeqNum)
      invariant Called(log, true)
      decreases count - |messages|
    {
      var batch;
      batch, ok, log := Request(source, count - |messages|, fromSeqNum, log);
      if !ok {
        return;
      }
      if |batch| == 0 {
        break;
      }
      messages, fromSeqNum, canAdvance := TakeBatch(messages, batch, fromSeqNum, source, p);
      if !canAdvance {
        PageIsStopped(source, p, start, messages, count);
        return;
      }
    }
    PageIsWhole(source, p, start, messages, fromSeqNum, count);
  }

  /** On a numbered source the page is simply the first `count` messages at or after the cursor. */
  lemma PageOfNumbered(source: seq<Message>, count: nat, start: Option<int>)
    requires Numbered(source)
    ensures var rest := AtOrAfter(source, start);
            Page(source, count, start) == rest[..Min(count, |rest|)]
  {
    var p := Skip(source, start);
    var rest := source[p..];
    forall i | 0 <= i < |rest| - 1 ensures Advances(rest[i]) {
      assert source[p + i].sequence.value < source[p + i + 1].sequence.value;
    }
  }
}

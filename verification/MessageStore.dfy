/**
 The loaded messages of the front end (messageSlice.ts, peekCursors.ts, appStore.ts) under a message
 and a byte budget, and loading more of them (Toolbar.tsx) through the worker's pages.
 */
module MessageStore {
  import opened Common
  import opened Peeking

  const MAX_LOADED_MESSAGES: nat := 5_000
  const MAX_LOADED_BYTES: nat := 64 * 1024 * 1024

  function TotalBytes(messages: seq<Message>): nat {
    if |messages| == 0 then 0 else TotalBytes(messages[..|messages| - 1]) + messages[|messages| - 1].size
  }

  /** The largest sequence number among the messages of one subqueue. */
  function MaxSequence(messages: seq<Message>, deadLetter: bool): Option<int> {
    if |messages| == 0 then None
    else
      var last, before := messages[|messages| - 1], MaxSequence(messages[..|messages| - 1], deadLetter);
      if last.deadLetter != deadLetter || last.sequence == None then before else Later(before, last.sequence)
  }

  function Later(a: Option<int>, b: Option<int>): Option<int> {
    if b.Some? && (a == None || b.value > a.value) then b else a
  }

  /** The messages of one subqueue, in order. */
  function Of(messages: seq<Message>, deadLetter: bool): seq<Message> {
    if |messages| == 0 then []
    else
      var before := Of(messages[..|messages| - 1], deadLetter);
      if messages[|messages| - 1].deadLetter == deadLetter then before + [messages[|messages| - 1]] else before
  }

  lemma {:induction false} TotalBytesAppend(a: seq<Message>, b: seq<Message>)
    ensures TotalBytes(a + b) == TotalBytes(a) + TotalBytes(b)
  {
    if |b| == 0 {
      assert a + b == a;
    } else {
      var n := |b| - 1;
      assert (a + b)[..|a| + n] == a + b[..n];
      TotalBytesAppend(a, b[..n]);
    }
  }

  lemma {:induction false} MaxSequenceAppend(a: seq<Message>, b: seq<Message>, deadLetter: bool)
    ensures MaxSequence(a + b, deadLetter) == Later(MaxSequence(a, deadLetter), MaxSequence(b, deadLetter))
  {
    if |b| == 0 {
      assert a + b == a;
    } else {
      var n := |b| - 1;
      assert (a + b)[..|a| + n] == a + b[..n];
      MaxSequenceAppend(a, b[..n], deadLetter);
    }
  }

  lemma {:induction false} OfAppend(a: seq<Message>, b: seq<Message>, deadLetter: bool)
    ensures Of(a + b, deadLetter) == Of(a, deadLetter) + Of(b, deadLetter)
  {
    if |b| == 0 {
      assert a + b == a;
    } else {
      var n := |b| - 1;
      assert (a + b)[..|a| + n] == a + b[..n];
      OfAppend(a, b[..n], deadLetter);
    }
  }

  predicate AllIn(messages: seq<Message>, deadLetter: bool) {
    forall i :: 0 <= i < |messages| ==> messages[i].deadLetter == deadLetter
  }

  lemma {:induction false} OfPure(messages: seq<Message>, deadLetter: bool)
    requires AllIn(messages, deadLetter)
    ensures Of(messages, deadLetter) == messages && Of(messages, !deadLetter) == []
  {
    if |messages| > 0 {
      OfPure(messages[..|messages| - 1], deadLetter);
    }
  }

  lemma {:induction false} MaxSequenceOf(messages: seq<Message>, deadLetter: bool)
    ensures MaxSequence(messages, deadLetter) == MaxSequence(Of(messages, deadLetter), deadLetter)
  {
    if |messages| > 0 {
      var n := |messages| - 1;
      MaxSequenceOf(messages[..n], deadLetter);
      var of := Of(messages, deadLetter);
      if messages[n].deadLetter == deadLetter {
        assert of[..|of| - 1] == Of(messages[..n], deadLetter);
      }
    }
  }

  predicate Carries(m: Message, deadLetter: bool, n: int) { m.deadLetter == deadLetter && m.sequence == Some(n) }

  /** The cursor of a subqueue is the largest number any of its messages carries, and none if none does. */
  lemma {:induction false} MaxSequenceMeans(messages: seq<Message>, deadLetter: bool)
    ensures var cursor := MaxSequence(messages, deadLetter);
            (cursor.Some? ==> exists m :: m in messages && Carries(m, deadLetter, cursor.value)) &&
            (forall m, n :: m in messages && Carries(m, deadLetter, n) ==> cursor.Some? && n <= cursor.value)
  {
    var cursor := MaxSequence(messages, deadLetter);
    if |messages| > 0 {
      var n := |messages| - 1;
      MaxSequenceMeans(messages[..n], deadLetter);
      assert messages == messages[..n] + [messages[n]];
      if cursor.Some? && MaxSequence(messages[..n], deadLetter) != cursor {
        assert messages[n] in messages && Carries(messages[n], deadLetter, cursor.value);
      }
    }
  }

  // Budgets -------------------------------------------------------------------------------------

  /** The first `k` messages fit on top of what is loaded. */
  predicate Fit(messages: seq<Message>, k: nat, count: nat, bytes: nat)
    requires k <= |messages|
  {
    k == 0 || (count + k <= MAX_LOADED_MESSAGES && bytes + TotalBytes(messages[..k]) <= MAX_LOADED_BYTES)
  }

  /** How many of the messages fit: the longest beginning that does. */
  function FitCount(messages: seq<Message>, count: nat, bytes: nat): (k: nat)
    ensures k <= |messages|
  {
    LongestFit(messages, |messages|, count, bytes)
  }

  function LongestFit(messages: seq<Message>, n: nat, count: nat, bytes: nat): (k: nat)
    requires n <= |messages|
    ensures k <= n
  {
    if n == 0 || Fit(messages, n, count, bytes) then n else LongestFit(messages, n - 1, count, bytes)
  }

  lemma LongerDoesNotFit(messages: seq<Message>, k: nat, n: nat, count: nat, bytes: nat)
    requires k <= n <= |messages| && !Fit(messages, k, count, bytes)
    ensures !Fit(messages, n, count, bytes)
  {
    assert messages[..n] == messages[..k] + messages[k..n];
    TotalBytesAppend(messages[..k], messages[k..n]);
  }

  /** A beginning that fits and cannot be longer is the longest one. */
  lemma {:induction false} IsLongestFit(messages: seq<Message>, k: nat, n: nat, count: nat, bytes: nat)
    requires k <= n <= |messages| && Fit(messages, k, count, bytes)
    requires k == |messages| || !Fit(messages, k + 1, count, bytes)
    ensures LongestFit(messages, n, count, bytes) == k
  {
    if k < n {
      LongerDoesNotFit(messages, k + 1, n, count, bytes);
      IsLongestFit(messages, k, n - 1, count, bytes);
    }
  }

  /** And the longest one fits, and cannot be longer. */
  lemma {:induction false} LongestFits(messages: seq<Message>, n: nat, count: nat, bytes: nat)
    requires n <= |messages|
    ensures var k := LongestFit(messages, n, count, bytes);
            Fit(messages, k, count, bytes) && (k < n ==> !Fit(messages, k + 1, count, bytes))
  {
    if n > 0 && !Fit(messages, n, count, bytes) {
      LongestFits(messages, n - 1, count, bytes);
    }
  }

  lemma FitOneMore(messages: seq<Message>, k: nat, count: nat, bytes: nat)
    requires k < |messages| && Fit(messages, k, count, bytes)
    ensures Fit(messages, k + 1, count, bytes) <==>
              count + k < MAX_LOADED_MESSAGES && bytes + TotalBytes(messages[..k]) + messages[k].size <= MAX_LOADED_BYTES
  {
    assert messages[..k + 1][..k] == messages[..k];
  }

  /** As many messages as fit, in order, and no more. */
  method FitMessages(messages: seq<Message>, count: nat, bytes: nat)
      returns (accepted: seq<Message>, total: nat, reached: bool)
    ensures accepted == messages[..FitCount(messages, count, bytes)] && total == bytes + TotalBytes(accepted)
    ensures Fit(messages, |accepted|, count, bytes)
    ensures accepted != [] ==> count + |accepted| <= 5_000 && total <= 67_108_864
    ensures |accepted| < |messages| ==> count + |accepted| >= 5_000 || total + messages[|accepted|].size > 67_108_864
    ensures count <= MAX_LOADED_MESSAGES && bytes <= MAX_LOADED_BYTES ==>
              count + |accepted| <= MAX_LOADED_MESSAGES && total <= MAX_LOADED_BYTES
    ensures reached <==> |accepted| < |messages| || count + |accepted| >= MAX_LOADED_MESSAGES || total >= MAX_LOADED_BYTES
  {
    accepted, total := [], bytes;
    while |accepted| < |messages|
      invariant |accepted| <= |messages| && accepted == messages[..|accepted|]
      invariant total == bytes + TotalBytes(accepted) && Fit(messages, |accepted|, count, bytes)
      invariant |accepted| > 0 ==> count + |accepted| <= MAX_LOADED_MESSAGES && total <= MAX_LOADED_BYTES
    {
      var k, size := |accepted|, messages[|accepted|].size;
      FitOneMore(messages, k, count, bytes);
      if count + k >= MAX_LOADED_MESSAGES || total + size > MAX_LOADED_BYTES {
        break;
      }
      assert messages[..k + 1][..k] == messages[..k];
      accepted, total := accepted + [messages[k]], total + size;
    }
    IsLongestFit(messages, |accepted|, |messages|, count, bytes);
    reached := |accepted| < |messages| || count + |accepted| >= MAX_LOADED_MESSAGES || total >= MAX_LOADED_BYTES;
  }

  method ComputeMaxSeqNums(messages: seq<Message>) returns (normal: Option<int>, dlq: Option<int>)
    ensures normal == MaxSequence(messages, false) && dlq == MaxSequence(messages, true)
  {
    normal, dlq := None, None;
    for i := 0 to |messages|
      invariant normal == MaxSequence(messages[..i], false) && dlq == MaxSequence(messages[..i], true)
    {
      var msg := messages[i];
      assert messages[..i + 1][..i] == messages[..i];
      if msg.sequence == None {
        continue;
      }
      if msg.deadLetter {
        if dlq == None || msg.sequence.value > dlq.value {
          dlq := msg.sequence;
        }
      } else if normal == None || msg.sequence.value > normal.value {
        normal := msg.sequence;
      }
    }
    assert messages[..|messages|] == messages;
  }

  /** A cursor only moves forward. */
  method LaterCursor(last: Option<int>, seen: Option<int>) returns (cursor: Option<int>)
    ensures cursor == Later(last, seen)
  {
    cursor := last;
    if seen.Some? && (last == None || seen.value > last.value) {
      cursor := seen;
    }
  }

  lemma MultisetAppend(a: seq<Message>, b: seq<Message>, more: seq<Message>)
    requires multiset(a) <= multiset(b)
    ensures multiset(a + more) <= multiset(b + more)
  {
  }

  class Store {
    var peekMessages: seq<Message>
    var loadedMessageBytes: nat
    var messageBudgetReached: bool
    var hasBrowsed: bool
    var lastNormal: Option<int>
    var lastDlq: Option<int>
    /** Everything accepted since the list was last replaced, removed messages included. */
    ghost var accepted: seq<Message>

    ghost predicate Valid()
      reads this
    {
      loadedMessageBytes == TotalBytes(peekMessages) && loadedMessageBytes <= MAX_LOADED_BYTES &&
      |peekMessages| <= MAX_LOADED_MESSAGES &&
      lastNormal == MaxSequence(accepted, false) && lastDlq == MaxSequence(accepted, true) &&
      multiset(peekMessages) <= multiset(accepted)
    }

    constructor ()
      ensures Valid() && accepted == [] && peekMessages == [] && !hasBrowsed && !messageBudgetReached
    {
      peekMessages, loadedMessageBytes, messageBudgetReached, hasBrowsed := [], 0, false, false;
      lastNormal, lastDlq, accepted := None, None, [];
    }

    method SetPeekResults(messages: seq<Message>)
      modifies this
      ensures Valid() && hasBrowsed && peekMessages == accepted == messages[..FitCount(messages, 0, 0)]
      ensures |accepted| < |messages| ==> messageBudgetReached
    {
      var total, reached;
      peekMessages, total, reached := FitMessages(messages, 0, 0);
      loadedMessageBytes, messageBudgetReached, hasBrowsed := total, reached, true;
      lastNormal, lastDlq := ComputeMaxSeqNums(peekMessages);
      accepted := peekMessages;
    }

    /** Accepts the first `k` messages; fewer than all only when a budget is reached. */
    method AppendPeekResults(messages: seq<Message>) returns (ghost k: nat)
      requires Valid()
      modifies this
      ensures Valid() && hasBrowsed
      ensures k == FitCount(messages, |old(peekMessages)|, TotalBytes(old(peekMessages)))
      ensures accepted == old(accepted) + messages[..k]
      ensures peekMessages == old(peekMessages) + messages[..k]
      ensures k < |messages| ==> messageBudgetReached
    {
      var more, total, reached := FitMessages(messages, |peekMessages|, loadedMessageBytes);
      k := |more|;
      Accept(more, total, reached);
    }

    /** Shows messages that fit, together with those shown. */
    method Accept(more: seq<Message>, total: nat, reached: bool)
      requires Valid() && total == loadedMessageBytes + TotalBytes(more)
      requires total <= MAX_LOADED_BYTES && |peekMessages| + |more| <= MAX_LOADED_MESSAGES
      modifies this
      ensures Valid() && hasBrowsed && messageBudgetReached == reached
      ensures accepted == old(accepted) + more && peekMessages == old(peekMessages) + more
    {
      TotalBytesAppend(peekMessages, more);
      MultisetAppend(peekMessages, accepted, more);
      peekMessages := peekMessages + more;
      loadedMessageBytes, messageBudgetReached, hasBrowsed := total, reached, true;
      AdvanceCursors(more);
    }

    method AdvanceCursors(more: seq<Message>)
      requires lastNormal == MaxSequence(accepted, false) && lastDlq == MaxSequence(accepted, true)
      modifies `lastNormal, `lastDlq, `accepted
      ensures accepted == old(accepted) + more
      ensures lastNormal == MaxSequence(accepted, false) && lastDlq == MaxSequence(accepted, true)
    {
      MaxSequenceAppend(accepted, more, false);
      MaxSequenceAppend(accepted, more, true);
      var normal, dlq := ComputeMaxSeqNums(more);
      lastNormal := LaterCursor(lastNormal, normal);
      lastDlq := LaterCursor(lastDlq, dlq);
      accepted := accepted + more;
    }

    /** Removes the first message that matches, if any does; the cursors stay where they are. */
    method RemovePeekedMessage(matches: Message -> bool) returns (ghost first: nat)
      requires Valid()
      modifies this
      ensures Valid() && accepted == old(accepted) && first <= |old(peekMessages)|
      ensures forall j :: 0 <= j < first ==> !matches(old(peekMessages)[j])
      ensures if first < |old(peekMessages)|
              then matches(old(peekMessages)[first]) &&
                   peekMessages == old(peekMessages)[..first] + old(peekMessages)[first + 1..]
              else peekMessages == old(peekMessages)
    {
      var i := 0;
      while i < |peekMessages| && !matches(peekMessages[i])
        invariant i <= |peekMessages| && forall j :: 0 <= j < i ==> !matches(peekMessages[j])
      {
        i := i + 1;
      }
      first := i;
      if i < |peekMessages| {
        var size := peekMessages[i].size;
        TakeOutBytes(peekMessages, i);
        loadedMessageBytes := Max(0, loadedMessageBytes - size);
        peekMessages := peekMessages[..i] + peekMessages[i + 1..];
      }
    }

    method ClearPeekResults()
      modifies this
      ensures Valid() && accepted == [] && peekMessages == [] && !hasBrowsed && !messageBudgetReached
    {
      peekMessages, hasBrowsed, lastNormal, lastDlq := [], false, None, None;
      loadedMessageBytes, messageBudgetReached, accepted := 0, false, [];
    }
  }

  lemma TakeOutBytes(messages: seq<Message>, i: nat)
    requires i < |messages|
    ensures TotalBytes(messages) == TotalBytes(messages[..i] + messages[i + 1..]) + messages[i].size
    ensures multiset(messages[..i] + messages[i + 1..]) <= multiset(messages)
  {
    InThree(messages, i);
    MiddleOut(messages, messages[..i], messages[i], messages[i + 1..]);
  }

  lemma InThree(messages: seq<Message>, i: nat)
    requires i < |messages|
    ensures messages == messages[..i] + [messages[i]] + messages[i + 1..]
  {
  }

  lemma MiddleOut(all: seq<Message>, x: seq<Message>, m: Message, y: seq<Message>)
    requires all == x + [m] + y
    ensures TotalBytes(all) == TotalBytes(x + y) + m.size
    ensures multiset(x + y) <= multiset(all)
  {
    TotalBytesAppend(x + [m], y);
    TotalBytesAppend(x, y);
    assert (x + [m])[..|x|] == x;
  }

  // Loading more --------------------------------------------------------------------------------

  /** A source of one subqueue, as the broker holds it. */
  predicate IsSource(source: seq<Message>, deadLetter: bool) {
    Numbered(source) && AllIn(source, deadLetter)
  }

  /** What was accepted of a source is a beginning of it: no gap, no repeat, nothing out of order. */
  ghost predicate Covers(accepted: seq<Message>, source: seq<Message>, deadLetter: bool) {
    Of(accepted, deadLetter) <= source
  }

  lemma {:induction false} MaxOfBeginning(source: seq<Message>, deadLetter: bool, k: nat)
    requires IsSource(source, deadLetter) && k <= |source|
    ensures MaxSequence(source[..k], deadLetter) == if k == 0 then None else source[k - 1].sequence
  {
    if k > 0 {
      MaxOfBeginning(source, deadLetter, k - 1);
      assert source[..k][..k - 1] == source[..k - 1];
      if k > 1 {
        assert source[k - 2].sequence.value < source[k - 1].sequence.value;
      }
    }
  }

  /** The cursor plus one is exactly where the accepted beginning ends; at the last number nothing is left. */
  lemma CursorStands(accepted: seq<Message>, source: seq<Message>, deadLetter: bool)
    requires IsSource(source, deadLetter) && Covers(accepted, source, deadLetter)
    ensures var k, cursor := |Of(accepted, deadLetter)|, MaxSequence(accepted, deadLetter);
            (cursor == None <==> k == 0) &&
            (cursor.Some? && NextSequenceNumber(cursor.value) == None ==> k == |source|) &&
            (cursor.Some? && NextSequenceNumber(cursor.value).Some? ==>
               Skip(source, NextSequenceNumber(cursor.value)) == k)
  {
    var k := |Of(accepted, deadLetter)|;
    MaxSequenceOf(accepted, deadLetter);
    assert Of(accepted, deadLetter) == source[..k];
    MaxOfBeginning(source, deadLetter, k);
    if k > 0 {
      SkipPast(source, k - 1);
      if k < |source| {
        assert source[k - 1].sequence.value < source[k].sequence.value;
      }
    }
  }

  /** Accepting a beginning of the next page extends what is covered, and leaves the other source alone. */
  lemma PageCovers(accepted: seq<Message>, source: seq<Message>, deadLetter: bool, count: nat, start: Option<int>, j: nat)
    requires IsSource(source, deadLetter) && Covers(accepted, source, deadLetter)
    requires Skip(source, start) == |Of(accepted, deadLetter)|
    requires j <= |Page(source, count, start)|
    ensures var now := accepted + Page(source, count, start)[..j];
            Covers(now, source, deadLetter) && |Of(now, deadLetter)| == |Of(accepted, deadLetter)| + j &&
            Of(now, !deadLetter) == Of(accepted, !deadLetter)
  {
    var k, page := |Of(accepted, deadLetter)|, Page(source, count, start);
    PageOfNumbered(source, count, start);
    assert page[..j] == source[k..k + j];
    SliceCovers(accepted, source, deadLetter, k, j, page[..j]);
  }

  lemma SliceCovers(accepted: seq<Message>, source: seq<Message>, deadLetter: bool, k: nat, j: nat, slice: seq<Message>)
    requires AllIn(source, deadLetter) && k + j <= |source| && slice == source[k..k + j]
    requires Covers(accepted, source, deadLetter) && |Of(accepted, deadLetter)| == k
    ensures Of(accepted + slice, deadLetter) == source[..k + j]
    ensures Of(accepted + slice, !deadLetter) == Of(accepted, !deadLetter)
  {
    OfPure(slice, deadLetter);
    OfAppend(accepted, slice, deadLetter);
    OfAppend(accepted, slice, !deadLetter);
    assert Of(accepted, deadLetter) == source[..k];
    assert source[..k] + slice == source[..k + j];
  }
}

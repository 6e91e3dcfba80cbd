/**
 Packing an ordered list into batches (handlers_transfer.go, sendMessagesInCompatibleBatches): one
 affinity per batch, and a new batch only where the affinity changes or the next item does not fit.
 */
module Packing {
  import opened Common

  datatype AddResult = Added | TooLarge | Refused

  /** The affinity of an item, and what the broker client says to adding it to an open batch. */
  datatype Rules<!T, !A> = Rules(affinity: T -> A, add: (seq<T>, T) -> AddResult)

  datatype Ending = Sent | NoBatch | SendFailed | ItemTooLarge(at: nat) | AddFailed(at: nat)

  function Flatten<T>(batches: seq<seq<T>>): seq<T> {
    if |batches| == 0 then [] else batches[0] + Flatten(batches[1..])
  }

  lemma {:induction false} FlattenAppend<T>(batches: seq<seq<T>>, b: seq<T>)
    ensures Flatten(batches + [b]) == Flatten(batches) + b
  {
    if batches == [] {
      assert [b][1..] == [];
    } else {
      assert (batches + [b])[1..] == batches[1..] + [b];
      FlattenAppend(batches[1..], b);
    }
  }

  ghost predicate Fits<T, A>(b: seq<T>, r: Rules<T, A>) {
    forall k :: 0 <= k < |b| ==> r.add(b[..k], b[k]) == Added
  }

  ghost predicate OneAffinity<T, A>(b: seq<T>, r: Rules<T, A>) {
    forall i, j :: 0 <= i < |b| && 0 <= j < |b| ==> r.affinity(b[i]) == r.affinity(b[j])
  }

  /** A batch may stop before `next` only because the affinity changes or the message does not fit. */
  ghost predicate EndsBefore<T, A>(b: seq<T>, next: T, r: Rules<T, A>)
    requires b != []
  {
    r.affinity(b[0]) != r.affinity(next) || r.add(b, next) == TooLarge
  }

  /** `batches` cut a prefix of `outs`, in order, where they had to and nowhere else. */
  ghost predicate Cuts<T, A>(batches: seq<seq<T>>, outs: seq<T>, r: Rules<T, A>)
    decreases |batches|
  {
    |batches| == 0 ||
    (var b := batches[0];
     b != [] && b <= outs && Fits(b, r) && OneAffinity(b, r) &&
     (|b| < |outs| ==> EndsBefore(b, outs[|b|], r)) &&
     Cuts(batches[1..], outs[|b|..], r))
  }

  lemma {:induction false} CutsPrefix<T, A>(batches: seq<seq<T>>, outs: seq<T>, r: Rules<T, A>)
    requires Cuts(batches, outs, r)
    ensures Flatten(batches) <= outs
    decreases |batches|
  {
    if |batches| > 0 {
      var b := batches[0];
      CutsPrefix(batches[1..], outs[|b|..], r);
      assert outs == b + outs[|b|..];
    }
  }

  lemma {:induction false} CutsAppend<T, A>(
    batches: seq<seq<T>>, b: seq<T>, outs: seq<T>, r: Rules<T, A>)
    requires Cuts(batches, outs, r)
    requires b != [] && Flatten(batches) + b <= outs && Fits(b, r) && OneAffinity(b, r)
    requires |Flatten(batches) + b| < |outs| ==> EndsBefore(b, outs[|Flatten(batches) + b|], r)
    ensures Cuts(batches + [b], outs, r)
    decreases |batches|
  {
    if batches == [] {
      assert Flatten(batches) + b == b;
      assert ([] + [b])[1..] == [];
    } else {
      var first, rest := batches[0], outs[|batches[0]|..];
      assert (batches + [b])[1..] == batches[1..] + [b];
      assert Flatten(batches) + b == first + (Flatten(batches[1..]) + b);
      assert outs == first + rest;
      CutsAppend(batches[1..], b, rest, r);
    }
  }

  /** There is only one way to cut: two lists of batches over the same messages agree as far as both go. */
  lemma {:induction false} CutsUnique<T, A>(
    x: seq<seq<T>>, y: seq<seq<T>>, outs: seq<T>, r: Rules<T, A>)
    requires Cuts(x, outs, r) && Cuts(y, outs, r)
    requires |x| <= |y|
    ensures x <= y
    ensures Flatten(x) == outs ==> x == y
    decreases |x|
  {
    if |x| > 0 {
      var b, c := x[0], y[0];
      GoesOn(b, c, r);
      GoesOn(c, b, r);
      assert b == outs[..|b|] && c == outs[..|c|];
      CutsUnique(x[1..], y[1..], outs[|b|..], r);
      assert x == [b] + x[1..] && y == [c] + y[1..];
      if Flatten(x) == outs {
        assert Flatten(x[1..]) == outs[|b|..];
      }
    }
  }

  lemma GoesOn<T, A>(b: seq<T>, c: seq<T>, r: Rules<T, A>)
    ensures b != [] && b < c && Fits(c, r) && OneAffinity(c, r) ==> !EndsBefore(b, c[|b|], r)
  {
    if b != [] && b < c && Fits(c, r) && OneAffinity(c, r) {
      assert c[..|b|] == b && c[0] == b[0];
      assert r.add(c[..|b|], c[|b|]) == Added;
    }
  }

  lemma {:induction false} CutsEach<T, A>(batches: seq<seq<T>>, outs: seq<T>, r: Rules<T, A>, k: nat)
      returns (at: nat)
    requires Cuts(batches, outs, r) && k < |batches|
    ensures batches[k] != [] && OneAffinity(batches[k], r) && Fits(batches[k], r)
    ensures at + |batches[k]| <= |outs| && batches[k] == outs[at..at + |batches[k]|]
    decreases |batches|
  {
    if k == 0 {
      at := 0;
    } else {
      var b := batches[0];
      var rest := CutsEach(batches[1..], outs[|b|..], r, k - 1);
      at := rest + |b|;
      assert outs[at..at + |batches[k]|] == outs[|b|..][rest..rest + |batches[k]|];
    }
  }

  /** A slice holding an item whose affinity no other item has holds nothing else, if it has one affinity. */
  lemma AloneInSlice<T, A>(outs: seq<T>, b: seq<T>, at: nat, i: nat, r: Rules<T, A>)
    requires at + |b| <= |outs| && b == outs[at..at + |b|] && i < |b|
    requires forall j: nat :: j < |outs| && j != at + i ==> r.affinity(outs[j]) != r.affinity(outs[at + i])
    ensures OneAffinity(b, r) ==> |b| == 1
  {
    if |b| > 1 {
      var j := if i == 0 then 1 else 0;
      assert b[j] == outs[at + j] && b[i] == outs[at + i];
      assert r.affinity(b[j]) != r.affinity(b[i]);
    }
  }

  lemma ExtendBatch<T, A>(batch: seq<T>, m: T, r: Rules<T, A>)
    requires Fits(batch, r) && OneAffinity(batch, r) && r.add(batch, m) == Added
    requires batch != [] ==> r.affinity(batch[0]) == r.affinity(m)
    ensures Fits(batch + [m], r) && OneAffinity(batch + [m], r)
  {
    var b := batch + [m];
    forall k | 0 <= k < |b| ensures r.add(b[..k], b[k]) == Added {
      assert b[..k] == batch[..k];
      if k == |batch| { assert b[..k] == batch; }
    }
    forall i | 0 <= i < |b| ensures r.affinity(b[i]) == r.affinity(m) {
      if i < |batch| { assert r.affinity(batch[i]) == r.affinity(batch[0]); }
    }
  }

  /** Sends one batch and settles its sources; no error means every source was settled. */
  method SendAndComplete<S>(sources: seq<S>) returns (confirmed: nat, ok: bool)
    ensures confirmed <= |sources|
    ensures ok ==> confirmed == |sources|
  {
    ok := *;
    confirmed := |sources|;
    if !ok {
      confirmed :| 0 <= confirmed <= |sources|;
    }
  }

  /**
   What each ending says about the batches handed to send: success means everything, a size error
   means an item too large for an empty batch, any other means a prefix is all that was offered.
   */
  ghost predicate Explains<T, A>(ending: Ending, offered: seq<seq<T>>, outs: seq<T>, r: Rules<T, A>) {
    Flatten(offered) <= outs &&
    match ending
    case Sent => Flatten(offered) == outs
    case NoBatch => outs == [] || Flatten(offered) < outs
    case SendFailed => offered != []
    case ItemTooLarge(at) => |Flatten(offered)| <= at < |outs| && r.add([], outs[at]) == TooLarge
    case AddFailed(at) => |Flatten(offered)| <= at < |outs| && RefusedAfter(outs, |Flatten(offered)|, at, r)
  }

  /** What a run of the loop leaves: proper cuts, an explanation, and no more confirmed than offered. */
  ghost predicate Reported<T, A>(
    ending: Ending, offered: seq<seq<T>>, confirmed: nat, outs: seq<T>, r: Rules<T, A>)
  {
    Cuts(offered, outs, r) && Explains(ending, offered, outs, r) &&
    confirmed <= |Flatten(offered)| && (!ending.SendFailed? ==> confirmed == |Flatten(offered)|)
  }

  /** The items from `sent` on formed one batch, and the broker client then refused number `at`. */
  ghost predicate RefusedAfter<T, A>(outs: seq<T>, sent: nat, at: nat, r: Rules<T, A>)
    requires sent <= at < |outs|
  {
    var unsent := outs[sent..at];
    Fits(unsent, r) && OneAffinity(unsent, r) && r.add(unsent, outs[at]) == Refused
  }

  /** The loop's state after `i` messages: those not yet handed to send are the open batch. */
  ghost predicate Packing<T, A>(
    offered: seq<seq<T>>, batch: seq<T>, outs: seq<T>, i: nat, r: Rules<T, A>)
  {
    i <= |outs| && Flatten(offered) + batch == outs[..i] &&
    Cuts(offered, outs, r) && Fits(batch, r) && OneAffinity(batch, r)
  }

  lemma PackOne<T, A>(
    offered: seq<seq<T>>, batch: seq<T>, outs: seq<T>, i: nat, r: Rules<T, A>)
    requires i < |outs| && Packing(offered, batch, outs, i, r) && r.add(batch, outs[i]) == Added
    requires batch != [] ==> r.affinity(batch[0]) == r.affinity(outs[i])
    ensures Packing(offered, batch + [outs[i]], outs, i + 1, r)
  {
    ExtendBatch(batch, outs[i], r);
    OneMore(Flatten(offered), batch, outs, i);
  }

  lemma OneMore<T>(sent: seq<T>, batch: seq<T>, outs: seq<T>, i: nat)
    requires i < |outs| && sent + batch == outs[..i]
    ensures sent + (batch + [outs[i]]) == outs[..i + 1]
  {
    assert sent + (batch + [outs[i]]) == sent + batch + [outs[i]];
  }

  lemma PackClosed<T, A>(
    offered: seq<seq<T>>, batch: seq<T>, outs: seq<T>, i: nat, r: Rules<T, A>)
    requires Packing(offered, batch, outs, i, r) && batch != []
    requires i < |outs| ==> EndsBefore(batch, outs[i], r)
    ensures Packing(offered + [batch], [], outs, i, r)
    ensures Flatten(offered + [batch]) == Flatten(offered) + batch
  {
    CutsAppend(offered, batch, outs, r);
    FlattenAppend(offered, batch);
  }

  lemma PackStopped<T, A>(offered: seq<seq<T>>, batch: seq<T>, outs: seq<T>, i: nat, r: Rules<T, A>)
    requires Packing(offered, batch, outs, i, r) && i < |outs|
    ensures r.add(batch, outs[i]) == Refused ==> Reported(AddFailed(i), offered, |Flatten(offered)|, outs, r)
    ensures r.add(batch, outs[i]) == TooLarge && batch == [] ==>
              Reported(ItemTooLarge(i), offered, |Flatten(offered)|, outs, r)
  {
    assert batch == outs[|Flatten(offered)|..i];
    assert Flatten(offered) <= outs;
  }

  // What the broker client was asked ------------------------------------------------------------

  /** A batch is sent together with the received messages that are settled once it was accepted. */
  datatype ClientCall<T, S> = NewBatch(ok: bool) | SendBatch(batch: seq<T>, sources: seq<S>, confirmed: nat, ok: bool)

  function Batches<T, S>(log: seq<ClientCall<T, S>>): seq<seq<T>> {
    if |log| == 0 then []
    else
      var before, last := Batches(log[..|log| - 1]), log[|log| - 1];
      if last.SendBatch? then before + [last.batch] else before
  }

  /** The messages settled or to be settled with the batches sent, in order. */
  function Taken<T, S>(log: seq<ClientCall<T, S>>): seq<S> {
    if |log| == 0 then []
    else
      var before, last := Taken(log[..|log| - 1]), log[|log| - 1];
      if last.SendBatch? then before + last.sources else before
  }

  function Confirmed<T, S>(log: seq<ClientCall<T, S>>): nat {
    if |log| == 0 then 0
    else Confirmed(log[..|log| - 1]) + if log[|log| - 1].SendBatch? then log[|log| - 1].confirmed else 0
  }

  /** The calls that came back without error, and the one that ended it all, if any did. */
  predicate EndsWith<T, S>(log: seq<ClientCall<T, S>>, ending: Option<Ending>) {
    match ending
    case Some(NoBatch) => |log| > 0 && log[|log| - 1] == NewBatch(false) && AllOk(log[..|log| - 1])
    case Some(SendFailed) => |log| > 0 && log[|log| - 1].SendBatch? && !log[|log| - 1].ok && AllOk(log[..|log| - 1])
    case _ => AllOk(log)
  }

  predicate AllOk<T, S>(log: seq<ClientCall<T, S>>) { forall i :: 0 <= i < |log| ==> log[i].ok }

  /** Each batch goes with as many messages as it has items. */
  predicate Paired<T, S>(log: seq<ClientCall<T, S>>) {
    forall i :: 0 <= i < |log| && log[i].SendBatch? ==> |log[i].batch| == |log[i].sources|
  }

  /**
   The calls made are the whole story: batches and confirmations are theirs, and the messages settled
   with the batches are the first ones, each with the item made from it.
   */
  ghost predicate Logged<T, S>(log: seq<ClientCall<T, S>>, offered: seq<seq<T>>, confirmed: nat, messages: seq<S>) {
    Batches(log) == offered && Confirmed(log) == confirmed && Paired(log) &&
    Taken(log) <= messages && |Taken(log)| == |Flatten(offered)|
  }

  lemma CallMade<T, S>(log: seq<ClientCall<T, S>>, c: ClientCall<T, S>, next: seq<ClientCall<T, S>>)
    requires next == log + [c]
    ensures Batches(next) == if c.SendBatch? then Batches(log) + [c.batch] else Batches(log)
    ensures Taken(next) == if c.SendBatch? then Taken(log) + c.sources else Taken(log)
    ensures Confirmed(next) == Confirmed(log) + if c.SendBatch? then c.confirmed else 0
  {
    assert next[..|next| - 1] == log;
  }

  lemma CallInOrder<T, S>(log: seq<ClientCall<T, S>>, c: ClientCall<T, S>, next: seq<ClientCall<T, S>>)
    requires next == log + [c] && AllOk(log) && Paired(log) && (c.SendBatch? ==> |c.batch| == |c.sources|)
    ensures Paired(next) && next[..|next| - 1] == log && next[|next| - 1] == c && (c.ok ==> AllOk(next))
  {
  }

  /** What the loop has done and still holds: an open batch and the messages it was made from. */
  datatype Progress<T, S> = Progress(
    offered: seq<seq<T>>, confirmed: nat, log: seq<ClientCall<T, S>>, batch: seq<T>, sources: seq<S>)

  /** All is well after `i` messages: the batches, what was confirmed and the calls fit together. */
  ghost predicate GoingWell<T, S, A>(p: Progress<T, S>, messages: seq<S>, outs: seq<T>, i: nat, r: Rules<T, A>) {
    |outs| == |messages| && Packing(p.offered, p.batch, outs, i, r) && p.confirmed == |Flatten(p.offered)| &&
    |p.sources| == |p.batch| && Accounted(p, messages, i) && AllOk(p.log)
  }

  ghost predicate Accounted<T, S>(p: Progress<T, S>, messages: seq<S>, i: nat) {
    i <= |messages| && Taken(p.log) + p.sources == messages[..i] &&
    Batches(p.log) == p.offered && Confirmed(p.log) == p.confirmed && Paired(p.log)
  }

  /** What is told of a loop that stops here. */
  ghost predicate Stopped<T, S, A>(p: Progress<T, S>, ending: Ending, messages: seq<S>, outs: seq<T>, r: Rules<T, A>) {
    Reported(ending, p.offered, p.confirmed, outs, r) &&
    Logged(p.log, p.offered, p.confirmed, messages) && EndsWith(p.log, Some(ending))
  }

  lemma WellIsLogged<T, S, A>(p: Progress<T, S>, messages: seq<S>, outs: seq<T>, i: nat, r: Rules<T, A>)
    requires GoingWell(p, messages, outs, i, r)
    ensures Logged(p.log, p.offered, p.confirmed, messages)
  {
    assert |Taken(p.log)| + |p.sources| == i == |Flatten(p.offered)| + |p.batch|;
    assert messages == messages[..i] + messages[i..];
  }

  /** The open batch is sent with the outcome `n`, `ok`. */
  lemma SendStep<T, S, A>(p: Progress<T, S>, messages: seq<S>, outs: seq<T>, i: nat, r: Rules<T, A>, n: nat, ok: bool,
                          now: Progress<T, S>)
    requires GoingWell(p, messages, outs, i, r) && p.batch != []
    requires i < |outs| ==> EndsBefore(p.batch, outs[i], r)
    requires n <= |p.sources| && (ok ==> n == |p.sources|)
    requires now == Progress(p.offered + [p.batch], p.confirmed + n,
                             p.log + [SendBatch(p.batch, p.sources, n, ok)], [], [])
    ensures ok ==> GoingWell(now, messages, outs, i, r)
    ensures !ok ==> Stopped(now, SendFailed, messages, outs, r)
  {
    var c := SendBatch(p.batch, p.sources, n, ok);
    CallMade(p.log, c, now.log);
    CallInOrder(p.log, c, now.log);
    PackClosed(p.offered, p.batch, outs, i, r);
    assert Taken(now.log) == messages[..i] && Taken(now.log) + [] == messages[..i];
    assert now.offered != [];
  }

  lemma NewBatchStep<T, S, A>(p: Progress<T, S>, messages: seq<S>, outs: seq<T>, i: nat, r: Rules<T, A>, ok: bool, now: Progress<T, S>)
    requires GoingWell(p, messages, outs, i, r) && p.batch == [] && i < |outs|
    requires now == p.(log := p.log + [NewBatch(ok)])
    ensures ok ==> GoingWell(now, messages, outs, i, r)
    ensures !ok ==> Stopped(now, NoBatch, messages, outs, r)
  {
    CallMade(p.log, NewBatch(ok), now.log);
    CallInOrder(p.log, NewBatch(ok), now.log);
    WellIsLogged(p, messages, outs, i, r);
  }

  /** Hands the batch to send unless it is empty. */
  method Flush<T, S, A>(p: Progress<T, S>, ghost messages: seq<S>, ghost outs: seq<T>, ghost i: nat, ghost r: Rules<T, A>)
      returns (now: Progress<T, S>, ok: bool)
    requires GoingWell(p, messages, outs, i, r)
    requires p.batch != [] && i < |outs| ==> EndsBefore(p.batch, outs[i], r)
    ensures ok ==> GoingWell(now, messages, outs, i, r) && now.batch == []
    ensures !ok ==> Stopped(now, SendFailed, messages, outs, r)
  {
    if |p.sources| == 0 {
      return p, true;
    }
    var n;
    n, ok := SendAndComplete(p.sources);
    now := Progress(p.offered + [p.batch], p.confirmed + n, p.log + [SendBatch(p.batch, p.sources, n, ok)], [], []);
    SendStep(p, messages, outs, i, r, n, ok, now);
  }

  /** Flush, then a fresh batch; says why the loop must stop, if it must. */
  method FlushAndReset<T, S, A>(p: Progress<T, S>, ghost messages: seq<S>, ghost outs: seq<T>, ghost i: nat, ghost r: Rules<T, A>)
      returns (now: Progress<T, S>, stop: Option<Ending>)
    requires GoingWell(p, messages, outs, i, r) && p.batch != []
    requires i < |outs| && EndsBefore(p.batch, outs[i], r)
    ensures stop == None ==> GoingWell(now, messages, outs, i, r) && now.batch == []
    ensures stop.Some? ==> Stopped(now, stop.value, messages, outs, r)
  {
    var sent, ok := Flush(p, messages, outs, i, r);
    if !ok {
      return sent, Some(SendFailed);
    }
    var made := NewBatchCall();
    now := sent.(log := sent.log + [NewBatch(made)]);
    NewBatchStep(sent, messages, outs, i, r, made, now);
    stop := if made then None else Some(NoBatch);
  }

  method NewBatchCall() returns (ok: bool)
  {
    ok := *;
  }

  /** One message into the open batch, or into a fresh one where the batch must end before it. */
  method PackNext<T, S, A(==)>(p: Progress<T, S>, messages: seq<S>, outs: seq<T>, i: nat, r: Rules<T, A>, currentAffinity: A)
      returns (now: Progress<T, S>, stop: Option<Ending>)
    requires i < |outs| && GoingWell(p, messages, outs, i, r)
    requires p.batch != [] ==> r.affinity(p.batch[0]) == currentAffinity
    ensures stop == None ==> GoingWell(now, messages, outs, i + 1, r)
    ensures stop == None ==> now.batch != [] && r.affinity(now.batch[0]) == r.affinity(outs[i])
    ensures stop.Some? ==> Stopped(now, stop.value, messages, outs, r)
  {
    now, stop := p, None;
    if |p.sources| > 0 && r.affinity(outs[i]) != currentAffinity {
      now, stop := FlushAndReset(p, messages, outs, i, r);
      if stop.Some? {
        return;
      }
    }
    var added := r.add(now.batch, outs[i]);
    if added == TooLarge && |now.batch| > 0 {
      now, stop := FlushAndReset(now, messages, outs, i, r);
      if stop.Some? {
        return;
      }
      added := r.add(now.batch, outs[i]);
    }
    if added != Added {
      PackStopped(now.offered, now.batch, outs, i, r);
      WellIsLogged(now, messages, outs, i, r);
      stop := Some(if added == TooLarge then ItemTooLarge(i) else AddFailed(i));
      return;
    }
    ghost var before := now;
    now := now.(batch := now.batch + [outs[i]], sources := now.sources + [messages[i]]);
    AddStep(before, messages, outs, i, r, now);
  }

  lemma AddStep<T, S, A>(p: Progress<T, S>, messages: seq<S>, outs: seq<T>, i: nat, r: Rules<T, A>, now: Progress<T, S>)
    requires i < |outs| && GoingWell(p, messages, outs, i, r) && r.add(p.batch, outs[i]) == Added
    requires p.batch != [] ==> r.affinity(p.batch[0]) == r.affinity(outs[i])
    requires now == p.(batch := p.batch + [outs[i]], sources := p.sources + [messages[i]])
    ensures GoingWell(now, messages, outs, i + 1, r)
  {
    PackOne(p.offered, p.batch, outs, i, r);
    OneMore(Taken(p.log), p.sources, messages, i);
  }

  /** The loop over prepared messages. `offered` are the batches handed to send, `log` the calls, in order. */
  method SendPrepared<S, T, A(==)>(messages: seq<S>, outs: seq<T>, r: Rules<T, A>)
      returns (offered: seq<seq<T>>, confirmed: nat, outcome: Ending, log: seq<ClientCall<T, S>>)
    requires |outs| == |messages| > 0
    ensures Reported(outcome, offered, confirmed, outs, r)
    ensures Logged(log, offered, confirmed, messages) && EndsWith(log, Some(outcome))
  {
    var made := NewBatchCall();
    var p: Progress<T, S> := Progress([], 0, [], [], []);
    StartsWell(p, messages, outs, r);
    NewBatchStep(p, messages, outs, 0, r, made, p.(log := p.log + [NewBatch(made)]));
    p := p.(log := p.log + [NewBatch(made)]);
    if !made {
      return p.offered, p.confirmed, NoBatch, p.log;
    }
    var currentAffinity := r.affinity(outs[0]);
    for i := 0 to |outs|
      invariant GoingWell(p, messages, outs, i, r)
      invariant p.batch != [] ==> r.affinity(p.batch[0]) == currentAffinity
    {
      var stop;
      p, stop := PackNext(p, messages, outs, i, r, currentAffinity);
      if stop.Some? {
        return p.offered, p.confirmed, stop.value, p.log;
      }
      currentAffinity := r.affinity(outs[i]);
    }
    var ok;
    p, ok := Flush(p, messages, outs, |outs|, r);
    if ok {
      EndsWell(p, messages, outs, r);
    }
    return p.offered, p.confirmed, if ok then Sent else SendFailed, p.log;
  }

  lemma StartsWell<T, S, A>(p: Progress<T, S>, messages: seq<S>, outs: seq<T>, r: Rules<T, A>)
    requires p == Progress([], 0, [], [], []) && |outs| == |messages|
    ensures GoingWell(p, messages, outs, 0, r)
  {
    assert Flatten(p.offered) == [] && outs[..0] == [] && messages[..0] == [];
  }

  lemma EndsWell<T, S, A>(p: Progress<T, S>, messages: seq<S>, outs: seq<T>, r: Rules<T, A>)
    requires GoingWell(p, messages, outs, |outs|, r) && p.batch == []
    ensures Stopped(p, Sent, messages, outs, r)
  {
    WellIsLogged(p, messages, outs, |outs|, r);
    assert Flatten(p.offered) + [] == Flatten(p.offered) && outs[..|outs|] == outs;
  }
}

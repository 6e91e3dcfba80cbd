/**
 What happens to the one message a single-message action is for (handlers_single.go,
 performSingleMessageTargetAction): at most one send, at most one complete, and an abandon wherever
 neither was acknowledged nor attempted, unless the work context ended before the settlement.
 */
module TargetAction {
  import opened Common
  import opened OperationOutcome

  datatype Action = Delete | Move | Replay | Unrecognised

  datatype Attempt = Send | Complete | Abandon

  /** The broker's truth about the target; the worker never reads it. */
  datatype Truth = Truth(accepted: bool, removed: bool)

  /** What the action told and did: calls in order, counters recorded, the truth they left. */
  datatype Report = Report(ok: bool, calls: seq<Attempt>, counters: SourceOutcome, truth: Truth, ambiguous: bool)

  function Count(b: bool): nat { if b then 1 else 0 }

  /** Counters never overstate and, with the unconfirmed ones, never understate the truth. */
  predicate Brackets(c: SourceOutcome, t: Truth) {
    0 <= c.sent <= Count(t.accepted) <= c.sent + c.sendUnconfirmed &&
    0 <= c.settled <= Count(t.removed) <= c.settled + c.settlementUnconfirmed
  }

  predicate Transfers(a: Action) { a.Move? || a.Replay? }

  /** What became of a call: one that was lost may have taken effect all the same. */
  datatype Reply = Acknowledged | Lost(tookEffect: bool)

  predicate TookEffect(reply: Reply) { reply.Acknowledged? || reply.tookEffect }

  /**
   `over`: the work context has ended, as when a lock renewal failed. Then no call is made at all.
   `reply` is what becomes of the complete call if it is made.
   */
  method CompleteTarget(before: Report, over: bool, reply: Reply) returns (r: Report)
    ensures r.calls == before.calls + if over then [] else [Complete]
    ensures over ==> r == before.(ok := false)
    ensures r.ok <==> !over && reply.Acknowledged?
    ensures r.truth == before.truth.(removed := before.truth.removed || (!over && TookEffect(reply)))
    ensures Brackets(before.counters, before.truth) && !before.truth.removed ==> Brackets(r.counters, r.truth)
    ensures r.counters.sent == before.counters.sent && r.counters.sendUnconfirmed == before.counters.sendUnconfirmed
    ensures r.counters.settlementUnconfirmed == before.counters.settlementUnconfirmed + Count(!over && reply.Lost?)
    ensures r.counters.settled == before.counters.settled + Count(r.ok)
    ensures r.ambiguous == before.ambiguous
  {
    if over {
      return before.(ok := false);
    }
    r := before.(calls := before.calls + [Complete],
                 counters := before.counters.Plus(SourceOutcome(0, 0, 0, 1)));
    r := r.(ok := reply.Acknowledged?, truth := r.truth.(removed := r.truth.removed || TookEffect(reply)));
    if reply.Acknowledged? {
      r := r.(counters := r.counters.Plus(SourceOutcome(0, 1, 0, -1)));
    }
  }

  /** The abandon call uses its own context, so it is made even after Stop. */
  method FailAndRelease(before: Report) returns (r: Report)
    ensures r == before.(ok := false, calls := before.calls + [Abandon])
  {
    r := before.(ok := false, calls := before.calls + [Abandon]);
  }

  /** What every report may say of the calls made and of the counters beside the truth. */
  predicate Coherent(r: Report) {
    Brackets(r.counters, r.truth) &&
    (r.ok ==> r.truth.removed && r.counters == SourceOutcome(Count(Send in r.calls), 1, 0, 0)) &&
    (!r.ok ==> r.counters.settled == 0) &&
    (Send !in r.calls ==> !r.truth.accepted) &&
    (r.truth.removed && Send in r.calls ==> r.truth.accepted) &&
    (r.ambiguous <==> !r.ok && r.counters.sent == 1) &&
    (Abandon in r.calls ==> !r.ok && !r.truth.removed && r.counters.sent == 0) &&
    (Abandon !in r.calls && Complete !in r.calls ==> !r.ok && !r.truth.removed)
  }

  /** The counters and the truth after these calls, each of which got its reply. */
  predicate Recorded(r: Report, send: Reply, settle: Reply) {
    r.counters.sent == Count(Send in r.calls && send.Acknowledged?) &&
    r.counters.sendUnconfirmed == Count(Send in r.calls && send.Lost?) &&
    r.counters.settled == Count(Complete in r.calls && settle.Acknowledged?) &&
    r.counters.settlementUnconfirmed == Count(Complete in r.calls && settle.Lost?) &&
    (r.truth.accepted <==> Send in r.calls && TookEffect(send)) &&
    (r.truth.removed <==> Complete in r.calls && TookEffect(settle)) &&
    (r.ok <==> Complete in r.calls && settle.Acknowledged?)
  }

  /**
   The send, and the settlement once it was acknowledged. Which calls are made depends on what was
   acknowledged and on whether the work context was over before the send and before the settlement.
   */
  method SendThenComplete(overAtSend: bool, overAtSettle: bool, send: Reply, settle: Reply) returns (r: Report)
    ensures r.calls == if overAtSend then [Abandon]
                       else if send.Lost? then [Send, Abandon]
                       else if overAtSettle then [Send]
                       else [Send, Complete]
    ensures Coherent(r) && Recorded(r, send, settle)
  {
    r := Report(false, [], ZERO, Truth(false, false), false);
    if overAtSend {
      r := FailAndRelease(r);
      return;
    }
    r := r.(calls := [Send], counters := SourceOutcome(0, 0, 1, 0));
    r := r.(truth := Truth(TookEffect(send), false));
    if send.Lost? {
      r := FailAndRelease(r);
      assert r.calls == [Send, Abandon];
      return;
    }
    r := r.(counters := r.counters.Plus(SourceOutcome(1, 0, -1, 0)));
    r := CompleteTarget(r, overAtSettle, settle);
    if !r.ok {
      r := r.(ambiguous := true);
    }
  }

  /**
   The action on the target. Success means moved (or deleted) and gone; a failure whose status is not
   unknown means the broker did nothing. `matches` is the identity check against what was peeked,
   `stopped` Stop before the action. The target is left neither completed nor abandoned exactly when
   the work context ended before its settlement and, for a transfer, after its send was acknowledged.
   `send` and `settle` are what becomes of the two calls, if they are made.
   */
  method Perform(action: Action, matches: bool, stopped: bool, hasSender: bool, overAtSend: bool, overAtSettle: bool,
                 send: Reply, settle: Reply)
      returns (r: Report)
    ensures Coherent(r) && Recorded(r, send, settle)
    ensures !matches || stopped || action.Unrecognised? || (Transfers(action) && !hasSender) ==>
              r == Report(false, [Abandon], ZERO, Truth(false, false), false)
    ensures matches && !stopped && action.Delete? ==>
              r.calls == if overAtSettle then [] else [Complete]
    ensures matches && !stopped && Transfers(action) && hasSender ==>
              r.calls == if overAtSend then [Abandon]
                         else if send.Lost? then [Send, Abandon]
                         else if overAtSettle then [Send]
                         else [Send, Complete]
    ensures Complete !in r.calls && Abandon !in r.calls <==>
              matches && !stopped && overAtSettle &&
              (action.Delete? || (Transfers(action) && hasSender && !overAtSend && send.Acknowledged?))
    ensures r.ok ==> r.truth == Truth(Transfers(action), true)
    ensures !r.ok && r.truth != Truth(false, false) ==>
              forall cancelled :: FinishStatus(r.counters, Some(RunError(cancelled))).0 == Unknown
    ensures r.calls == [Send] ==> forall cancelled :: FinishStatus(r.counters, Some(RunError(cancelled))).0 == Unknown
    ensures Complete in r.calls && Transfers(action) ==> r.counters.sent == 1
  {
    r := Report(false, [], ZERO, Truth(false, false), false);
    if !matches || stopped {
      r := FailAndRelease(r);
      return;
    }
    match action {
      case Delete =>
        r := CompleteTarget(r, overAtSettle, settle);
      case Unrecognised =>
        r := FailAndRelease(r);
      case _ =>
        if !hasSender {
          r := FailAndRelease(r);
          return;
        }
        r := SendThenComplete(overAtSend, overAtSettle, send, settle);
    }
  }
}

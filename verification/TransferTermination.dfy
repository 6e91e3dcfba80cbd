/**
 Every schedule of a drain ends: each step of the worker lowers a measure, and until the drain has
 ended some step is always possible without any help from the broker or from Stop.
 */
module TransferTermination {
  import opened Common
  import opened OperationOutcome
  import opened TransferProtocol
  import opened TransferInvariant
  import opened TransferRuns

  function Weight(w: Worker): nat {
    match w
    case Returned => 0
    case Waiting => 1
    case Counting => 2
    case Cancelling => 2
    case Failing => 3
    case Calling(_) => 4
    case Ready(_) => 5
    case Took(_) => 6
  }

  function Weights(ws: seq<Worker>): nat {
    if ws == [] then 0 else Weight(ws[0]) + Weights(ws[1..])
  }

  lemma {:induction false} WeightsUpdate(ws: seq<Worker>, w: nat, to: Worker)
    requires w < |ws|
    ensures Weights(ws[w := to]) == Weights(ws) - Weight(ws[w]) + Weight(to)
  {
    if w == 0 {
      assert ws[w := to][1..] == ws[1..];
    } else {
      WeightsUpdate(ws[1..], w - 1, to);
      assert ws[w := to][1..] == ws[1..][w - 1 := to];
    }
  }

  lemma {:induction false} WeightsWaiting(ws: seq<Worker>)
    requires forall w :: 0 <= w < |ws| ==> ws[w].Waiting?
    ensures Weights(ws) == |ws|
  {
    if ws != [] {
      WeightsWaiting(ws[1..]);
    }
  }

  function PoolRank(pool: Pool): nat
    requires pool.next <= |pool.messages|
  {
    10 * (|pool.messages| - pool.next) + Weights(pool.workers) + (if pool.closed then 0 else 1)
  }

  predicate Ranked(s: Source) {
    && (s.pc.Sending? ==> s.pc.batch != [])
    && (s.pc.Settling? ==> s.pc.pool.next <= |s.pc.pool.messages|)
  }

  /** An upper bound on the worker's remaining steps. */
  function Rank(s: Source): nat
    requires Ranked(s)
  {
    match s.pc
    case Ended(_) => 0
    case Receiving => 30 * |s.queue| + 1
    case Batching(pending) => 30 * |s.queue| + 20 * |pending| + 2
    case Sending(batch, rest) => 30 * |s.queue| + 20 * |rest| + 18 * |batch| + 3
    case Settling(pool, rest) => 30 * |s.queue| + 20 * |rest| + PoolRank(pool) + 3
  }

  predicate ByBroker(e: Event) {
    e.Accept? || e.Remove?
  }

  lemma PoolStepLowers(s: Source, stop: bool, p: PoolEvent)
    requires s.pc.Settling? && Ranked(s) && PoolStep(s, stop, p).Some?
    ensures Ranked(PoolStep(s, stop, p).value) && Rank(PoolStep(s, stop, p).value) < Rank(s)
  {
    var t := PoolStep(s, stop, p).value;
    if !(p.Break? || p.Close? || p.Join?) {
      WorkerMoves(s, stop, p, t);
      WeightsUpdate(s.pc.pool.workers, p.w, t.pc.pool.workers[p.w]);
      assert Weights(t.pc.pool.workers) ==
             Weights(s.pc.pool.workers) - Weight(s.pc.pool.workers[p.w]) + Weight(t.pc.pool.workers[p.w]);
    }
  }

  /** A step of one worker changes no other, and lowers its weight unless it is given a message. */
  lemma WorkerMoves(s: Source, stop: bool, p: PoolEvent, t: Source)
    requires s.pc.Settling? && PoolStep(s, stop, p) == Some(t) && !(p.Break? || p.Close? || p.Join?)
    ensures t.pc.Settling? && p.w < |s.pc.pool.workers| == |t.pc.pool.workers|
    ensures t.pc.rest == s.pc.rest && t.queue == s.queue && t.pc.pool.closed == s.pc.pool.closed
    ensures t.pc.pool.workers == s.pc.pool.workers[p.w := t.pc.pool.workers[p.w]]
    ensures t.pc.pool.messages == s.pc.pool.messages
    ensures if p.Hand? then t.pc.pool.next == s.pc.pool.next + 1 <= |s.pc.pool.messages| &&
                            Weight(t.pc.pool.workers[p.w]) <= Weight(s.pc.pool.workers[p.w]) + 5
            else t.pc.pool.next == s.pc.pool.next && Weight(t.pc.pool.workers[p.w]) < Weight(s.pc.pool.workers[p.w])
  {
  }

  lemma StepLowers(s: Source, stop: bool, e: Event)
    requires Ranked(s) && DrainStep(s, stop, e).Some?
    ensures Ranked(DrainStep(s, stop, e).value)
    ensures if ByBroker(e) then Rank(DrainStep(s, stop, e).value) == Rank(s)
            else Rank(DrainStep(s, stop, e).value) < Rank(s)
  {
    match e
    case InPool(p) => PoolStepLowers(s, stop, p);
    case Receive(n) =>
      if s.job.mode.Delete? {
        WeightsWaiting(NewPool(s.queue[..n], s.job.concurrency).workers);
      }
    case SendAck =>
      WeightsWaiting(NewPool(s.pc.batch, s.job.concurrency).workers);
    case _ =>
  }

  /** How many steps a run makes on the worker's side of one source. */
  function WorkerSteps(run: seq<RunEvent>, n: string): nat {
    if |run| == 0 then 0
    else (if run[0].On? && run[0].source == n && !ByBroker(run[0].e) then 1 else 0) + WorkerSteps(run[1..], n)
  }

  lemma {:induction false} RunLowers(sys: System, run: seq<RunEvent>, n: string)
    requires n in sys.sources && Ranked(sys.sources[n]) && Exec(sys, run).Some?
    ensures WorkerSteps(run, n) <= Rank(sys.sources[n])
    decreases |run|
  {
    if |run| > 0 {
      if run[0].On? && run[0].source == n {
        StepLowers(sys.sources[n], sys.stop, run[0].e);
      }
      RunLowers(Step(sys, run[0]).value, run[1..], n);
    }
  }

  /** No schedule goes on for ever: a drain of q messages takes at most 30q + 1 worker steps. */
  lemma EveryScheduleEnds(mode: Mode, start: System, run: seq<RunEvent>, n: string)
    requires Begins(mode, start) && n in start.sources && Exec(start, run).Some?
    ensures WorkerSteps(run, n) <= 30 * |start.sources[n].queue| + 1
  {
    RunLowers(start, run, n);
  }

  /** A pool that has not been joined can always move on. */
  lemma PoolNeverStuck(s: Source, stop: bool) returns (p: PoolEvent)
    requires s.pc.Settling? && PoolInv(s.pc.pool, s.issued, s.settled, Halted(s, s.pc.pool, stop))
    ensures PoolStep(s, stop, p).Some?
  {
    var pool, ws := s.pc.pool, s.pc.pool.workers;
    if w :| 0 <= w < |ws| && !ws[w].Returned? && (ws[w].Waiting? ==> pool.closed || pool.next < |pool.messages|) {
      match ws[w]
      case Waiting => p := if pool.closed then Quit(w) else Hand(w);
      case Took(_) => p := Check(w);
      case Ready(_) => p := PoolEvent.Start(w);
      case Calling(_) => p := Lose(w);
      case Counting => p := Count(w);
      case Failing => p := Report(w);
      case Cancelling => p := Cancel(w);
    } else if pool.closed {
      p := Join(RunError(false));
    } else if pool.next == |pool.messages| {
      p := Close;
    } else {
      assert ws[0].Returned?;
      p := Break;
    }
  }

  /** No schedule deadlocks: until its drain has ended, a source can move without the broker's help. */
  lemma NeverStuck(mode: Mode, start: System, run: seq<RunEvent>, n: string) returns (e: Event)
    requires Begins(mode, start) && Exec(start, run).Some? && n in Exec(start, run).value.sources
    requires !Exec(start, run).value.sources[n].pc.Ended?
    ensures !ByBroker(e) && DrainStep(Exec(start, run).value.sources[n], Exec(start, run).value.stop, e).Some?
  {
    var t := Exec(start, run).value;
    if t.sources[n].pc.Settling? {
      ReachedPool(mode, start, run, n);
      var p := PoolNeverStuck(t.sources[n], t.stop);
      e := InPool(p);
    } else {
      e := Fails(RunError(false));
    }
  }

  /** Stop does not reach the settlement of a batch the destination has accepted. */
  lemma StopSparesAcceptedBatch(s: Source, p: PoolEvent)
    requires s.pc.Settling? && s.job.mode.Move?
    ensures PoolStep(s, true, p) == PoolStep(s, false, p)
  {
  }
}

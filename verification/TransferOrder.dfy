/**
 What a whole drain does with the messages it found, across its batches and when it has ended, however
 it ended: nothing received is forgotten, no limit is exceeded, and one worker settles in order.
 */
module TransferOrder {
  import opened Common
  import opened OperationOutcome
  import opened TransferProtocol
  import opened TransferInvariant
  import opened TransferRuns

  /** Nothing is dispatched or settled before everything received ahead of it is settled. */
  ghost predicate PrefixSettled(all: seq<Message>, issued: set<Message>, settled: set<Message>) {
    forall i, j :: 0 <= i < j < |all| && all[j] in issued + settled ==> all[i] in settled
  }

  /** `all` is `p` settled messages, then the current batch, then the rest, of which nothing is touched. */
  ghost predicate Split(all: seq<Message>, p: int, current: seq<Message>, rest: seq<Message>,
                        issued: set<Message>, settled: set<Message>)
  {
    0 <= p <= |all| && all[p..] == current + rest &&
    (forall i :: 0 <= i < p ==> all[i] in settled) &&
    issued + settled <= Elems(all[..p]) + Elems(current)
  }

  lemma SplitInOrder(all: seq<Message>, p: int, current: seq<Message>, rest: seq<Message>,
                     issued: set<Message>, settled: set<Message>)
    requires Split(all, p, current, rest, issued, settled)
    requires PrefixSettled(current, issued, settled) && forall m :: m in rest ==> m !in issued + settled
    ensures PrefixSettled(all, issued, settled)
  {
    forall i, j | 0 <= i < j < |all| && all[j] in issued + settled ensures all[i] in settled {
      if p <= i {
        assert all[j] == (current + rest)[j - p] && all[i] == (current + rest)[i - p];
      }
    }
  }

  /** Something of the batch is dispatched or settled. */
  lemma SplitTouch(all: seq<Message>, p: int, current: seq<Message>, rest: seq<Message>, issued: set<Message>,
                   settled: set<Message>, issued': set<Message>, settled': set<Message>)
    requires Split(all, p, current, rest, issued, settled)
    requires settled <= settled' && issued' + settled' <= issued + settled + Elems(current)
    ensures Split(all, p, current, rest, issued', settled')
  {
  }

  /** The whole batch is settled. */
  lemma SplitAdvance(all: seq<Message>, p: int, current: seq<Message>, rest: seq<Message>,
                     issued: set<Message>, settled: set<Message>)
    requires Split(all, p, current, rest, issued, settled) && Elems(current) <= settled
    ensures Split(all, p + |current|, [], rest, issued, settled)
  {
    var q := p + |current|;
    assert |all[p..]| == |current| + |rest|;
    assert all[p..q] == (current + rest)[..|current|] == current;
    assert all[..q] == all[..p] + current;
    assert all[q..] == all[p..][|current|..] == rest;
    assert forall i :: p <= i < q ==> all[i] == all[p..q][i - p] && current[i - p] in Elems(current);
  }

  /** A batch begins, or ends before anything was dispatched. */
  lemma SplitAgain(all: seq<Message>, p: int, current: seq<Message>, rest: seq<Message>,
                   current': seq<Message>, rest': seq<Message>, issued: set<Message>, settled: set<Message>)
    requires Split(all, p, current, rest, issued, settled)
    requires current' + rest' == current + rest && (current == [] || current' == current)
    ensures Split(all, p, current', rest', issued, settled)
  {
    assert Elems(current) <= Elems(current');
  }

  /** How many messages have left both the current batch and the queue. */
  function Finished(s: Source, all: seq<Message>): int { |all| - |InHand(s)| - |Current(s)| }

  function Workers(job: Job): nat { if job.concurrency < 1 then 1 else job.concurrency }

  /** No more messages at a time than a batch holds, and no more workers than asked for. */
  predicate Sized(s: Source) {
    |Current(s)| + |InHand(s)| <= |s.queue| + s.job.batchSize &&
    (s.pc.Settling? ==> 1 <= |s.pc.pool.workers| <= Workers(s.job))
  }

  ghost predicate SplitAsOne(s: Source, all: seq<Message>) {
    Split(all, Finished(s, all), Current(s), InHand(s), s.issued, s.settled) && Sized(s)
  }

  /** What left the queue was settled, and nothing else was even dispatched. */
  ghost predicate Done(s: Source, all: seq<Message>) {
    Split(all, |all| - |s.queue|, [], s.queue, s.issued, s.settled)
  }

  ghost predicate OrderInv(s: Source, all: seq<Message>) {
    (!s.pc.Ended? ==> SplitAsOne(s, all)) && (s.pc == Ended(None) ==> Done(s, all)) &&
    (s.job.concurrency <= 1 ==> PrefixSettled(all, s.issued, s.settled))
  }

  /** Within the batch of a one-worker pool. */
  lemma PoolInOrder(pool: Pool, issued: set<Message>, settled: set<Message>, halted: bool)
    requires PoolInv(pool, issued, settled, halted) && |pool.workers| == 1
    ensures PrefixSettled(pool.messages, issued, settled)
  {
  }

  /** A batch that is only being sent, or none, has nothing dispatched or settled. */
  lemma NothingYet(s: Source, stop: bool)
    requires Inv(s, stop) && !s.pc.Settling? && !s.pc.Ended?
    ensures PrefixSettled(Current(s), s.issued, s.settled)
  {
    if s.pc.Sending? {
      forall m | m in s.pc.batch ensures m !in s.issued + s.settled {
        assert m in Elems(s.pc.batch);
      }
    }
  }

  lemma RestUntouched(s: Source, stop: bool)
    requires Inv(s, stop)
    ensures forall m :: m in InHand(s) ==> m !in s.issued + s.settled
  {
    assert s.issued + s.settled <= Touched(s);
  }

  lemma SplitMeansOrder(s: Source, stop: bool, all: seq<Message>)
    requires Inv(s, stop) && !s.pc.Ended? && SplitAsOne(s, all) && s.job.concurrency <= 1
    ensures PrefixSettled(all, s.issued, s.settled)
  {
    if s.pc.Settling? {
      InvPool(s, stop);
      PoolInOrder(s.pc.pool, s.issued, s.settled, Halted(s, s.pc.pool, stop));
    } else {
      NothingYet(s, stop);
    }
    RestUntouched(s, stop);
    SplitInOrder(all, Finished(s, all), Current(s), InHand(s), s.issued, s.settled);
  }

  /** A worker only dispatches and settles messages of its batch, and its pool keeps its size. */
  lemma WorkerStaysInBatch(s: Source, stop: bool, p: PoolEvent, t: Source)
    requires s.pc.Settling? && !p.Join? && PoolStep(s, stop, p) == Some(t)
    requires PoolInv(s.pc.pool, s.issued, s.settled, Halted(s, s.pc.pool, stop))
    ensures t.pc.Settling? && |t.pc.pool.workers| == |s.pc.pool.workers| && t.job == s.job
    ensures Current(t) == Current(s) && InHand(t) == InHand(s)
    ensures s.settled <= t.settled && t.issued + t.settled <= s.issued + s.settled + Elems(Current(s))
  {
    if p.Start? || p.Acknowledge? {
      var w := s.pc.pool.workers[p.w];
      assert HoldsFairly(s.pc.pool, w, s.issued, s.settled);
      assert w.m in Elems(s.pc.pool.messages);
    }
  }

  /** A batch that leads on to the next is settled as a whole. */
  lemma JoinedIsSettled(s: Source, stop: bool, e: RunError, t: Source)
    requires Inv(s, stop) && s.pc.Settling? && PoolStep(s, stop, Join(e)) == Some(t) && !t.pc.Ended?
    ensures t.issued == s.issued && t.settled == s.settled && t.job == s.job && t.pc.Batching? && t.queue == s.queue
    ensures Current(t) == [] && InHand(t) == InHand(s) && Elems(Current(s)) <= s.settled
  {
    JoinedOn(s, stop, e, t);
    NilMeansAllSettled(s, stop);
  }

  lemma JoinedOn(s: Source, stop: bool, e: RunError, t: Source)
    requires s.pc.Settling? && PoolStep(s, stop, Join(e)) == Some(t) && !t.pc.Ended?
    ensures t.issued == s.issued && t.settled == s.settled && t.job == s.job && t.pc.Batching? && t.queue == s.queue
    ensures Current(t) == [] && InHand(t) == InHand(s)
    ensures s.pc.pool.closed && !s.pc.pool.failed && !(s.job.mode.Delete? && stop)
    ensures forall w :: 0 <= w < |s.pc.pool.workers| ==> s.pc.pool.workers[w].Returned?
  {
  }

  /** What the source still has of what it found: the batch, then the rest. */
  function Ahead(s: Source): seq<Message> { Current(s) + InHand(s) }

  /** Receiving, flushing and sending move messages between batch and rest and keep their order. */
  lemma SameOrder(s: Source, stop: bool, e: Event, t: Source)
    requires !e.InPool? && DrainStep(s, stop, e) == Some(t)
    ensures t.issued == s.issued && t.settled == s.settled && t.job == s.job
    ensures !t.pc.Ended? ==>
              !s.pc.Ended? && Ahead(t) == Ahead(s) &&
              |Current(t)| + |InHand(t)| == |Current(s)| + |InHand(s)| && (Current(s) == [] || Current(t) == Current(s))
  {
    if !t.pc.Ended? {
      AheadStays(s, stop, e, t);
      assert |Ahead(t)| == |Ahead(s)|;
    }
  }

  lemma AheadStays(s: Source, stop: bool, e: Event, t: Source)
    requires !e.InPool? && DrainStep(s, stop, e) == Some(t) && !t.pc.Ended?
    ensures !s.pc.Ended? && Ahead(t) == Ahead(s) && (Current(s) == [] || Current(t) == Current(s))
  {
    match e
    case Receive(n) => Cut(s.queue, n, []);
    case Flush(n) => Cut(s.pc.pending, n, s.queue);
    case SendAck => assert Current(t) == s.pc.batch == Current(s) && InHand(t) == s.pc.rest + s.queue == InHand(s);
    case _ =>
  }

  lemma Cut(x: seq<Message>, n: nat, after: seq<Message>)
    requires n <= |x|
    ensures x[..n] + (x[n..] + after) == x + after && x[..n] + x[n..] == x && [] + x == x && [] + (x + after) == x + after
  {
  }

  lemma StaysSized(s: Source, stop: bool, e: Event, t: Source)
    requires !e.InPool? && DrainStep(s, stop, e) == Some(t) && !t.pc.Ended? && Sized(s)
    ensures Sized(t)
  {
  }

  /** A settled batch makes way for the next. */
  lemma BatchLeft(s: Source, t: Source, all: seq<Message>)
    requires SplitAsOne(s, all) && Elems(Current(s)) <= s.settled
    requires t.issued == s.issued && t.settled == s.settled && t.job == s.job && t.pc.Batching? && t.queue == s.queue
    requires Current(t) == [] && InHand(t) == InHand(s)
    ensures SplitAsOne(t, all)
  {
    assert Finished(t, all) == Finished(s, all) + |Current(s)|;
    SplitAdvance(all, Finished(s, all), Current(s), InHand(s), s.issued, s.settled);
  }

  lemma JoinKeepsSplit(s: Source, stop: bool, e: RunError, t: Source, all: seq<Message>)
    requires Inv(s, stop) && s.pc.Settling? && PoolStep(s, stop, Join(e)) == Some(t) && !t.pc.Ended?
    requires SplitAsOne(s, all)
    ensures SplitAsOne(t, all) && t.job == s.job
  {
    JoinedIsSettled(s, stop, e, t);
    BatchLeft(s, t, all);
  }

  lemma WorkerKeepsSplit(s: Source, stop: bool, p: PoolEvent, t: Source, all: seq<Message>)
    requires s.pc.Settling? && !p.Join? && PoolStep(s, stop, p) == Some(t)
    requires PoolInv(s.pc.pool, s.issued, s.settled, Halted(s, s.pc.pool, stop))
    requires SplitAsOne(s, all)
    ensures SplitAsOne(t, all) && t.job == s.job
  {
    WorkerStaysInBatch(s, stop, p, t);
    SplitTouch(all, Finished(s, all), Current(s), InHand(s), s.issued, s.settled, t.issued, t.settled);
  }

  lemma OtherKeepsSplit(s: Source, stop: bool, e: Event, t: Source, all: seq<Message>)
    requires !e.InPool? && DrainStep(s, stop, e) == Some(t) && !t.pc.Ended?
    requires SplitAsOne(s, all)
    ensures SplitAsOne(t, all) && t.job == s.job
  {
    SameOrder(s, stop, e, t);
    StaysSized(s, stop, e, t);
    SplitAgain(all, Finished(s, all), Current(s), InHand(s), Current(t), InHand(t), s.issued, s.settled);
  }

  lemma StepKeepsSplit(s: Source, stop: bool, e: Event, t: Source, all: seq<Message>)
    requires Inv(s, stop) && SplitAsOne(s, all)
    requires DrainStep(s, stop, e) == Some(t) && !t.pc.Ended?
    ensures SplitAsOne(t, all) && t.job == s.job
  {
    match e
    case InPool(p) =>
      if p.Join? {
        JoinKeepsSplit(s, stop, p.e, t, all);
      } else {
        InvPool(s, stop);
        WorkerKeepsSplit(s, stop, p, t, all);
      }
    case _ => OtherKeepsSplit(s, stop, e, t, all);
  }

  /** Ending, for whatever reason, dispatches and settles nothing. */
  lemma EndsQuietly(s: Source, stop: bool, e: Event, t: Source)
    requires DrainStep(s, stop, e) == Some(t) && t.pc.Ended?
    ensures t.issued == s.issued && t.settled == s.settled && t.job == s.job
    ensures t.pc == Ended(None) ==> s.pc == t.pc || s.pc.Receiving?
    ensures s.pc.Ended? || s.pc.Receiving? ==> t.queue == s.queue
  {
  }

  lemma EndKeepsOrder(s: Source, t: Source, all: seq<Message>)
    requires OrderInv(s, all) && t.pc.Ended?
    requires t.issued == s.issued && t.settled == s.settled && t.job == s.job
    requires t.pc == Ended(None) ==> s.pc == t.pc || s.pc.Receiving?
    requires s.pc.Ended? || s.pc.Receiving? ==> t.queue == s.queue
    ensures OrderInv(t, all)
  {
  }

  lemma EndIsFinal(s: Source, stop: bool, e: Event, t: Source)
    requires DrainStep(s, stop, e) == Some(t)
    ensures s.pc.Ended? ==> t.pc.Ended?
  {
  }

  lemma SplitKeepsOrder(t: Source, stop: bool, all: seq<Message>)
    requires Inv(t, stop) && !t.pc.Ended? && SplitAsOne(t, all)
    ensures OrderInv(t, all)
  {
    if t.job.concurrency <= 1 {
      SplitMeansOrder(t, stop, all);
    }
  }

  lemma StepKeepsOrder(s: Source, stop: bool, e: Event, t: Source, all: seq<Message>)
    requires Inv(s, stop) && Inv(t, stop) && OrderInv(s, all) && DrainStep(s, stop, e) == Some(t)
    ensures OrderInv(t, all)
  {
    if t.pc.Ended? {
      EndsQuietly(s, stop, e, t);
      EndKeepsOrder(s, t, all);
    } else {
      EndIsFinal(s, stop, e, t);
      StepKeepsSplit(s, stop, e, t, all);
      SplitKeepsOrder(t, stop, all);
    }
  }

  ghost predicate Ordered(mode: Mode, sys: System, n: string, all: seq<Message>) {
    SysInv(mode, sys) && n in sys.sources && OrderInv(sys.sources[n], all)
  }

  /** A step of the system is a step of one source and leaves the others alone, or presses Stop. */
  lemma StepOfOne(sys: System, e: RunEvent, next: System, n: string)
    requires n in sys.sources && Step(sys, e) == Some(next)
    ensures n in next.sources
    ensures if e.On? && e.source == n then DrainStep(sys.sources[n], sys.stop, e.e) == Some(next.sources[n]) && next.stop == sys.stop
            else next.sources[n] == sys.sources[n]
  {
  }

  lemma SourceInv(mode: Mode, sys: System, n: string)
    requires SysInv(mode, sys) && n in sys.sources
    ensures Inv(sys.sources[n], sys.stop)
  {
  }

  lemma RunStepKeepsOrder(mode: Mode, sys: System, e: RunEvent, next: System, n: string, all: seq<Message>)
    requires Ordered(mode, sys, n, all) && Step(sys, e) == Some(next)
    ensures Ordered(mode, next, n, all)
  {
    RunStepKeeps(mode, sys, e);
    StepOfOne(sys, e, next, n);
    if e.On? && e.source == n {
      SourceInv(mode, sys, n);
      SourceInv(mode, next, n);
      StepKeepsOrder(sys.sources[n], sys.stop, e.e, next.sources[n], all);
    }
  }

  lemma {:induction false} ExecKeepsOrder(mode: Mode, sys: System, run: seq<RunEvent>, n: string, all: seq<Message>)
    requires Ordered(mode, sys, n, all) && Exec(sys, run).Some?
    ensures Ordered(mode, Exec(sys, run).value, n, all)
    decreases |run|
  {
    if run != [] {
      RunStepKeepsOrder(mode, sys, run[0], Step(sys, run[0]).value, n, all);
      ExecKeepsOrder(mode, Step(sys, run[0]).value, run[1..], n, all);
    }
  }

  lemma ReachedOrder(mode: Mode, start: System, run: seq<RunEvent>, n: string)
    requires Begins(mode, start) && Exec(start, run).Some? && n in start.sources
    ensures Ordered(mode, Exec(start, run).value, n, start.sources[n].queue)
    ensures Exec(start, run).value.sources[n].job == start.sources[n].job
  {
    StartInv(mode, start);
    var s := start.sources[n];
    assert OrderInv(s, s.queue) by {
      assert Current(s) + InHand(s) == s.queue;
    }
    ExecKeepsOrder(mode, start, run, n, s.queue);
    ExecKeepsJob(start, run, n);
  }

  lemma {:induction false} ExecKeepsJob(sys: System, run: seq<RunEvent>, n: string)
    requires Exec(sys, run).Some? && n in sys.sources
    ensures n in Exec(sys, run).value.sources && Exec(sys, run).value.sources[n].job == sys.sources[n].job
    decreases |run|
  {
    if run != [] {
      var next := Step(sys, run[0]).value;
      StepOfOne(sys, run[0], next, n);
      if run[0].On? && run[0].source == n {
        JobKept(sys.sources[n], sys.stop, run[0].e);
      }
      ExecKeepsJob(next, run[1..], n);
    }
  }

  /**
   With one worker at a time, in every reachable state of a drain and also once it has ended, with
   success, with an error or by Stop: what is dispatched or settled of the messages it found is a
   beginning of their order, and everything before the last of them is settled.
   */
  lemma OneWorkerSettlesInOrder(mode: Mode, start: System, run: seq<RunEvent>, n: string, i: nat, j: nat)
    requires Begins(mode, start) && Exec(start, run).Some? && n in start.sources
    requires start.sources[n].job.concurrency <= 1 && i < j < |start.sources[n].queue|
    ensures n in Exec(start, run).value.sources
    ensures var s, all := Exec(start, run).value.sources[n], start.sources[n].queue;
            all[j] in s.issued + s.settled ==> all[i] in s.settled
  {
    ReachedOrder(mode, start, run, n);
  }

  /**
   A drain that ended without an error forgot nothing: the messages it found are those it settled, in
   order, and after them those still in the queue, of which it touched none.
   */
  lemma NothingForgotten(mode: Mode, start: System, run: seq<RunEvent>, n: string)
    requires Begins(mode, start) && Exec(start, run).Some? && n in start.sources
    requires n in Exec(start, run).value.sources && Exec(start, run).value.sources[n].pc == Ended(None)
    ensures var s, all := Exec(start, run).value.sources[n], start.sources[n].queue;
            |s.queue| <= |all| && all[|all| - |s.queue|..] == s.queue &&
            Elems(all[..|all| - |s.queue|]) == s.settled && s.issued == {}
  {
    ReachedOrder(mode, start, run, n);
    Reached(mode, start, run, n);
    var s := Exec(start, run).value.sources[n];
    assert Done(s, start.sources[n].queue);
    AllSettled(start.sources[n].queue, s.queue, s.issued, s.settled);
  }

  lemma AllSettled(all: seq<Message>, queue: seq<Message>, issued: set<Message>, settled: set<Message>)
    requires Split(all, |all| - |queue|, [], queue, issued, settled)
    ensures |queue| <= |all| && all[|all| - |queue|..] == queue
    ensures issued == {} ==> Elems(all[..|all| - |queue|]) == settled
  {
    assert [] + queue == queue;
    forall m | m in Elems(all[..|all| - |queue|]) ensures m in settled {
      var i :| 0 <= i < |all| - |queue| && all[i] == m;
    }
  }

  /** How many complete calls are in flight. */
  function Calls(ws: seq<Worker>): (n: nat)
    ensures n <= |ws|
  {
    if |ws| == 0 then 0 else (if ws[0].Calling? then 1 else 0) + Calls(ws[1..])
  }

  /** Never more messages taken from the queue at once than a batch, nor more calls in flight than workers. */
  lemma LimitsKept(mode: Mode, start: System, run: seq<RunEvent>, n: string)
    requires Begins(mode, start) && Exec(start, run).Some? && n in start.sources
    requires n in Exec(start, run).value.sources && !Exec(start, run).value.sources[n].pc.Ended?
    ensures var s, job := Exec(start, run).value.sources[n], start.sources[n].job;
            |Current(s)| + |InHand(s)| - |s.queue| <= job.batchSize &&
            (s.pc.Settling? ==> Calls(s.pc.pool.workers) <= Workers(job))
  {
    ReachedOrder(mode, start, run, n);
  }
}

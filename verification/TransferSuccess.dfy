/**
 No drain is bound to fail: whatever it finds, some schedule in which nothing goes wrong takes it to its
 end with everything settled, in batches as large as asked for.
 */
module TransferSuccess {
  import opened Common
  import opened OperationOutcome
  import opened TransferProtocol
  import opened TransferInvariant
  import opened TransferRuns
  import TransferOrder

  /** One step after the other, whatever the steps are. */
  function Follow<S, E>(step: (S, E) -> Option<S>, s: S, es: seq<E>): Option<S>
    decreases |es|
  {
    if |es| == 0 then Some(s)
    else
      match step(s, es[0])
      case None => None
      case Some(t) => Follow(step, t, es[1..])
  }

  lemma {:induction false} FollowOn<S, E>(step: (S, E) -> Option<S>, s: S, es: seq<E>, fs: seq<E>)
    requires Follow(step, s, es).Some?
    ensures Follow(step, s, es + fs) == Follow(step, Follow(step, s, es).value, fs)
    decreases |es|
  {
    if |es| == 0 {
      assert es + fs == fs;
    } else {
      FollowOn(step, step(s, es[0]).value, es[1..], fs);
      assert (es + fs)[1..] == es[1..] + fs;
    }
  }

  const UNDISTURBED: (Source, Event) -> Option<Source> := (s, e) => DrainStep(s, false, e)

  /** One source on its own, without Stop. */
  function Runs(s: Source, es: seq<Event>): Option<Source> { Follow(UNDISTURBED, s, es) }

  lemma RunsOn(s: Source, es: seq<Event>, fs: seq<Event>)
    requires Runs(s, es).Some?
    ensures Runs(s, es + fs) == Runs(Runs(s, es).value, fs)
  {
    FollowOn(UNDISTURBED, s, es, fs);
  }

  lemma RunsOne(s: Source, es: seq<Event>, t: Source, e: Event, u: Source)
    requires Runs(s, es) == Some(t) && DrainStep(t, false, e) == Some(u)
    ensures Runs(s, es + [e]) == Some(u)
  {
    RunsOn(s, es, [e]);
    assert [e][1..] == [] && Runs(u, []) == Some(u);
  }

  /** Nothing outside the pool and the counters has changed. */
  predicate SameBatch(s: Source, t: Source) {
    s.pc.Settling? && t.pc.Settling? && t.pc.pool.messages == s.pc.pool.messages && t.pc.rest == s.pc.rest &&
    t.queue == s.queue && t.job == s.job
  }

  /** A pool between two messages: nothing has gone wrong and every worker waits. */
  predicate Resting(s: Source) {
    s.pc.Settling? && |s.pc.pool.workers| > 0 && s.pc.pool.next <= |s.pc.pool.messages| &&
    !s.pc.pool.closed && !s.pc.pool.cancelled && !s.pc.pool.failed &&
    forall w :: 0 <= w < |s.pc.pool.workers| ==> s.pc.pool.workers[w].Waiting?
  }

  /** The first worker takes the next message through, while the broker does what it is asked. */
  lemma SettleOne(s: Source) returns (es: seq<Event>, t: Source)
    requires Resting(s) && s.pc.pool.next < |s.pc.pool.messages|
    ensures Runs(s, es) == Some(t) && Resting(t) && SameBatch(s, t) && t.pc.pool.next == s.pc.pool.next + 1
  {
    var m := s.pc.pool.messages[s.pc.pool.next];
    var t1 := DrainStep(s, false, InPool(Hand(0))).value;
    RunsOne(s, [], s, InPool(Hand(0)), t1);
    var t2 := DrainStep(t1, false, InPool(Check(0))).value;
    RunsOne(s, [] + [InPool(Hand(0))], t1, InPool(Check(0)), t2);
    es := [] + [InPool(Hand(0))] + [InPool(Check(0))];
    assert At(t2, 0) && t2.pc.pool.workers[0] == Ready(m) && SameBatch(s, t2);
    var fs;
    fs, t := CompleteReady(t2, m);
    RunsOn(s, es, fs);
    es := es + fs;
    assert t.pc.pool.workers == s.pc.pool.workers;
  }

  lemma CompleteReady(s: Source, m: Message) returns (es: seq<Event>, t: Source)
    requires At(s, 0) && s.pc.pool.workers[0] == Ready(m)
    ensures Runs(s, es) == Some(t) && SameBatch(s, t)
    ensures t.pc.pool == s.pc.pool.(workers := s.pc.pool.workers[0 := Waiting], completed := s.pc.pool.completed + 1)
  {
    var t1 := DrainStep(s, false, InPool(PoolEvent.Start(0))).value;
    RunsOne(s, [], s, InPool(PoolEvent.Start(0)), t1);
    var t2 := DrainStep(t1, false, Remove(m)).value;
    RunsOne(s, [] + [InPool(PoolEvent.Start(0))], t1, Remove(m), t2);
    var t3 := DrainStep(t2, false, InPool(Acknowledge(0))).value;
    RunsOne(s, [] + [InPool(PoolEvent.Start(0))] + [Remove(m)], t2, InPool(Acknowledge(0)), t3);
    t := DrainStep(t3, false, InPool(Count(0))).value;
    RunsOne(s, [] + [InPool(PoolEvent.Start(0))] + [Remove(m)] + [InPool(Acknowledge(0))], t3, InPool(Count(0)), t);
    es := [] + [InPool(PoolEvent.Start(0))] + [Remove(m)] + [InPool(Acknowledge(0))] + [InPool(Count(0))];
  }

  lemma {:induction false} SettleAll(s: Source) returns (es: seq<Event>, t: Source)
    requires Resting(s)
    ensures Runs(s, es) == Some(t) && Resting(t) && SameBatch(s, t) && t.pc.pool.next == |s.pc.pool.messages|
    decreases |s.pc.pool.messages| - s.pc.pool.next
  {
    if s.pc.pool.next == |s.pc.pool.messages| {
      return [], s;
    }
    var u, fs;
    es, u := SettleOne(s);
    fs, t := SettleAll(u);
    RunsOn(s, es, fs);
    es := es + fs;
  }

  /** The pool is closed and its first `k` workers have returned. */
  predicate Leaving(s: Source, k: nat) {
    s.pc.Settling? && k <= |s.pc.pool.workers| && s.pc.pool.closed && !s.pc.pool.failed &&
    forall w :: 0 <= w < |s.pc.pool.workers| ==> if w < k then s.pc.pool.workers[w].Returned? else s.pc.pool.workers[w].Waiting?
  }

  lemma {:induction false} QuitAll(s: Source, k: nat) returns (es: seq<Event>, t: Source)
    requires Leaving(s, k)
    ensures Runs(s, es) == Some(t) && SameBatch(s, t) && Leaving(t, |t.pc.pool.workers|)
    decreases |s.pc.pool.workers| - k
  {
    if k == |s.pc.pool.workers| {
      return [], s;
    }
    var u, fs := DrainStep(s, false, InPool(Quit(k))).value, [];
    RunsOne(s, [], s, InPool(Quit(k)), u);
    fs, t := QuitAll(u, k + 1);
    RunsOn(s, [] + [InPool(Quit(k))], fs);
    es := [] + [InPool(Quit(k))] + fs;
  }

  /** The whole batch is settled and the drain goes on with the rest. */
  lemma SettleBatch(s: Source) returns (es: seq<Event>, t: Source)
    requires Resting(s)
    ensures Runs(s, es) == Some(t) && t.pc == Batching(s.pc.rest) && t.queue == s.queue && t.job == s.job
  {
    var u, v, fs;
    es, u := SettleAll(s);
    v := DrainStep(u, false, InPool(Close)).value;
    RunsOne(s, es, u, InPool(Close), v);
    es := es + [InPool(Close)];
    fs, u := QuitAll(v, 0);
    RunsOn(s, es, fs);
    es := es + fs;
    t := DrainStep(u, false, InPool(Join(RunError(false)))).value;
    RunsOne(s, es, u, InPool(Join(RunError(false))), t);
    es := es + [InPool(Join(RunError(false)))];
  }

  /** A batch received is sent, if it is to be sent, and accepted. */
  lemma BeginBatch(s: Source, n: nat) returns (es: seq<Event>, t: Source)
    requires s.pc.Receiving? && 1 <= n <= |s.queue| && n <= s.job.batchSize
    ensures Runs(s, es) == Some(t) && Resting(t) && t.pc.rest == [] && t.queue == s.queue[n..] && t.job == s.job
  {
    t := DrainStep(s, false, Receive(n)).value;
    RunsOne(s, [], s, Receive(n), t);
    es := [] + [Receive(n)];
    if s.job.mode.Move? {
      var t1 := DrainStep(t, false, Flush(n)).value;
      RunsOne(s, es, t, Flush(n), t1);
      assert t1.pc.batch[0] in t1.offered;
      var t2 := DrainStep(t1, false, Accept).value;
      RunsOne(s, es + [Flush(n)], t1, Accept, t2);
      t := DrainStep(t2, false, SendAck).value;
      RunsOne(s, es + [Flush(n)] + [Accept], t2, SendAck, t);
      es := es + [Flush(n)] + [Accept] + [SendAck];
    }
  }

  lemma {:induction false} DrainAll(s: Source) returns (es: seq<Event>, t: Source)
    requires s.pc.Receiving? && s.job.batchSize >= 1
    ensures Runs(s, es) == Some(t) && t.pc == Ended(None) && t.queue == []
    decreases |s.queue|
  {
    var u, fs;
    if s.queue == [] {
      t := DrainStep(s, false, Exhausted).value;
      RunsOne(s, [], s, Exhausted, t);
      return [] + [Exhausted], t;
    }
    es, u := BeginBatch(s, Min(|s.queue|, s.job.batchSize));
    fs, t := SettleBatch(u);
    RunsOn(s, es, fs);
    es := es + fs;
    u := DrainStep(t, false, BatchesDone).value;
    RunsOne(s, es, t, BatchesDone, u);
    es := es + [BatchesDone];
    fs, t := DrainAll(u);
    RunsOn(s, es, fs);
    es := es + fs;
  }

  // The system ----------------------------------------------------------------------------------

  function Script(n: string, es: seq<Event>): seq<RunEvent> {
    seq(|es|, i requires 0 <= i < |es| => On(n, es[i]))
  }

  lemma {:induction false} ScriptRuns(sys: System, n: string, es: seq<Event>)
    requires n in sys.sources && !sys.stop && Runs(sys.sources[n], es).Some?
    ensures Exec(sys, Script(n, es)) == Some(sys.(sources := sys.sources[n := Runs(sys.sources[n], es).value]))
    decreases |es|
  {
    if |es| == 0 {
      assert sys.sources[n := sys.sources[n]] == sys.sources;
    } else {
      var t := DrainStep(sys.sources[n], false, es[0]).value;
      var next := sys.(sources := sys.sources[n := t]);
      ScriptRuns(next, n, es[1..]);
      assert Script(n, es)[1..] == Script(n, es[1..]);
      var u := Runs(t, es[1..]).value;
      assert next.sources[n := u] == sys.sources[n := u];
    }
  }

  lemma {:induction false} ExecOn(sys: System, run: seq<RunEvent>, more: seq<RunEvent>)
    requires Exec(sys, run).Some?
    ensures Exec(sys, run + more) == Exec(Exec(sys, run).value, more)
    decreases |run|
  {
    if |run| == 0 {
      assert run + more == more;
    } else {
      ExecOn(Step(sys, run[0]).value, run[1..], more);
      assert (run + more)[1..] == run[1..] + more;
    }
  }

  /** Which sources have been drained, one after the other, so far. */
  ghost predicate DrainedBut(start: System, sys: System, left: set<string>) {
    !sys.stop && sys.sources.Keys == start.sources.Keys && left <= start.sources.Keys &&
    (forall n :: n in left ==> sys.sources[n] == start.sources[n]) &&
    (forall n :: n in start.sources.Keys - left ==> sys.sources[n].pc == Ended(None) && sys.sources[n].queue == [])
  }

  lemma {:induction false} DrainEach(start: System, sys: System, left: set<string>) returns (run: seq<RunEvent>)
    requires DrainedBut(start, sys, left)
    requires forall n :: n in start.sources ==> start.sources[n].pc.Receiving? && start.sources[n].job.batchSize >= 1
    ensures Exec(sys, run).Some? && DrainedBut(start, Exec(sys, run).value, {})
    decreases |left|
  {
    if left == {} {
      return [];
    }
    var n :| n in left;
    var es, t := DrainAll(sys.sources[n]);
    ScriptRuns(sys, n, es);
    var next := sys.(sources := sys.sources[n := t]);
    assert DrainedBut(start, next, left - {n});
    var more := DrainEach(start, next, left - {n});
    ExecOn(sys, Script(n, es), more);
    run := Script(n, es) + more;
  }

  /** Every job can succeed: some run ends without an error, every message where it belongs. */
  lemma SuccessIsPossible(mode: Mode, start: System) returns (run: seq<RunEvent>)
    requires Begins(mode, start)
    requires forall n :: n in start.sources ==> start.sources[n].job.batchSize >= 1
    ensures Exec(start, run).Some? && Reported(Exec(start, run).value, None)
    ensures var end := Exec(start, run).value;
            end.sources.Keys == start.sources.Keys &&
            forall n :: n in start.sources ==>
              end.sources[n].pc == Ended(None) && end.sources[n].queue == [] &&
              end.sources[n].settled == end.sources[n].removed == Elems(start.sources[n].queue) &&
              (mode.Move? ==> end.sources[n].accepted == Elems(start.sources[n].queue))
  {
    run := DrainEach(start, start, start.sources.Keys);
    var end := Exec(start, run).value;
    forall n | n in start.sources
      ensures end.sources[n].settled == end.sources[n].removed == Elems(start.sources[n].queue)
      ensures mode.Move? ==> end.sources[n].accepted == Elems(start.sources[n].queue)
    {
      AllOfIt(mode, start, run, n);
    }
  }

  lemma AllOfIt(mode: Mode, start: System, run: seq<RunEvent>, n: string)
    requires Begins(mode, start) && Exec(start, run).Some? && n in start.sources && n in Exec(start, run).value.sources
    requires Exec(start, run).value.sources[n].pc == Ended(None) && Exec(start, run).value.sources[n].queue == []
    ensures var s, all := Exec(start, run).value.sources[n], Elems(start.sources[n].queue);
            s.settled == s.removed == all && (mode.Move? ==> s.accepted == all)
  {
    TransferOrder.NothingForgotten(mode, start, run, n);
    Reached(mode, start, run, n);
    var all := start.sources[n].queue;
    assert all[..|all| - 0] == all;
  }
}

/** What every step of one source keeps, whatever the interleaving and whatever the broker does. */
module TransferInvariant {
  import opened Common
  import opened OperationOutcome
  import opened TransferProtocol

  /** The message a worker has in hand and has not yet been told about. */
  predicate Holds(w: Worker) {
    w.Took? || w.Ready? || w.Calling?
  }

  /** Messages received and not yet handed to the broker in any way, then the queue. */
  function InHand(s: Source): seq<Message> {
    match s.pc
    case Receiving => s.queue
    case Batching(pending) => pending + s.queue
    case Sending(_, rest) => rest + s.queue
    case Settling(_, rest) => rest + s.queue
    case Ended(_) => []
  }

  function Current(s: Source): seq<Message> {
    match s.pc
    case Sending(batch, _) => batch
    case Settling(pool, _) => pool.messages
    case _ => []
  }

  function Touched(s: Source): set<Message> {
    s.offered + s.confirmed + s.issued + s.settled
  }

  /** The counters are the sizes of the worker's own sets. */
  predicate Counted(s: Source) {
    && s.outcome.sent == |s.confirmed|
    && s.outcome.settled == |s.settled|
    && s.outcome.sendUnconfirmed == |s.offered|
    && s.outcome.settlementUnconfirmed == |s.issued|
  }

  /** The broker's truth lies between what was acknowledged and what was asked for. */
  predicate Bracketed(s: Source) {
    && s.offered !! s.confirmed && s.issued !! s.settled
    && s.confirmed <= s.accepted <= s.confirmed + s.offered
    && s.settled <= s.removed <= s.settled + s.issued
    && (s.job.mode.Move? ==> s.issued + s.settled <= s.confirmed)
    && (s.job.mode.Delete? ==> s.offered == s.confirmed == {})
  }

  ghost predicate Distinct(s: Source) {
    && NoDup(Current(s)) && NoDup(InHand(s))
    && (forall m :: m in InHand(s) ==> m !in Current(s) && m !in Touched(s))
  }

  /** Acknowledged sends that are settled or in the batch being settled. */
  ghost predicate Progress(s: Source) {
    match s.pc
    case Sending(batch, _) =>
      s.job.mode.Move? && s.issued == {} && s.confirmed == s.settled && s.offered == Elems(batch)
    case Settling(pool, _) =>
      s.offered == {} && (s.job.mode.Move? ==> s.confirmed <= s.settled + Elems(pool.messages) && Elems(pool.messages) <= s.confirmed)
    case Ended(Some(_)) => true
    case _ => s.offered == {} && s.issued == {} && (s.job.mode.Move? ==> s.confirmed == s.settled)
  }

  predicate Troubled(pool: Pool) {
    pool.failed || exists w :: 0 <= w < |pool.workers| && pool.workers[w].Failing?
  }

  predicate Shaped(pool: Pool) {
    pool.next <= |pool.messages| && 1 <= |pool.workers| && NoDup(pool.messages)
  }

  /** Each message goes to at most one worker, and no complete call is dispatched twice. */
  ghost predicate Handed(pool: Pool, issued: set<Message>, settled: set<Message>)
    requires Shaped(pool)
  {
    && (forall i :: pool.next <= i < |pool.messages| ==> pool.messages[i] !in issued + settled)
    && (forall w :: 0 <= w < |pool.workers| ==> HoldsFairly(pool, pool.workers[w], issued, settled))
    && (forall v, w :: 0 <= v < w < |pool.workers| ==> Apart(pool.workers[v], pool.workers[w]))
  }

  predicate HoldsFairly(pool: Pool, w: Worker, issued: set<Message>, settled: set<Message>)
    requires Shaped(pool)
  {
    Holds(w) ==> w.m in pool.messages[..pool.next] && (if w.Calling? then w.m in issued else w.m !in issued + settled)
  }

  predicate Apart(v: Worker, w: Worker) {
    Holds(v) && Holds(w) ==> v.m != w.m
  }

  ghost predicate InWorker(pool: Pool, m: Message) {
    exists w :: 0 <= w < |pool.workers| && Holds(pool.workers[w]) && pool.workers[w].m == m
  }

  ghost predicate InCall(pool: Pool, m: Message) {
    exists w :: 0 <= w < |pool.workers| && pool.workers[w] == Calling(m)
  }

  /** Unless something went wrong, every handed message is settled or in a worker's hands. */
  ghost predicate Accounted(pool: Pool, issued: set<Message>, settled: set<Message>, halted: bool)
    requires Shaped(pool)
  {
    && (pool.cancelled ==> pool.failed && halted)
    && (forall w :: 0 <= w < |pool.workers| && pool.workers[w].Cancelling? ==> pool.failed)
    && (pool.closed ==> pool.next == |pool.messages| || halted)
    && (forall w :: 0 <= w < |pool.workers| && pool.workers[w].Returned? ==> pool.closed || halted)
    && (!Troubled(pool) ==> forall m :: m in issued ==> InCall(pool, m))
    && (!Troubled(pool) && !halted ==>
          forall i :: 0 <= i < pool.next ==> pool.messages[i] in settled || InWorker(pool, pool.messages[i]))
  }

  /** With one worker the source is settled strictly in receive order. */
  ghost predicate InOrder(pool: Pool, settled: set<Message>)
    requires Shaped(pool)
  {
    |pool.workers| == 1 ==>
      && (forall i :: 0 <= i < pool.next - 1 ==> pool.messages[i] in settled)
      && (pool.workers[0].Waiting? || pool.workers[0].Counting? ==>
            forall i :: 0 <= i < pool.next ==> pool.messages[i] in settled)
      && (Holds(pool.workers[0]) ==> pool.next > 0 && pool.workers[0].m == pool.messages[pool.next - 1])
  }

  ghost predicate PoolInv(pool: Pool, issued: set<Message>, settled: set<Message>, halted: bool) {
    && Shaped(pool)
    && Handed(pool, issued, settled)
    && Accounted(pool, issued, settled, halted)
    && InOrder(pool, settled)
  }

  function {:induction false} Tally(ws: seq<Worker>): nat {
    if ws == [] then 0 else (if ws[0].Counting? then 1 else 0) + Tally(ws[1..])
  }

  /** The number returned to the user is the number acknowledged. */
  predicate Moved(s: Source) {
    s.moved + (if s.pc.Settling? then s.pc.pool.completed + Tally(s.pc.pool.workers) else 0) == |s.settled|
  }

  ghost predicate Base(s: Source) {
    Counted(s) && Bracketed(s) && Distinct(s) && Progress(s)
  }

  ghost predicate Inv(s: Source, stop: bool) {
    && Base(s) && Moved(s)
    && (s.pc.Settling? ==> PoolInv(s.pc.pool, s.issued, s.settled, Halted(s, s.pc.pool, stop)))
  }

  /** Distinctness survives a step that shifts no message and touches only messages of the current batch. */
  lemma DistinctStays(s: Source, t: Source)
    requires Distinct(s) && Current(t) == Current(s) && InHand(t) == InHand(s)
    requires Touched(t) <= Touched(s) + Elems(Current(s))
    ensures Distinct(t)
  {
    forall m | m in InHand(t) ensures m !in Current(t) && m !in Touched(t) {
      assert m !in Elems(Current(s)) && m !in Touched(s);
    }
  }

  lemma {:induction false} TallyUpdate(ws: seq<Worker>, w: nat, to: Worker)
    requires w < |ws|
    ensures Tally(ws[w := to]) == Tally(ws) - (if ws[w].Counting? then 1 else 0) + (if to.Counting? then 1 else 0)
  {
    if w == 0 {
      assert ws[w := to][1..] == ws[1..];
    } else {
      TallyUpdate(ws[1..], w - 1, to);
      assert ws[w := to][1..] == ws[1..][w - 1 := to];
    }
  }

  lemma {:induction false} TallyNone(ws: seq<Worker>)
    requires forall w :: 0 <= w < |ws| ==> !ws[w].Counting?
    ensures Tally(ws) == 0
  {
    if ws != [] {
      TallyNone(ws[1..]);
    }
  }

  // ----- the pool on its own -----

  lemma NewPoolInv(messages: seq<Message>, concurrency: nat, settled: set<Message>, halted: bool)
    requires NoDup(messages) && forall m :: m in messages ==> m !in settled
    ensures PoolInv(NewPool(messages, concurrency), {}, settled, halted)
    ensures Tally(NewPool(messages, concurrency).workers) == 0
  {
    TallyNone(NewPool(messages, concurrency).workers);
  }

  function Set(pool: Pool, w: nat, to: Worker): Pool
    requires w < |pool.workers|
  {
    pool.(workers := pool.workers[w := to])
  }

  lemma StillInWorker(pool: Pool, w: nat, to: Worker, m: Message)
    requires w < |pool.workers| && InWorker(pool, m)
    requires Holds(pool.workers[w]) && pool.workers[w].m == m ==> Holds(to) && to.m == m
    ensures InWorker(Set(pool, w, to), m)
  {
    var v :| 0 <= v < |pool.workers| && Holds(pool.workers[v]) && pool.workers[v].m == m;
    assert Holds(Set(pool, w, to).workers[v]) && Set(pool, w, to).workers[v].m == m;
  }

  lemma StillInCall(pool: Pool, w: nat, to: Worker, m: Message)
    requires w < |pool.workers| && InCall(pool, m)
    requires pool.workers[w] == Calling(m) ==> to == Calling(m)
    ensures InCall(Set(pool, w, to), m)
  {
    var v :| 0 <= v < |pool.workers| && pool.workers[v] == Calling(m);
    assert Set(pool, w, to).workers[v] == Calling(m);
  }

  lemma StillTroubled(pool: Pool, w: nat, to: Worker)
    requires w < |pool.workers| && Troubled(pool)
    requires pool.workers[w].Failing? ==> to.Failing?
    ensures Troubled(Set(pool, w, to))
  {
    if !pool.failed {
      var v :| 0 <= v < |pool.workers| && pool.workers[v].Failing?;
      assert Set(pool, w, to).workers[v].Failing?;
    }
  }

  /** Worker moves that touch neither the broker nor the pool's flags. */
  predicate Quiet(from: Worker, to: Worker, halted: bool) {
    match from
    case Waiting => to.Returned?
    case Took(m) => to == if halted then Returned else Ready(m)
    case Ready(_) => to.Failing?
    case Calling(_) => to.Failing?
    case Counting => to.Waiting?
    case _ => false
  }

  lemma QuietMove(pool: Pool, issued: set<Message>, settled: set<Message>, halted: bool, w: nat, to: Worker)
    requires PoolInv(pool, issued, settled, halted)
    requires w < |pool.workers| && Quiet(pool.workers[w], to, halted)
    requires pool.workers[w].Waiting? ==> pool.closed
    ensures PoolInv(Set(pool, w, to), issued, settled, halted)
  {
    var t := Set(pool, w, to);
    assert t.workers[w] == to;
    if Troubled(pool) {
      StillTroubled(pool, w, to);
    }
    assert Handed(t, issued, settled);
    assert Accounted(t, issued, settled, halted) by {
      if !Troubled(t) {
        forall m | m in issued ensures InCall(t, m) {
          StillInCall(pool, w, to, m);
        }
        if !halted {
          forall i | 0 <= i < t.next ensures t.messages[i] in settled || InWorker(t, t.messages[i]) {
            if t.messages[i] !in settled {
              StillInWorker(pool, w, to, t.messages[i]);
            }
          }
        }
      }
    }
  }

  lemma HandMove(pool: Pool, issued: set<Message>, settled: set<Message>, halted: bool, w: nat)
    requires PoolInv(pool, issued, settled, halted)
    requires w < |pool.workers| && pool.workers[w].Waiting? && !pool.closed && pool.next < |pool.messages|
    ensures PoolInv(Set(pool, w, Took(pool.messages[pool.next])).(next := pool.next + 1), issued, settled, halted)
  {
    var m := pool.messages[pool.next];
    var t := Set(pool, w, Took(m)).(next := pool.next + 1);
    assert t.messages[..t.next] == pool.messages[..pool.next] + [m];
    assert m !in pool.messages[..pool.next];
    if Troubled(pool) {
      StillTroubled(pool, w, Took(m));
      assert Troubled(Set(pool, w, Took(m)));
      assert Troubled(t);
    }
    assert Handed(t, issued, settled);
    assert Accounted(t, issued, settled, halted) by {
      if !Troubled(t) {
        forall x | x in issued ensures InCall(t, x) {
          StillInCall(pool, w, Took(m), x);
          assert InCall(Set(pool, w, Took(m)), x);
        }
        if !halted {
          forall i | 0 <= i < t.next ensures t.messages[i] in settled || InWorker(t, t.messages[i]) {
            if i == pool.next {
              assert t.workers[w] == Took(m);
            } else if t.messages[i] !in settled {
              StillInWorker(pool, w, Took(m), t.messages[i]);
              assert InWorker(Set(pool, w, Took(m)), t.messages[i]);
            }
          }
        }
      }
    }
  }

  lemma StartMove(pool: Pool, issued: set<Message>, settled: set<Message>, halted: bool, w: nat)
    requires PoolInv(pool, issued, settled, halted)
    requires w < |pool.workers| && pool.workers[w].Ready?
    ensures PoolInv(Set(pool, w, Calling(pool.workers[w].m)), issued + {pool.workers[w].m}, settled, halted)
  {
    var m := pool.workers[w].m;
    var t := Set(pool, w, Calling(m));
    if Troubled(pool) {
      StillTroubled(pool, w, Calling(m));
    }
    assert t.workers[w] == Calling(m);
    assert HoldsFairly(pool, pool.workers[w], issued, settled);
    assert Handed(t, issued + {m}, settled);
    assert Accounted(t, issued + {m}, settled, halted) by {
      if !Troubled(t) {
        forall x | x in issued + {m} ensures InCall(t, x) {
          if x != m {
            StillInCall(pool, w, Calling(m), x);
          }
        }
        if !halted {
          forall i | 0 <= i < t.next ensures t.messages[i] in settled || InWorker(t, t.messages[i]) {
            if t.messages[i] !in settled {
              StillInWorker(pool, w, Calling(m), t.messages[i]);
            }
          }
        }
      }
    }
  }

  lemma AcknowledgeMove(pool: Pool, issued: set<Message>, settled: set<Message>, halted: bool, w: nat)
    requires PoolInv(pool, issued, settled, halted)
    requires w < |pool.workers| && pool.workers[w].Calling?
    ensures PoolInv(Set(pool, w, Counting), issued - {pool.workers[w].m}, settled + {pool.workers[w].m}, halted)
  {
    var m := pool.workers[w].m;
    var t := Set(pool, w, Counting);
    if Troubled(pool) {
      StillTroubled(pool, w, Counting);
    }
    assert HoldsFairly(pool, pool.workers[w], issued, settled);
    assert Handed(t, issued - {m}, settled + {m});
    assert Accounted(t, issued - {m}, settled + {m}, halted) by {
      if !Troubled(t) {
        forall x | x in issued - {m} ensures InCall(t, x) {
          StillInCall(pool, w, Counting, x);
        }
        if !halted {
          forall i | 0 <= i < t.next ensures t.messages[i] in settled + {m} || InWorker(t, t.messages[i]) {
            if t.messages[i] !in settled + {m} {
              StillInWorker(pool, w, Counting, t.messages[i]);
            }
          }
        }
      }
    }
  }

  lemma FailedMove(pool: Pool, issued: set<Message>, settled: set<Message>, halted: bool, w: nat, to: Worker)
    requires PoolInv(pool, issued, settled, halted)
    requires w < |pool.workers| && ((pool.workers[w].Failing? && to.Cancelling?) || (pool.workers[w].Cancelling? && to.Returned?))
    ensures to.Cancelling? ==> PoolInv(Set(pool, w, to).(failed := true), issued, settled, halted)
    ensures to.Returned? ==> PoolInv(Set(pool, w, to).(failed := true, cancelled := true), issued, settled, true)
  {
    var t := Set(pool, w, to).(failed := true);
    assert Troubled(t) && Troubled(t.(cancelled := true));
    assert Handed(t, issued, settled);
    assert Handed(t.(cancelled := true), issued, settled);
  }

  // ----- one source -----

  lemma ReceiveToBatch(s: Source, n: nat)
    requires Base(s) && s.pc.Receiving? && n <= |s.queue|
    ensures Base(s.(queue := s.queue[n..], pc := Batching(s.queue[..n])))
  {
    var t := s.(queue := s.queue[n..], pc := Batching(s.queue[..n]));
    assert InHand(t) == InHand(s) == s.queue;
  }

  lemma ReceiveToSettle(s: Source, n: nat, pool: Pool)
    requires Base(s) && s.pc.Receiving? && n <= |s.queue| && s.job.mode.Delete?
    requires pool.messages == s.queue[..n]
    ensures Base(s.(queue := s.queue[n..], pc := Settling(pool, [])))
    ensures NoDup(s.queue[..n]) && forall m :: m in s.queue[..n] ==> m !in s.settled
  {
    var t := s.(queue := s.queue[n..], pc := Settling(pool, []));
    var taken, left := s.queue[..n], s.queue[n..];
    assert s.queue == taken + left;
    NoDupSplit(taken, left);
    assert InHand(t) == left;
    forall m | m in left ensures m !in taken && m in s.queue {
      assert m in Elems(left);
    }
    forall m | m in taken ensures m in s.queue {
    }
  }

  lemma ReceiveKeeps(s: Source, stop: bool, n: nat)
    requires Inv(s, stop) && DrainStep(s, stop, Receive(n)).Some?
    ensures Inv(DrainStep(s, stop, Receive(n)).value, stop)
  {
    var t := DrainStep(s, stop, Receive(n)).value;
    if s.job.mode.Move? {
      ReceiveToBatch(s, n);
    } else {
      ReceiveToSettle(s, n, t.pc.pool);
      NewPoolInv(s.queue[..n], s.job.concurrency, s.settled, Halted(t, t.pc.pool, stop));
    }
  }

  lemma FlushKeeps(s: Source, t: Source, n: nat)
    requires Base(s) && DrainStep(s, false, Flush(n)) == Some(t)
    ensures Base(t)
  {
    var batch, rest := s.pc.pending[..n], s.pc.pending[n..];
    assert InHand(s) == batch + (rest + s.queue);
    NoDupSplit(batch, rest + s.queue);
    ElemsSize(batch);
    assert InHand(t) == rest + s.queue;
    forall m | m in batch ensures m in InHand(s) {
      assert m in batch + (rest + s.queue);
    }
    forall m | m in InHand(t) ensures m in InHand(s) && m !in batch {
      assert m in batch + (rest + s.queue) && m in Elems(rest + s.queue);
    }
  }

  ghost predicate SendAcked(s: Source, t: Source) {
    s.pc.Sending? && t.pc.Settling? && t.pc.rest == s.pc.rest && t.pc.pool.messages == s.pc.batch &&
    s.offered <= s.accepted &&
    t == Recording(s, |s.pc.batch|, 0, -|s.pc.batch|, 0)
         .(offered := {}, confirmed := s.confirmed + s.offered, pc := t.pc)
  }

  lemma SendAckCounts(s: Source, t: Source)
    requires SendAcked(s, t) && Counted(s) && s.offered !! s.confirmed && |s.offered| == |s.pc.batch|
    ensures Counted(t)
  {
    assert |s.confirmed + s.offered| == |s.confirmed| + |s.offered|;
  }

  lemma SendAckBracket(s: Source, t: Source)
    requires Bracketed(s) && Progress(s) && SendAcked(s, t)
    ensures Bracketed(t) && Progress(t)
  {
  }

  lemma SendAckBase(s: Source, t: Source)
    requires Base(s) && SendAcked(s, t)
    ensures Base(t)
  {
    ElemsSize(s.pc.batch);
    SendAckCounts(s, t);
    SendAckBracket(s, t);
    DistinctStays(s, t);
  }

  lemma SendingUnsettled(s: Source)
    requires s.pc.Sending? && Bracketed(s) && Progress(s)
    ensures forall m :: m in s.pc.batch ==> m !in s.settled
  {
    forall m | m in s.pc.batch ensures m !in s.settled {
      assert m in s.offered;
    }
  }

  lemma SendAckKeeps(s: Source, stop: bool)
    requires Inv(s, stop) && DrainStep(s, stop, SendAck).Some?
    ensures Inv(DrainStep(s, stop, SendAck).value, stop)
  {
    var t := DrainStep(s, stop, SendAck).value;
    assert SendAcked(s, t);
    SendAckBase(s, t);
    SendingUnsettled(s);
    NewPoolInv(s.pc.batch, s.job.concurrency, s.settled, Halted(t, t.pc.pool, stop));
  }

  /** A move inside the pool leaves everything outside it alone. */
  lemma PoolFrame(s: Source, t: Source)
    requires s.pc.Settling? && t.pc.Settling? && Base(s)
    requires t == s.(pc := Settling(t.pc.pool, s.pc.rest)) && t.pc.pool.messages == s.pc.pool.messages
    ensures Base(t)
  {
    assert Current(t) == Current(s) && InHand(t) == InHand(s);
  }

  /** The pool after a move of worker `w`. */
  function PoolMoved(pool: Pool, p: PoolEvent, w: nat, halted: bool): Pool
    requires w < |pool.workers| && (p.Hand? ==> pool.next < |pool.messages|) && (p.Check? ==> Holds(pool.workers[w]))
  {
    match p
    case Hand(_) => Set(pool, w, Took(pool.messages[pool.next])).(next := pool.next + 1)
    case Report(_) => Set(pool, w, Cancelling).(failed := true)
    case Cancel(_) => Set(pool, w, Returned).(cancelled := true)
    case Quit(_) => Set(pool, w, Returned)
    case Check(_) => Set(pool, w, if halted then Returned else Ready(pool.workers[w].m))
    case Count(_) => Set(pool, w, Waiting).(completed := pool.completed + 1)
    case _ => Set(pool, w, Failing)
  }

  predicate CanMove(pool: Pool, p: PoolEvent, w: nat) {
    w < |pool.workers| &&
    var worker := pool.workers[w];
    match p
    case Hand(v) => v == w && worker.Waiting? && !pool.closed && pool.next < |pool.messages|
    case Quit(v) => v == w && worker.Waiting? && pool.closed
    case Check(v) => v == w && worker.Took?
    case Refuse(v) => v == w && worker.Ready?
    case Lose(v) => v == w && worker.Calling?
    case Count(v) => v == w && worker.Counting?
    case Report(v) => v == w && worker.Failing?
    case Cancel(v) => v == w && worker.Cancelling?
    case _ => false
  }

  lemma WorkerPool(s: Source, stop: bool, p: PoolEvent, w: nat, t: Source)
    requires s.pc.Settling? && PoolStep(s, stop, p) == Some(t)
    requires p in {Hand(w), Quit(w), Check(w), Refuse(w), Lose(w), Count(w), Report(w), Cancel(w)}
    ensures CanMove(s.pc.pool, p, w) && t.pc.Settling?
    ensures t.pc.pool == PoolMoved(s.pc.pool, p, w, Halted(s, s.pc.pool, stop))
    ensures t.job == s.job && t.issued == s.issued && t.settled == s.settled
  {
  }

  lemma PoolMoveKeeps(pool: Pool, issued: set<Message>, settled: set<Message>, halted: bool, p: PoolEvent, w: nat)
    requires PoolInv(pool, issued, settled, halted) && CanMove(pool, p, w)
    ensures PoolInv(PoolMoved(pool, p, w, halted), issued, settled, halted || p.Cancel?)
  {
    match p
    case Hand(_) => HandMove(pool, issued, settled, halted, w);
    case Report(_) => FailedMove(pool, issued, settled, halted, w, Cancelling);
    case Cancel(_) => CancelMove(pool, issued, settled, halted, w);
    case Count(_) => CountMove(pool, issued, settled, halted, w);
    case _ => QuietPoolMove(pool, issued, settled, halted, p, w);
  }

  lemma CountMove(pool: Pool, issued: set<Message>, settled: set<Message>, halted: bool, w: nat)
    requires PoolInv(pool, issued, settled, halted) && w < |pool.workers| && pool.workers[w].Counting?
    ensures PoolInv(Set(pool, w, Waiting).(completed := pool.completed + 1), issued, settled, halted)
  {
    QuietMove(pool, issued, settled, halted, w, Waiting);
    CompletedFrame(Set(pool, w, Waiting), issued, settled, halted, pool.completed + 1);
  }

  lemma QuietPoolMove(pool: Pool, issued: set<Message>, settled: set<Message>, halted: bool, p: PoolEvent, w: nat)
    requires PoolInv(pool, issued, settled, halted) && CanMove(pool, p, w)
    requires p.Quit? || p.Check? || p.Refuse? || p.Lose?
    ensures PoolInv(PoolMoved(pool, p, w, halted), issued, settled, halted)
  {
    var to := if p.Quit? || (p.Check? && halted) then Returned else if p.Check? then Ready(pool.workers[w].m) else Failing;
    assert PoolMoved(pool, p, w, halted) == Set(pool, w, to);
    QuietMove(pool, issued, settled, halted, w, to);
  }

  /** Whoever cancels the pool has reported a failure. */
  lemma CancelMove(pool: Pool, issued: set<Message>, settled: set<Message>, halted: bool, w: nat)
    requires PoolInv(pool, issued, settled, halted) && w < |pool.workers| && pool.workers[w].Cancelling?
    ensures pool.failed && PoolInv(Set(pool, w, Returned).(cancelled := true), issued, settled, true)
  {
    assert pool.failed;
    FailedMove(pool, issued, settled, halted, w, Returned);
    assert Set(pool, w, Returned).(failed := true, cancelled := true) == Set(pool, w, Returned).(cancelled := true);
  }

  lemma CompletedFrame(pool: Pool, issued: set<Message>, settled: set<Message>, halted: bool, n: nat)
    requires PoolInv(pool, issued, settled, halted)
    ensures PoolInv(pool.(completed := n), issued, settled, halted)
  {
    var t := pool.(completed := n);
    assert Troubled(t) == Troubled(pool);
    assert forall m :: InCall(pool, m) ==> InCall(t, m);
    assert forall m :: InWorker(pool, m) ==> InWorker(t, m);
    assert Handed(t, issued, settled);
  }

  lemma ClosedFrame(pool: Pool, issued: set<Message>, settled: set<Message>, halted: bool)
    requires PoolInv(pool, issued, settled, halted)
    requires pool.next == |pool.messages| || halted
    ensures PoolInv(pool.(closed := true), issued, settled, halted)
  {
    var t := pool.(closed := true);
    assert Troubled(t) == Troubled(pool);
    assert forall m :: InCall(pool, m) ==> InCall(t, m);
    assert forall m :: InWorker(pool, m) ==> InWorker(t, m);
    assert Handed(t, issued, settled);
  }

  function Bit(b: bool): nat { if b then 1 else 0 }

  /** A move of one worker changes that worker, and of the pool its flags and what it has counted. */
  lemma WorkerMove(s: Source, stop: bool, p: PoolEvent, w: nat, t: Source)
    requires s.pc.Settling? && PoolStep(s, stop, p) == Some(t)
    requires p in {Hand(w), Quit(w), Check(w), Refuse(w), Lose(w), Count(w), Report(w), Cancel(w)}
    ensures At(s, w) && At(t, w) && t == s.(pc := Settling(t.pc.pool, s.pc.rest))
    ensures t.pc.pool.messages == s.pc.pool.messages
    ensures t.pc.pool.workers == s.pc.pool.workers[w := t.pc.pool.workers[w]]
    ensures t.pc.pool.completed + Bit(t.pc.pool.workers[w].Counting?) ==
            s.pc.pool.completed + Bit(s.pc.pool.workers[w].Counting?)
  {
  }

  lemma WorkerCounts(s: Source, t: Source, w: nat)
    requires Moved(s) && At(s, w) && At(t, w) && t == s.(pc := Settling(t.pc.pool, s.pc.rest))
    requires t.pc.pool.workers == s.pc.pool.workers[w := t.pc.pool.workers[w]]
    requires t.pc.pool.completed + Bit(t.pc.pool.workers[w].Counting?) ==
             s.pc.pool.completed + Bit(s.pc.pool.workers[w].Counting?)
    ensures Moved(t)
  {
    TallyUpdate(s.pc.pool.workers, w, t.pc.pool.workers[w]);
  }

  lemma WorkerKeeps(s: Source, stop: bool, p: PoolEvent, w: nat, t: Source)
    requires s.pc.Settling? && Inv(s, stop) && PoolStep(s, stop, p) == Some(t)
    requires p in {Hand(w), Quit(w), Check(w), Refuse(w), Lose(w), Count(w), Report(w), Cancel(w)}
    ensures Inv(t, stop)
  {
    WorkerMove(s, stop, p, w, t);
    PoolFrame(s, t);
    WorkerCounts(s, t, w);
    WorkerPool(s, stop, p, w, t);
    PoolMoveKeeps(s.pc.pool, s.issued, s.settled, Halted(s, s.pc.pool, stop), p, w);
  }

  lemma ClosingKeeps(s: Source, stop: bool, p: PoolEvent)
    requires s.pc.Settling? && Inv(s, stop) && PoolStep(s, stop, p).Some?
    requires p == Break || p == Close
    ensures Inv(PoolStep(s, stop, p).value, stop)
  {
    PoolFrame(s, PoolStep(s, stop, p).value);
    ClosedFrame(s.pc.pool, s.issued, s.settled, Halted(s, s.pc.pool, stop));
  }

  lemma StartBase(s: Source, t: Source, m: Message)
    requires Base(s) && s.pc.Settling? && t.pc.Settling? && t.pc.pool.messages == s.pc.pool.messages
    requires m in s.pc.pool.messages && m !in s.issued + s.settled
    requires t == Recording(s, 0, 0, 0, 1).(pc := Settling(t.pc.pool, s.pc.rest), issued := s.issued + {m})
    ensures Base(t)
  {
    assert m in Elems(s.pc.pool.messages);
    assert Counted(t) && Bracketed(t) && Progress(t);
    assert Distinct(t) by { DistinctStays(s, t); }
  }

  /** A complete call is only ever dispatched for a message that has had none. */
  lemma DispatchedOnce(s: Source, stop: bool, w: nat)
    requires Inv(s, stop) && At(s, w) && s.pc.pool.workers[w].Ready?
    ensures s.pc.pool.workers[w].m !in s.issued + s.settled
  {
    assert HoldsFairly(s.pc.pool, s.pc.pool.workers[w], s.issued, s.settled);
  }

  lemma StartKeeps(s: Source, stop: bool, w: nat)
    requires Inv(s, stop) && At(s, w) && s.pc.pool.workers[w].Ready?
    ensures Inv(Dispatched(s, w), stop)
  {
    var t, pool := Dispatched(s, w), s.pc.pool;
    assert PoolInv(t.pc.pool, t.issued, t.settled, Halted(t, t.pc.pool, stop)) by {
      StartMove(pool, s.issued, s.settled, Halted(s, pool, stop), w);
    }
    assert Base(t) by {
      DispatchedOnce(s, stop, w);
      assert HoldsFairly(pool, pool.workers[w], s.issued, s.settled);
      StartBase(s, t, pool.workers[w].m);
    }
    assert Moved(t) by {
      TallyUpdate(pool.workers, w, t.pc.pool.workers[w]);
    }
  }

  lemma AcknowledgeBase(s: Source, t: Source, m: Message)
    requires Base(s) && s.pc.Settling? && t.pc.Settling? && t.pc.pool.messages == s.pc.pool.messages
    requires m in s.issued && m in s.removed
    requires t == Recording(s, 0, 1, 0, -1).(pc := Settling(t.pc.pool, s.pc.rest), issued := s.issued - {m}, settled := s.settled + {m})
    ensures Base(t)
    ensures |t.settled| == |s.settled| + 1
  {
    assert Current(t) == Current(s) && InHand(t) == InHand(s);
  }

  lemma AcknowledgeKeeps(s: Source, stop: bool, w: nat)
    requires Inv(s, stop) && At(s, w) && s.pc.pool.workers[w].Calling? && s.pc.pool.workers[w].m in s.removed
    ensures Inv(Acknowledged(s, w), stop)
  {
    var t, pool := Acknowledged(s, w), s.pc.pool;
    assert HoldsFairly(pool, pool.workers[w], s.issued, s.settled);
    assert PoolInv(t.pc.pool, t.issued, t.settled, Halted(t, t.pc.pool, stop)) by {
      AcknowledgeMove(pool, s.issued, s.settled, Halted(s, pool, stop), w);
    }
    AcknowledgeBase(s, t, pool.workers[w].m);
    assert Moved(t) by {
      TallyUpdate(pool.workers, w, t.pc.pool.workers[w]);
    }
  }

  /**
   The pool returns nil only if all its messages were completed: then the broker owes it nothing.
   */
  lemma NilMeansAllSettled(s: Source, stop: bool)
    requires s.pc.Settling? && Inv(s, stop)
    requires forall w :: 0 <= w < |s.pc.pool.workers| ==> s.pc.pool.workers[w].Returned?
    requires s.pc.pool.closed && !s.pc.pool.failed && !(s.job.mode.Delete? && stop)
    ensures Elems(s.pc.pool.messages) <= s.settled && s.issued == {}
  {
    var pool := s.pc.pool;
    assert !Troubled(pool) && !Halted(s, pool, stop);
    assert forall m :: !InWorker(pool, m);
    assert forall m :: !InCall(pool, m);
  }

  lemma BatchSettled(s: Source, t: Source)
    requires Base(s) && s.pc.Settling? && Elems(s.pc.pool.messages) <= s.settled && s.issued == {}
    requires t == s.(moved := t.moved, pc := Batching(s.pc.rest))
    ensures Base(t)
  {
    assert InHand(t) == InHand(s) && Current(t) == [];
  }

  lemma BatchFailed(s: Source, t: Source)
    requires Base(s) && t.pc.Ended? && t.pc.error.Some?
    requires t == s.(moved := t.moved, pc := t.pc)
    ensures Base(t)
  {
  }

  lemma JoinKeeps(s: Source, stop: bool, e: RunError, t: Source)
    requires s.pc.Settling? && Inv(s, stop) && PoolStep(s, stop, Join(e)) == Some(t)
    ensures Inv(t, stop)
  {
    Joined(s, stop, e, t);
    TallyNone(s.pc.pool.workers);
    if t.pc.Batching? {
      NilMeansAllSettled(s, stop);
      BatchSettled(s, t);
    } else {
      BatchFailed(s, t);
    }
  }

  /** A join happens once every worker has returned, and ends the batch one way or the other. */
  lemma Joined(s: Source, stop: bool, e: RunError, t: Source)
    requires s.pc.Settling? && PoolStep(s, stop, Join(e)) == Some(t)
    ensures s.pc.pool.closed && forall w :: 0 <= w < |s.pc.pool.workers| ==> s.pc.pool.workers[w].Returned?
    ensures t == s.(moved := s.moved + s.pc.pool.completed, pc := t.pc)
    ensures t.pc == Batching(s.pc.rest) || (t.pc.Ended? && t.pc.error.Some?)
    ensures t.pc.Batching? ==> !s.pc.pool.failed && !(s.job.mode.Delete? && stop)
  {
  }

  lemma PoolStepKeeps(s: Source, stop: bool, p: PoolEvent, t: Source)
    requires s.pc.Settling? && Inv(s, stop) && PoolStep(s, stop, p) == Some(t)
    ensures Inv(t, stop)
  {
    match p
    case Break => ClosingKeeps(s, stop, p);
    case Close => ClosingKeeps(s, stop, p);
    case Start(w) => StartKeeps(s, stop, w);
    case Acknowledge(w) => AcknowledgeKeeps(s, stop, w);
    case Join(err) => JoinKeeps(s, stop, err, t);
    case Hand(w) => WorkerKeeps(s, stop, p, w, t);
    case Quit(w) => WorkerKeeps(s, stop, p, w, t);
    case Check(w) => WorkerKeeps(s, stop, p, w, t);
    case Refuse(w) => WorkerKeeps(s, stop, p, w, t);
    case Lose(w) => WorkerKeeps(s, stop, p, w, t);
    case Count(w) => WorkerKeeps(s, stop, p, w, t);
    case Report(w) => WorkerKeeps(s, stop, p, w, t);
    case Cancel(w) => WorkerKeeps(s, stop, p, w, t);
  }

  /** Only `Base` speaks of the broker's truth. */
  lemma BrokerKeeps(s: Source, t: Source, stop: bool)
    requires Inv(s, stop) && t == s.(accepted := t.accepted, removed := t.removed)
    requires s.accepted <= t.accepted <= s.accepted + s.offered
    requires s.removed <= t.removed <= s.removed + s.issued
    ensures Inv(t, stop)
  {
    BrokerBase(s, t);
  }

  lemma BrokerBase(s: Source, t: Source)
    requires Base(s) && t == s.(accepted := t.accepted, removed := t.removed)
    requires s.accepted <= t.accepted <= s.accepted + s.offered
    requires s.removed <= t.removed <= s.removed + s.issued
    ensures Base(t)
  {
    BrokerBracket(s, t);
    DistinctStays(s, t);
  }

  lemma BrokerBracket(s: Source, t: Source)
    requires Bracketed(s) && Counted(s) && Progress(s) && t == s.(accepted := t.accepted, removed := t.removed)
    requires s.accepted <= t.accepted <= s.accepted + s.offered
    requires s.removed <= t.removed <= s.removed + s.issued
    ensures Bracketed(t) && Counted(t) && Progress(t)
  {
  }

  lemma BatchesDoneKeeps(s: Source, stop: bool)
    requires Inv(s, stop) && DrainStep(s, stop, BatchesDone).Some?
    ensures Inv(DrainStep(s, stop, BatchesDone).value, stop)
  {
    var t := DrainStep(s, stop, BatchesDone).value;
    assert InHand(s) == s.queue == InHand(t);
  }

  /** An end outside the pool only moves the source to its end. */
  lemma EndKeeps(s: Source, t: Source, stop: bool)
    requires Inv(s, stop) && !s.pc.Settling? && t.pc.Ended? && t == s.(pc := t.pc)
    requires t.pc.error == None ==> s.pc.Receiving?
    ensures Inv(t, stop)
  {
    assert InHand(t) == [] && Current(t) == [];
  }

  lemma FlushMoves(s: Source, stop: bool, n: nat)
    requires Inv(s, stop) && DrainStep(s, stop, Flush(n)).Some?
    ensures Inv(DrainStep(s, stop, Flush(n)).value, stop)
  {
    FlushKeeps(s, DrainStep(s, stop, Flush(n)).value, n);
  }

  /** Every step of the worker and of the broker keeps the invariant. */
  lemma StepKeeps(s: Source, stop: bool, e: Event)
    requires Inv(s, stop) && DrainStep(s, stop, e).Some?
    ensures Inv(DrainStep(s, stop, e).value, stop)
  {
    match e
    case Receive(n) => ReceiveKeeps(s, stop, n);
    case Flush(n) => FlushMoves(s, stop, n);
    case SendAck => SendAckKeeps(s, stop);
    case Exhausted => EndKeeps(s, DrainStep(s, stop, e).value, stop);
    case BatchesDone => BatchesDoneKeeps(s, stop);
    case Fails(_) => EndKeeps(s, DrainStep(s, stop, e).value, stop);
    case Accept => BrokerKeeps(s, DrainStep(s, stop, e).value, stop);
    case Remove(_) => BrokerKeeps(s, DrainStep(s, stop, e).value, stop);
    case InPool(p) => PoolStepKeeps(s, stop, p, DrainStep(s, stop, e).value);
  }

  lemma InitInv(job: Job, queue: seq<Message>)
    requires NoDup(queue)
    ensures Inv(Init(job, queue), false)
  {
  }

  /** Pressing Stop breaks nothing. */
  lemma StopKeeps(s: Source)
    requires Inv(s, false)
    ensures Inv(s, true)
  {
  }
}

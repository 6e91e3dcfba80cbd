/**
 One source (the normal or the dead-letter subqueue) of a bulk move or a bulk delete, as steps
 over a broker that can lose acknowledgments: the drain loops of handlers_move.go and
 handlers_drain.go, sendAndCompleteMessages of handlers_transfer.go and the settlement pool
 completeReceivedMessages of handlers.go.

 `accepted` and `removed` are the broker's truth, which the worker never reads. Every other field
 is what the worker knows: what it asked for and what it was told.
 */
module TransferProtocol {
  import opened Common
  import opened OperationOutcome

  /** Messages of one source are told apart by their sequence number. */
  type Message = nat

  datatype Mode = Move | Delete

  datatype Job = Job(mode: Mode, batchSize: nat, concurrency: nat)

  /** Where one goroutine of the settlement pool stands. */
  datatype Worker =
    | Waiting              // at `range jobs`
    | Took(m: Message)     // about to look at scheduleCtx
    | Ready(m: Message)    // about to record and dispatch the complete call
    | Calling(m: Message)  // recorded as unconfirmed, complete call in flight
    | Counting             // acknowledged and recorded, about to count it
    | Failing              // the call failed, about to report it
    | Cancelling           // reported, about to stop scheduling
    | Returned

  datatype Pool = Pool(
    messages: seq<Message>, next: nat, workers: seq<Worker>,
    closed: bool, cancelled: bool, failed: bool, completed: nat)

  datatype Pc =
    | Receiving
    | Batching(pending: seq<Message>)
    | Sending(batch: seq<Message>, rest: seq<Message>)
    | Settling(pool: Pool, rest: seq<Message>)
    | Ended(error: Option<RunError>)

  datatype Source = Source(
    job: Job, queue: seq<Message>, pc: Pc, outcome: SourceOutcome, moved: nat,
    offered: set<Message>, confirmed: set<Message>,  // sends dispatched / acknowledged
    issued: set<Message>, settled: set<Message>,     // completes dispatched / acknowledged
    accepted: set<Message>, removed: set<Message>)   // the broker's truth

  datatype PoolEvent =
    | Hand(w: nat) | Break | Close | Quit(w: nat)
    | Check(w: nat) | Start(w: nat) | Refuse(w: nat)
    | Acknowledge(w: nat) | Lose(w: nat)
    | Count(w: nat) | Report(w: nat) | Cancel(w: nat)
    | Join(e: RunError)

  datatype Event =
    | Receive(n: nat) | Exhausted | Flush(n: nat) | BatchesDone | SendAck
    | Fails(e: RunError)        // intake, batching or send returns an error
    | InPool(p: PoolEvent)
    | Accept | Remove(m: Message) // the broker takes effect; the worker is not told

  function Init(job: Job, queue: seq<Message>): Source {
    Source(job, queue, Receiving, ZERO, 0, {}, {}, {}, {}, {}, {})
  }

  function NewPool(messages: seq<Message>, concurrency: nat): Pool {
    var c := if concurrency < |messages| then concurrency else |messages|;
    Pool(messages, 0, seq(if c < 1 then 1 else c, i => Waiting), false, false, false, 0)
  }

  /**
   scheduleCtx.Err() != nil: some worker stopped the scheduling or, when the pool runs on the
   request context itself (a delete), Stop was pressed. After a batch was accepted the pool runs on
   the work context, which Stop does not cancel.
   */
  predicate Halted(s: Source, pool: Pool, stop: bool) {
    pool.cancelled || (s.job.mode.Delete? && stop)
  }

  function WithWorker(s: Source, w: nat, to: Worker): Source
    requires s.pc.Settling? && w < |s.pc.pool.workers|
  {
    s.(pc := s.pc.(pool := s.pc.pool.(workers := s.pc.pool.workers[w := to])))
  }

  function Recording(s: Source, sent: int, settled: int, sendUnconfirmed: int, settlementUnconfirmed: int): Source {
    s.(outcome := s.outcome.Plus(SourceOutcome(sent, settled, sendUnconfirmed, settlementUnconfirmed)))
  }

  predicate At(s: Source, w: nat) {
    s.pc.Settling? && w < |s.pc.pool.workers|
  }

  function Dispatched(s: Source, w: nat): Source
    requires At(s, w) && s.pc.pool.workers[w].Ready?
  {
    var m := s.pc.pool.workers[w].m;
    Recording(WithWorker(s, w, Calling(m)), 0, 0, 0, 1).(issued := s.issued + {m})
  }

  function Acknowledged(s: Source, w: nat): Source
    requires At(s, w) && s.pc.pool.workers[w].Calling?
  {
    var m := s.pc.pool.workers[w].m;
    Recording(WithWorker(s, w, Counting), 0, 1, 0, -1).(issued := s.issued - {m}, settled := s.settled + {m})
  }

  function PoolStep(s: Source, stop: bool, p: PoolEvent): Option<Source>
    requires s.pc.Settling?
  {
    var pool := s.pc.pool;
    var ws := pool.workers;
    match p
    case Hand(w) =>
      if At(s, w) && ws[w].Waiting? && !pool.closed && pool.next < |pool.messages| then
        var t := WithWorker(s, w, Took(pool.messages[pool.next]));
        Some(t.(pc := t.pc.(pool := t.pc.pool.(next := pool.next + 1))))
      else None
    case Break =>
      if !pool.closed && pool.next < |pool.messages| && Halted(s, pool, stop) then
        Some(s.(pc := s.pc.(pool := pool.(closed := true))))
      else None
    case Close =>
      if !pool.closed && pool.next == |pool.messages| then
        Some(s.(pc := s.pc.(pool := pool.(closed := true))))
      else None
    case Quit(w) =>
      if At(s, w) && ws[w].Waiting? && pool.closed then Some(WithWorker(s, w, Returned)) else None
    case Check(w) =>
      if At(s, w) && ws[w].Took? then
        Some(WithWorker(s, w, if Halted(s, pool, stop) then Returned else Ready(ws[w].m)))
      else None
    case Start(w) =>
      if At(s, w) && ws[w].Ready? then
        Some(Dispatched(s, w))
      else None
    case Refuse(w) => // completeCtx was already over: nothing recorded, nothing dispatched
      if At(s, w) && ws[w].Ready? then Some(WithWorker(s, w, Failing)) else None
    case Acknowledge(w) =>
      if At(s, w) && ws[w].Calling? && ws[w].m in s.removed then
        Some(Acknowledged(s, w))
      else None
    case Lose(w) =>
      if At(s, w) && ws[w].Calling? then Some(WithWorker(s, w, Failing)) else None
    case Count(w) =>
      if At(s, w) && ws[w].Counting? then
        var t := WithWorker(s, w, Waiting);
        Some(t.(pc := t.pc.(pool := t.pc.pool.(completed := pool.completed + 1))))
      else None
    case Report(w) =>
      if At(s, w) && ws[w].Failing? then
        var t := WithWorker(s, w, Cancelling);
        Some(t.(pc := t.pc.(pool := t.pc.pool.(failed := true))))
      else None
    case Cancel(w) =>
      if At(s, w) && ws[w].Cancelling? then
        var t := WithWorker(s, w, Returned);
        Some(t.(pc := t.pc.(pool := t.pc.pool.(cancelled := true))))
      else None
    case Join(e) =>
      if pool.closed && forall w :: 0 <= w < |ws| ==> ws[w].Returned? then
        Some(s.(moved := s.moved + pool.completed,
                pc := if pool.failed then Ended(Some(e))
                      else if s.job.mode.Delete? && stop then Ended(Some(RunError(true)))
                      else Batching(s.pc.rest)))
      else None
  }

  function DrainStep(s: Source, stop: bool, e: Event): Option<Source> {
    match e
    case Receive(n) =>
      if s.pc.Receiving? && !stop && 1 <= n <= |s.queue| && n <= s.job.batchSize then
        var t := s.(queue := s.queue[n..]);
        Some(if s.job.mode.Move? then t.(pc := Batching(s.queue[..n]))
             else t.(pc := Settling(NewPool(s.queue[..n], s.job.concurrency), [])))
      else None
    case Exhausted =>
      if s.pc.Receiving? && !stop then Some(s.(pc := Ended(None))) else None
    case Flush(n) =>
      if s.pc.Batching? && s.job.mode.Move? && !stop && 1 <= n <= |s.pc.pending| then
        var batch := s.pc.pending[..n];
        Some(Recording(s, 0, 0, n, 0).(offered := Elems(batch), pc := Sending(batch, s.pc.pending[n..])))
      else None
    case BatchesDone =>
      if s.pc.Batching? && s.pc.pending == [] then Some(s.(pc := Receiving)) else None
    case SendAck =>
      if s.pc.Sending? && s.offered <= s.accepted then
        var n := |s.pc.batch|;
        Some(Recording(s, n, 0, -n, 0)
             .(offered := {}, confirmed := s.confirmed + s.offered,
               pc := Settling(NewPool(s.pc.batch, s.job.concurrency), s.pc.rest)))
      else None
    case Fails(err) =>
      if s.pc.Receiving? || s.pc.Batching? || s.pc.Sending? then Some(s.(pc := Ended(Some(err)))) else None
    case InPool(p) =>
      if s.pc.Settling? then PoolStep(s, stop, p) else None
    case Accept =>
      if s.offered == {} then None else Some(s.(accepted := s.accepted + s.offered))
    case Remove(m) =>
      if m in s.issued then Some(s.(removed := s.removed + {m})) else None
  }

  /** What everyone but the broker can see of a source. */
  function Visible(s: Source): Source {
    s.(accepted := {}, removed := {})
  }
}

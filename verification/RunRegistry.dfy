/**
 The worker's handlers (main.go: registerRun, cancelRun, finishRun and the goroutines dispatch starts): a
 table of cancellable runs by id, a bounded number of slots that runs share with regular handlers, and
 two nested contexts a run. Stop ends the outer request context; the inner work context ends with the run.
 */
module RunRegistry {
  import opened Common
  import opened OperationOutcome

  type Id = string

  datatype Pc =
    | Queued    // in select: a handler slot or the end of the request context
    | Running   // the handler runs, in a slot
    | Answered  // the terminal response is sent, the slot still held
    | Freed     // no slot held, finishRun still to come
    | Unlisted  // out of the table, contexts still to be ended
    | Gone

  /** What the caller is told at the end: a status with counts, or for peeks and searches a plain answer. */
  datatype Answer = Told(status: Status) | Cancelled | Failed | Result

  /** `stopped`: the request context is over; `workOver`: the work context it is nested in is over. */
  datatype Run = Run(id: Id, structured: bool, pc: Pc, stopped: bool, workOver: bool, answers: seq<Answer>)

  /** A handler that cannot be cancelled; it waits for a slot like the others. */
  datatype RegularPc = Waiting | Working | Sent | Done

  /** `stopping` are cancel requests that found their run and have not called stop yet. */
  datatype State = State(
    runs: seq<Run>, regular: seq<RegularPc>, table: map<Id, nat>, slots: nat, capacity: nat, stopping: set<nat>)

  datatype Event =
    | Register(id: Id, structured: bool)
    | FindRun(id: Id)
    | Stop(r: nat)
    | Acquire(r: nat)
    | GiveUp(r: nat, total: SourceOutcome)
    | Return(r: nat, total: SourceOutcome, err: Option<RunError>)
    | Release(r: nat)
    | Unlist(r: nat)
    | EndContexts(r: nat)
    | Arrive
    | RegularAcquire(h: nat)
    | RegularReturn(h: nat)
    | RegularRelease(h: nat)

  function Initial(capacity: nat): State { State([], [], map[], 0, capacity, {}) }

  predicate Holds(pc: Pc) { pc.Running? || pc.Answered? }

  predicate RegularHolds(pc: RegularPc) { pc.Working? || pc.Sent? }

  /** Registered: its id is taken and a cancel request can find it. */
  predicate Listed(pc: Pc) { !pc.Unlisted? && !pc.Gone? }

  predicate Live(s: State, r: int) { 0 <= r < |s.runs| && Listed(s.runs[r].pc) }

  predicate Is(s: State, r: nat, pc: Pc) { r < |s.runs| && s.runs[r].pc == pc }

  predicate RegularIs(s: State, h: nat, pc: RegularPc) { h < |s.regular| && s.regular[h] == pc }

  function Put(s: State, r: nat, run: Run): State
    requires r < |s.runs|
  {
    s.(runs := s.runs[r := run])
  }

  /** A handler that ended while Stop was pressed ended cancelled, whatever it returned. */
  function Joined(stopped: bool, err: Option<RunError>): Option<RunError> {
    if stopped && !(err.Some? && err.value.cancelled) then Some(RunError(true)) else err
  }

  /** The answer after the handler returned; a plain one does not look at the request context again. */
  function ReturnAnswer(run: Run, total: SourceOutcome, err: Option<RunError>): Answer {
    if run.structured then Told(FinishStatus(total, Joined(run.stopped, err)).0)
    else if err == None then Result
    else if err.value.cancelled then Answer.Cancelled
    else Failed
  }

  /** The answer of a run that was stopped before it got a slot. */
  function GiveUpAnswer(run: Run, total: SourceOutcome): Answer {
    if run.structured then Told(FinishStatus(total, Some(RunError(true))).0) else Answer.Cancelled
  }

  function Step(s: State, e: Event): Option<State> {
    match e
    case Register(id, structured) =>
      if id == "" || id in s.table then Some(s)
      else Some(s.(runs := s.runs + [Run(id, structured, Queued, false, false, [])], table := s.table[id := |s.runs|]))
    case FindRun(id) => if id in s.table then Some(s.(stopping := s.stopping + {s.table[id]})) else Some(s)
    case Stop(r) =>
      if r in s.stopping && r < |s.runs|
      then Some(Put(s, r, s.runs[r].(stopped := true)).(stopping := s.stopping - {r})) else None
    case Acquire(r) =>
      if Is(s, r, Queued) && s.slots < s.capacity
      then Some(Put(s, r, s.runs[r].(pc := Running)).(slots := s.slots + 1)) else None
    case GiveUp(r, total) =>
      if Is(s, r, Queued) && s.runs[r].stopped
      then Some(Put(s, r, s.runs[r].(pc := Freed, answers := s.runs[r].answers + [GiveUpAnswer(s.runs[r], total)]))) else None
    case Return(r, total, err) =>
      if Is(s, r, Running)
      then Some(Put(s, r, s.runs[r].(pc := Answered, answers := s.runs[r].answers + [ReturnAnswer(s.runs[r], total, err)]))) else None
    case Release(r) =>
      if Is(s, r, Answered) && s.slots > 0
      then Some(Put(s, r, s.runs[r].(pc := Freed)).(slots := s.slots - 1)) else None
    case Unlist(r) =>
      if Is(s, r, Freed) then
        var t := Put(s, r, s.runs[r].(pc := Unlisted));
        Some(if s.runs[r].id in s.table && s.table[s.runs[r].id] == r then t.(table := s.table - {s.runs[r].id}) else t)
      else None
    case EndContexts(r) =>
      if Is(s, r, Unlisted)
      then Some(Put(s, r, s.runs[r].(pc := Gone, stopped := true, workOver := true))) else None
    case Arrive => Some(s.(regular := s.regular + [Waiting]))
    case RegularAcquire(h) =>
      if RegularIs(s, h, Waiting) && s.slots < s.capacity
      then Some(s.(regular := s.regular[h := Working], slots := s.slots + 1)) else None
    case RegularReturn(h) => if RegularIs(s, h, Working) then Some(s.(regular := s.regular[h := Sent])) else None
    case RegularRelease(h) =>
      if RegularIs(s, h, Sent) && s.slots > 0 then Some(s.(regular := s.regular[h := Done], slots := s.slots - 1)) else None
  }

  function Exec(s: State, run: seq<Event>): Option<State>
    decreases |run|
  {
    if |run| == 0 then Some(s)
    else match Step(s, run[0])
      case None => None
      case Some(t) => Exec(t, run[1..])
  }

  /** The registry as the worker keeps it: the three sections under its lock, and the calls on a context. */
  class ActiveRuns {
    var runs: seq<Run>
    var regular: seq<RegularPc>
    var table: map<Id, nat>
    var slots: nat
    var capacity: nat
    var stopping: set<nat>

    function Now(): State
      reads this
    {
      State(runs, regular, table, slots, capacity, stopping)
    }

    constructor (handlerSlots: nat)
      ensures Now() == Initial(handlerSlots)
    {
      runs, regular, table, slots, capacity, stopping := [], [], map[], 0, handlerSlots, {};
    }

    method RegisterRun(id: Id, structured: bool) returns (run: Option<nat>)
      modifies this
      ensures Step(old(Now()), Register(id, structured)) == Some(Now())
      ensures run.Some? <==> id != "" && id !in old(table)
      ensures run.Some? ==> run.value == |old(runs)| && table == old(table)[id := run.value] &&
                            runs == old(runs) + [Run(id, structured, Queued, false, false, [])]
      ensures run == None ==> runs == old(runs) && table == old(table)
    {
      if id == "" {
        return None;
      }
      if id in table {
        return None;
      }
      run := Some(|runs|);
      table := table[id := |runs|];
      runs := runs + [Run(id, structured, Queued, false, false, [])];
    }

    /** Finds the run under the lock and stops it outside: what lies between belongs to others. */
    method CancelRun(id: Id) returns (ok: bool)
      requires Tabled(Now())
      modifies this
      ensures ok <==> id in old(table)
      ensures !ok ==> Now() == old(Now())
      ensures ok ==> var r := old(table)[id];
                     r < |runs| == |old(runs)| && runs[r].stopped && runs[r] == old(runs)[r].(stopped := true) &&
                     (forall q :: 0 <= q < |runs| && q != r ==> runs[q] == old(runs)[q]) && table == old(table)
      ensures ok ==> Step(Step(old(Now()), FindRun(id)).value, Stop(old(table)[id])) == Some(Now().(stopping := stopping - {old(table)[id]}))
    {
      if id !in table {
        return false;
      }
      var r := table[id];
      runs := runs[r := runs[r].(stopped := true)];
      ok := true;
      assert stopping + {r} - {r} == stopping - {r};
    }

    /** Out of the table under the lock, then the request context, then the work context. */
    method FinishRun(r: nat)
      requires r < |runs| && runs[r].pc.Freed?
      modifies this
      ensures |runs| == |old(runs)| && runs[r].stopped && runs[r].workOver && runs[r].pc.Gone? && runs[r].answers == old(runs)[r].answers
      ensures forall q :: 0 <= q < |runs| && q != r ==> runs[q] == old(runs)[q]
      ensures forall id :: id in table <==> id in old(table) && !(id == old(runs)[r].id && old(table)[id] == r)
      ensures Step(Step(old(Now()), Unlist(r)).value, EndContexts(r)) == Some(Now())
    {
      if runs[r].id in table && table[runs[r].id] == r {
        table := table - {runs[r].id};
      }
      runs := runs[r := runs[r].(pc := Unlisted)];
      runs := runs[r := runs[r].(stopped := true)];
      runs := runs[r := runs[r].(workOver := true, pc := Gone)];
      assert runs == old(runs)[r := old(runs)[r].(pc := Unlisted)][r := runs[r]];
    }
  }

  // Slots ---------------------------------------------------------------------------------------

  function HoldersIn(runs: seq<Run>): set<nat> {
    set r: nat | r < |runs| && Holds(runs[r].pc)
  }

  function RegularHoldersIn(regular: seq<RegularPc>): set<nat> {
    set h: nat | h < |regular| && RegularHolds(regular[h])
  }

  /** Every slot is held by one run or one regular handler. */
  ghost predicate Counted(s: State) {
    s.slots == |HoldersIn(s.runs)| + |RegularHoldersIn(s.regular)| && s.slots <= s.capacity &&
    forall r :: r in s.stopping ==> r < |s.runs|
  }

  function Bit(b: bool): nat { if b then 1 else 0 }

  lemma HoldersMove(runs: seq<Run>, r: nat, run: Run)
    requires r < |runs|
    ensures |HoldersIn(runs[r := run])| == |HoldersIn(runs)| - Bit(Holds(runs[r].pc)) + Bit(Holds(run.pc))
  {
    var before, others := HoldersIn(runs), HoldersIn(runs) - {r};
    assert HoldersIn(runs[r := run]) == if Holds(run.pc) then others + {r} else others;
    assert before == if Holds(runs[r].pc) then others + {r} else others;
  }

  lemma RegularHoldersMove(regular: seq<RegularPc>, h: nat, pc: RegularPc)
    requires h < |regular|
    ensures |RegularHoldersIn(regular[h := pc])| == |RegularHoldersIn(regular)| - Bit(RegularHolds(regular[h])) + Bit(RegularHolds(pc))
  {
    var before, others := RegularHoldersIn(regular), RegularHoldersIn(regular) - {h};
    assert RegularHoldersIn(regular[h := pc]) == if RegularHolds(pc) then others + {h} else others;
    assert before == if RegularHolds(regular[h]) then others + {h} else others;
  }

  lemma StepKeepsCount(s: State, e: Event, t: State)
    requires Inv(s) && Step(s, e) == Some(t)
    ensures Counted(t)
  {
    match e {
      case Register(_, _) =>
        assert HoldersIn(t.runs) == HoldersIn(s.runs);
      case FindRun(_) =>
      case Arrive =>
        assert RegularHoldersIn(t.regular) == RegularHoldersIn(s.regular);
      case RegularAcquire(h) => RegularHoldersMove(s.regular, h, Working);
      case RegularReturn(h) => RegularHoldersMove(s.regular, h, Sent);
      case RegularRelease(h) => RegularHoldersMove(s.regular, h, Done);
      case _ => HoldersMove(s.runs, e.r, t.runs[e.r]);
    }
  }

  // The table -----------------------------------------------------------------------------------

  /** The table and the listed runs are one and the same. */
  ghost predicate Tabled(s: State) {
    (forall id :: id in s.table ==> s.table[id] < |s.runs| && s.runs[s.table[id]].id == id && Listed(s.runs[s.table[id]].pc)) &&
    (forall r :: 0 <= r < |s.runs| && Listed(s.runs[r].pc) ==> s.runs[r].id in s.table && s.table[s.runs[r].id] == r)
  }

  lemma RegisterKeepsTable(s: State, id: Id, structured: bool, t: State)
    requires Tabled(s) && Step(s, Register(id, structured)) == Some(t)
    ensures Tabled(t)
  {
    if t != s {
      forall r | Live(t, r) ensures t.runs[r].id in t.table && t.table[t.runs[r].id] == r {
        if r < |s.runs| { assert t.runs[r] == s.runs[r] && s.runs[r].id in s.table; }
      }
    }
  }

  lemma UnlistKeepsTable(s: State, r: nat, t: State)
    requires Tabled(s) && Step(s, Unlist(r)) == Some(t)
    ensures Tabled(t)
  {
    forall q | Live(t, q) ensures t.runs[q].id in t.table && t.table[t.runs[q].id] == q {
      assert q != r && t.runs[q] == s.runs[q] && s.table[s.runs[q].id] == q;
    }
  }

  predicate SameListing(before: seq<Run>, after: seq<Run>) {
    |after| == |before| &&
    forall r :: 0 <= r < |before| ==> after[r].id == before[r].id && Listed(after[r].pc) == Listed(before[r].pc)
  }

  /** Every other step leaves the table alone and neither unlists nor renames a run. */
  lemma OthersKeepTable(s: State, t: State)
    requires Tabled(s) && t.table == s.table && SameListing(s.runs, t.runs)
    ensures Tabled(t)
  {
  }

  lemma StepKeepsTable(s: State, e: Event, t: State)
    requires Tabled(s) && Step(s, e) == Some(t)
    ensures Tabled(t)
  {
    match e {
      case Register(id, structured) => RegisterKeepsTable(s, id, structured, t);
      case Unlist(r) => UnlistKeepsTable(s, r, t);
      case _ => OthersKeepTable(s, t);
    }
  }

  // Answers and contexts ------------------------------------------------------------------------

  /** One terminal answer, given when the run stops waiting or running. */
  predicate AnsweredOnce(run: Run) { |run.answers| == if run.pc.Queued? || run.pc.Running? then 0 else 1 }

  /** The contexts are nested, and the work context outlives everything the run does in a slot or in the table. */
  predicate Nested(run: Run) { (run.workOver <==> run.pc.Gone?) && (run.workOver ==> run.stopped) }

  ghost predicate InOrder(s: State) {
    forall r :: 0 <= r < |s.runs| ==> AnsweredOnce(s.runs[r]) && Nested(s.runs[r])
  }

  ghost predicate Inv(s: State) { Tabled(s) && Counted(s) && InOrder(s) }

  lemma StepKeepsOrder(s: State, e: Event, t: State)
    requires Inv(s) && Step(s, e) == Some(t)
    ensures InOrder(t)
  {
  }

  lemma {:induction false} RunKeeps(s: State, run: seq<Event>)
    requires Inv(s) && Exec(s, run).Some?
    ensures Inv(Exec(s, run).value) && Exec(s, run).value.capacity == s.capacity
    decreases |run|
  {
    if |run| > 0 {
      StepKeeps(s, run[0]);
      RunKeeps(Step(s, run[0]).value, run[1..]);
    }
  }

  lemma StartsInOrder(capacity: nat)
    ensures Inv(Initial(capacity))
  {
    assert HoldersIn([]) == {} && RegularHoldersIn([]) == {};
  }

  // What follows --------------------------------------------------------------------------------

  ghost predicate Safe(s: State) {
    (forall a, b :: Live(s, a) && Live(s, b) && s.runs[a].id == s.runs[b].id ==> a == b) &&
    (forall r: nat :: Live(s, r) ==> Step(s, FindRun(s.runs[r].id)) == Some(s.(stopping := s.stopping + {r}))) &&
    |HoldersIn(s.runs)| + |RegularHoldersIn(s.regular)| <= s.capacity &&
    (forall r :: 0 <= r < |s.runs| && s.runs[r].pc.Gone? ==> |s.runs[r].answers| == 1)
  }

  ghost predicate AllOver(s: State) {
    (forall r :: 0 <= r < |s.runs| ==> s.runs[r].pc.Gone?) && (forall h :: 0 <= h < |s.regular| ==> s.regular[h].Done?)
  }

  lemma SafeWhenInv(s: State)
    requires Inv(s)
    ensures Safe(s)
    ensures AllOver(s) ==> s.table == map[] && s.slots == 0
  {
    assert forall r: int :: Live(s, r) ==> s.runs[r].id in s.table && s.table[s.runs[r].id] == r;
    assert forall id :: id in s.table ==> Live(s, s.table[id]);
    if AllOver(s) {
      assert HoldersIn(s.runs) == {} && RegularHoldersIn(s.regular) == {};
      assert s.table.Keys == {};
    }
  }

  /**
   In every interleaving: an id names at most one listed run, so a cancel request reaches exactly the run
   it means from its registration on; no more handlers, cancellable or not, run than there are slots; and
   each run that is over answered exactly once. When all are over, table and slots are free again.
   */
  lemma AlwaysSafe(capacity: nat, run: seq<Event>)
    requires Exec(Initial(capacity), run).Some?
    ensures var s := Exec(Initial(capacity), run).value;
            Safe(s) && s.capacity == capacity && (AllOver(s) ==> s.table == map[] && s.slots == 0)
  {
    StartsInOrder(capacity);
    RunKeeps(Initial(capacity), run);
    SafeWhenInv(Exec(Initial(capacity), run).value);
  }

  /**
   Stop ends intake only: in every reachable state, whatever was cancelled, the work context of a run is
   alive as long as the run waits, works, answers or is listed, and is over once it is gone.
   */
  lemma StopSparesWork(capacity: nat, run: seq<Event>, r: nat)
    requires Exec(Initial(capacity), run).Some? && r < |Exec(Initial(capacity), run).value.runs|
    ensures var it := Exec(Initial(capacity), run).value.runs[r];
            (it.workOver <==> it.pc.Gone?) && (it.workOver ==> it.stopped && |it.answers| == 1)
  {
    StartsInOrder(capacity);
    RunKeeps(Initial(capacity), run);
    assert Nested(Exec(Initial(capacity), run).value.runs[r]);
  }

  predicate IsSuccess(a: Answer) { a == Told(Success) || a == Result }

  /**
   When a run answers success: the handler returned no error, and the run was not stopped unless it is a
   peek or a search, which do not look again. A stopped run with a status answers stopped or unknown.
   */
  lemma SuccessIff(s: State, e: Event, r: nat)
    requires Inv(s) && Step(s, e).Some? && r < |s.runs|
    requires Step(s, e).value.runs[r].answers != s.runs[r].answers
    ensures var before, after := s.runs[r], Step(s, e).value.runs[r];
            after.answers == [after.answers[0]] &&
            (IsSuccess(after.answers[0]) <==>
               e.Return? && e.err == None && (before.stopped ==> !before.structured)) &&
            (before.structured && before.stopped ==> after.answers[0] in {Told(Stopped), Told(Unknown)})
  {
    assert AnsweredOnce(s.runs[r]);
  }

  // What Stop does ------------------------------------------------------------------------------

  /** A cancel that found its run can stop it whenever it gets to it, however the run has gone on meanwhile. */
  lemma FoundIsStopped(s: State, r: nat)
    requires Inv(s) && r in s.stopping
    ensures Step(s, Stop(r)).Some? && r < |s.runs|
    ensures var t := Step(s, Stop(r)).value;
            t.runs[r] == s.runs[r].(stopped := true) && forall q :: 0 <= q < |s.runs| && q != r ==> t.runs[q] == s.runs[q]
  {
  }

  /** What holds of a run from the moment it is stopped. */
  predicate Heard(run: Run) {
    run.stopped && (run.structured && run.answers != [] ==> run.answers[0] in {Told(Stopped), Told(Unknown)})
  }

  lemma StepHears(s: State, e: Event, r: nat)
    requires Inv(s) && Step(s, e).Some? && r < |s.runs| && Heard(s.runs[r])
    ensures r < |Step(s, e).value.runs| && Heard(Step(s, e).value.runs[r])
    ensures Step(s, e).value.runs[r].structured == s.runs[r].structured
  {
    assert AnsweredOnce(s.runs[r]);
  }

  lemma {:induction false} RunHears(s: State, run: seq<Event>, r: nat)
    requires Inv(s) && Exec(s, run).Some? && r < |s.runs| && Heard(s.runs[r])
    ensures r < |Exec(s, run).value.runs| && Heard(Exec(s, run).value.runs[r])
    ensures Exec(s, run).value.runs[r].structured == s.runs[r].structured
    decreases |run|
  {
    if |run| > 0 {
      StepHears(s, run[0], r);
      StepKeeps(s, run[0]);
      RunHears(Step(s, run[0]).value, run[1..], r);
    }
  }

  lemma StepKeeps(s: State, e: Event)
    requires Inv(s) && Step(s, e).Some?
    ensures Inv(Step(s, e).value)
  {
    var t := Step(s, e).value;
    StepKeepsCount(s, e, t);
    StepKeepsTable(s, e, t);
    StepKeepsOrder(s, e, t);
  }

  /**
   Once a run was stopped it stays stopped, and one with a status that had not answered by then answers
   stopped, or unknown, whatever happens afterwards.
   */
  lemma StopIsHeard(s: State, r: nat, run: seq<Event>)
    requires Inv(s) && Step(s, Stop(r)).Some? && Exec(Step(s, Stop(r)).value, run).Some?
    ensures r < |s.runs| && r < |Exec(Step(s, Stop(r)).value, run).value.runs|
    ensures var after := Exec(Step(s, Stop(r)).value, run).value.runs[r];
            after.stopped &&
            (s.runs[r].structured && s.runs[r].answers == [] && after.answers != [] ==>
               after.answers[0] == Told(Stopped) || after.answers[0] == Told(Unknown))
  {
    StepKeeps(s, Stop(r));
    if s.runs[r].answers == [] {
      RunHears(Step(s, Stop(r)).value, run, r);
    } else {
      StaysStopped(Step(s, Stop(r)).value, run, r);
    }
  }

  lemma {:induction false} StaysStopped(s: State, run: seq<Event>, r: nat)
    requires Exec(s, run).Some? && r < |s.runs| && s.runs[r].stopped
    ensures r < |Exec(s, run).value.runs| && Exec(s, run).value.runs[r].stopped
    decreases |run|
  {
    if |run| > 0 {
      StaysStopped(Step(s, run[0]).value, run[1..], r);
    }
  }

  /**
   The answer of a handler that returned, case by case. A run is given up only if it was stopped, and then
   answers as cancelled.
   */
  lemma AnswerMeans(s: State, r: nat, total: SourceOutcome, err: Option<RunError>)
    requires Inv(s) && r < |s.runs|
    ensures Step(s, GiveUp(r, total)).Some? ==>
              s.runs[r].stopped && s.runs[r].pc.Queued? &&
              Step(s, GiveUp(r, total)).value.runs[r].answers ==
              [if !s.runs[r].structured then Answer.Cancelled else if InDoubt(total) then Told(Unknown) else Told(Stopped)]
    ensures Step(s, Return(r, total, err)).Some? ==>
              var stopped := s.runs[r].stopped || (err.Some? && err.value.cancelled);
              Step(s, Return(r, total, err)).value.runs[r].answers ==
              [if !s.runs[r].structured then
                 (if err == None then Result else if err.value.cancelled then Answer.Cancelled else Failed)
               else if err == None && !stopped then Told(Success)
               else if InDoubt(total) then Told(Unknown)
               else if stopped then Told(Stopped)
               else Told(Error)]
  {
    assert AnsweredOnce(s.runs[r]);
  }
}

/**
 The worker's handlers come to an end: some run or regular handler can always take its next step, and
 there are only so many of them for each request.
 */
module RunProgress {
  import opened Common
  import opened OperationOutcome
  import opened RunRegistry

  function ToGo(pc: Pc): nat {
    match pc
    case Queued => 5
    case Running => 4
    case Answered => 3
    case Freed => 2
    case Unlisted => 1
    case Gone => 0
  }

  function RegularToGo(pc: RegularPc): nat {
    match pc
    case Waiting => 3
    case Working => 2
    case Sent => 1
    case Done => 0
  }

  function RunsToGo(runs: seq<Run>): nat {
    if |runs| == 0 then 0 else RunsToGo(runs[..|runs| - 1]) + ToGo(runs[|runs| - 1].pc)
  }

  function RegularsToGo(regular: seq<RegularPc>): nat {
    if |regular| == 0 then 0 else RegularsToGo(regular[..|regular| - 1]) + RegularToGo(regular[|regular| - 1])
  }

  function Remaining(s: State): nat { RunsToGo(s.runs) + RegularsToGo(s.regular) }

  lemma {:induction false} RunsToGoPut(runs: seq<Run>, r: nat, run: Run)
    requires r < |runs|
    ensures RunsToGo(runs[r := run]) == RunsToGo(runs) - ToGo(runs[r].pc) + ToGo(run.pc)
  {
    var n := |runs| - 1;
    if r == n {
      assert runs[r := run][..n] == runs[..n];
    } else {
      assert runs[r := run][..n] == runs[..n][r := run];
      RunsToGoPut(runs[..n], r, run);
    }
  }

  lemma {:induction false} RegularsToGoPut(regular: seq<RegularPc>, h: nat, pc: RegularPc)
    requires h < |regular|
    ensures RegularsToGo(regular[h := pc]) == RegularsToGo(regular) - RegularToGo(regular[h]) + RegularToGo(pc)
  {
    var n := |regular| - 1;
    if h == n {
      assert regular[h := pc][..n] == regular[..n];
    } else {
      assert regular[h := pc][..n] == regular[..n][h := pc];
      RegularsToGoPut(regular[..n], h, pc);
    }
  }

  /** A step of a goroutine that already runs, rather than a request from outside or a press of Stop. */
  predicate Own(e: Event) { !e.Register? && !e.FindRun? && !e.Stop? && !e.Arrive? }

  function Requests(run: seq<Event>): nat {
    if |run| == 0 then 0 else (if run[0].Register? || run[0].Arrive? then 1 else 0) + Requests(run[1..])
  }

  function OwnSteps(run: seq<Event>): nat {
    if |run| == 0 then 0 else (if Own(run[0]) then 1 else 0) + OwnSteps(run[1..])
  }

  lemma StepProgresses(s: State, e: Event, t: State)
    requires Step(s, e) == Some(t)
    ensures Own(e) ==> Remaining(t) < Remaining(s)
    ensures !Own(e) ==> Remaining(t) <= Remaining(s) + if e.Register? || e.Arrive? then 5 else 0
  {
    match e {
      case Register(_, _) =>
        if t != s { assert t.runs[..|s.runs|] == s.runs; }
      case FindRun(_) =>
      case Arrive => assert t.regular[..|s.regular|] == s.regular;
      case RegularAcquire(h) => RegularsToGoPut(s.regular, h, Working);
      case RegularReturn(h) => RegularsToGoPut(s.regular, h, Sent);
      case RegularRelease(h) => RegularsToGoPut(s.regular, h, Done);
      case _ =>
        OneRunMoves(s, e, t);
        RunsToGoPut(s.runs, e.r, t.runs[e.r]);
    }
  }

  /** What a run does is a step of its own, except that Stop may be pressed on it. */
  lemma OneRunMoves(s: State, e: Event, t: State)
    requires Step(s, e) == Some(t)
    requires e.Stop? || e.Acquire? || e.GiveUp? || e.Return? || e.Release? || e.Unlist? || e.EndContexts?
    ensures e.r < |s.runs| == |t.runs| && t.runs == s.runs[e.r := t.runs[e.r]] && t.regular == s.regular
    ensures if e.Stop? then t.runs[e.r].pc == s.runs[e.r].pc else ToGo(t.runs[e.r].pc) < ToGo(s.runs[e.r].pc)
  {
  }

  lemma {:induction false} StepsAreBounded(s: State, run: seq<Event>)
    requires Exec(s, run).Some?
    ensures OwnSteps(run) + Remaining(Exec(s, run).value) <= 5 * Requests(run) + Remaining(s)
    decreases |run|
  {
    if |run| > 0 {
      var t := Step(s, run[0]).value;
      StepProgresses(s, run[0], t);
      StepsAreBounded(t, run[1..]);
    }
  }

  /** A full set of slots has a holder that can move; an empty slot can be taken. */
  lemma SomeoneMoves(s: State, total: SourceOutcome) returns (e: Event)
    requires Inv(s) && s.capacity > 0 && !AllOver(s)
    ensures Own(e) && Step(s, e).Some?
  {
    if h :| 0 <= h < |s.regular| && RegularHolds(s.regular[h]) {
      assert h in RegularHoldersIn(s.regular);
      e := if s.regular[h].Working? then RegularReturn(h) else RegularRelease(h);
    } else if r :| 0 <= r < |s.runs| && !s.runs[r].pc.Queued? && !s.runs[r].pc.Gone? {
      assert Holds(s.runs[r].pc) ==> r in HoldersIn(s.runs);
      e := match s.runs[r].pc
        case Running => Return(r, total, None)
        case Answered => Release(r)
        case Freed => Unlist(r)
        case Unlisted => EndContexts(r);
    } else {
      assert HoldersIn(s.runs) == {} && RegularHoldersIn(s.regular) == {};
      if h :| 0 <= h < |s.regular| && s.regular[h].Waiting? {
        e := RegularAcquire(h);
      } else {
        var r :| 0 <= r < |s.runs| && !s.runs[r].pc.Gone?;
        e := Acquire(r);
      }
    }
  }

  /**
   No interleaving is stuck before everything is over: some run or regular handler can take its next
   step, and each request is worth at most five such steps, so with no new requests they come to an end.
   */
  lemma NeverStuck(capacity: nat, run: seq<Event>, total: SourceOutcome) returns (e: Event)
    requires capacity > 0 && Exec(Initial(capacity), run).Some? && !AllOver(Exec(Initial(capacity), run).value)
    ensures Own(e) && Step(Exec(Initial(capacity), run).value, e).Some?
    ensures OwnSteps(run) < 5 * Requests(run)
  {
    StartsInOrder(capacity);
    RunKeeps(Initial(capacity), run);
    var s := Exec(Initial(capacity), run).value;
    e := SomeoneMoves(s, total);
    StepsAreBounded(Initial(capacity), run);
    StepProgresses(s, e, Step(s, e).value);
  }
}

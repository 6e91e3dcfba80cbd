/**
 The goroutine that renews held message locks, racing with `unregister` (handlers_single.go,
 heldMessageLockRenewer). Fields below the mutex are a class whose methods are the critical
 sections; the whole protocol is a state machine over the same sections in any order.
 */
module LockRenewer {
  import opened Common

  type Message = nat

  /** What the mutex guards. */
  datatype Guarded = Guarded(messages: seq<Message>, renewing: Option<Message>, err: Option<Message>)

  function AddAll(messages: seq<Message>, more: seq<Message>): seq<Message>
    decreases |more|
  {
    if |more| == 0 then messages
    else AddAll(if more[0] in messages then messages else messages + [more[0]], more[1..])
  }

  function RemoveFirst(messages: seq<Message>, m: Message): seq<Message> {
    if |messages| == 0 then []
    else if messages[0] == m then messages[1..]
    else [messages[0]] + RemoveFirst(messages[1..], m)
  }

  function Begun(g: Guarded, m: Message): Guarded {
    if m in g.messages then g.(renewing := Some(m)) else g
  }

  predicate Records(g: Guarded, m: Message, failed: bool, cancelled: bool) {
    failed && !cancelled && m in g.messages
  }

  function Finished(g: Guarded, m: Message, failed: bool, cancelled: bool): Guarded {
    g.(renewing := None, err := if Records(g, m, failed, cancelled) then Some(m) else g.err)
  }

  lemma {:induction false} AddAllKeeps(messages: seq<Message>, more: seq<Message>)
    requires NoDup(messages)
    ensures NoDup(AddAll(messages, more))
    ensures Elems(AddAll(messages, more)) == Elems(messages) + Elems(more)
    decreases |more|
  {
    if |more| > 0 {
      var with := if more[0] in messages then messages else messages + [more[0]];
      assert Elems(with) == Elems(messages) + {more[0]};
      AddAllKeeps(with, more[1..]);
      assert Elems(more) == {more[0]} + Elems(more[1..]);
    }
  }

  lemma {:induction false} AddAllAppend(messages: seq<Message>, more: seq<Message>, m: Message)
    ensures AddAll(messages, more + [m]) ==
              (var before := AddAll(messages, more); if m in before then before else before + [m])
    decreases |more|
  {
    if |more| == 0 {
      assert (more + [m])[1..] == [];
    } else {
      assert (more + [m])[1..] == more[1..] + [m];
      AddAllAppend(if more[0] in messages then messages else messages + [more[0]], more[1..], m);
    }
  }

  lemma {:induction false} RemoveFirstAt(messages: seq<Message>, m: Message, i: nat)
    requires i < |messages| && messages[i] == m && m !in messages[..i]
    ensures RemoveFirst(messages, m) == messages[..i] + messages[i + 1..]
  {
    if i > 0 {
      assert messages[0] == messages[..i][0];
      assert messages[1..][..i - 1] == messages[..i][1..];
      RemoveFirstAt(messages[1..], m, i - 1);
      assert messages[..i] == [messages[0]] + messages[1..][..i - 1];
    }
  }

  lemma {:induction false} RemoveAbsent(messages: seq<Message>, m: Message)
    requires m !in messages
    ensures RemoveFirst(messages, m) == messages
  {
    if |messages| > 0 {
      RemoveAbsent(messages[1..], m);
    }
  }

  /** Removing the first occurrence removes the message exactly when it was registered once. */
  lemma {:induction false} RemoveGoneIff(messages: seq<Message>, m: Message)
    ensures m !in RemoveFirst(messages, m) <==> multiset(messages)[m] <= 1
  {
    if |messages| > 0 {
      var rest := messages[1..];
      assert messages == [messages[0]] + rest;
      if messages[0] != m {
        RemoveGoneIff(rest, m);
      }
    }
  }

  lemma {:induction false} RemoveKeeps(messages: seq<Message>, m: Message)
    requires NoDup(messages)
    ensures NoDup(RemoveFirst(messages, m))
    ensures Elems(RemoveFirst(messages, m)) == Elems(messages) - {m}
  {
    if |messages| > 0 {
      var rest := messages[1..];
      assert Elems(messages) == {messages[0]} + Elems(rest);
      if messages[0] != m {
        RemoveKeeps(rest, m);
        assert messages[0] !in Elems(RemoveFirst(rest, m));
        assert Elems([messages[0]] + RemoveFirst(rest, m)) == {messages[0]} + Elems(RemoveFirst(rest, m));
        assert forall i :: 0 <= i < |RemoveFirst(rest, m)| ==> RemoveFirst(rest, m)[i] in Elems(RemoveFirst(rest, m));
      }
    }
  }

  class Renewer {
    var messages: seq<Message>
    var renewing: Option<Message>
    var err: Option<Message>

    function Now(): Guarded
      reads this
    {
      Guarded(messages, renewing, err)
    }

    constructor ()
      ensures Now() == Guarded([], None, None)
    {
      messages, renewing, err := [], None, None;
    }

    method ContainsLocked(m: Message) returns (found: bool)
      ensures found <==> m in messages
    {
      for i := 0 to |messages|
        invariant m !in messages[..i]
      {
        if messages[i] == m {
          return true;
        }
      }
      return false;
    }

    method Add(more: seq<Message>)
      modifies this
      ensures Now() == old(Now()).(messages := AddAll(old(messages), more))
    {
      if |more| == 0 {
        return;
      }
      for i := 0 to |more|
        invariant Now() == old(Now()).(messages := AddAll(old(messages), more[..i]))
      {
        AddAllAppend(old(messages), more[..i], more[i]);
        assert more[..i + 1] == more[..i] + [more[i]];
        var present := ContainsLocked(more[i]);
        if !present {
          messages := messages + [more[i]];
        }
      }
      assert more[..|more|] == more;
    }

    /** The part of unregister under the lock; `wait` says whether it then waits for the renewal in flight. */
    method Unregister(m: Message) returns (wait: bool)
      modifies this
      ensures Now() == old(Now()).(messages := RemoveFirst(old(messages), m))
      ensures wait <==> renewing == Some(m)
    {
      var i := 0;
      while i < |messages| && messages[i] != m
        invariant 0 <= i <= |messages| && m !in messages[..i]
        invariant Now() == old(Now())
      {
        i := i + 1;
      }
      if i < |messages| {
        RemoveFirstAt(messages, m, i);
        messages := messages[..i] + messages[i + 1..];
      } else {
        RemoveAbsent(messages, m);
      }
      wait := renewing == Some(m);
    }

    method BeginRenewal(m: Message) returns (started: bool)
      modifies this
      ensures Now() == Begun(old(Now()), m)
      ensures started <==> m in messages
      ensures messages == old(messages) && err == old(err) && renewing == if started then Some(m) else old(renewing)
    {
      started := ContainsLocked(m);
      if started {
        renewing := Some(m);
      }
    }

    method FinishRenewal(m: Message, failed: bool, cancelled: bool) returns (recorded: bool)
      modifies this
      ensures recorded <==> failed && !cancelled && m in old(messages)
      ensures renewing == None && messages == old(messages) && err == if recorded then Some(m) else old(err)
      ensures Now() == Finished(old(Now()), m, failed, cancelled)
      ensures recorded <==> Records(old(Now()), m, failed, cancelled)
    {
      renewing := None;
      var registered := ContainsLocked(m);
      recorded := failed && !cancelled && registered;
      if recorded {
        err := Some(m);
      }
    }
  }

  // The protocol --------------------------------------------------------------------------------

  datatype Pc =
    | Waiting                                   // in select: a tick or the end of the context
    | Looping(todo: seq<Message>)               // between two messages of the copied list
    | InCall(m: Message, todo: seq<Message>)    // renewal call in flight
    | AfterCall(failed: bool, recorded: bool, todo: seq<Message>)
    | Exited

  /**
   `waiting` are the unregister calls that found their message being renewed. `gone` are the messages
   unregistered and not added again since, `returned` those whose unregister has returned; `renewals`
   counts the renewal calls begun for each message.
   */
  datatype State = State(
    g: Guarded, cancelled: bool, pc: Pc, waiting: multiset<Message>,
    gone: set<Message>, returned: set<Message>, renewals: multiset<Message>)

  datatype Event =
    | Add(more: seq<Message>)
    | Unregister(m: Message)
    | Wake(m: Message)
    | CancelContext
    | Tick
    | Begin
    | Finish(failed: bool)
    | Decide
    | Leave

  const INITIAL := State(Guarded([], None, None), false, Waiting, multiset{}, {}, {}, multiset{})

  function Step(s: State, e: Event): Option<State> {
    match e
    case Add(more) =>
      Some(s.(g := s.g.(messages := AddAll(s.g.messages, more)),
              gone := s.gone - Elems(more), returned := s.returned - Elems(more)))
    case Unregister(m) =>
      var t := s.(g := s.g.(messages := RemoveFirst(s.g.messages, m)), gone := s.gone + {m});
      Some(if s.g.renewing == Some(m) then t.(waiting := s.waiting + multiset{m}) else t.(returned := s.returned + {m}))
    case Wake(m) =>
      if m in s.waiting && s.g.renewing != Some(m) then
        Some(s.(waiting := s.waiting - multiset{m}, returned := if m in s.gone then s.returned + {m} else s.returned))
      else None
    case CancelContext => Some(s.(cancelled := true))
    case Tick => if s.pc.Waiting? then Some(s.(pc := Looping(s.g.messages))) else None
    case Begin =>
      if s.pc.Looping? && |s.pc.todo| > 0 then
        var m, rest := s.pc.todo[0], s.pc.todo[1..];
        Some(if m in s.g.messages
             then s.(g := Begun(s.g, m), pc := InCall(m, rest), renewals := s.renewals + multiset{m})
             else s.(pc := Looping(rest)))
      else None
    case Finish(failed) =>
      if s.pc.InCall? then
        Some(s.(g := Finished(s.g, s.pc.m, failed, s.cancelled),
                pc := AfterCall(failed, Records(s.g, s.pc.m, failed, s.cancelled), s.pc.todo)))
      else None
    case Decide =>
      if s.pc.AfterCall? then
        Some(if s.pc.recorded then s.(cancelled := true, pc := Exited)
             else if s.pc.failed && s.cancelled then s.(pc := Exited)
             else s.(pc := Looping(s.pc.todo)))
      else None
    case Leave =>
      if s.pc.Looping? && s.pc.todo == [] then Some(s.(pc := Waiting))
      else if s.pc.Waiting? && s.cancelled then Some(s.(pc := Exited))
      else None
  }

  function Exec(s: State, run: seq<Event>): Option<State>
    decreases |run|
  {
    if |run| == 0 then Some(s)
    else match Step(s, run[0])
      case None => None
      case Some(t) => Exec(t, run[1..])
  }

  ghost predicate Inv(s: State) {
    NoDup(s.g.messages) &&
    (s.g.renewing == if s.pc.InCall? then Some(s.pc.m) else None) &&
    Elems(s.g.messages) !! s.gone &&
    s.returned <= s.gone &&
    (forall m :: m in s.returned ==> s.g.renewing != Some(m))
  }

  lemma StepKeeps(s: State, e: Event)
    requires Inv(s) && Step(s, e).Some?
    ensures Inv(Step(s, e).value)
  {
    match e {
      case Add(more) => AddAllKeeps(s.g.messages, more);
      case Unregister(m) => RemoveKeeps(s.g.messages, m);
      case _ =>
    }
  }

  lemma {:induction false} RunKeeps(s: State, run: seq<Event>)
    requires Inv(s) && Exec(s, run).Some?
    ensures Inv(Exec(s, run).value)
    decreases |run|
  {
    if |run| > 0 {
      StepKeeps(s, run[0]);
      RunKeeps(Step(s, run[0]).value, run[1..]);
    }
  }

  predicate AddsAgain(run: seq<Event>, m: Message) {
    exists k :: 0 <= k < |run| && run[k].Add? && m in run[k].more
  }

  /**
   Once unregister(m) has returned, no renewal of m is in flight and none begins in any continuation
   that does not add m again, and no error is recorded for it.
   */
  lemma {:induction false} NothingAfterReturn(s: State, run: seq<Event>, m: Message)
    requires Inv(s) && m in s.returned && Exec(s, run).Some? && !AddsAgain(run, m)
    ensures var t := Exec(s, run).value;
            m in t.returned && t.g.renewing != Some(m) && !(t.pc.InCall? && t.pc.m == m) &&
            t.renewals[m] == s.renewals[m] &&
            (t.g.err == Some(m) ==> s.g.err == Some(m))
    decreases |run|
  {
    if |run| > 0 {
      var t := Step(s, run[0]).value;
      StepKeeps(s, run[0]);
      StepAfterReturn(s, run[0], m);
      assert forall k :: 0 <= k < |run| - 1 ==> run[1..][k] == run[k + 1];
      NothingAfterReturn(t, run[1..], m);
    }
  }

  lemma StepAfterReturn(s: State, e: Event, m: Message)
    requires Inv(s) && m in s.returned && Step(s, e).Some? && !(e.Add? && m in e.more)
    ensures var t := Step(s, e).value;
            m in t.returned && t.renewals[m] == s.renewals[m] && (t.g.err == Some(m) ==> s.g.err == Some(m))
  {
    assert m !in Elems(s.g.messages);
  }

  /** An error is recorded only for a message still registered when its renewal ended. */
  lemma ErrorsAreForRegistered(s: State, e: Event)
    requires Inv(s) && Step(s, e).Some?
    ensures var t := Step(s, e).value;
            t.g.err != s.g.err ==> t.g.err.Some? && t.g.err.value in s.g.messages && t.g.err.value !in s.gone
  {
    if e.Finish? && Records(s.g, s.pc.m, e.failed, s.cancelled) {
      assert s.pc.m in Elems(s.g.messages);
    }
  }

  /**
   Unregister never waits for a goroutine that cannot wake it: a waiting call can return at once
   unless its message is in a renewal call, and then as soon as that one call ends.
   */
  lemma WaitsForOneCallOnly(s: State, m: Message, failed: bool)
    requires Inv(s) && m in s.waiting
    ensures s.pc.Exited? ==> Step(s, Wake(m)).Some?
    ensures Step(s, Wake(m)) == None ==> s.pc.InCall? && s.pc.m == m
    ensures Step(s, Wake(m)) == None ==>
              Step(s, Finish(failed)).Some? && Step(Step(s, Finish(failed)).value, Wake(m)).Some?
  {
    assert multiset{m} <= s.waiting;
  }

  /**
   A renewal that failed for a message still registered, in a context still alive, is recorded, cancels
   the context and ends the goroutine; any other ending of a call records nothing.
   */
  lemma FailureIsNeverLost(s: State, failed: bool)
    requires Inv(s) && s.pc.InCall?
    ensures var t := Step(s, Finish(failed)).value;
            if failed && !s.cancelled && s.pc.m in s.g.messages then
              t.g.err == Some(s.pc.m) && Step(t, Decide).Some? &&
              Step(t, Decide).value.cancelled && Step(t, Decide).value.pc.Exited?
            else
              t.g.err == s.g.err && Step(t, Decide).Some? &&
              (Step(t, Decide).value.pc.Exited? <==> failed && s.cancelled)
  {
  }

  /** `m` is still to be renewed in the round under way. */
  predicate Due(pc: Pc, m: Message) {
    match pc
    case Looping(todo) => m in todo
    case InCall(_, todo) => m in todo
    case AfterCall(_, _, todo) => m in todo
    case _ => false
  }

  predicate Unregisters(run: seq<Event>, m: Message) {
    exists k :: 0 <= k < |run| && run[k] == Unregister(m)
  }

  /** A step either keeps a registered message due, renews it, or ends the goroutine. */
  lemma StepKeepsDue(s: State, e: Event, m: Message)
    requires Inv(s) && Step(s, e).Some? && Due(s.pc, m) && m in s.g.messages && e != Unregister(m)
    ensures var t := Step(s, e).value;
            m in t.g.messages && t.renewals[m] >= s.renewals[m] &&
            (Due(t.pc, m) || t.pc.Exited? || t.renewals[m] > s.renewals[m])
  {
    StaysRegistered(s, e, m);
  }

  lemma StaysRegistered(s: State, e: Event, m: Message)
    requires Inv(s) && Step(s, e).Some? && m in s.g.messages && e != Unregister(m)
    ensures m in Step(s, e).value.g.messages
  {
    match e {
      case Add(more) => AddAllKeeps(s.g.messages, more); assert m in Elems(s.g.messages);
      case Unregister(x) =>
        RemoveKeeps(s.g.messages, x);
        assert x != m && m in Elems(s.g.messages);
        assert m in Elems(RemoveFirst(s.g.messages, x));
      case _ =>
    }
  }

  lemma {:induction false} RenewalsGrow(s: State, run: seq<Event>, m: Message)
    requires Exec(s, run).Some?
    ensures Exec(s, run).value.renewals[m] >= s.renewals[m]
    decreases |run|
  {
    if |run| > 0 {
      RenewalsGrow(Step(s, run[0]).value, run[1..], m);
    }
  }

  lemma {:induction false} ExitedStays(s: State, run: seq<Event>)
    requires s.pc.Exited? && Exec(s, run).Some?
    ensures Exec(s, run).value.pc.Exited?
    decreases |run|
  {
    if |run| > 0 {
      ExitedStays(Step(s, run[0]).value, run[1..]);
    }
  }

  lemma {:induction false} DueIsRenewed(s: State, run: seq<Event>, m: Message)
    requires Inv(s) && Due(s.pc, m) && m in s.g.messages && Exec(s, run).Some? && !Unregisters(run, m)
    ensures var t := Exec(s, run).value;
            Due(t.pc, m) || t.pc.Exited? || t.renewals[m] > s.renewals[m]
    decreases |run|
  {
    if |run| > 0 {
      var t := Step(s, run[0]).value;
      assert run[0] != Unregister(m);
      StepKeeps(s, run[0]);
      StepKeepsDue(s, run[0], m);
      RenewalsGrow(t, run[1..], m);
      if t.pc.Exited? {
        ExitedStays(t, run[1..]);
      } else if Due(t.pc, m) {
        assert forall k :: 0 <= k < |run| - 1 ==> run[1..][k] == run[k + 1];
        DueIsRenewed(t, run[1..], m);
      }
    }
  }

  /**
   A round renews everything: each message registered at the tick that nobody unregisters meanwhile has
   had a renewal call when the goroutine waits for the next tick.
   */
  lemma RoundRenewsAll(s: State, run: seq<Event>, m: Message)
    requires Inv(s) && Step(s, Tick).Some? && m in s.g.messages
    requires Exec(Step(s, Tick).value, run).Some? && !Unregisters(run, m)
    ensures Exec(Step(s, Tick).value, run).value.pc.Waiting? ==>
              Exec(Step(s, Tick).value, run).value.renewals[m] > s.renewals[m]
  {
    StepKeeps(s, Tick);
    DueIsRenewed(Step(s, Tick).value, run, m);
  }

  /** Everything above holds of every run from the start. */
  lemma ReachedInv(run: seq<Event>)
    requires Exec(INITIAL, run).Some?
    ensures Inv(Exec(INITIAL, run).value)
  {
    RunKeeps(INITIAL, run);
  }
}

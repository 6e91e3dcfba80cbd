/**
 The scan that looks for one message while holding the locks of the others (handlers_single.go,
 scanActiveSingleMessage and abandonHeldMessages). The broker, the lock renewer and Stop choose
 freely; every exit path must give back every lock it took.
 */
module SingleScan {
  import opened Common
  import O = OperationOutcome
  import T = TargetAction

  /** One delivery of a message under a lock; `tag` tells deliveries apart, as pointers do. */
  datatype Delivery = Delivery(tag: nat, sequence: Option<int>, messageId: string, sessionId: Option<string>)

  /** What was peeked: a sequence number and, where given, the identity that must still belong to it. */
  datatype Target = Target(sequence: int, messageId: string, sessionId: Option<string>)

  /** validateSingleMessageTarget: sequence number, message id unless none was given, session id if one was. */
  predicate Matches(d: Delivery, target: Target) {
    d.sequence == Some(target.sequence) &&
    (target.messageId != "" ==> d.messageId == target.messageId) &&
    (target.sessionId.Some? ==> d.sessionId == target.sessionId)
  }

  datatype Config = Config(
    scanBudget: int, batchSize: int, idleRetries: int, cleanupConcurrency: int,
    targetKnown: bool, renews: bool, sessionLock: bool)

  datatype ScanResult = ScanResult(found: bool, targetHandled: bool, scanned: nat)

  datatype Failure =
    | BadBudget | BadBatchSize | Stopped | SessionLockLost | RenewalFailed | ReceiveFailed | ActionFailed

  datatype ScanError =
    | Failed(cause: Failure)
    | FailedAndNotReleased(cause: Failure)
    | NotReleased
    | NotReleasedAfterAction

  /**
   When the renewer had failed (it fails once and stops) and when the run's own work context had
   ended: by the send, by the settlement, by the check right after the action, by the renewer's stop.
   `stopped`: Stop had been pressed when the action began.
   */
  datatype Trace = Trace(
    stopped: bool,
    renewalAtSend: bool, renewalAtSettle: bool, renewalAtCheck: bool, renewalAtStop: bool,
    workAtSend: bool, workAtSettle: bool)
  {
    /** Nothing that has ended comes back. */
    predicate Ordered() {
      (renewalAtSend ==> renewalAtSettle) && (renewalAtSettle ==> renewalAtCheck) &&
      (renewalAtCheck ==> renewalAtStop) && (workAtSend ==> workAtSettle)
    }

    /** The action works under the renewer's context, which ends with either. */
    predicate OverAtSend() { renewalAtSend || workAtSend }

    predicate OverAtSettle() { renewalAtSettle || workAtSettle }
  }

  const QUIET := Trace(false, false, false, false, false, false, false)

  datatype ReceiveEnd = NoError | Deadline | Broken

  /**
   One round of the loop: what the look at the locks before it showed; what was asked for, how much came
   and how the call ended; whether Stop had been pressed by then; what the look after it showed. There
   is no receive after a bad look, and no look after a receive that Stop or nothing followed.
   */
  datatype Receipt = Receipt(
    before: Option<Failure>, fetch: nat, got: nat, end: ReceiveEnd, stopped: bool, after: Option<Failure>)

  /** Why the loop ends with this round, if it does, and has not found the target. */
  function Cause(r: Receipt, found: bool): Option<Failure> {
    if r.before.Some? then r.before
    else if r.stopped then Some(Stopped)
    else if r.got == 0 then if r.end.Broken? then Some(ReceiveFailed) else None
    else if r.after.Some? then r.after
    else if found || r.end.NoError? then None
    else Some(ReceiveFailed)
  }

  /** Every round but the last let the loop go on. */
  predicate WentOn(log: seq<Receipt>) {
    |log| <= 1 || (WentOn(log[..|log| - 1]) && Cause(log[|log| - 2], false) == None)
  }

  /** What the looks at the locks may show. */
  predicate SawLocks(config: Config, got: nat, r: Receipt) {
    Look(r.before, config.sessionLock, config.renews && got > 0) && Look(r.after, config.sessionLock, config.renews) &&
    (r.before.Some? ==> r.fetch == 0 && r.got == 0 && !r.stopped) && (r.got == 0 || r.stopped ==> r.after == None)
  }

  predicate Look(seen: Option<Failure>, sessionLock: bool, renews: bool) {
    seen == None || (seen == Some(SessionLockLost) && sessionLock) || (seen == Some(RenewalFailed) && renews)
  }

  function Got(log: seq<Receipt>): nat {
    if |log| == 0 then 0 else Got(log[..|log| - 1]) + log[|log| - 1].got
  }

  /** How many receives in a row, up to the last, brought nothing. */
  function EmptyInARow(log: seq<Receipt>): nat {
    if |log| == 0 || log[|log| - 1].got > 0 then 0 else EmptyInARow(log[..|log| - 1]) + 1
  }

  /** After `got` messages a receive asks for one message of a known target, else for a batch within the budget. */
  predicate AskedRight(config: Config, got: nat, r: Receipt) {
    got < config.scanBudget && SawLocks(config, got, r) && r.got <= r.fetch &&
    (r.before == None ==> r.fetch == Min(if config.targetKnown then 1 else config.batchSize, config.scanBudget - got))
  }

  predicate AsksRight(config: Config, log: seq<Receipt>) {
    |log| == 0 || (AsksRight(config, log[..|log| - 1]) && AskedRight(config, Got(log[..|log| - 1]), log[|log| - 1]))
  }

  lemma OneReceiptMore(config: Config, log: seq<Receipt>, r: Receipt, next: seq<Receipt>)
    requires AsksRight(config, log) && AskedRight(config, Got(log), r) && next == log + [r]
    ensures AsksRight(config, next) && Got(next) == Got(log) + r.got && |next| > 0 && next[|next| - 1] == r
    ensures EmptyInARow(next) == if r.got > 0 then 0 else EmptyInARow(log) + 1
    ensures Unused(next) == r.fetch - r.got
    ensures WentOn(log) && (|log| > 0 ==> Cause(log[|log| - 1], false) == None) ==> WentOn(next)
  {
    assert next[..|log|] == log;
  }

  /** Deliveries of one scan are numbered as they arrive. */
  predicate Numbered(received: seq<Delivery>) {
    forall k :: 0 <= k < |received| ==> received[k].tag == k
  }

  predicate IsTarget(d: Delivery, target: Target) { d.sequence == Some(target.sequence) }

  /** The first delivery of the target sequence, and the others in order. */
  predicate FirstTaken(received: seq<Delivery>, target: Target, hit: Delivery, others: seq<Delivery>) {
    exists j :: 0 <= j < |received| && IsTarget(received[j], target) && hit == received[j] &&
      others == received[..j] + received[j + 1..] &&
      forall k :: 0 <= k < j ==> !IsTarget(received[k], target)
  }

  /** Every delivery is in exactly one of the two: handed to the action, or abandoned once. */
  ghost predicate Conserved(received: seq<Delivery>, hit: Option<Delivery>, abandoned: seq<Delivery>) {
    NoDup(abandoned) &&
    Elems(received) == Elems(abandoned) + (if hit.Some? then {hit.value} else {}) &&
    (hit.Some? ==> hit.value !in abandoned)
  }

  /** At most `fetch` new deliveries, possibly together with an error. */
  method Receive(fetch: nat, first: nat) returns (messages: seq<Delivery>, end: ReceiveEnd)
    ensures |messages| <= fetch
    ensures forall k :: 0 <= k < |messages| ==> messages[k].tag == first + k
  {
    messages, end := [], *;
    var more: bool := *;
    while more && |messages| < fetch
      invariant |messages| <= fetch
      invariant forall k :: 0 <= k < |messages| ==> messages[k].tag == first + k
      decreases fetch - |messages|
    {
      var sequence: Option<int>, messageId: string, sessionId: Option<string> := *, *, *;
      messages := messages + [Delivery(first + |messages|, sequence, messageId, sessionId)];
      more := *;
    }
  }

  predicate FailedOf(attempts: seq<Delivery>, fails: Delivery -> bool, failed: set<Delivery>) {
    failed == set d | d in attempts && fails(d)
  }

  /**
   One abandon attempt for each, in order when one at a time and in any order otherwise; a failed
   attempt does not keep the others from being made. `fails` are the attempts the broker lets fail.
   */
  method AbandonHeld(messages: seq<Delivery>, concurrency: int, fails: Delivery -> bool)
      returns (attempts: seq<Delivery>, failed: set<Delivery>)
    requires NoDup(messages)
    ensures NoDup(attempts) && Elems(attempts) == Elems(messages) && FailedOf(attempts, fails, failed)
    ensures concurrency <= 1 ==> attempts == messages
  {
    attempts, failed := [], {};
    var left := messages;
    while |left| > 0
      invariant NoDup(attempts) && NoDup(left) && Elems(attempts) !! Elems(left)
      invariant Elems(attempts) + Elems(left) == Elems(messages) && FailedOf(attempts, fails, failed)
      invariant concurrency <= 1 ==> attempts + left == messages
      decreases |left|
    {
      var k := 0;
      if concurrency > 1 {
        k :| 0 <= k < |left|;
      }
      if fails(left[k]) {
        failed := failed + {left[k]};
      }
      TakeOut(left, k);
      PutLast(attempts, left[k]);
      attempts, left := attempts + [left[k]], left[..k] + left[k + 1..];
    }
  }

  lemma PutLast<X>(s: seq<X>, x: X)
    requires NoDup(s) && x !in Elems(s)
    ensures NoDup(s + [x]) && Elems(s + [x]) == Elems(s) + {x}
  {
    assert forall i :: 0 <= i < |s| ==> s[i] in Elems(s);
  }

  lemma TakeOut<X>(s: seq<X>, k: nat)
    requires NoDup(s) && k < |s|
    ensures NoDup(s[..k] + s[k + 1..])
    ensures Elems(s[..k] + s[k + 1..]) == Elems(s) - {s[k]}
  {
    var rest := s[..k] + s[k + 1..];
    assert forall i :: 0 <= i < |rest| ==> rest[i] == s[if i < k then i else i + 1];
    forall x | x in Elems(s) - {s[k]} ensures x in rest {
      var i :| 0 <= i < |s| && s[i] == x;
      assert rest[if i < k then i else i - 1] == x;
    }
  }

  /** What one pass over the source found, before anything is released. */
  ghost predicate Scanned(
    result: ScanResult, err: Option<Failure>, received: seq<Delivery>, hit: Option<Delivery>, held: seq<Delivery>,
    target: Target)
  {
    Numbered(received) && result.scanned == |received| &&
    (result.found <==> hit.Some?) &&
    (hit == None ==> held == received) &&
    (hit.Some? ==> FirstTaken(received, target, hit.value, held)) &&
    (err == None && hit == None ==> forall k :: 0 <= k < |received| ==> !IsTarget(received[k], target)) &&
    (result.targetHandled <==> hit.Some? && err == None)
  }

  /**
   What the renewer and the run's work context do while the action runs; without a renewer only the
   work context can end.
   */
  method DuringAction(renews: bool) returns (trace: Trace)
    ensures trace.Ordered() && trace.renewalAtStop == trace.renewalAtCheck
    ensures !renews ==> !trace.renewalAtCheck
  {
    var a, b, c, d, e, stopped: bool := *, *, *, *, *, *;
    trace := Trace(stopped, renews && a, renews && (a || b), renews && (a || b || c), renews && (a || b || c), d, d || e);
  }

  /**
   What the rounds say of the result: everything received came from them, a scan is idle only after
   `retries` and one more of them in a row brought nothing, and no round before the last gave cause to end.
   */
  predicate Receives(config: Config, received: seq<Delivery>, idle: bool, retries: nat, log: seq<Receipt>) {
    AsksRight(config, log) && WentOn(log) && Got(log) == |received| &&
    (idle ==> GaveUp(log, if config.targetKnown then config.idleRetries else 0, retries))
  }

  /** The cause the last round gave. */
  function CauseOf(log: seq<Receipt>, found: bool): Option<Failure> {
    if |log| == 0 then None else Cause(log[|log| - 1], found)
  }

  /** The last receive and `retries` before it brought nothing, and that many were allowed. */
  predicate GaveUp(log: seq<Receipt>, allowed: int, retries: nat) {
    EmptyInARow(log) == retries + 1 && retries == allowed && !log[|log| - 1].end.Broken?
  }

  /** The credit the last receive left outstanding. */
  function Unused(log: seq<Receipt>): int {
    if |log| == 0 then 0 else log[|log| - 1].fetch - log[|log| - 1].got
  }

  /** The session lock is looked at first, then the renewer, where there is one. */
  method LockLost(sessionLock: bool, renews: bool) returns (err: Option<Failure>)
    ensures Look(err, sessionLock, renews)
  {
    var lost, failed: bool := *, *;
    err := if sessionLock && lost then Some(SessionLockLost) else if renews && failed then Some(RenewalFailed) else None;
  }

  /** A look, a receive within the budget, and a look after what it brought; `got` came before. */
  method ReceiveAndLook(config: Config, got: nat) returns (messages: seq<Delivery>, round: Receipt)
    requires got < config.scanBudget && config.batchSize >= 1
    ensures AskedRight(config, got, round) && round.got == |messages| <= config.scanBudget - got
    ensures forall k :: 0 <= k < |messages| ==> messages[k].tag == got + k
    ensures config.targetKnown && messages != [] ==> round.fetch == round.got
  {
    messages := [];
    var before := LockLost(config.sessionLock, config.renews && got > 0);
    if before.Some? {
      round := Receipt(before, 0, 0, NoError, false, None);
      return;
    }
    var fetch := if config.targetKnown then 1 else config.batchSize;
    var remaining := config.scanBudget - got;
    if fetch > remaining {
      fetch := remaining;
    }
    var end;
    messages, end := Receive(fetch, got);
    var stopped: bool := *;
    var after := None;
    if messages != [] && !stopped {
      after := LockLost(config.sessionLock, config.renews);
    }
    round := Receipt(None, fetch, |messages|, end, stopped, after);
  }

  /** One round, entered in the log. */
  method OneRound(config: Config, log: seq<Receipt>) returns (messages: seq<Delivery>, round: Receipt, next: seq<Receipt>)
    requires AsksRight(config, log) && WentOn(log) && CauseOf(log, false) == None
    requires Got(log) < config.scanBudget && config.batchSize >= 1
    ensures Got(next) == Got(log) + |messages| <= config.scanBudget
    ensures forall k :: 0 <= k < |messages| ==> messages[k].tag == Got(log) + k
    ensures AsksRight(config, next) && WentOn(next)
    ensures |next| > 0 && next[|next| - 1] == round && round.got == |messages|
    ensures EmptyInARow(next) == if messages == [] then EmptyInARow(log) + 1 else 0
    ensures config.targetKnown && messages != [] ==> Unused(next) == 0
  {
    messages, round := ReceiveAndLook(config, Got(log));
    next := log + [round];
    OneReceiptMore(config, log, round, next);
  }

  /** The action on the target found, and what the loop makes of it. */
  method ActOn(config: Config, hit: Delivery, target: Target, action: T.Action, hasSender: bool, send: T.Reply, settle: T.Reply)
      returns (report: T.Report, trace: Trace, err: Option<Failure>)
    ensures T.Coherent(report) && Acted(report, action, hit, target, hasSender, trace, send, settle)
    ensures trace.Ordered() && trace.renewalAtStop == trace.renewalAtCheck && (!config.renews ==> !trace.renewalAtCheck)
    ensures err == if !report.ok then Some(ActionFailed) else if trace.renewalAtCheck then Some(RenewalFailed) else None
  {
    trace := DuringAction(config.renews);
    report := T.Perform(action, Matches(hit, target), trace.stopped, hasSender, trace.OverAtSend(), trace.OverAtSettle(),
                        send, settle);
    err := if !report.ok then Some(ActionFailed) else if trace.renewalAtCheck then Some(RenewalFailed) else None;
  }

  /** Nothing found so far. */
  predicate Searching(config: Config, target: Target, received: seq<Delivery>, log: seq<Receipt>) {
    Numbered(received) && AsksRight(config, log) && Got(log) == |received| <= config.scanBudget &&
    forall k :: 0 <= k < |received| ==> !IsTarget(received[k], target)
  }

  /** A target among the new messages, the first of them and so the first of all. */
  predicate FirstAt(received: seq<Delivery>, target: Target, at: nat) {
    at < |received| && IsTarget(received[at], target) && forall k :: 0 <= k < at ==> !IsTarget(received[k], target)
  }

  lemma FoundFirst(received: seq<Delivery>, messages: seq<Delivery>, target: Target, index: nat)
    requires FirstAt(messages, target, index)
    requires forall k :: 0 <= k < |received| ==> !IsTarget(received[k], target)
    ensures FirstAt(received + messages, target, |received| + index)
  {
  }

  /** What the search leaves: everything received, and why it ended. */
  predicate Searched(config: Config, target: Target, err: Option<Failure>, received: seq<Delivery>, found: Option<nat>, idle: bool) {
    Numbered(received) && |received| <= config.scanBudget &&
    (found.Some? ==> err == None && FirstAt(received, target, found.value)) &&
    (found == None && err == None ==>
       (forall k :: 0 <= k < |received| ==> !IsTarget(received[k], target)) && (idle || |received| == config.scanBudget)) &&
    (err == Some(RenewalFailed) ==> config.renews && received != [])
  }

  /** The target came with the last receive. */
  predicate JustFound(received: seq<Delivery>, found: Option<nat>, log: seq<Receipt>) {
    found.Some? ==> |log| > 0 && |received| - log[|log| - 1].got <= found.value
  }

  /**
   The loop up to the find. `idle` says it ended on a receive that brought nothing after `retries` others
   in a row; `log` are the receives.
   */
  method Search(config: Config, target: Target)
      returns (err: Option<Failure>, received: seq<Delivery>, found: Option<nat>, idle: bool, retries: nat, log: seq<Receipt>)
    requires 1 <= config.batchSize <= config.scanBudget && config.idleRetries >= 0
    ensures Searched(config, target, err, received, found, idle)
    ensures Receives(config, received, idle, retries, log)
    ensures err == CauseOf(log, found.Some?) && JustFound(received, found, log)
    ensures config.targetKnown && found.Some? ==> Unused(log) == 0
  {
    err, received, found, idle, retries, log := None, [], None, false, 0, [];
    var idleAttempts := 0;
    while |received| < config.scanBudget
      invariant err == None && found == None && !idle && Searching(config, target, received, log)
      invariant WentOn(log) && CauseOf(log, false) == None
      invariant idleAttempts == EmptyInARow(log) <= config.idleRetries && (!config.targetKnown ==> idleAttempts == 0)
      decreases config.scanBudget - |received|, config.idleRetries - idleAttempts
    {
      var messages, round;
      messages, round, log := OneRound(config, log);
      if round.before.Some? {
        err := round.before;
        return;
      }
      if |messages| == 0 {
        if round.stopped || round.end.Broken? {
          err := Some(if round.stopped then Stopped else ReceiveFailed);
          return;
        }
        if config.targetKnown && idleAttempts < config.idleRetries {
          idleAttempts := idleAttempts + 1;
          continue;
        }
        idle, retries := true, idleAttempts;
        return;
      }
      idleAttempts := 0;
      var targetIndex := FindTarget(messages, target);
      if targetIndex >= 0 {
        FoundFirst(received, messages, target, targetIndex);
      }
      var before := |received|;
      received := received + messages;
      if round.stopped {
        err := Some(Stopped);
        return;
      }
      if round.after.Some? {
        err := round.after;
        return;
      }
      if targetIndex >= 0 {
        found := Some(before + targetIndex);
        return;
      }
      if !round.end.NoError? {
        err := Some(ReceiveFailed);
        return;
      }
    }
  }

  /** The loop: search, and act on what was found. */
  method ScanLoop(config: Config, target: Target, action: T.Action, hasSender: bool, send: T.Reply, settle: T.Reply)
      returns (result: ScanResult, err: Option<Failure>, received: seq<Delivery>, hit: Option<Delivery>,
               held: seq<Delivery>, report: Option<T.Report>, trace: Trace, idle: bool, retries: nat,
               log: seq<Receipt>)
    requires 1 <= config.batchSize <= config.scanBudget && config.idleRetries >= 0
    ensures Scanned(result, err, received, hit, held, target)
    ensures |received| <= config.scanBudget
    ensures err == None && hit == None ==> idle || |received| == config.scanBudget
    ensures CauseOf(log, hit.Some?) == if hit.Some? then None else err
    ensures report.Some? <==> hit.Some?
    ensures report.Some? ==> T.Coherent(report.value) && Acted(report.value, action, hit.value, target, hasSender, trace, send, settle)
    ensures report.Some? ==> err == if !report.value.ok then Some(ActionFailed)
                                    else if trace.renewalAtCheck then Some(RenewalFailed) else None
    ensures trace.Ordered() && trace.renewalAtStop == (trace.renewalAtCheck || err == Some(RenewalFailed))
    ensures report == None ==> !trace.renewalAtCheck
    ensures !config.renews || received == [] ==> !trace.renewalAtStop
    ensures Receives(config, received, idle, retries, log)
    ensures config.targetKnown && hit.Some? ==> Unused(log) == 0
  {
    hit, report := None, None;
    var found;
    err, received, found, idle, retries, log := Search(config, target);
    held, result, trace := received, ScanResult(false, false, |received|), QUIET.(renewalAtStop := err == Some(RenewalFailed));
    if found.Some? {
      var at := found.value;
      hit, held := Some(received[at]), received[..at] + received[at + 1..];
      var r;
      r, trace, err := ActOn(config, hit.value, target, action, hasSender, send, settle);
      report := Some(r);
      result := result.(found := true, targetHandled := err == None);
    }
  }

  /** The index of the first delivery of the target, or -1. */
  method FindTarget(messages: seq<Delivery>, target: Target) returns (index: int)
    ensures -1 <= index < |messages|
    ensures index >= 0 ==> IsTarget(messages[index], target)
    ensures forall k :: 0 <= k < (if index < 0 then |messages| else index) ==> !IsTarget(messages[k], target)
  {
    index := -1;
    for i := 0 to |messages|
      invariant -1 <= index < i
      invariant index >= 0 ==> IsTarget(messages[index], target)
      invariant forall k :: 0 <= k < (if index < 0 then i else index) ==> !IsTarget(messages[k], target)
    {
      if index == -1 && IsTarget(messages[i], target) {
        index := i;
      }
    }
  }

  /**
   What the action did to the message found: nothing but abandon it unless it is the one that was peeked
   and Stop was not pressed; otherwise which calls, given when its context ended.
   */
  predicate Acted(r: T.Report, action: T.Action, hit: Delivery, target: Target, hasSender: bool, trace: Trace,
                  send: T.Reply, settle: T.Reply) {
    var refused := !Matches(hit, target) || trace.stopped || action.Unrecognised? || (T.Transfers(action) && !hasSender);
    T.Recorded(r, send, settle) &&
    (refused ==> r == T.Report(false, [T.Abandon], O.ZERO, T.Truth(false, false), false)) &&
    (!refused && action.Delete? ==> r.calls == if trace.OverAtSettle() then [] else [T.Complete]) &&
    (!refused && !action.Delete? ==>
       r.calls == if trace.OverAtSend() then [T.Abandon]
                  else if send.Lost? then [T.Send, T.Abandon]
                  else if trace.OverAtSettle() then [T.Send]
                  else [T.Send, T.Complete])
  }

  /** Whatever the action: a message that is not the one peeked is given back untouched, and so is any after Stop. */
  lemma OnlyThePeekedMessage(r: T.Report, action: T.Action, hit: Delivery, target: Target, hasSender: bool, trace: Trace,
                  send: T.Reply, settle: T.Reply)
    requires Acted(r, action, hit, target, hasSender, trace, send, settle)
    requires hit.sequence != Some(target.sequence) || trace.stopped ||
             (target.messageId != "" && hit.messageId != target.messageId) ||
             (target.sessionId.Some? && hit.sessionId != target.sessionId)
    ensures !r.ok && r.calls == [T.Abandon] && r.counters == O.ZERO && r.truth == T.Truth(false, false)
  {
  }

  /**
   What the caller is told of a target that was acted on. A finished action is an error exactly when
   the renewer failed at any time or an abandon did, and unhandled exactly when the renewer had failed
   by the check after the action; a failed one says in addition what else went wrong after that check.
   */
  predicate TellsOfAction(done: bool, trace: Trace, notReleased: bool, handled: bool, err: Option<ScanError>) {
    (handled <==> done && !trace.renewalAtCheck) &&
    (done ==> (err.Some? <==> trace.renewalAtStop || notReleased)) &&
    (done && trace.renewalAtCheck ==>
       err == Some(if notReleased then FailedAndNotReleased(RenewalFailed) else Failed(RenewalFailed))) &&
    (done && !trace.renewalAtCheck && err.Some? ==> err == Some(NotReleasedAfterAction)) &&
    (!done ==>
       err == Some(if notReleased || (trace.renewalAtStop && !trace.renewalAtCheck)
                   then FailedAndNotReleased(ActionFailed) else Failed(ActionFailed)))
  }

  /** What the caller is told of a scan without a find: why it ended, and whether everything was given back. */
  predicate TellsOfScan(cause: Option<Failure>, trace: Trace, notReleased: bool, err: Option<ScanError>) {
    match cause
    case None => err == if trace.renewalAtStop || notReleased then Some(NotReleased) else None
    case Some(f) =>
      err == Some(if notReleased || (trace.renewalAtStop && f != RenewalFailed) then FailedAndNotReleased(f) else Failed(f))
  }

  function Verdict(cause: Option<Failure>, handled: bool, released: bool): Option<ScanError> {
    match cause
    case Some(f) => Some(if released then Failed(f) else FailedAndNotReleased(f))
    case None =>
      if released then None
      else if handled then Some(NotReleasedAfterAction)
      else Some(NotReleased)
  }

  /** A moved and settled target whose scan is an error, unhandled: the renewer failed before the check. */
  lemma FinishedYetAnError(hit: Delivery, target: Target) returns (report: T.Report, trace: Trace)
    requires Matches(hit, target)
    ensures T.Coherent(report) && report.ok && report.calls == [T.Send, T.Complete]
    ensures trace.Ordered() && Acted(report, T.Move, hit, target, true, trace, T.Acknowledged, T.Acknowledged)
    ensures TellsOfAction(report.ok, trace, false, false, Some(Failed(RenewalFailed)))
    ensures !TellsOfAction(report.ok, trace, false, true, None)
  {
    report := T.Report(true, [T.Send, T.Complete], O.SourceOutcome(1, 1, 0, 0), T.Truth(true, true), false);
    trace := Trace(false, false, false, true, true, false, false);
  }

  /** The deferred part: stop the renewer, give back what is held, and put the error together. */
  method Release(config: Config, cause: Option<Failure>, handled: bool, renewing: bool, held: seq<Delivery>, before: Trace,
                 fails: Delivery -> bool)
      returns (abandoned: seq<Delivery>, failed: set<Delivery>, trace: Trace, err: Option<ScanError>)
    requires NoDup(held)
    ensures NoDup(abandoned) && Elems(abandoned) == Elems(held) && FailedOf(abandoned, fails, failed)
    ensures config.cleanupConcurrency <= 1 ==> abandoned == held
    ensures trace == before.(renewalAtStop := trace.renewalAtStop) && (before.renewalAtStop ==> trace.renewalAtStop)
    ensures trace != before ==> config.renews && renewing
    ensures err == Verdict(cause, handled, failed == {} && (before.renewalAtStop || !trace.renewalAtStop))
  {
    var told := before.renewalAtStop; // the renewer's error is already part of the cause
    var renewerFailed: bool := *;
    trace := if config.renews && renewing && renewerFailed then before.(renewalAtStop := true) else before;
    abandoned, failed := AbandonHeld(held, config.cleanupConcurrency, fails);
    err := Verdict(cause, handled, failed == {} && (told || !trace.renewalAtStop));
  }

  /**
   The scan of a valid configuration and the release that follows it. On every path each delivery is
   either handed once to the action or abandoned once, never both; no error without a find means that
   the target was not among what was received.
   */
  method ScanAndRelease(config: Config, target: Target, action: T.Action, hasSender: bool, send: T.Reply, settle: T.Reply,
                        fails: Delivery -> bool)
      returns (result: ScanResult, err: Option<ScanError>, received: seq<Delivery>, hit: Option<Delivery>,
               abandoned: seq<Delivery>, failed: set<Delivery>, report: Option<T.Report>, trace: Trace,
               idle: bool, retries: nat, log: seq<Receipt>)
    requires 1 <= config.batchSize <= config.scanBudget && config.idleRetries >= 0
    ensures Numbered(received) && Conserved(received, hit, abandoned) && FailedOf(abandoned, fails, failed)
    ensures err == None || err.value.Failed? ==> failed == {}
    ensures err.Some? && err.value.Failed? ==> !err.value.cause.BadBudget? && !err.value.cause.BadBatchSize?
    ensures result.scanned == |received| <= config.scanBudget
    ensures (hit.Some? <==> result.found) && (report.Some? <==> hit.Some?) && (result.targetHandled ==> hit.Some?)
    ensures hit.Some? ==> exists others :: FirstTaken(received, target, hit.value, others)
    ensures report.Some? ==> T.Coherent(report.value) && Acted(report.value, action, hit.value, target, hasSender, trace, send, settle)
    ensures report.Some? ==> TellsOfAction(report.value.ok, trace, failed != {}, result.targetHandled, err)
    ensures err == None && hit == None ==>
              (forall k :: 0 <= k < |received| ==> !IsTarget(received[k], target)) &&
              (idle || |received| == config.scanBudget)
    ensures trace.Ordered() && (!config.renews || received == [] ==> !trace.renewalAtStop)
    ensures hit == None && config.scanBudget >= 1 && config.batchSize >= 1 ==>
              TellsOfScan(CauseOf(log, false), trace, failed != {}, err)
    ensures hit.Some? ==> CauseOf(log, true) == None
    ensures AsksRight(config, log) && WentOn(log) && Got(log) == |received|
    ensures idle ==> GaveUp(log, if config.targetKnown then config.idleRetries else 0, retries)
    ensures config.targetKnown && hit.Some? ==> Unused(log) == 0
    ensures config.cleanupConcurrency <= 1 ==> hit == None ==> abandoned == received
  {
    var cause, held;
    result, cause, received, hit, held, report, trace, idle, retries, log := ScanLoop(config, target, action, hasSender, send, settle);
    HeldIsRest(received, target, hit, held);
    abandoned, failed, trace, err := Release(config, cause, result.targetHandled, received != [], held, trace, fails);
  }

  /** Batch size and retries in range. */
  function Normal(config: Config): Config {
    config.(batchSize := Min(config.batchSize, config.scanBudget), idleRetries := Max(config.idleRetries, 0))
  }

  method PutInRange(config: Config) returns (c: Config, err: Option<ScanError>)
    ensures c == Normal(config) && (err.Some? <==> config.scanBudget < 1 || config.batchSize < 1)
    ensures err == Some(Failed(BadBudget)) <==> config.scanBudget < 1
    ensures err == Some(Failed(BadBatchSize)) <==> config.scanBudget >= 1 > config.batchSize
  {
    c, err := config, None;
    if c.scanBudget < 1 {
      err := Some(Failed(BadBudget));
    } else if c.batchSize < 1 {
      err := Some(Failed(BadBatchSize));
    }
    if c.batchSize > c.scanBudget {
      c := c.(batchSize := c.scanBudget);
    }
    if c.idleRetries < 0 {
      c := c.(idleRetries := 0);
    }
  }

  /** The whole scan: bad sizes are refused before anything is received, the others are put in range. */
  method Scan(config: Config, target: Target, action: T.Action, hasSender: bool, send: T.Reply, settle: T.Reply,
              fails: Delivery -> bool)
      returns (result: ScanResult, err: Option<ScanError>, received: seq<Delivery>, hit: Option<Delivery>,
               abandoned: seq<Delivery>, failed: set<Delivery>, report: Option<T.Report>, trace: Trace,
               idle: bool, retries: nat, log: seq<Receipt>)
    ensures Numbered(received) && Conserved(received, hit, abandoned) && FailedOf(abandoned, fails, failed)
    ensures err == None || err.value.Failed? ==> failed == {}
    ensures err == Some(Failed(BadBudget)) <==> config.scanBudget < 1
    ensures err == Some(Failed(BadBatchSize)) <==> config.scanBudget >= 1 > config.batchSize
    ensures result.scanned == |received| && |received| <= (if config.scanBudget < 0 then 0 else config.scanBudget)
    ensures hit.Some? <==> result.found
    ensures hit.Some? ==> exists others :: FirstTaken(received, target, hit.value, others)
    ensures report.Some? <==> hit.Some?
    ensures report.Some? ==> T.Coherent(report.value) && Acted(report.value, action, hit.value, target, hasSender, trace, send, settle)
    ensures err == None && hit == None ==>
              forall k :: 0 <= k < |received| ==> !IsTarget(received[k], target)
    ensures err == None && hit == None ==> idle || |received| == config.scanBudget
    ensures trace.Ordered() && (!config.renews || received == [] ==> !trace.renewalAtStop)
    ensures report.Some? ==> TellsOfAction(report.value.ok, trace, failed != {}, result.targetHandled, err)
    ensures result.targetHandled ==> hit.Some?
    ensures hit == None && config.scanBudget >= 1 && config.batchSize >= 1 ==>
              TellsOfScan(CauseOf(log, false), trace, failed != {}, err)
    ensures hit.Some? ==> CauseOf(log, true) == None
    ensures config.scanBudget < 1 || config.batchSize < 1 ==> err.Some? && received == []
    ensures AsksRight(Normal(config), log) && WentOn(log) && Got(log) == |received|
    ensures idle ==> GaveUp(log, if config.targetKnown then Max(config.idleRetries, 0) else 0, retries)
    ensures config.targetKnown && hit.Some? ==> Unused(log) == 0
    ensures config.cleanupConcurrency <= 1 ==> hit == None ==> abandoned == received
  {
    var c;
    c, err := PutInRange(config);
    if err.Some? {
      result, received, hit := ScanResult(false, false, 0), [], None;
      abandoned, failed, report, trace, idle, retries, log := [], {}, None, QUIET, false, 0, [];
      return;
    }
    result, err, received, hit, abandoned, failed, report, trace, idle, retries, log :=
      ScanAndRelease(c, target, action, hasSender, send, settle, fails);
  }

  lemma HeldIsRest(received: seq<Delivery>, target: Target, hit: Option<Delivery>, held: seq<Delivery>)
    requires Numbered(received)
    requires if hit.Some? then FirstTaken(received, target, hit.value, held) else held == received
    ensures NoDup(held) && Elems(held) == Elems(received) - (if hit.Some? then {hit.value} else {})
    ensures hit.Some? ==> hit.value in received
  {
    assert NoDup(received);
    if hit.Some? {
      var j :| 0 <= j < |received| && hit.value == received[j] && held == received[..j] + received[j + 1..];
      TakeOut(received, j);
    }
  }
}

/**
 Consuming every available session of an entity (handlers.go, consumeAvailableSessions), and the
 check that keeps a drain from feeding itself (handlers_move.go, validateMoveSourceDest).
 */
module SessionDrain {
  import opened Common

  type Session = string

  /** One accepted session: how long the accept was allowed to wait and how much is reported as consumed. */
  datatype Visit = Visit(session: Session, consumed: nat, waitMs: int, failure: Option<End>)

  datatype End =
    | AllConsumed
    | Stopped
    | AcceptError
    | ConsumeFailed
    | RenewalFailed
    | AcceptedRepeatedly(session: Session)

  function Sum(visits: seq<Visit>): nat {
    if |visits| == 0 then 0 else Sum(visits[..|visits| - 1]) + visits[|visits| - 1].consumed
  }

  /** What the latest visit to the session consumed, if it was visited. */
  function LastConsumed(visits: seq<Visit>, session: Session): Option<nat> {
    if |visits| == 0 then None
    else
      var last := visits[|visits| - 1];
      if last.session == session then Some(last.consumed) else LastConsumed(visits[..|visits| - 1], session)
  }

  /** Visit `j` found its session empty again, with nothing consumed from it since the last time. */
  predicate EmptyAgain(visits: seq<Visit>, j: nat)
    requires j < |visits|
  {
    visits[j].consumed == 0 && LastConsumed(visits[..j], visits[j].session) == Some(0)
  }

  /** Visit `i` was the latest to the session, and consumed nothing. */
  predicate LatestEmpty(visits: seq<Visit>, session: Session, i: int) {
    0 <= i < |visits| && visits[i].session == session && visits[i].consumed == 0 &&
    forall k :: i < k < |visits| ==> visits[k].session != session
  }

  lemma {:induction false} EmptyAgainMeans(visits: seq<Visit>, session: Session)
    ensures LastConsumed(visits, session) == Some(0) <==>
              exists i :: 0 <= i < |visits| && visits[i].session == session && visits[i].consumed == 0 &&
                forall k :: i < k < |visits| ==> visits[k].session != session
  {
    LatestEmptyIff(visits, session);
    if i :| LatestEmpty(visits, session, i) {
      assert visits[i].session == session && visits[i].consumed == 0;
    } else if i :| 0 <= i < |visits| && visits[i].session == session && visits[i].consumed == 0 &&
                   forall k :: i < k < |visits| ==> visits[k].session != session {
      assert LatestEmpty(visits, session, i);
    }
  }

  lemma {:induction false} LatestEmptyIff(visits: seq<Visit>, session: Session)
    ensures LastConsumed(visits, session) == Some(0) <==> exists i :: LatestEmpty(visits, session, i)
  {
    if |visits| > 0 {
      var n := |visits| - 1;
      LatestEmptyIff(visits[..n], session);
      if visits[n].session == session {
        assert LatestEmpty(visits, session, n) <==> visits[n].consumed == 0;
      } else {
        forall i | LatestEmpty(visits[..n], session, i) || LatestEmpty(visits, session, i)
          ensures LatestEmpty(visits, session, i) && LatestEmpty(visits[..n], session, i)
        {
          assert forall k :: 0 <= k < n ==> visits[k] == visits[..n][k];
        }
      }
    }
  }

  ghost predicate NeverEmptyAgain(visits: seq<Visit>) {
    forall j :: 0 <= j < |visits| ==> !EmptyAgain(visits, j)
  }

  ghost predicate Waited(visits: seq<Visit>, maxWaitMs: int, drainWaitMs: int) {
    forall j :: 0 <= j < |visits| ==> visits[j].waitMs == if Sum(visits[..j]) > 0 then drainWaitMs else maxWaitMs
  }

  lemma EarlierVisitsStay(visits: seq<Visit>, v: Visit, j: nat)
    requires j < |visits|
    ensures (visits + [v])[..j] == visits[..j] && (visits + [v])[j] == visits[j]
    ensures EmptyAgain(visits + [v], j) == EmptyAgain(visits, j)
  {
  }

  /** One more visit after visits none of which found its session empty again. */
  lemma VisitedAppend(visits: seq<Visit>, v: Visit, maxWaitMs: int, drainWaitMs: int)
    requires NeverEmptyAgain(visits) && Waited(visits, maxWaitMs, drainWaitMs)
    requires v.waitMs == if Sum(visits) > 0 then drainWaitMs else maxWaitMs
    ensures Waited(visits + [v], maxWaitMs, drainWaitMs) && Sum(visits + [v]) == Sum(visits) + v.consumed
    ensures EmptyAgain(visits + [v], |visits|) <==> v.consumed == 0 && LastConsumed(visits, v.session) == Some(0)
    ensures !EmptyAgain(visits + [v], |visits|) ==> NeverEmptyAgain(visits + [v])
    ensures forall s :: LastConsumed(visits + [v], s) == if v.session == s then Some(v.consumed) else LastConsumed(visits, s)
  {
    var after := visits + [v];
    assert after[..|visits|] == visits;
    forall j | 0 <= j < |visits|
      ensures !EmptyAgain(after, j) && after[j].waitMs == if Sum(after[..j]) > 0 then drainWaitMs else maxWaitMs
    {
      EarlierVisitsStay(visits, v, j);
    }
  }

  datatype Accepted = Accepted(session: Session) | NoneAvailable | AcceptFails | StopSeen

  /** The sessions the broker handed out, in order. */
  function Handed(answers: seq<Accepted>): seq<Session> {
    if |answers| == 0 then []
    else
      var before, last := Handed(answers[..|answers| - 1]), answers[|answers| - 1];
      if last.Accepted? then before + [last.session] else before
  }

  function Visited(visits: seq<Visit>): seq<Session> {
    if |visits| == 0 then [] else Visited(visits[..|visits| - 1]) + [visits[|visits| - 1].session]
  }

  /** Only the last answer can be a refusal, and only the last visit a failure. */
  predicate Orderly(answers: seq<Accepted>, visits: seq<Visit>) {
    Handed(answers) == Visited(visits) &&
    (forall i :: 0 <= i < |answers| - 1 ==> answers[i].Accepted?) &&
    (forall j :: 0 <= j < |visits| - 1 ==> visits[j].failure == None)
  }

  /** Why the loop ended, by the last call it made: the broker's refusal, the visit's failure, or an empty session. */
  predicate EndedBy(answers: seq<Accepted>, visits: seq<Visit>, end: End) {
    |answers| > 0 &&
    match answers[|answers| - 1]
    case NoneAvailable => end == AllConsumed
    case StopSeen => end == Stopped
    case AcceptFails => end == AcceptError
    case Accepted(session) =>
      |visits| > 0 && end == (match visits[|visits| - 1].failure case Some(f) => f case None => AcceptedRepeatedly(session))
  }

  lemma OneVisitMore(answers: seq<Accepted>, visits: seq<Visit>, a: Accepted, v: Visit)
    requires OnCourse(answers, visits) && a == Accepted(v.session)
    ensures Orderly(answers + [a], visits + [v])
    ensures v.failure.Some? ==> EndedBy(answers + [a], visits + [v], v.failure.value)
    ensures v.failure == None ==> OnCourse(answers + [a], visits + [v]) && EndedBy(answers + [a], visits + [v], AcceptedRepeatedly(v.session))
  {
    assert (answers + [a])[..|answers|] == answers && (visits + [v])[..|visits|] == visits;
  }

  lemma Refused(answers: seq<Accepted>, visits: seq<Visit>, a: Accepted)
    requires OnCourse(answers, visits) && !a.Accepted?
    ensures Orderly(answers + [a], visits)
    ensures EndedBy(answers + [a], visits, if a.StopSeen? then Stopped else if a.NoneAvailable? then AllConsumed else AcceptError)
  {
    assert (answers + [a])[..|answers|] == answers;
  }

  /** Every answer a session, every visit without failure. */
  predicate OnCourse(answers: seq<Accepted>, visits: seq<Visit>) {
    Handed(answers) == Visited(visits) &&
    (forall i :: 0 <= i < |answers| ==> answers[i].Accepted?) && (forall j :: 0 <= j < |visits| ==> visits[j].failure == None)
  }

  /** The broker gives any session it likes, even one it gave before and even an empty one. */
  method Accept(contents: map<Session, nat>) returns (a: Accepted)
    ensures a.Accepted? ==> a.session in contents
  {
    var which: int := *;
    if which == 0 || contents == map[] {
      a := NoneAvailable;
    } else if which == 1 {
      a := AcceptFails;
    } else if which == 2 {
      a := StopSeen;
    } else {
      var session :| session in contents;
      a := Accepted(session);
    }
  }

  /**
   Draining one session takes some of its messages; it and the lock renewal can both fail. A drain that
   fails may have removed more than it reports: a settlement can take effect and lose its acknowledgment.
   */
  method Consume(contents: map<Session, nat>, session: Session)
      returns (consumed: nat, after: map<Session, nat>, failure: Option<End>)
    requires session in contents
    ensures consumed <= contents[session] && after.Keys == contents.Keys
    ensures after[session] + consumed <= contents[session] && after == contents[session := after[session]]
    ensures Left(after) + consumed <= Left(contents)
    ensures failure != Some(ConsumeFailed) ==> Left(after) + consumed == Left(contents)
    ensures failure in {None, Some(ConsumeFailed), Some(RenewalFailed)}
  {
    var consumeFailed, renewalFailed: bool := *, *;
    consumed :| consumed <= contents[session];
    var removed := consumed;
    if consumeFailed {
      removed :| consumed <= removed <= contents[session];
    }
    after := contents[session := contents[session] - removed];
    Consuming(contents, session, removed);
    failure := if consumeFailed then Some(ConsumeFailed) else if renewalFailed then Some(RenewalFailed) else None;
  }

  /** `empty` are the sessions whose latest visit consumed nothing, and none was ever empty again. */
  ghost predicate Tracked(visits: seq<Visit>, total: nat, empty: set<Session>, maxWaitMs: int, drainWaitMs: int) {
    total == Sum(visits) && Waited(visits, maxWaitMs, drainWaitMs) && NeverEmptyAgain(visits) &&
    forall s :: s in empty <==> LastConsumed(visits, s) == Some(0)
  }

  lemma TrackOne(visits: seq<Visit>, total: nat, empty: set<Session>, v: Visit, maxWaitMs: int, drainWaitMs: int)
    requires Tracked(visits, total, empty, maxWaitMs, drainWaitMs)
    requires v.waitMs == if total > 0 then drainWaitMs else maxWaitMs
    ensures Sum(visits + [v]) == total + v.consumed && Waited(visits + [v], maxWaitMs, drainWaitMs)
    ensures EmptyAgain(visits + [v], |visits|) <==> v.consumed == 0 && v.session in empty
    ensures !(v.consumed == 0 && v.session in empty) ==>
              Tracked(visits + [v], total + v.consumed,
                      if v.consumed == 0 then empty + {v.session} else empty - {v.session}, maxWaitMs, drainWaitMs)
  {
    VisitedAppend(visits, v, maxWaitMs, drainWaitMs);
  }

  /**
   Only consuming changes what the broker holds, so messages left and sessions not yet seen empty
   bound the loop. It ends with the repeat error exactly at the first session found empty twice with
   nothing consumed from it in between. What is reported is what is missing, except that a visit that
   failed may have taken more.
   */
  method ConsumeAvailableSessions(initial: map<Session, nat>, maxWaitMs: int, drainWaitMs: int)
      returns (total: nat, end: End, visits: seq<Visit>, contents: map<Session, nat>, answers: seq<Accepted>)
    ensures Orderly(answers, visits) && EndedBy(answers, visits, end)
    ensures total == Sum(visits) && contents.Keys == initial.Keys
    ensures Left(contents) + total <= Left(initial)
    ensures !end.ConsumeFailed? ==> Left(contents) + total == Left(initial)
    ensures Waited(visits, maxWaitMs, drainWaitMs)
    ensures end.AcceptedRepeatedly? ==>
              visits != [] && NeverEmptyAgain(visits[..|visits| - 1]) && EmptyAgain(visits, |visits| - 1) &&
              end.session == visits[|visits| - 1].session
    ensures end.AllConsumed? || end.Stopped? || end.AcceptError? ==> NeverEmptyAgain(visits)
    ensures end.ConsumeFailed? || end.RenewalFailed? ==> visits != [] && NeverEmptyAgain(visits[..|visits| - 1])
  {
    total, visits, contents, answers := 0, [], initial, [];
    var emptySessions: set<Session> := {};
    while true
      invariant OnCourse(answers, visits)
      invariant Tracked(visits, total, emptySessions, maxWaitMs, drainWaitMs)
      invariant contents.Keys == initial.Keys && Left(contents) + total == Left(initial)
      decreases Left(contents), contents.Keys - emptySessions
    {
      var waitMs := if total > 0 then drainWaitMs else maxWaitMs;
      var accepted := Accept(contents);
      if !accepted.Accepted? {
        Refused(answers, visits, accepted);
        answers := answers + [accepted];
        end := if accepted.StopSeen? then Stopped else if accepted.NoneAvailable? then AllConsumed else AcceptError;
        return;
      }
      var session := accepted.session;
      var consumed, failure;
      consumed, contents, failure := Consume(contents, session);
      var visit := Visit(session, consumed, waitMs, failure);
      OneVisitMore(answers, visits, accepted, visit);
      answers := answers + [accepted];
      TrackOne(visits, total, emptySessions, visit, maxWaitMs, drainWaitMs);
      assert (visits + [visit])[..|visits|] == visits;
      visits, total := visits + [visit], total + consumed;
      if failure.Some? {
        end := failure.value;
        return;
      }
      if consumed == 0 {
        if session in emptySessions {
          end := AcceptedRepeatedly(session);
          return;
        }
        emptySessions := emptySessions + {session};
      } else {
        emptySessions := emptySessions - {session};
      }
    }
  }

  /** Messages the sessions still hold. */
  ghost function Left(contents: map<Session, nat>): nat
    decreases |contents|
  {
    if contents == map[] then 0
    else
      var s :| s in contents;
      assert (contents - {s}).Keys == contents.Keys - {s};
      assert |(contents - {s}).Keys| < |contents.Keys|;
      contents[s] + Left(contents - {s})
  }

  lemma {:induction false} LeftSplits(contents: map<Session, nat>, s: Session)
    requires s in contents
    ensures Left(contents) == contents[s] + Left(contents - {s})
    decreases |contents|
  {
    var p :| p in contents && Left(contents) == contents[p] + Left(contents - {p});
    if p != s {
      assert (contents - {p}).Keys == contents.Keys - {p} && (contents - {s}).Keys == contents.Keys - {s};
      assert |(contents - {p}).Keys| < |contents.Keys| && |(contents - {s}).Keys| < |contents.Keys|;
      LeftSplits(contents - {p}, s);
      LeftSplits(contents - {s}, p);
      assert contents - {p} - {s} == contents - {s} - {p};
    }
  }

  lemma Consuming(contents: map<Session, nat>, s: Session, n: nat)
    requires s in contents && n <= contents[s]
    ensures Left(contents[s := contents[s] - n]) == Left(contents) - n
  {
    var after := contents[s := contents[s] - n];
    LeftSplits(contents, s);
    LeftSplits(after, s);
    assert after - {s} == contents - {s};
  }

  // Feeding itself ------------------------------------------------------------------------------

  datatype Mode = Normal | Dlq | Both

  /** A place messages rest in: an entity and which of its subqueues. */
  datatype Place = QueueActive(name: string) | QueueDeadLetter(name: string) | SubscriptionActive | SubscriptionDeadLetter

  function Drained(sourceQueue: string, mode: Mode, isSubscription: bool): set<Place> {
    var active := if isSubscription then SubscriptionActive else QueueActive(sourceQueue);
    var dead := if isSubscription then SubscriptionDeadLetter else QueueDeadLetter(sourceQueue);
    (if mode.Dlq? then {} else {active}) + (if mode.Normal? then {} else {dead})
  }

  predicate Accepts(sourceQueue: string, destQueue: string, mode: Mode, isSubscription: bool) {
    isSubscription || sourceQueue != destQueue || mode.Dlq?
  }

  /** The check lets a move to a queue through exactly when no drained place is where it sends. */
  lemma AcceptedIffNeverSelfFed(sourceQueue: string, destQueue: string, mode: Mode, isSubscription: bool)
    ensures Accepts(sourceQueue, destQueue, mode, isSubscription) <==>
              QueueActive(destQueue) !in Drained(sourceQueue, mode, isSubscription)
  {
  }

  /** Entity names as a broker that ignores case compares them. */
  predicate SameName(a: string, b: string) {
    |a| == |b| && forall k :: 0 <= k < |a| ==> LowerChar(a[k]) == LowerChar(b[k])
  }

  /** Some drained place is where the move sends, when names are compared ignoring case. */
  predicate FeedsItself(sourceQueue: string, destQueue: string, mode: Mode, isSubscription: bool) {
    exists place :: place in Drained(sourceQueue, mode, isSubscription) && place.QueueActive? && SameName(place.name, destQueue)
  }

  /** The check compares exactly; on a broker that ignores case this is what it lets through. */
  lemma SelfFeedingSlipsThroughIff(sourceQueue: string, destQueue: string, mode: Mode, isSubscription: bool)
    ensures Accepts(sourceQueue, destQueue, mode, isSubscription) && FeedsItself(sourceQueue, destQueue, mode, isSubscription)
            <==> !isSubscription && !mode.Dlq? && sourceQueue != destQueue && SameName(sourceQueue, destQueue)
  {
    if !isSubscription && !mode.Dlq? && SameName(sourceQueue, destQueue) {
      assert QueueActive(sourceQueue) in Drained(sourceQueue, mode, isSubscription);
    }
  }

  lemma SelfFeedingExample()
    ensures Accepts("Orders", "orders", Normal, false) && FeedsItself("Orders", "orders", Normal, false)
  {
    SelfFeedingSlipsThroughIff("Orders", "orders", Normal, false);
  }
}

/**
 How a run packs received messages into batches the destination accepts (handlers_transfer.go):
 one affinity per batch, order kept, and nothing sent when any message has no valid affinity.
 */
module Batching {
  import opened Common
  import opened MessageIds
  import opened Packing

  const ORIGINAL_ID_PROPERTY := "BusmanOriginalMessageId"

  /** `content` stands for the body and the headers that are copied without being looked at. */
  datatype Received = Received(
    messageId: Bytes, sessionId: Option<Bytes>, partitionKey: Option<Bytes>,
    content: Bytes, properties: map<string, Bytes>)

  datatype Outbound = Outbound(
    messageId: Option<Bytes>, sessionId: Option<Bytes>, partitionKey: Option<Bytes>,
    content: Bytes, properties: map<string, Bytes>)

  datatype Policy = Policy(requiresDuplicateDetection: bool, enablePartitioning: bool, requiresSession: bool)

  datatype AffinityKind = NoAffinity | PartitionAffinity | SessionAffinity | MessageIdAffinity

  datatype Affinity = Affinity(kind: AffinityKind, value: Option<Bytes>)

  datatype AffinityError = IncompatiblePartitionKey | MissingSession | MissingMessageId

  type Adder = (seq<Outbound>, Outbound) -> AddResult

  /** What the clock and the shared counter gave one message; `calls` counts increments in the process. */
  datatype Stamp = Stamp(nanos: Nanos, calls: nat)

  datatype Outcome = BadAffinity(index: nat, reason: AffinityError) | Ended(ending: Ending)

  function OutboundOf(m: Received, regenerate: bool, stamp: Stamp): Outbound {
    if regenerate then
      var properties := if m.messageId != [] then m.properties[ORIGINAL_ID_PROPERTY := m.messageId] else m.properties;
      Outbound(Some(UniqueMessageId(m.messageId, stamp.nanos, Counter(0, stamp.calls))),
               m.sessionId, m.partitionKey, m.content, properties)
    else
      Outbound(if m.messageId == [] then None else Some(m.messageId),
               m.sessionId, m.partitionKey, m.content, m.properties)
  }

  function AffinityFor(m: Outbound, policy: Policy): Result<Affinity, AffinityError> {
    if m.sessionId.Some? then
      if m.partitionKey.Some? && m.partitionKey != m.sessionId then Err(IncompatiblePartitionKey)
      else Ok(Affinity(SessionAffinity, m.sessionId))
    else if policy.requiresSession then Err(MissingSession)
    else if policy.enablePartitioning then
      if m.partitionKey.Some? then Ok(Affinity(PartitionAffinity, m.partitionKey))
      else if policy.requiresDuplicateDetection then
        if m.messageId == None || m.messageId == Some([]) then Err(MissingMessageId)
        else Ok(Affinity(MessageIdAffinity, m.messageId))
      else Ok(Affinity(PartitionAffinity, None))
    else Ok(Affinity(NoAffinity, None))
  }

  /** What the destination would refuse, read off the received message alone. */
  predicate Sendable(m: Received, policy: Policy) {
    match m.sessionId
    case Some(s) => m.partitionKey == None || m.partitionKey == Some(s)
    case None => !policy.requiresSession
  }

  function OutboundAll(messages: seq<Received>, policy: Policy, stamps: seq<Stamp>): (outs: seq<Outbound>)
    requires |stamps| == |messages|
  {
    seq(|messages|, i requires 0 <= i < |messages| =>
      OutboundOf(messages[i], policy.requiresDuplicateDetection, stamps[i]))
  }

  /**
   Regeneration always supplies an id, so only sessions can make an affinity fail: a session that is not
   also the partition key, or none where one is required.
   */
  lemma AffinityFailsIff(m: Received, policy: Policy, stamp: Stamp)
    ensures var affinity := AffinityFor(OutboundOf(m, policy.requiresDuplicateDetection, stamp), policy);
            (affinity == Err(IncompatiblePartitionKey) <==>
               m.sessionId.Some? && m.partitionKey.Some? && m.sessionId != m.partitionKey) &&
            (affinity == Err(MissingSession) <==> m.sessionId == None && policy.requiresSession)
    ensures AffinityFor(OutboundOf(m, policy.requiresDuplicateDetection, stamp), policy).Ok? <==> Sendable(m, policy)
    ensures AffinityFor(OutboundOf(m, policy.requiresDuplicateDetection, stamp), policy) != Err(MissingMessageId)
  {
    assert |UniqueMessageId(m.messageId, stamp.nanos, Counter(0, stamp.calls))| > 0;
  }

  /** Two messages have the same affinity exactly when the broker would put them in the same partition. */
  lemma AffinityMeans(a: Outbound, b: Outbound, policy: Policy)
    requires AffinityFor(a, policy).Ok? && AffinityFor(b, policy).Ok?
    ensures AffinityFor(a, policy) == AffinityFor(b, policy) <==>
              a.sessionId == b.sessionId &&
              (a.sessionId == None && policy.enablePartitioning ==>
                 a.partitionKey == b.partitionKey &&
                 (a.partitionKey == None && policy.requiresDuplicateDetection ==> a.messageId == b.messageId))
  {
  }

  /**
   Nothing of a message is lost on the way out, even its id when a new one is generated: messages
   that look the same to the destination were the same, up to an original-id property it overwrote.
   */
  lemma OutboundLosesNothing(a: Received, b: Received, regenerate: bool, s: Stamp, t: Stamp)
    requires OutboundOf(a, regenerate, s) == OutboundOf(b, regenerate, t)
    ensures a.messageId == b.messageId && a.content == b.content
    ensures a.sessionId == b.sessionId && a.partitionKey == b.partitionKey
    ensures a.properties - {ORIGINAL_ID_PROPERTY} == b.properties - {ORIGINAL_ID_PROPERTY}
    ensures !regenerate ==> a == b
  {
    var out := OutboundOf(a, regenerate, s);
    assert a.properties - {ORIGINAL_ID_PROPERTY} == out.properties - {ORIGINAL_ID_PROPERTY};
    assert b.properties - {ORIGINAL_ID_PROPERTY} == out.properties - {ORIGINAL_ID_PROPERTY};
    if regenerate {
      SameIdIff(a.messageId, s.nanos, Counter(0, s.calls), b.messageId, t.nanos, Counter(0, t.calls));
      assert a.messageId == [] <==> b.messageId == [];
    }
    if regenerate && a.messageId != [] {
      assert out.properties[ORIGINAL_ID_PROPERTY] == a.messageId;
      assert out.properties[ORIGINAL_ID_PROPERTY] == b.messageId;
    }
  }

  /**
   What goes out is what came in: body, session and partition key of every message, and its id and
   properties too, except that a regenerated id leaves the original one, if any, in its own property.
   */
  lemma OutboundKeeps(m: Received, regenerate: bool, stamp: Stamp)
    ensures var out := OutboundOf(m, regenerate, stamp);
            && out.content == m.content && out.sessionId == m.sessionId && out.partitionKey == m.partitionKey
            && (!regenerate ==> out.properties == m.properties && out.messageId == if m.messageId == [] then None else Some(m.messageId))
            && (regenerate ==> out.messageId == Some(UniqueMessageId(m.messageId, stamp.nanos, Counter(0, stamp.calls))))
            && (regenerate && m.messageId == [] ==> out.properties == m.properties)
            && (regenerate && m.messageId != [] ==>
                  "BusmanOriginalMessageId" in out.properties && out.properties["BusmanOriginalMessageId"] == m.messageId)
            && out.properties - {"BusmanOriginalMessageId"} == m.properties - {"BusmanOriginalMessageId"}
  {
  }

  /** The k-th message sent carries the k-th message received. */
  lemma SentAreReceived(messages: seq<Received>, policy: Policy, stamps: seq<Stamp>, sent: seq<Outbound>, k: nat)
    requires |stamps| == |messages| && sent <= OutboundAll(messages, policy, stamps) && k < |sent|
    ensures sent[k].content == messages[k].content
    ensures sent[k].sessionId == messages[k].sessionId && sent[k].partitionKey == messages[k].partitionKey
    ensures !policy.requiresDuplicateDetection ==>
              sent[k].properties == messages[k].properties &&
              sent[k].messageId == if messages[k].messageId == [] then None else Some(messages[k].messageId)
  {
    OutboundKeeps(messages[k], policy.requiresDuplicateDetection, stamps[k]);
  }

  /** Stamps as the atomic counter gives them: each later one is a later increment. */
  predicate Increasing(stamps: seq<Stamp>) {
    forall i, j :: 0 <= i < j < |stamps| ==> stamps[i].calls < stamps[j].calls < stamps[i].calls + TWO_TO_64
  }

  lemma RegeneratedIdsDistinct(messages: seq<Received>, policy: Policy, stamps: seq<Stamp>, i: nat, j: nat)
    requires |stamps| == |messages| && Increasing(stamps) && policy.requiresDuplicateDetection
    requires i < j < |messages|
    ensures OutboundAll(messages, policy, stamps)[i].messageId != OutboundAll(messages, policy, stamps)[j].messageId
  {
    IdsDistinct(0, stamps[i].calls, stamps[j].calls,
                messages[i].messageId, stamps[i].nanos, messages[j].messageId, stamps[j].nanos);
  }

  function RulesOf(policy: Policy, add: Adder): Rules<Outbound, Result<Affinity, AffinityError>> {
    Rules(m => AffinityFor(m, policy), add)
  }

  /**
   On a partitioned destination with duplicate detection, a message with neither session nor
   partition key always travels alone: its generated id is its affinity and no other message has it.
   */
  lemma KeylessTravelAlone(
    messages: seq<Received>, policy: Policy, stamps: seq<Stamp>, add: Adder,
    batches: seq<seq<Outbound>>, k: nat, i: nat)
    requires |stamps| == |messages| && Increasing(stamps)
    requires policy.enablePartitioning && policy.requiresDuplicateDetection
    requires forall m :: m in messages ==> Sendable(m, policy)
    requires Cuts(batches, OutboundAll(messages, policy, stamps), RulesOf(policy, add))
    requires k < |batches| && i < |batches[k]|
    requires batches[k][i].sessionId == None && batches[k][i].partitionKey == None
    ensures |batches[k]| == 1
  {
    var outs := OutboundAll(messages, policy, stamps);
    var at := CutsEach(batches, outs, RulesOf(policy, add), k);
    KeylessInSlice(messages, policy, stamps, add, outs, batches[k], at, i);
  }

  lemma KeylessInSlice(messages: seq<Received>, policy: Policy, stamps: seq<Stamp>, add: Adder,
                       outs: seq<Outbound>, b: seq<Outbound>, at: nat, i: nat)
    requires |stamps| == |messages| && Increasing(stamps) && outs == OutboundAll(messages, policy, stamps)
    requires policy.enablePartitioning && policy.requiresDuplicateDetection
    requires forall m :: m in messages ==> Sendable(m, policy)
    requires at + |b| <= |outs| && b == outs[at..at + |b|] && OneAffinity(b, RulesOf(policy, add))
    requires i < |b| && b[i].sessionId == None && b[i].partitionKey == None
    ensures |b| == 1
  {
    assert messages[at + i] in messages;
    assert outs[at + i] == b[i];
    UnlikeAll(messages, policy, stamps, outs, add, at + i);
    AloneInSlice(outs, b, at, i, RulesOf(policy, add));
  }

  lemma UnlikeAll(messages: seq<Received>, policy: Policy, stamps: seq<Stamp>, outs: seq<Outbound>, add: Adder, i: nat)
    requires |stamps| == |messages| && Increasing(stamps) && outs == OutboundAll(messages, policy, stamps)
    requires policy.enablePartitioning && policy.requiresDuplicateDetection
    requires i < |outs| && Sendable(messages[i], policy)
    requires outs[i].sessionId == None && outs[i].partitionKey == None
    ensures forall j: nat :: j < |outs| && j != i ==>
              RulesOf(policy, add).affinity(outs[j]) != RulesOf(policy, add).affinity(outs[i])
  {
    forall j: nat | j < |outs| && j != i ensures AffinityFor(outs[j], policy) != AffinityFor(outs[i], policy) {
      UnlikeOthers(messages, policy, stamps, outs, i, j);
    }
  }

  lemma UnlikeOthers(messages: seq<Received>, policy: Policy, stamps: seq<Stamp>, outs: seq<Outbound>, i: nat, j: nat)
    requires |stamps| == |messages| && Increasing(stamps) && outs == OutboundAll(messages, policy, stamps)
    requires policy.enablePartitioning && policy.requiresDuplicateDetection
    requires i < |outs| && j < |outs| && i != j && Sendable(messages[i], policy)
    requires outs[i].sessionId == None && outs[i].partitionKey == None
    ensures AffinityFor(outs[j], policy) != AffinityFor(outs[i], policy)
  {
    OwnAffinity(messages, policy, stamps, i, j);
  }

  lemma OwnAffinity(messages: seq<Received>, policy: Policy, stamps: seq<Stamp>, i: nat, j: nat)
    requires |stamps| == |messages| && Increasing(stamps)
    requires policy.enablePartitioning && policy.requiresDuplicateDetection
    requires i < |messages| && j < |messages| && i != j
    requires Sendable(messages[i], policy) && messages[i].sessionId == None && messages[i].partitionKey == None
    ensures var outs := OutboundAll(messages, policy, stamps);
            AffinityFor(outs[i], policy) != AffinityFor(outs[j], policy)
  {
    AffinityFailsIff(messages[i], policy, stamps[i]);
    if i < j {
      RegeneratedIdsDistinct(messages, policy, stamps, i, j);
    } else {
      RegeneratedIdsDistinct(messages, policy, stamps, j, i);
    }
  }

  /** Builds every outbound message before anything is sent; the first bad affinity ends it. */
  method Prepare(messages: seq<Received>, policy: Policy, stamps: seq<Stamp>)
      returns (outs: seq<Outbound>, bad: Option<(nat, AffinityError)>)
    requires |stamps| == |messages|
    ensures bad == None <==> forall m :: m in messages ==> Sendable(m, policy)
    ensures bad == None ==> outs == OutboundAll(messages, policy, stamps)
    ensures bad.Some? ==> bad.value.0 < |messages| && !Sendable(messages[bad.value.0], policy) &&
                          AffinityFor(OutboundAll(messages, policy, stamps)[bad.value.0], policy) == Err(bad.value.1) &&
                          forall j :: 0 <= j < bad.value.0 ==> Sendable(messages[j], policy)
  {
    outs, bad := [], None;
    for i := 0 to |messages|
      invariant outs == OutboundAll(messages, policy, stamps)[..i]
      invariant forall j :: 0 <= j < i ==> Sendable(messages[j], policy)
    {
      var out := OutboundOf(messages[i], policy.requiresDuplicateDetection, stamps[i]);
      AffinityFailsIff(messages[i], policy, stamps[i]);
      match AffinityFor(out, policy) {
        case Err(reason) => return outs, Some((i, reason));
        case Ok(_) => outs := outs + [out];
      }
    }
  }

  /**
   On success the batches are all the messages, in order, and every source is settled; whatever
   happens they are a prefix cut only where it must be. One bad affinity means nothing is sent.
   */
  method SendInCompatibleBatches(messages: seq<Received>, policy: Policy, stamps: seq<Stamp>, add: Adder)
      returns (offered: seq<seq<Outbound>>, confirmed: nat, outcome: Outcome, log: seq<ClientCall<Outbound, Received>>)
    requires |stamps| == |messages|
    ensures forall k :: 0 <= k < |Flatten(offered)| ==>
              k < |messages| && Flatten(offered)[k].content == messages[k].content &&
              Flatten(offered)[k].sessionId == messages[k].sessionId && Flatten(offered)[k].partitionKey == messages[k].partitionKey
    ensures Logged(log, offered, confirmed, messages)
    ensures if outcome.BadAffinity? || messages == [] then log == [] else EndsWith(log, Some(outcome.ending))
    ensures outcome.BadAffinity? <==> exists m :: m in messages && !Sendable(m, policy)
    ensures outcome.BadAffinity? ==> offered == [] && confirmed == 0
    ensures outcome.Ended? ==>
              Reported(outcome.ending, offered, confirmed, OutboundAll(messages, policy, stamps), RulesOf(policy, add))
  {
    if |messages| == 0 {
      offered, confirmed, outcome, log := [], 0, Ended(Sent), [];
      assert Flatten(offered) == [] && Cuts(offered, OutboundAll(messages, policy, stamps), RulesOf(policy, add));
      return;
    }
    var outs, bad := Prepare(messages, policy, stamps);
    if bad.Some? {
      return [], 0, BadAffinity(bad.value.0, bad.value.1), [];
    }
    var ending;
    offered, confirmed, ending, log := SendPrepared(messages, outs, RulesOf(policy, add));
    outcome := Ended(ending);
    forall k | 0 <= k < |Flatten(offered)|
      ensures k < |messages| && Flatten(offered)[k].content == messages[k].content
      ensures Flatten(offered)[k].sessionId == messages[k].sessionId && Flatten(offered)[k].partitionKey == messages[k].partitionKey
    {
      SentAreReceived(messages, policy, stamps, Flatten(offered), k);
    }
  }
}

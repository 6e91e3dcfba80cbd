/**
 Message counts in the front end (useEntityList.ts, appStore.ts): batch and single requests overlap,
 answers come in any order or after the connection changed, and none of that may show an older count
 over a newer one.
 */
module EntityCounts {
  import opened Common

  datatype Key = QueueKey(name: string) | SubscriptionKey(topic: string, subscription: string)

  datatype Entity = Queue(name: string) | Topic(name: string) | Subscription(topic: string, name: string)

  /** The counts that go when the entity is deleted: a topic takes those of all its subscriptions with it. */
  predicate BelongsTo(k: Key, entity: Entity) {
    match entity
    case Queue(name) => k == QueueKey(name)
    case Topic(name) => k.SubscriptionKey? && k.topic == name
    case Subscription(topic, name) => k == SubscriptionKey(topic, name)
  }

  /** A shown count, and the request that brought it. */
  datatype Count = Count(value: int, writer: nat)

  /** Refresh state of one key: its last request, the request its time of update is from, and an error. */
  datatype Refresh = Refresh(requestId: nat, updatedBy: Option<nat>, failed: bool)

  datatype Phase = InFlight | Answered | Finished

  datatype Request = Request(generation: nat, keys: set<Key>, batch: bool, phase: Phase)

  type Requests = map<nat, Request>

  predicate Asked(requests: Requests, generation: nat, key: Key, id: nat) {
    id in requests && requests[id].generation == generation && key in requests[id].keys
  }

  /** The last request issued for the key since the connection was chosen. */
  ghost predicate IsLatest(requests: Requests, generation: nat, key: Key, id: nat) {
    Asked(requests, generation, key, id) &&
    forall other: nat :: Asked(requests, generation, key, other) ==> other <= id
  }

  /** Batch requests of the generation that have not run their last step. */
  function OpenBatches(requests: Requests, generation: nat): set<nat> {
    set id | id in requests && requests[id].batch && requests[id].generation == generation && !requests[id].phase.Finished?
  }

  /** `a` is nothing, or no later than `b`. */
  predicate NoLater(a: Option<nat>, b: Option<nat>) { a.Some? ==> b.Some? && a.value <= b.value }

  /** Within one generation, key by key, what a count was last brought by only moves on to later requests. */
  ghost predicate NeverGoesBack(g: nat, before: map<Key, Refresh>, h: nat, after: map<Key, Refresh>) {
    g <= h && (g == h ==> forall k :: k in before ==> k in after && NoLater(before[k].updatedBy, after[k].updatedBy))
  }

  /** Whenever a key is shown at two moments of one generation, the later count is not from an older request. */
  ghost predicate ShowsNoOlder(g: nat, before: map<Key, Count>, h: nat, after: map<Key, Count>) {
    g == h ==> forall k :: k in before && k in after ==> before[k].writer <= after[k].writer
  }

  ghost predicate Numbered(requests: Requests, sequence: nat, generation: nat) {
    forall id :: id in requests ==> id <= sequence && requests[id].generation <= generation
  }

  /** The refresh state of a key names the last request issued for it, and every asked key has one. */
  ghost predicate LatestKnown(requests: Requests, generation: nat, refresh: map<Key, Refresh>) {
    (forall id: nat, k :: Asked(requests, generation, k, id) ==> k in refresh && id <= refresh[k].requestId) &&
    (forall k :: k in refresh ==> Asked(requests, generation, k, refresh[k].requestId))
  }

  /**
   A shown count was brought by a request for its key, and the time of update kept is that request's.
   The time outlives the count: deleting an entity takes the count away and leaves the rest.
   */
  ghost predicate Shown(requests: Requests, generation: nat, refresh: map<Key, Refresh>, counts: map<Key, Count>) {
    (forall k :: k in counts ==> k in refresh && refresh[k].updatedBy == Some(counts[k].writer)) &&
    (forall k :: k in refresh && refresh[k].updatedBy.Some? ==> Asked(requests, generation, k, refresh[k].updatedBy.value))
  }

  /** Everything the store's fields say about requests. */
  ghost predicate Consistent(requests: Requests, sequence: nat, generation: nat,
                             refresh: map<Key, Refresh>, counts: map<Key, Count>)
  {
    Numbered(requests, sequence, generation) && LatestKnown(requests, generation, refresh) &&
    Shown(requests, generation, refresh, counts)
  }

  /** Nothing about asking changes when a request only moves on. */
  lemma MovingOn(requests: Requests, sequence: nat, generation: nat,
                 refresh: map<Key, Refresh>, counts: map<Key, Count>, id: nat, phase: Phase)
    requires id in requests && Consistent(requests, sequence, generation, refresh, counts)
    ensures Consistent(requests[id := requests[id].(phase := phase)], sequence, generation, refresh, counts)
    ensures SameAsking(requests, requests[id := requests[id].(phase := phase)])
  {
    assert SameAsking(requests, requests[id := requests[id].(phase := phase)]);
  }

  ghost predicate SameAsking(a: Requests, b: Requests) {
    forall g: nat, k, id: nat :: Asked(a, g, k, id) == Asked(b, g, k, id)
  }

  function Renamed(refresh: map<Key, Refresh>, keys: set<Key>, id: nat): map<Key, Refresh> {
    map k | k in refresh.Keys + keys ::
      if k !in keys then refresh[k]
      else if k in refresh then refresh[k].(requestId := id) else Refresh(id, None, false)
  }

  lemma IssueKeeps(requests: Requests, sequence: nat, generation: nat,
                   refresh: map<Key, Refresh>, counts: map<Key, Count>, keys: set<Key>, batch: bool)
    requires Consistent(requests, sequence, generation, refresh, counts)
    ensures var id := sequence + 1;
            var after := requests[id := Request(generation, keys, batch, InFlight)];
            id !in requests && Consistent(after, id, generation, Renamed(refresh, keys, id), counts) &&
            NeverGoesBack(generation, refresh, generation, Renamed(refresh, keys, id))
  {
    var id := sequence + 1;
    var after := requests[id := Request(generation, keys, batch, InFlight)];
    assert id !in requests;
    var now := Renamed(refresh, keys, id);
    forall other: nat, k | Asked(after, generation, k, other) ensures k in now && other <= now[k].requestId {
      if other != id { assert Asked(requests, generation, k, other); }
    }
    forall k | k in now ensures Asked(after, generation, k, now[k].requestId) {
      if k !in keys { assert Asked(requests, generation, k, refresh[k].requestId); }
    }
    forall k | k in now && now[k].updatedBy.Some? ensures Asked(after, generation, k, now[k].updatedBy.value) {
      assert Asked(requests, generation, k, refresh[k].updatedBy.value);
    }
  }

  /** The keys a request may still write: those it was the last to be issued for, in its own generation. */
  function CurrentKeys(requests: Requests, generation: nat, refresh: map<Key, Refresh>, id: nat): set<Key>
    requires id in requests
  {
    if generation == requests[id].generation then set k | k in refresh && refresh[k].requestId == id else {}
  }

  function Written(counts: map<Key, Count>, results: map<Key, int>, keys: set<Key>, id: nat): map<Key, Count>
    requires keys <= results.Keys
  {
    map k | k in counts.Keys + keys :: if k in keys then Count(results[k], id) else counts[k]
  }

  function Updated(refresh: map<Key, Refresh>, keys: set<Key>, id: nat): map<Key, Refresh> {
    map k | k in refresh :: if k in keys then Refresh(id, Some(id), false) else refresh[k]
  }

  function Failed(refresh: map<Key, Refresh>, keys: set<Key>): map<Key, Refresh> {
    map k | k in refresh :: if k in keys then refresh[k].(failed := true) else refresh[k]
  }

  lemma WriteKeeps(requests: Requests, sequence: nat, generation: nat, refresh: map<Key, Refresh>,
                   counts: map<Key, Count>, id: nat, results: map<Key, int>, keys: set<Key>)
    requires Consistent(requests, sequence, generation, refresh, counts) && id in requests
    requires keys <= results.Keys && keys <= CurrentKeys(requests, generation, refresh, id)
    ensures Consistent(requests, sequence, generation, Updated(refresh, keys, id), Written(counts, results, keys, id))
    ensures forall k :: k in keys ==> IsLatest(requests, generation, k, id)
    ensures NeverGoesBack(generation, refresh, generation, Updated(refresh, keys, id))
  {
    forall k | k in refresh ensures NoLater(refresh[k].updatedBy, Updated(refresh, keys, id)[k].updatedBy) {
      assert refresh[k].updatedBy.Some? ==> Asked(requests, generation, k, refresh[k].updatedBy.value);
    }
  }

  /**
   A count that is not shown, as after its entity was deleted, comes back with an answer exactly if
   that is the answer to the last request for its key, given in the same generation.
   */
  lemma ComesBackIff(requests: Requests, generation: nat, refresh: map<Key, Refresh>, counts: map<Key, Count>,
                     id: nat, results: map<Key, int>, k: Key)
    requires id in requests && k !in counts && LatestKnown(requests, generation, refresh)
    ensures k in Written(counts, results, results.Keys * CurrentKeys(requests, generation, refresh, id), id) <==>
            k in results && IsLatest(requests, generation, k, id)
  {
    if IsLatest(requests, generation, k, id) {
      assert Asked(requests, generation, k, refresh[k].requestId);
    }
  }

  /**
   An answer in plain words: a key is written if the answer has a count for it, its last request is this
   one and the connection is still the same; it then shows exactly that count. Failures only mark keys.
   */
  lemma AnswerMeans(requests: Requests, generation: nat, refresh: map<Key, Refresh>, counts: map<Key, Count>,
                    id: nat, results: map<Key, int>, errors: set<Key>, k: Key)
    requires id in requests
    ensures var current := CurrentKeys(requests, generation, refresh, id);
            var written := results.Keys * current;
            var shown, now := Written(counts, results, written, id), Failed(Updated(refresh, written, id), errors * current);
            var mine := generation == requests[id].generation && k in refresh && refresh[k].requestId == id;
            (k in shown <==> k in counts || (mine && k in results)) &&
            (k in shown ==> shown[k] == if mine && k in results then Count(results[k], id) else counts[k]) &&
            (k in now <==> k in refresh) &&
            (k in refresh ==>
               now[k].requestId == refresh[k].requestId &&
               now[k].updatedBy == (if mine && k in results then Some(id) else refresh[k].updatedBy) &&
               now[k].failed == ((mine && k in errors) || (!(mine && k in results) && refresh[k].failed)))
  {
  }

  lemma FailKeeps(requests: Requests, sequence: nat, generation: nat, refresh: map<Key, Refresh>,
                  counts: map<Key, Count>, keys: set<Key>)
    requires Consistent(requests, sequence, generation, refresh, counts)
    ensures Consistent(requests, sequence, generation, Failed(refresh, keys), counts)
    ensures NeverGoesBack(generation, refresh, generation, Failed(refresh, keys))
  {
  }

  lemma LatestAfter(a: Requests, b: Requests, generation: nat, keys: set<Key>, id: nat)
    requires SameAsking(a, b) && forall k :: k in keys ==> IsLatest(a, generation, k, id)
    ensures forall k :: k in keys ==> IsLatest(b, generation, k, id)
  {
  }

  class CountStore {
    var generation: nat
    var loading: nat
    var sequence: nat
    var counts: map<Key, Count>
    var refresh: map<Key, Refresh>
    /** Every request issued, each as the promise that holds its id, generation and keys. */
    var requests: Requests

    ghost predicate Valid()
      reads this
    {
      Consistent(requests, sequence, generation, refresh, counts) &&
      loading == |OpenBatches(requests, generation)| <= 1
    }

    constructor ()
      ensures Valid() && requests == map[]
    {
      generation, loading, sequence := 0, 0, 0;
      counts, refresh, requests := map[], map[], map[];
    }

    /** Issues a request for the keys: from now on only its answer may write them. */
    method Issue(keys: set<Key>, batch: bool) returns (id: nat)
      requires Valid() && (batch ==> loading == 0)
      modifies this
      ensures Valid() && counts == old(counts) && generation == old(generation)
      ensures id == sequence == old(sequence) + 1 && id !in old(requests)
      ensures requests == old(requests)[id := Request(generation, keys, batch, InFlight)]
      ensures loading == old(loading) + if batch then 1 else 0
      ensures NeverGoesBack(generation, old(refresh), generation, refresh)
      ensures forall k :: k in keys ==>
                k in refresh && refresh[k] == if k in old(refresh) then old(refresh)[k].(requestId := id) else Refresh(id, None, false)
      ensures forall k :: k in refresh && k !in keys ==> k in old(refresh) && refresh[k] == old(refresh)[k]
    {
      IssueKeeps(requests, sequence, generation, refresh, counts, keys, batch);
      OpenAfterIssue(requests, generation, sequence + 1, Request(generation, keys, batch, InFlight));
      sequence := sequence + 1;
      id := sequence;
      refresh := Renamed(refresh, keys, id);
      if batch {
        loading := loading + 1;
      }
      requests := requests[id := Request(generation, keys, batch, InFlight)];
    }

    /** A refresh of everything is refused while another is loading or when there is nothing to count. */
    method FetchCounts(keys: set<Key>, totalEntities: nat) returns (issued: Option<nat>)
      requires Valid()
      modifies this
      ensures Valid() && counts == old(counts) && generation == old(generation)
      ensures NeverGoesBack(generation, old(refresh), generation, refresh)
      ensures issued.Some? <==> totalEntities > 0 && old(loading) == 0
      ensures issued.Some? ==> requests == old(requests)[issued.value := Request(generation, keys, true, InFlight)]
      ensures issued == None ==> requests == old(requests) && refresh == old(refresh) && loading == old(loading)
    {
      if totalEntities == 0 || loading > 0 {
        sequence := sequence + 1;
        return None;
      }
      var id := Issue(keys, true);
      issued := Some(id);
    }

    method RefreshEntityCount(key: Key) returns (id: nat)
      requires Valid()
      modifies this
      ensures Valid() && counts == old(counts) && generation == old(generation) && loading == old(loading)
      ensures requests == old(requests)[id := Request(generation, {key}, false, InFlight)]
      ensures NeverGoesBack(generation, old(refresh), generation, refresh)
      ensures key in refresh && refresh[key].requestId == id
    {
      id := Issue({key}, false);
    }

    /** The answer to a request: counts for some keys, failures for others. Only current keys are written. */
    method Answer(id: nat, results: map<Key, int>, errors: set<Key>) returns (written: set<Key>)
      requires Valid() && id in requests && requests[id].phase.InFlight?
      modifies this
      ensures Valid() && generation == old(generation) && loading == old(loading)
      ensures requests == old(requests)[id := old(requests)[id].(phase := Answered)]
      ensures written == results.Keys * CurrentKeys(old(requests), generation, old(refresh), id)
      ensures counts == Written(old(counts), results, written, id)
      ensures forall k :: k in written ==> IsLatest(requests, generation, k, id)
      ensures refresh == Failed(Updated(old(refresh), written, id), errors * CurrentKeys(old(requests), generation, old(refresh), id))
      ensures NeverGoesBack(generation, old(refresh), generation, refresh)
    {
      var current := CurrentKeys(requests, generation, refresh, id);
      written := results.Keys * current;
      WriteKeeps(requests, sequence, generation, refresh, counts, id, results, written);
      counts, refresh := Written(counts, results, written, id), Updated(refresh, written, id);
      FailKeeps(requests, sequence, generation, refresh, counts, errors * current);
      NeverGoesBackTwice(generation, old(refresh), generation, refresh, generation, Failed(refresh, errors * current));
      refresh := Failed(refresh, errors * current);
      Close(id, Answered);
      LatestAfter(old(requests), requests, generation, written, id);
    }

    /** The request failed: its current keys are marked, no count changes. */
    method Fail(id: nat)
      requires Valid() && id in requests && requests[id].phase.InFlight?
      modifies this
      ensures Valid() && generation == old(generation) && loading == old(loading) && counts == old(counts)
      ensures requests == old(requests)[id := old(requests)[id].(phase := Answered)]
      ensures refresh == Failed(old(refresh), CurrentKeys(old(requests), generation, old(refresh), id))
      ensures NeverGoesBack(generation, old(refresh), generation, refresh)
    {
      var current := CurrentKeys(requests, generation, refresh, id);
      FailKeeps(requests, sequence, generation, refresh, counts, current);
      refresh := Failed(refresh, current);
      Close(id, Answered);
    }

    method Close(id: nat, phase: Phase)
      requires Valid() && id in requests && requests[id].phase.InFlight? && phase.Answered?
      modifies this`requests
      ensures Valid() && requests == old(requests)[id := old(requests)[id].(phase := phase)]
      ensures SameAsking(old(requests), requests)
    {
      MovingOn(requests, sequence, generation, refresh, counts, id, phase);
      OpenAfterMove(requests, generation, id, phase);
      requests := requests[id := requests[id].(phase := phase)];
    }

    /** The last step of a batch request. The counter is taken down only in its own generation, and never below zero. */
    method Settle(id: nat)
      requires Valid() && id in requests && requests[id].phase.Answered?
      requires requests[id].batch
      modifies this
      ensures Valid() && generation == old(generation) && counts == old(counts) && refresh == old(refresh)
      ensures requests == old(requests)[id := old(requests)[id].(phase := Finished)]
      ensures loading == old(loading) - if generation == old(requests)[id].generation then 1 else 0
    {
      MovingOn(requests, sequence, generation, refresh, counts, id, Finished);
      OpenAfterMove(requests, generation, id, Finished);
      if generation == requests[id].generation {
        loading := Max(0, loading - 1);
      }
      requests := requests[id := requests[id].(phase := Finished)];
    }

    /** Another connection: nothing of the old one is shown or counted any more. */
    method SetActiveConnection()
      requires Valid()
      modifies this
      ensures Valid() && generation == old(generation) + 1 && counts == map[] && refresh == map[] && loading == 0
      ensures requests == old(requests)
    {
      generation := generation + 1;
      counts, refresh, loading := map[], map[], 0;
      assert OpenBatches(requests, generation) == {};
    }

    /** A deleted entity: its counts go, while requests and refresh states stay. Nothing happens before a first listing. */
    method RemoveEntity(entity: Entity, listed: bool)
      requires Valid()
      modifies this`counts
      ensures Valid()
      ensures !listed ==> counts == old(counts)
      ensures listed ==> match entity
              case Queue(name) => counts.Keys == old(counts).Keys - {QueueKey(name)}
              case Subscription(topic, name) => counts.Keys == old(counts).Keys - {SubscriptionKey(topic, name)}
              case Topic(name) => forall k :: k in counts <==> k in old(counts) && (k.SubscriptionKey? ==> k.topic != name)
      ensures forall k :: k in counts ==> counts[k] == old(counts)[k]
    {
      if listed {
        counts := map k | k in counts && !BelongsTo(k, entity) :: counts[k];
      }
    }

    /**
     One thing that can happen next: a new request, an answer in any order, the end of one, a deleted
     entity, or a switch.
     */
    method Happens()
      requires Valid()
      modifies this
      ensures Valid() && NeverGoesBack(old(generation), old(refresh), generation, refresh)
      ensures ShowsNoOlder(old(generation), old(counts), generation, counts)
      ensures forall k :: k in counts && (k !in old(counts) || counts[k] != old(counts)[k]) ==>
                IsLatest(requests, generation, k, counts[k].writer)
    {
      var what, id: nat := *, *;
      if what == 5 {
        var entity: Entity, listed: bool := *, *;
        RemoveEntity(entity, listed);
      } else if what == 0 {
        var keys: set<Key> := *;
        var total: nat := *;
        var _ := FetchCounts(keys, total);
      } else if what == 1 {
        var key: Key := *;
        var _ := RefreshEntityCount(key);
      } else if what == 2 {
        SetActiveConnection();
      } else if id in requests && requests[id].phase.InFlight? {
        var results: map<Key, int> := *;
        var errors: set<Key> := *;
        if what == 3 {
          var _ := Answer(id, results, errors);
        } else {
          Fail(id);
        }
      } else if id in requests && requests[id].phase.Answered? && requests[id].batch {
        Settle(id);
      }
    }

    /** Any number of these, in any order: a key shown again, even after a deletion, shows nothing older. */
    method Run(steps: nat)
      requires Valid()
      modifies this
      ensures Valid() && NeverGoesBack(old(generation), old(refresh), generation, refresh)
      ensures ShowsNoOlder(old(generation), old(counts), generation, counts)
    {
      for step := 0 to steps
        invariant Valid() && NeverGoesBack(old(generation), old(refresh), generation, refresh)
      {
        ghost var g, before := generation, refresh;
        Happens();
        NeverGoesBackTwice(old(generation), old(refresh), g, before, generation, refresh);
      }
    }
  }

  lemma NeverGoesBackTwice(g: nat, a: map<Key, Refresh>, h: nat, b: map<Key, Refresh>, i: nat, c: map<Key, Refresh>)
    requires NeverGoesBack(g, a, h, b) && NeverGoesBack(h, b, i, c)
    ensures NeverGoesBack(g, a, i, c)
  {
    if g == i {
      forall k | k in a ensures k in c && NoLater(a[k].updatedBy, c[k].updatedBy) {
        assert NoLater(a[k].updatedBy, b[k].updatedBy) && NoLater(b[k].updatedBy, c[k].updatedBy);
      }
    }
  }

  lemma OpenAfterIssue(requests: Requests, generation: nat, id: nat, r: Request)
    requires id !in requests && r.generation == generation && r.phase.InFlight?
    ensures OpenBatches(requests[id := r], generation) == OpenBatches(requests, generation) + (if r.batch then {id} else {})
    ensures |OpenBatches(requests[id := r], generation)| == |OpenBatches(requests, generation)| + (if r.batch then 1 else 0)
  {
    assert OpenBatches(requests[id := r], generation) == OpenBatches(requests, generation) + (if r.batch then {id} else {});
  }

  /** Only finishing takes a batch of this generation out of the open ones. */
  lemma OpenAfterMove(requests: Requests, generation: nat, id: nat, phase: Phase)
    requires id in requests && !requests[id].phase.Finished?
    ensures OpenBatches(requests[id := requests[id].(phase := phase)], generation) ==
            OpenBatches(requests, generation) - (if phase.Finished? then {id} else {})
  {
  }
}

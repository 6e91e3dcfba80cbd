/**
 The refcounted keyed gate that serialises single-message scans of one source
 (single_message_sources.go, sourceOperations.acquire): any number of clients acquire, give up and
 release in any interleaving of the sections the mutex and the channel make atomic.
 */
module KeyedGate {
  import opened Common

  type Key = string
  type Id = nat

  /** One gate object: a channel of capacity one and the number of clients that know of it. */
  datatype Source = Source(full: bool, users: int)

  /** Gate objects by identity, and the table from keys to them; `next` is the identity of a new object. */
  datatype Registry = Registry(table: map<Key, Id>, sources: map<Id, Source>, next: Id)

  predicate Linked(r: Registry) {
    (forall key :: key in r.table ==> r.table[key] in r.sources) && (forall id :: id in r.sources ==> id < r.next)
  }

  /** The first section of acquire: find or make the gate of the key and join its users. */
  function Enlisted(r: Registry, key: Key): (Registry, Id)
    requires Linked(r)
  {
    if key in r.table then
      var id := r.table[key];
      (r.(sources := r.sources[id := r.sources[id].(users := r.sources[id].users + 1)]), id)
    else
      (Registry(r.table[key := r.next], r.sources[r.next := Source(false, 1)], r.next + 1), r.next)
  }

  /** forget: leave the users, and take the key off the table with the last of them. */
  function Forgotten(r: Registry, key: Key, id: Id): Registry
    requires id in r.sources
  {
    var left := r.sources[id].users - 1;
    var t := r.(sources := r.sources[id := r.sources[id].(users := left)]);
    if left == 0 then t.(table := t.table - {key}) else t
  }

  class SourceOperations {
    var r: Registry

    constructor ()
      ensures r == Registry(map[], map[], 0)
    {
      r := Registry(map[], map[], 0);
    }

    method Enlist(key: Key) returns (id: Id)
      requires Linked(r)
      modifies this
      ensures (r, id) == Enlisted(old(r), key)
      ensures Linked(r)
    {
      if key !in r.table {
        r := Registry(r.table[key := r.next], r.sources[r.next := Source(false, 0)], r.next + 1);
        assert r.sources[old(r.next) := Source(false, 1)] == old(r.sources)[old(r.next) := Source(false, 1)];
      }
      id := r.table[key];
      r := r.(sources := r.sources[id := r.sources[id].(users := r.sources[id].users + 1)]);
    }

    method Forget(key: Key, id: Id)
      requires id in r.sources
      modifies this
      ensures r == Forgotten(old(r), key, id)
    {
      r := r.(sources := r.sources[id := r.sources[id].(users := r.sources[id].users - 1)]);
      if r.sources[id].users == 0 {
        r := r.(table := r.table - {key});
      }
    }
  }

  // The protocol --------------------------------------------------------------------------------

  type Client = nat

  datatype Pc =
    | Idle
    | Queued(key: Key, id: Id)   // in select: the gate or the end of the context
    | Entered(key: Key, id: Id)  // token put into the gate, context about to be looked at
    | Holding(key: Key, id: Id)
    | Draining(key: Key, id: Id) // about to take a token back, on release or on a late cancellation
    | Leaving(key: Key, id: Id)  // about to forget

  datatype State = State(r: Registry, clients: map<Client, Pc>)

  datatype Event =
    | Start(c: Client, key: Key) | Enter(c: Client) | GiveUp(c: Client)
    | Confirm(c: Client) | Reject(c: Client) | Release(c: Client) | Drain(c: Client) | Forget(c: Client)

  const INITIAL := State(Registry(map[], map[], 0), map[])

  function PcOf(s: State, c: Client): Pc {
    if c in s.clients then s.clients[c] else Idle
  }

  predicate Full(s: State, id: Id) {
    id in s.r.sources && s.r.sources[id].full
  }

  function WithGate(s: State, id: Id, full: bool): State
    requires id in s.r.sources
  {
    s.(r := s.r.(sources := s.r.sources[id := s.r.sources[id].(full := full)]))
  }

  function At(s: State, c: Client, pc: Pc): State {
    s.(clients := s.clients[c := pc])
  }

  function Step(s: State, e: Event): Option<State> {
    var pc := PcOf(s, e.c);
    match e
    case Start(c, key) =>
      if pc.Idle? && Linked(s.r) then
        var (r, id) := Enlisted(s.r, key);
        Some(At(s.(r := r), c, Queued(key, id)))
      else None
    case Enter(c) =>
      if pc.Queued? && pc.id in s.r.sources && !Full(s, pc.id)
      then Some(At(WithGate(s, pc.id, true), c, Entered(pc.key, pc.id))) else None
    case GiveUp(c) => if pc.Queued? then Some(At(s, c, Leaving(pc.key, pc.id))) else None
    case Confirm(c) => if pc.Entered? then Some(At(s, c, Holding(pc.key, pc.id))) else None
    case Reject(c) => if pc.Entered? then Some(At(s, c, Draining(pc.key, pc.id))) else None
    case Release(c) => if pc.Holding? then Some(At(s, c, Draining(pc.key, pc.id))) else None
    case Drain(c) =>
      if pc.Draining? && Full(s, pc.id) then Some(At(WithGate(s, pc.id, false), c, Leaving(pc.key, pc.id))) else None
    case Forget(c) =>
      if pc.Leaving? && pc.id in s.r.sources then Some(At(s.(r := Forgotten(s.r, pc.key, pc.id)), c, Idle)) else None
  }

  function Exec(s: State, run: seq<Event>): Option<State>
    decreases |run|
  {
    if |run| == 0 then Some(s)
    else match Step(s, run[0])
      case None => None
      case Some(t) => Exec(t, run[1..])
  }

  // The invariant -------------------------------------------------------------------------------

  predicate HasToken(pc: Pc) { pc.Entered? || pc.Holding? || pc.Draining? }

  /** The clients that joined the users of a key and have not forgotten it yet. */
  function Users(s: State, key: Key): set<Client> {
    set c | c in s.clients && !s.clients[c].Idle? && s.clients[c].key == key
  }

  ghost predicate Registered(s: State) {
    Linked(s.r) &&
    (forall k1, k2 :: k1 in s.r.table && k2 in s.r.table && k1 != k2 ==> s.r.table[k1] != s.r.table[k2]) &&
    (forall c :: c in s.clients && !s.clients[c].Idle? ==>
       s.clients[c].key in s.r.table && s.r.table[s.clients[c].key] == s.clients[c].id)
  }

  ghost predicate Counted(s: State)
    requires Linked(s.r)
  {
    forall key :: key in s.r.table ==>
      s.r.sources[s.r.table[key]].users == |Users(s, key)| && Users(s, key) != {}
  }

  /** Two clients past the same gate are one, and a gate is full exactly while one is past it. */
  ghost predicate OneToken(s: State) {
    (forall c, d :: Past(s, c) && Past(s, d) && PcOf(s, c).id == PcOf(s, d).id ==> c == d) &&
    (forall c :: Past(s, c) ==> Full(s, PcOf(s, c).id)) &&
    (forall key :: key in s.r.table && Full(s, s.r.table[key]) ==> exists c :: Past(s, c) && PcOf(s, c).id == s.r.table[key])
  }

  predicate Past(s: State, c: Client) { HasToken(PcOf(s, c)) }

  ghost predicate Inv(s: State) {
    Registered(s) && Counted(s) && OneToken(s)
  }

  /** A user count of one means that nobody else knows the gate. */
  lemma LastUser(s: State, c: Client, d: Client)
    requires Registered(s) && Counted(s) && c in s.clients && !s.clients[c].Idle?
    requires s.r.sources[s.clients[c].id].users == 1
    requires d in s.clients && !s.clients[d].Idle? && s.clients[d].key == s.clients[c].key
    ensures d == c
  {
    var users := Users(s, s.clients[c].key);
    assert c in users && d in users && |users| == 1;
    assert |users - {c}| == 0;
    assert d !in users - {c};
  }

  ghost predicate Started(s: State, c: Client, key: Key, t: State) {
    Linked(s.r) && PcOf(s, c).Idle? &&
    var (r, id) := Enlisted(s.r, key);
    t == At(s.(r := r), c, Queued(key, id))
  }

  lemma StartRegisters(s: State, c: Client, key: Key, t: State)
    requires Registered(s) && Started(s, c, key, t)
    ensures Registered(t)
  {
  }

  lemma StartCounts(s: State, c: Client, key: Key, t: State)
    requires Registered(s) && Counted(s) && Started(s, c, key, t) && Registered(t)
    ensures Counted(t)
  {
    forall k | k in t.r.table ensures t.r.sources[t.r.table[k]].users == |Users(t, k)| && Users(t, k) != {} {
      UsersMove(s, c, t.clients[c], t, k);
      StartCountsKey(s, c, key, t, k);
    }
  }

  lemma StartCountsKey(s: State, c: Client, key: Key, t: State, k: Key)
    requires Registered(s) && Counted(s) && Started(s, c, key, t) && k in t.r.table && Linked(t.r)
    requires Users(t, k) == Users(s, k) - {c} + (if k == key then {c} else {})
    ensures t.r.sources[t.r.table[k]].users == |Users(t, k)| && Users(t, k) != {}
  {
    assert c !in Users(s, k);
    if k != key {
      assert k in s.r.table && t.r.table[k] == s.r.table[k];
      assert t.r.sources[t.r.table[k]] == s.r.sources[s.r.table[k]];
      assert Users(t, k) == Users(s, k);
    } else if key in s.r.table {
      assert |Users(t, k)| == |Users(s, k)| + 1;
    } else {
      assert Users(s, k) == {};
      assert Users(t, k) == {c};
    }
  }

  lemma StartKeepsTokens(s: State, c: Client, key: Key, t: State)
    requires Registered(s) && OneToken(s) && Started(s, c, key, t)
    ensures OneToken(t)
  {
    TokensStay(s, t);
  }

  /** Clients past a gate, and full gates, are the same in both states. */
  lemma TokensStay(s: State, t: State)
    requires OneToken(s)
    requires forall c :: Past(s, c) == Past(t, c) && (Past(s, c) ==> PcOf(s, c) == PcOf(t, c))
    requires forall id :: Full(t, id) == Full(s, id)
    requires forall key :: key in t.r.table && Full(t, t.r.table[key]) ==> key in s.r.table && s.r.table[key] == t.r.table[key]
    ensures OneToken(t)
  {
    forall key | key in t.r.table && Full(t, t.r.table[key])
      ensures exists c :: Past(t, c) && PcOf(t, c).id == t.r.table[key]
    {
      var c :| Past(s, c) && PcOf(s, c).id == s.r.table[key];
      assert Past(t, c) && PcOf(t, c).id == t.r.table[key];
    }
  }

  ghost predicate Forgot(s: State, c: Client, t: State) {
    PcOf(s, c).Leaving? && PcOf(s, c).id in s.r.sources &&
    t == At(s.(r := Forgotten(s.r, PcOf(s, c).key, PcOf(s, c).id)), c, Idle)
  }

  lemma ForgetRegisters(s: State, c: Client, t: State)
    requires Registered(s) && Counted(s) && Forgot(s, c, t)
    ensures Registered(t)
  {
    var key, id := PcOf(s, c).key, PcOf(s, c).id;
    if s.r.sources[id].users == 1 {
      forall d | d in t.clients && !t.clients[d].Idle? ensures t.clients[d].key != key {
        if s.clients[d].key == key { LastUser(s, c, d); }
      }
    }
  }

  lemma ForgetCounts(s: State, c: Client, t: State)
    requires Registered(s) && Counted(s) && Forgot(s, c, t) && Registered(t)
    ensures Counted(t)
  {
    forall k | k in t.r.table ensures t.r.sources[t.r.table[k]].users == |Users(t, k)| && Users(t, k) != {} {
      UsersMove(s, c, Idle, t, k);
      ForgetCountsKey(s, c, t, k);
    }
  }

  lemma ForgetCountsKey(s: State, c: Client, t: State, k: Key)
    requires Registered(s) && Counted(s) && Forgot(s, c, t) && k in t.r.table && Linked(t.r)
    requires Users(t, k) == Users(s, k) - {c}
    ensures t.r.sources[t.r.table[k]].users == |Users(t, k)| && Users(t, k) != {}
  {
    assert k in s.r.table && t.r.table[k] == s.r.table[k];
    assert c in Users(s, k) <==> k == PcOf(s, c).key;
    if k == PcOf(s, c).key {
      assert |Users(t, k)| == |Users(s, k)| - 1;
    } else {
      assert Users(t, k) == Users(s, k);
    }
  }

  /** One client moving changes the users of a key by at most that client. */
  lemma UsersMove(s: State, c: Client, pc: Pc, t: State, k: Key)
    requires t.clients == s.clients[c := pc]
    ensures Users(t, k) == Users(s, k) - {c} + (if !pc.Idle? && pc.key == k then {c} else {})
  {
  }

  lemma ForgetKeepsTokens(s: State, c: Client, t: State)
    requires Registered(s) && OneToken(s) && Forgot(s, c, t)
    ensures OneToken(t)
  {
    TokensStay(s, t);
  }

  /** The other steps move one client along its own gate: nobody joins or leaves. */
  ghost predicate Inside(s: State, t: State, c: Client) {
    c in s.clients && !s.clients[c].Idle? && t.r.table == s.r.table && t.r.next == s.r.next &&
    t.r.sources.Keys == s.r.sources.Keys &&
    (forall id :: id in s.r.sources ==> t.r.sources[id].users == s.r.sources[id].users) &&
    c in t.clients && t.clients == s.clients[c := t.clients[c]] && !t.clients[c].Idle? &&
    t.clients[c].key == s.clients[c].key && t.clients[c].id == s.clients[c].id &&
    (forall id :: id != s.clients[c].id ==> Full(t, id) == Full(s, id))
  }

  lemma InsideKeeps(s: State, t: State, c: Client)
    requires Registered(s) && Counted(s) && Inside(s, t, c)
    ensures Registered(t) && Counted(t)
  {
    assert Registered(t);
    forall k | k in t.r.table ensures Users(t, k) == Users(s, k) {
    }
  }

  /** A token goes in when it was out and comes out when it was in; otherwise the gate stays. */
  lemma TokenMoves(s: State, t: State, c: Client)
    requires Inv(s) && Inside(s, t, c)
    requires var id := PcOf(s, c).id;
             (Past(s, c) == Past(t, c) && Full(t, id) == Full(s, id)) ||
             (!Past(s, c) && Past(t, c) && !Full(s, id) && Full(t, id)) ||
             (Past(s, c) && !Past(t, c) && !Full(t, id))
    ensures OneToken(t)
  {
    var id := PcOf(s, c).id;
    forall d | d != c ensures PcOf(t, d) == PcOf(s, d) {}
    forall key | key in t.r.table && Full(t, t.r.table[key])
      ensures exists d :: Past(t, d) && PcOf(t, d).id == t.r.table[key]
    {
      if t.r.table[key] == id && Past(t, c) {
        assert PcOf(t, c).id == id;
      } else {
        var d :| Past(s, d) && PcOf(s, d).id == s.r.table[key];
        assert Past(t, d) && PcOf(t, d).id == t.r.table[key];
      }
    }
  }

  lemma StepKeeps(s: State, e: Event, t: State)
    requires Inv(s) && Step(s, e) == Some(t)
    ensures Inv(t)
  {
    match e {
      case Start(c, key) =>
        StartRegisters(s, c, key, t);
        StartCounts(s, c, key, t);
        StartKeepsTokens(s, c, key, t);
      case Forget(c) =>
        ForgetRegisters(s, c, t);
        ForgetCounts(s, c, t);
        ForgetKeepsTokens(s, c, t);
      case _ =>
        assert Inside(s, t, e.c);
        InsideKeeps(s, t, e.c);
        TokenMoves(s, t, e.c);
    }
  }

  lemma {:induction false} RunKeeps(s: State, run: seq<Event>)
    requires Inv(s) && Exec(s, run).Some?
    ensures Inv(Exec(s, run).value)
    decreases |run|
  {
    if |run| > 0 {
      var t := Step(s, run[0]).value;
      StepKeeps(s, run[0], t);
      RunKeeps(t, run[1..]);
    }
  }

  /** What every interleaving guarantees. */
  ghost predicate Safe(s: State) {
    (forall c, d :: PcOf(s, c).Holding? && PcOf(s, d).Holding? && PcOf(s, c).key == PcOf(s, d).key ==> c == d) &&
    (forall c, d :: !PcOf(s, c).Idle? && !PcOf(s, d).Idle? && PcOf(s, c).key == PcOf(s, d).key ==>
       PcOf(s, c).id == PcOf(s, d).id) &&
    (forall key :: key in s.r.table <==> exists c :: !PcOf(s, c).Idle? && PcOf(s, c).key == key)
  }

  /**
   At most one holder per key; all live clients of a key share one gate; a key is in the table exactly
   while some client is live on it, so the table ends empty.
   */
  lemma AlwaysSafe(run: seq<Event>)
    requires Exec(INITIAL, run).Some?
    ensures var s := Exec(INITIAL, run).value;
            Safe(s) && ((forall c :: PcOf(s, c).Idle?) ==> s.r.table == map[])
  {
    RunKeeps(INITIAL, run);
    var s := Exec(INITIAL, run).value;
    forall key | key in s.r.table ensures exists c :: !PcOf(s, c).Idle? && PcOf(s, c).key == key {
      var c :| c in Users(s, key);
      assert !PcOf(s, c).Idle?;
    }
  }

  /** A client that can run on its own: it waits for nobody. */
  predicate Moves(s: State, c: Client) {
    match PcOf(s, c)
    case Idle => true
    case Queued(_, _) => Step(s, Enter(c)).Some?
    case Entered(_, _) => Step(s, Confirm(c)).Some? && Step(s, Reject(c)).Some?
    case Holding(_, _) => Step(s, Release(c)).Some?
    case Draining(_, _) => Step(s, Drain(c)).Some?
    case Leaving(_, _) => Step(s, Forget(c)).Some?
  }

  lemma BlockedAtGate(s: State, c: Client)
    requires Inv(s) && !Moves(s, c)
    ensures PcOf(s, c).Queued? && PcOf(s, c).key in s.r.table && Full(s, s.r.table[PcOf(s, c).key])
  {
    assert c in s.clients && !s.clients[c].Idle?;
  }

  /** Only a queued client can be blocked, and then another client of its key is past the gate and runs. */
  lemma NoDeadlock(run: seq<Event>, c: Client) returns (d: Client)
    requires Exec(INITIAL, run).Some?
    ensures var s := Exec(INITIAL, run).value;
            Moves(s, d) && (!Moves(s, c) ==> PcOf(s, c).Queued? && HasToken(PcOf(s, d)) && PcOf(s, d).key == PcOf(s, c).key)
  {
    RunKeeps(INITIAL, run);
    d := MoverFor(Exec(INITIAL, run).value, c);
  }

  lemma MoverFor(s: State, c: Client) returns (d: Client)
    requires Inv(s)
    ensures Moves(s, d)
    ensures !Moves(s, c) ==> PcOf(s, c).Queued? && Past(s, d) && PcOf(s, d).key == PcOf(s, c).key
  {
    d := c;
    if !Moves(s, c) {
      BlockedAtGate(s, c);
      var key := PcOf(s, c).key;
      d :| Past(s, d) && PcOf(s, d).id == s.r.table[key];
      SameKey(s, d, key);
      PastMoves(s, d);
    }
  }

  lemma SameKey(s: State, d: Client, key: Key)
    requires Registered(s) && Past(s, d) && key in s.r.table && PcOf(s, d).id == s.r.table[key]
    ensures PcOf(s, d).key == key
  {
  }

  lemma PastMoves(s: State, d: Client)
    requires OneToken(s) && Past(s, d)
    ensures Moves(s, d)
  {
  }
}

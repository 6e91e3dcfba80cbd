/**
 Browsing and loading more in the front end (Toolbar.tsx): a request takes its cursors when the button
 is pressed and its answer is shown whenever it comes, if connection and selection still match.
 Meanwhile the list may be cleared, replaced or reset.
 */
module Loading {
  import opened Common
  import opened Peeking
  import opened MessageStore

  datatype PeekMode = PeekNormal | PeekDlq | PeekBoth

  datatype Sources = Sources(normal: seq<Message>, dlq: seq<Message>) {
    function Sub(deadLetter: bool): seq<Message> { if deadLetter then dlq else normal }

    predicate Good() { IsSource(normal, false) && IsSource(dlq, true) }
  }

  type Broker = map<string, Sources>

  predicate GoodBroker(broker: Broker) { forall e :: e in broker ==> broker[e].Good() }

  function At(broker: Broker, entity: string): Sources {
    if entity in broker then broker[entity] else Sources([], [])
  }

  /** One page still to be asked for, from one past the cursor. */
  datatype Ask = Ask(deadLetter: bool, cursor: Option<int>)

  /** A button press whose answer is still awaited, with what it remembers of its moment. */
  datatype Request =
    | Browse(entity: string, generation: nat, mode: PeekMode, count: nat)
    | More(entity: string, generation: nat, asks: seq<Ask>, count: nat)

  /** `accepted` is everything accepted since the list was last emptied or replaced, removed messages included. */
  datatype State = State(
    broker: Broker, generation: nat, selected: Option<string>,
    shown: seq<Message>, accepted: seq<Message>, pending: seq<Request>)

  datatype Event =
    | BrowsePressed(mode: PeekMode, count: nat)
    | MorePressed(mode: PeekMode, count: nat)
    | Answered(i: nat, ok: bool)
    | Removed(i: nat)
    | Cleared
    | Selected(entity: string)
    | Deselected
    | Switched(broker: Broker)
    | Enqueued(entity: string, message: Message)

  // The handlers --------------------------------------------------------------------------------

  function Start(cursor: Option<int>): Option<int> {
    if cursor == None then None else NextSequenceNumber(cursor.value)
  }

  predicate AtTheEnd(cursor: Option<int>) { cursor.Some? && NextSequenceNumber(cursor.value) == None }

  /** What "load more" asks one subqueue for: nothing behind the last number, nor without a cursor unless told to. */
  function AskOne(accepted: seq<Message>, deadLetter: bool, fromStart: bool): seq<Ask> {
    var cursor := MaxSequence(accepted, deadLetter);
    if AtTheEnd(cursor) || (cursor == None && !fromStart) then [] else [Ask(deadLetter, cursor)]
  }

  function Asks(accepted: seq<Message>, mode: PeekMode): seq<Ask> {
    match mode
    case PeekNormal => AskOne(accepted, false, false)
    case PeekDlq => AskOne(accepted, true, false)
    case PeekBoth => AskOne(accepted, false, true) + AskOne(accepted, true, true)
  }

  function BrowsePage(sources: Sources, mode: PeekMode, count: nat): seq<Message> {
    (if mode.PeekDlq? then [] else Page(sources.normal, count, None)) +
    (if mode.PeekNormal? then [] else Page(sources.dlq, count, None))
  }

  predicate Current(s: State, r: Request) { r.generation == s.generation && s.selected == Some(r.entity) }

  function Emptied(s: State): State { s.(shown := [], accepted := []) }

  function Accepted(messages: seq<Message>, shown: seq<Message>): seq<Message> {
    messages[..FitCount(messages, |shown|, TotalBytes(shown))]
  }

  function Without<T>(s: seq<T>, i: nat): seq<T>
    requires i < |s|
  {
    s[..i] + s[i + 1..]
  }

  /** The page an answer to `r` brings, read at the time of the answer. */
  function AnswerPage(s: State, r: Request): seq<Message>
    requires r.More? ==> |r.asks| > 0
  {
    var sources := At(s.broker, r.entity);
    if r.Browse? then BrowsePage(sources, r.mode, r.count)
    else Page(sources.Sub(r.asks[0].deadLetter), r.count, Start(r.asks[0].cursor))
  }

  predicate Asking(r: Request) { r.More? ==> |r.asks| > 0 }

  /** An answer: dropped if it failed or is out of date; a browse replaces the list, a page is appended to it. */
  function OnAnswer(s: State, i: nat, ok: bool): State {
    if i >= |s.pending| || !Asking(s.pending[i]) then s
    else
      var r := s.pending[i];
      var done := s.(pending := Without(s.pending, i));
      if !ok || !Current(s, r) then done
      else if r.Browse? then
        var more := Accepted(AnswerPage(s, r), []);
        done.(shown := more, accepted := more)
      else
        var more := Accepted(AnswerPage(s, r), s.shown);
        var next := if |r.asks| == 1 then done else s.(pending := s.pending[i := r.(asks := r.asks[1..])]);
        next.(shown := s.shown + more, accepted := s.accepted + more)
  }

  function OnEnqueued(broker: Broker, entity: string, m: Message): Broker {
    var sources := At(broker, entity);
    if !IsSource(sources.Sub(m.deadLetter) + [m], m.deadLetter) then broker
    else if m.deadLetter then broker[entity := sources.(dlq := sources.dlq + [m])]
    else broker[entity := sources.(normal := sources.normal + [m])]
  }

  function Step(s: State, event: Event): State {
    match event
    case BrowsePressed(mode, count) =>
      if s.selected == None then s
      else Emptied(s).(pending := s.pending + [Browse(s.selected.value, s.generation, mode, count)])
    case MorePressed(mode, count) =>
      var asks := Asks(s.accepted, mode);
      if s.selected == None || asks == [] then s
      else s.(pending := s.pending + [More(s.selected.value, s.generation, asks, count)])
    case Answered(i, ok) => OnAnswer(s, i, ok)
    case Removed(i) => if i < |s.shown| then s.(shown := Without(s.shown, i)) else s
    case Cleared => Emptied(s)
    case Selected(entity) => if s.selected == Some(entity) then s else Emptied(s).(selected := Some(entity))
    case Deselected => s.(selected := None)
    case Switched(broker) =>
      if GoodBroker(broker) then Emptied(s).(broker := broker, generation := s.generation + 1, selected := None) else s
    case Enqueued(entity, message) => s.(broker := OnEnqueued(s.broker, entity, message))
  }

  // What every step keeps -----------------------------------------------------------------------

  predicate Marks(source: seq<Message>, cursor: Option<int>) {
    cursor == None || exists i :: 0 <= i < |source| && source[i].sequence == cursor
  }

  predicate GoodAsk(sources: Sources, ask: Ask) { Marks(sources.Sub(ask.deadLetter), ask.cursor) && !AtTheEnd(ask.cursor) }

  predicate GoodRequest(broker: Broker, generation: nat, r: Request) {
    r.generation <= generation && Asking(r) &&
    (r.More? && r.generation == generation ==>
       forall a :: a in r.asks ==> GoodAsk(At(broker, r.entity), a))
  }

  predicate From(sources: Sources, messages: seq<Message>) {
    forall m :: m in messages ==> m in sources.Sub(m.deadLetter)
  }

  predicate Inv(s: State) {
    GoodBroker(s.broker) && (forall r :: r in s.pending ==> GoodRequest(s.broker, s.generation, r)) &&
    (s.selected.Some? ==> From(At(s.broker, s.selected.value), s.accepted))
  }

  ghost predicate CoversAll(accepted: seq<Message>, sources: Sources) {
    forall dl: bool :: Covers(accepted, sources.Sub(dl), dl)
  }

  /** What was accepted of each subqueue of the selected entity is a beginning of it: no gap, no repeat. */
  ghost predicate Covered(s: State) {
    s.selected.Some? ==> CoversAll(s.accepted, At(s.broker, s.selected.value))
  }

  /** The event empties or replaces the list, or leaves no entity selected. */
  predicate Replaces(s: State, event: Event) {
    match event
    case BrowsePressed(_, _) => s.selected.Some?
    case Answered(i, ok) => ok && i < |s.pending| && Current(s, s.pending[i]) && s.pending[i].Browse?
    case Cleared => true
    case Selected(entity) => s.selected != Some(entity)
    case Deselected => true
    case Switched(broker) => GoodBroker(broker)
    case _ => false
  }

  /**
   If the event appends a page, then it was asked for from the cursor as it stands now, or nothing of
   it is accepted.
   */
  predicate Fresh(s: State, event: Event) {
    event.Answered? && event.ok && event.i < |s.pending| && Current(s, s.pending[event.i]) &&
    s.pending[event.i].More? && Asking(s.pending[event.i]) ==>
      var r := s.pending[event.i];
      r.asks[0].cursor == MaxSequence(s.accepted, r.asks[0].deadLetter) || Accepted(AnswerPage(s, r), s.shown) == []
  }

  // Pages and beginnings ------------------------------------------------------------------------

  /** A page of a numbered source is a slice of it. */
  lemma PageIsSlice(source: seq<Message>, count: nat, start: Option<int>, j: nat)
    requires Numbered(source) && j <= |Page(source, count, start)|
    ensures Skip(source, start) + j <= |source|
    ensures Page(source, count, start)[..j] == source[Skip(source, start)..Skip(source, start) + j]
  {
    PageOfNumbered(source, count, start);
    var p := Skip(source, start);
    var rest := source[p..];
    var m := Min(count, |rest|);
    assert Page(source, count, start) == rest[..m] && j <= m;
    assert rest[..m][..j] == rest[..j] == source[p..p + j];
  }

  /** Where a marked cursor points: past the message that carries it. */
  lemma MarkedStart(source: seq<Message>, cursor: Option<int>) returns (p: nat)
    requires Numbered(source) && Marks(source, cursor) && !AtTheEnd(cursor)
    ensures p <= |source| && Skip(source, Start(cursor)) == p
    ensures cursor == if p == 0 then None else source[p - 1].sequence
  {
    if cursor == None {
      p := 0;
    } else {
      var i :| 0 <= i < |source| && source[i].sequence == cursor;
      SkipPast(source, i);
      p := i + 1;
    }
  }

  /** Covered, and asked from the cursor as it stands: the page continues exactly where the beginning ends. */
  lemma FreshExtends(accepted: seq<Message>, sources: Sources, ask: Ask, count: nat, j: nat)
    requires sources.Good() && GoodAsk(sources, ask)
    requires forall dl: bool :: Covers(accepted, sources.Sub(dl), dl)
    requires ask.cursor == MaxSequence(accepted, ask.deadLetter)
    requires j <= |Page(sources.Sub(ask.deadLetter), count, Start(ask.cursor))|
    ensures forall dl: bool ::
              Covers(accepted + Page(sources.Sub(ask.deadLetter), count, Start(ask.cursor))[..j], sources.Sub(dl), dl)
  {
    var dl := ask.deadLetter;
    assert sources.Sub(true) == sources.dlq && sources.Sub(false) == sources.normal;
    CursorStands(accepted, sources.Sub(dl), dl);
    assert Skip(sources.Sub(dl), Start(ask.cursor)) == |Of(accepted, dl)|;
    PageCovers(accepted, sources.Sub(dl), dl, count, Start(ask.cursor), j);
    assert Covers(accepted, sources.Sub(!dl), !dl);
    forall d: bool
      ensures Covers(accepted + Page(sources.Sub(dl), count, Start(ask.cursor))[..j], sources.Sub(d), d)
    {
      assert d == dl || d == !dl;
    }
  }

  /** Covered, and asked from anywhere else: accepting any of the page leaves a gap or repeats a message. */
  lemma StaleBreaks(accepted: seq<Message>, source: seq<Message>, dl: bool, cursor: Option<int>, count: nat, j: nat)
    requires IsSource(source, dl) && Marks(source, cursor) && !AtTheEnd(cursor)
    requires Covers(accepted, source, dl) && cursor != MaxSequence(accepted, dl)
    requires 0 < j <= |Page(source, count, Start(cursor))|
    ensures !Covers(accepted + Page(source, count, Start(cursor))[..j], source, dl)
  {
    var p := MarkedStart(source, cursor);
    PageIsSlice(source, count, Start(cursor), j);
    assert p != |Of(accepted, dl)| by {
      var k := |Of(accepted, dl)|;
      assert Of(accepted, dl) == source[..k];
      MaxSequenceOf(accepted, dl);
      MaxOfBeginning(source, dl, k);
    }
    SliceElsewhere(accepted, source, dl, p, Page(source, count, Start(cursor))[..j]);
  }

  lemma SliceElsewhere(accepted: seq<Message>, source: seq<Message>, dl: bool, p: nat, slice: seq<Message>)
    requires IsSource(source, dl) && Covers(accepted, source, dl) && p != |Of(accepted, dl)|
    requires slice != [] && StandsAt(slice, source, p)
    ensures !Covers(accepted + slice, source, dl)
  {
    OfPure(slice, dl);
    OfAppend(accepted, slice, dl);
    if Covers(accepted + slice, source, dl) {
      OnePlaceOnly(source, Of(accepted, dl), slice, p);
    }
  }

  /** No message stands in two places. */
  lemma OnePlaceOnly(source: seq<Message>, before: seq<Message>, slice: seq<Message>, p: nat)
    requires Numbered(source) && before + slice <= source && slice != [] && StandsAt(slice, source, p)
    ensures p == |before|
  {
    var k := |before|;
    assert (before + slice)[k] == slice[0];
    assert source[k] == source[p];
  }

  /** What is not a beginning stays none, whatever is appended. */
  lemma NeverMends(accepted: seq<Message>, more: seq<Message>, source: seq<Message>, dl: bool)
    requires Covers(accepted + more, source, dl)
    ensures Covers(accepted, source, dl)
  {
    OfAppend(accepted, more, dl);
  }

  lemma PageFrom(sources: Sources, ask: Ask, count: nat, j: nat)
    requires sources.Good() && j <= |Page(sources.Sub(ask.deadLetter), count, Start(ask.cursor))|
    ensures From(sources, Page(sources.Sub(ask.deadLetter), count, Start(ask.cursor))[..j])
  {
    PageIsSlice(sources.Sub(ask.deadLetter), count, Start(ask.cursor), j);
  }

  /** A browse shows a beginning of each subqueue it asked for. */
  lemma BrowseCovers(sources: Sources, mode: PeekMode, count: nat, j: nat)
    requires sources.Good() && j <= |BrowsePage(sources, mode, count)|
    ensures forall dl: bool :: Covers(BrowsePage(sources, mode, count)[..j], sources.Sub(dl), dl)
  {
    var all := BrowsePage(sources, mode, count);
    var first := if mode.PeekDlq? then [] else Page(sources.normal, count, None);
    PageOfNumbered(sources.normal, count, None);
    PageOfNumbered(sources.dlq, count, None);
    assert all[|first|..] <= sources.dlq;
    BrowsedCovers(sources.normal, sources.dlq, first, all, all[..j]);
    assert sources.Sub(true) == sources.dlq && sources.Sub(false) == sources.normal;
  }

  lemma BrowseFrom(sources: Sources, mode: PeekMode, count: nat, j: nat)
    requires sources.Good() && j <= |BrowsePage(sources, mode, count)|
    ensures From(sources, BrowsePage(sources, mode, count)[..j])
  {
    PageOfNumbered(sources.normal, count, None);
    PageOfNumbered(sources.dlq, count, None);
    assert forall m :: m in Page(sources.normal, count, None) ==> m in sources.Sub(m.deadLetter);
    assert forall m :: m in Page(sources.dlq, count, None) ==> m in sources.Sub(m.deadLetter);
  }

  /** What a browse brings: the first messages of each subqueue it asked for, the dead letters last. */
  lemma BrowseBrings(sources: Sources, mode: PeekMode, count: nat)
    requires sources.Good()
    ensures var normal, dead := sources.normal[..Min(count, |sources.normal|)], sources.dlq[..Min(count, |sources.dlq|)];
            BrowsePage(sources, mode, count) ==
            match mode { case PeekNormal => normal case PeekDlq => dead case PeekBoth => normal + dead }
  {
    PageOfNumbered(sources.normal, count, None);
    PageOfNumbered(sources.dlq, count, None);
    assert sources.normal[0..] == sources.normal && sources.dlq[0..] == sources.dlq;
  }

  lemma BrowsedCovers(normal: seq<Message>, dlq: seq<Message>, first: seq<Message>, messages: seq<Message>, accepted: seq<Message>)
    requires IsSource(normal, false) && IsSource(dlq, true)
    requires first <= normal && first <= messages && messages[|first|..] <= dlq && accepted <= messages
    ensures Covers(accepted, normal, false) && Covers(accepted, dlq, true)
  {
    if |accepted| <= |first| {
      assert accepted <= normal;
      OfPure(accepted, false);
    } else {
      var b := accepted[|first|..];
      assert accepted == first + b;
      assert b <= messages[|first|..];
      OneAfterTheOther(normal, dlq, first, b);
    }
  }

  lemma OneAfterTheOther(normal: seq<Message>, dlq: seq<Message>, a: seq<Message>, b: seq<Message>)
    requires AllIn(normal, false) && AllIn(dlq, true) && a <= normal && b <= dlq
    ensures Covers(a + b, normal, false) && Covers(a + b, dlq, true)
  {
    OfPure(a, false);
    OfPure(b, true);
    OfAppend(a, b, false);
    OfAppend(a, b, true);
  }

  // Every step keeps the invariant --------------------------------------------------------------

  lemma AsksAreGood(sources: Sources, accepted: seq<Message>, mode: PeekMode)
    requires From(sources, accepted)
    ensures forall a :: a in Asks(accepted, mode) ==> GoodAsk(sources, a)
  {
    forall dl: bool ensures Marks(sources.Sub(dl), MaxSequence(accepted, dl)) {
      MaxSequenceMeans(accepted, dl);
    }
  }

  lemma AnswerKeepsInv(s: State, i: nat, ok: bool)
    requires Inv(s)
    ensures Inv(OnAnswer(s, i, ok))
  {
    if i < |s.pending| {
      var r, t := s.pending[i], OnAnswer(s, i, ok);
      assert GoodRequest(s.broker, s.generation, r);
      forall q | q in t.pending ensures GoodRequest(s.broker, s.generation, q) {
        if q !in s.pending {
          assert forall a :: a in q.asks ==> a in r.asks;
        }
      }
      if ok && Current(s, r) {
        var sources, page := At(s.broker, r.entity), AnswerPage(s, r);
        if r.Browse? {
          BrowseFrom(sources, r.mode, r.count, FitCount(page, 0, 0));
        } else {
          PageFrom(sources, r.asks[0], r.count, FitCount(page, |s.shown|, TotalBytes(s.shown)));
        }
      }
    }
  }

  /** `now` holds what `before` held and perhaps more, at the end. */
  ghost predicate Grown(before: Sources, now: Sources) {
    now.Good() && forall dl: bool :: before.Sub(dl) <= now.Sub(dl)
  }

  lemma EnqueuedGrows(broker: Broker, entity: string, m: Message, e: string)
    requires GoodBroker(broker)
    ensures Grown(At(broker, e), At(OnEnqueued(broker, entity, m), e))
    ensures GoodBroker(OnEnqueued(broker, entity, m))
  {
  }

  lemma EnqueuedKeepsInv(s: State, entity: string, m: Message)
    requires Inv(s)
    ensures Inv(Step(s, Enqueued(entity, m)))
  {
    var broker := OnEnqueued(s.broker, entity, m);
    EnqueuedGrows(s.broker, entity, m, entity);
    forall r | r in s.pending ensures GoodRequest(broker, s.generation, r) {
      EnqueuedGrows(s.broker, entity, m, r.entity);
      if r.More? && r.generation == s.generation {
        forall a | a in r.asks ensures GoodAsk(At(broker, r.entity), a) {
          assert At(s.broker, r.entity).Sub(a.deadLetter) <= At(broker, r.entity).Sub(a.deadLetter);
        }
      }
    }
    if s.selected.Some? {
      EnqueuedGrows(s.broker, entity, m, s.selected.value);
    }
  }

  lemma StepKeepsInv(s: State, event: Event)
    requires Inv(s)
    ensures Inv(Step(s, event))
  {
    match event
    case Answered(i, ok) => AnswerKeepsInv(s, i, ok);
    case Enqueued(entity, m) => EnqueuedKeepsInv(s, entity, m);
    case MorePressed(mode, count) =>
      if s.selected.Some? {
        AsksAreGood(At(s.broker, s.selected.value), s.accepted, mode);
      }
    case _ =>
  }

  // Exactly which answers keep the list a beginning ---------------------------------------------

  /** A page appended to a list: it stays a beginning exactly if it was one and the page was asked for from its end. */
  lemma PageCoversIff(accepted: seq<Message>, sources: Sources, ask: Ask, count: nat, j: nat)
    requires sources.Good() && GoodAsk(sources, ask)
    requires j <= |Page(sources.Sub(ask.deadLetter), count, Start(ask.cursor))|
    ensures var now := accepted + Page(sources.Sub(ask.deadLetter), count, Start(ask.cursor))[..j];
            CoversAll(now, sources) <==>
            CoversAll(accepted, sources) && (ask.cursor == MaxSequence(accepted, ask.deadLetter) || j == 0)
  {
    var page := Page(sources.Sub(ask.deadLetter), count, Start(ask.cursor))[..j];
    if CoversAll(accepted, sources) {
      if ask.cursor == MaxSequence(accepted, ask.deadLetter) {
        FreshExtends(accepted, sources, ask, count, j);
      } else if j > 0 {
        StaleBreaks(accepted, sources.Sub(ask.deadLetter), ask.deadLetter, ask.cursor, count, j);
      } else {
        assert accepted + page == accepted;
      }
    } else if CoversAll(accepted + page, sources) {
      forall dl: bool ensures Covers(accepted, sources.Sub(dl), dl) {
        NeverMends(accepted, page, sources.Sub(dl), dl);
      }
    }
  }

  /** What an answer with a page does to the list, and when it is fresh. */
  lemma PageAppended(s: State, i: nat, r: Request, page: seq<Message>, j: nat)
    requires i < |s.pending| && r == s.pending[i] && r.More? && |r.asks| > 0 && Current(s, r)
    requires page == AnswerPage(s, r) && j == FitCount(page, |s.shown|, TotalBytes(s.shown))
    ensures OnAnswer(s, i, true).accepted == s.accepted + page[..j]
    ensures OnAnswer(s, i, true).broker == s.broker && OnAnswer(s, i, true).selected == s.selected
    ensures Fresh(s, Answered(i, true)) <==>
              r.asks[0].cursor == MaxSequence(s.accepted, r.asks[0].deadLetter) || j == 0
  {
    assert Accepted(page, s.shown) == page[..j];
  }

  lemma PageAnswerCovers(s: State, i: nat)
    requires Inv(s) && i < |s.pending| && s.pending[i].More? && Current(s, s.pending[i])
    ensures Covered(OnAnswer(s, i, true)) <==> Covered(s) && Fresh(s, Answered(i, true))
  {
    var r := s.pending[i];
    assert GoodRequest(s.broker, s.generation, r);
    var sources, page := At(s.broker, r.entity), AnswerPage(s, r);
    var j := FitCount(page, |s.shown|, TotalBytes(s.shown));
    PageAppended(s, i, r, page, j);
    PageCoversIff(s.accepted, sources, r.asks[0], r.count, j);
    assert Covered(s) == CoversAll(s.accepted, sources);
    assert Covered(OnAnswer(s, i, true)) == CoversAll(s.accepted + page[..j], sources);
  }

  /** New messages at the end of the sources change nothing for a list that came from them before. */
  lemma GrowthCovers(accepted: seq<Message>, before: Sources, now: Sources)
    requires From(before, accepted) && Grown(before, now)
    ensures forall dl: bool :: Covers(accepted, before.Sub(dl), dl) <==> Covers(accepted, now.Sub(dl), dl)
  {
    forall dl: bool ensures Covers(accepted, before.Sub(dl), dl) <==> Covers(accepted, now.Sub(dl), dl) {
      OfFrom(accepted, before, dl);
      BeginningOfLonger(Of(accepted, dl), before.Sub(dl), now.Sub(dl));
    }
  }

  lemma {:induction false} OfFrom(messages: seq<Message>, sources: Sources, dl: bool)
    requires From(sources, messages)
    ensures forall m :: m in Of(messages, dl) ==> m in sources.Sub(dl)
  {
    if |messages| > 0 {
      OfFrom(messages[..|messages| - 1], sources, dl);
    }
  }

  /** Of distinct messages, a beginning of the longer list with nothing new in it is one of the shorter. */
  lemma BeginningOfLonger(messages: seq<Message>, before: seq<Message>, now: seq<Message>)
    requires Numbered(now) && before <= now && forall m :: m in messages ==> m in before
    ensures messages <= before <==> messages <= now
  {
    if |before| < |now| {
      assert forall i :: 0 <= i < |before| ==> now[i].sequence.value < now[|before|].sequence.value;
      assert now[|before|] !in before;
    }
  }

  lemma EnqueuedCovers(s: State, entity: string, m: Message)
    requires Inv(s)
    ensures Covered(Step(s, Enqueued(entity, m))) <==> Covered(s)
  {
    if s.selected.Some? {
      EnqueuedGrows(s.broker, entity, m, s.selected.value);
      GrowthCovers(s.accepted, At(s.broker, s.selected.value),
                   At(OnEnqueued(s.broker, entity, m), s.selected.value));
    }
  }

  /**
   One event, exactly: afterwards each subqueue's list is a beginning if and only if the event replaced
   the list, or it was one before and the event appended nothing stale.
   */
  lemma StepCovers(s: State, event: Event)
    requires Inv(s)
    ensures Covered(Step(s, event)) <==> Replaces(s, event) || (Covered(s) && Fresh(s, event))
  {
    match event
    case Answered(i, ok) =>
      if ok && i < |s.pending| && Current(s, s.pending[i]) {
        var r := s.pending[i];
        assert GoodRequest(s.broker, s.generation, r);
        if r.Browse? {
          BrowseCovers(At(s.broker, r.entity), r.mode, r.count, FitCount(AnswerPage(s, r), 0, 0));
        } else {
          PageAnswerCovers(s, i);
        }
      }
    case Enqueued(entity, m) => EnqueuedCovers(s, entity, m);
    case _ =>
  }

  // Whole runs ----------------------------------------------------------------------------------

  function Run(s: State, events: seq<Event>): State {
    if |events| == 0 then s else Step(Run(s, events[..|events| - 1]), events[|events| - 1])
  }

  /** Since the list was last emptied or replaced, every page appended was asked for from where the list ended. */
  predicate FreshSinceReplaced(s: State, events: seq<Event>) {
    |events| == 0 ||
    var before, last := Run(s, events[..|events| - 1]), events[|events| - 1];
    Replaces(before, last) || (FreshSinceReplaced(s, events[..|events| - 1]) && Fresh(before, last))
  }

  lemma {:induction false} RunKeepsInv(s: State, events: seq<Event>)
    requires Inv(s)
    ensures Inv(Run(s, events))
  {
    if |events| > 0 {
      RunKeepsInv(s, events[..|events| - 1]);
      StepKeepsInv(Run(s, events[..|events| - 1]), events[|events| - 1]);
    }
  }

  /**
   Whatever is pressed, answered, removed, cleared, selected and enqueued, in any order: what was accepted
   of each subqueue is a beginning of it if and only if no stale page was appended since the list was last
   emptied or replaced.
   */
  lemma {:induction false} CoveredIffFresh(s: State, events: seq<Event>)
    requires Inv(s) && Covered(s)
    ensures Covered(Run(s, events)) <==> FreshSinceReplaced(s, events)
  {
    if |events| > 0 {
      CoveredIffFresh(s, events[..|events| - 1]);
      RunKeepsInv(s, events[..|events| - 1]);
      StepCovers(Run(s, events[..|events| - 1]), events[|events| - 1]);
    }
  }

  // While one request is awaited ----------------------------------------------------------------

  /** At most one request is awaited, and its cursors are where the list ends. */
  predicate Waiting(s: State) {
    |s.pending| <= 1 &&
    forall r :: r in s.pending && r.More? && Current(s, r) ==>
      (forall a :: a in r.asks ==> a.cursor == MaxSequence(s.accepted, a.deadLetter)) && DistinctAsks(r.asks)
  }

  predicate DistinctAsks(asks: seq<Ask>) {
    forall i, j :: 0 <= i < j < |asks| ==> asks[i].deadLetter != asks[j].deadLetter
  }

  /** While a request is awaited no other is made, the list is not cleared and the selection stays. */
  predicate Undisturbed(s: State, event: Event) {
    s.pending == [] || event.Answered? || event.Removed? || event.Enqueued?
  }

  predicate UndisturbedRun(s: State, events: seq<Event>) {
    |events| == 0 ||
    (UndisturbedRun(s, events[..|events| - 1]) && Undisturbed(Run(s, events[..|events| - 1]), events[|events| - 1]))
  }

  /** A page of one subqueue leaves the other one's cursor alone. */
  lemma OtherCursorStays(accepted: seq<Message>, source: seq<Message>, dl: bool, slice: seq<Message>)
    requires AllIn(source, dl) && forall m :: m in slice ==> m in source
    ensures MaxSequence(accepted + slice, !dl) == MaxSequence(accepted, !dl)
  {
    assert forall i :: 0 <= i < |slice| ==> slice[i] in slice;
    OfPure(slice, dl);
    OfAppend(accepted, slice, !dl);
    assert Of(accepted, !dl) + [] == Of(accepted, !dl);
    MaxSequenceOf(accepted, !dl);
    MaxSequenceOf(accepted + slice, !dl);
  }

  /** The rest of a "both" request is still asked for from where the list ends. */
  lemma RestIsWaiting(s: State, r: Request, j: nat)
    requires Inv(s) && r.More? && |r.asks| > 1 && j <= |AnswerPage(s, r)|
    requires DistinctAsks(r.asks) && forall a :: a in r.asks ==> a.cursor == MaxSequence(s.accepted, a.deadLetter)
    ensures DistinctAsks(r.asks[1..])
    ensures forall a :: a in r.asks[1..] ==> a.cursor == MaxSequence(s.accepted + AnswerPage(s, r)[..j], a.deadLetter)
  {
    var ask, sources, page := r.asks[0], At(s.broker, r.entity), AnswerPage(s, r);
    PageIsSlice(sources.Sub(ask.deadLetter), r.count, Start(ask.cursor), j);
    OtherCursorStays(s.accepted, sources.Sub(ask.deadLetter), ask.deadLetter, page[..j]);
  }

  lemma AnswerStaysWaiting(s: State, i: nat, ok: bool)
    requires Inv(s) && Waiting(s)
    ensures Waiting(OnAnswer(s, i, ok)) && Fresh(s, Answered(i, ok))
  {
    if i < |s.pending| {
      var r := s.pending[i];
      assert GoodRequest(s.broker, s.generation, r);
      if ok && Current(s, r) && r.More? && |r.asks| > 1 {
        RestIsWaiting(s, r, FitCount(AnswerPage(s, r), |s.shown|, TotalBytes(s.shown)));
      }
    }
  }

  lemma AsksStandWhereTheListEnds(accepted: seq<Message>, mode: PeekMode)
    ensures DistinctAsks(Asks(accepted, mode))
    ensures forall a :: a in Asks(accepted, mode) ==> a.cursor == MaxSequence(accepted, a.deadLetter)
  {
  }

  lemma UndisturbedStep(s: State, event: Event)
    requires Inv(s) && Waiting(s) && Undisturbed(s, event)
    ensures Waiting(Step(s, event)) && Fresh(s, event)
  {
    match event
    case Answered(i, ok) => AnswerStaysWaiting(s, i, ok);
    case MorePressed(mode, _) => AsksStandWhereTheListEnds(s.accepted, mode);
    case _ =>
  }

  /** With one request at a time and nothing pressed meanwhile but "remove", there is never a gap or a repeat. */
  lemma {:induction false} UndisturbedIsCovered(s: State, events: seq<Event>)
    requires Inv(s) && Covered(s) && Waiting(s) && UndisturbedRun(s, events)
    ensures Covered(Run(s, events)) && Waiting(Run(s, events))
  {
    if |events| > 0 {
      var before := events[..|events| - 1];
      UndisturbedIsCovered(s, before);
      RunKeepsInv(s, before);
      UndisturbedStep(Run(s, before), events[|events| - 1]);
      StepCovers(Run(s, before), events[|events| - 1]);
    }
  }

  // Clearing the list while a page is awaited ---------------------------------------------------

  lemma RunThree(s: State, a: Event, b: Event, c: Event)
    ensures Run(s, [a, b, c]) == Step(Step(Step(s, a), b), c)
  {
    assert [a, b, c][..2] == [a, b] && [a, b][..1] == [a] && [a][..0] == [];
    assert Run(s, [a]) == Step(Run(s, []), a);
    assert Run(s, [a, b]) == Step(Run(s, [a]), b);
  }

  lemma {:induction false} RunSplits(s: State, before: seq<Event>, events: seq<Event>)
    ensures Run(s, before + events) == Run(Run(s, before), events)
  {
    if |events| == 0 {
      assert before + events == before;
    } else {
      var n := |events| - 1;
      assert (before + events)[..|before| + n] == before + events[..n];
      RunSplits(s, before, events[..n]);
    }
  }

  /** A page of one message: it fits an empty list, and the next page has the next message. */
  lemma OneAtATime(a: Message, b: Message)
    requires IsSource([a, b], false) && a.size == b.size == 0
    ensures a != b && !AtTheEnd(a.sequence)
    ensures Page([a, b], 1, None) == [a] && Page([a, b], 1, Some(a.sequence.value + 1)) == [b]
    ensures Accepted([a], []) == [a] && Accepted([b], []) == [b]
    ensures MaxSequence([a], false) == a.sequence
  {
    var source := [a, b];
    assert source[0].sequence.value < source[1].sequence.value <= MAX_SEQUENCE;
    PageOfNumbered(source, 1, None);
    SkipPast(source, 0);
    PageOfNumbered(source, 1, Some(a.sequence.value + 1));
    assert source[0..] == source && source[..1] == [a] && source[1..] == [b];
    forall m: Message | m.size == 0 ensures Accepted([m], []) == [m] {
      assert [m][..1] == [m] && [m][..0] == [];
      IsLongestFit([m], 1, 1, 0, 0);
    }
  }

  /**
   Select an entity of two messages, browse the first, press "load more", clear the list before the
   answer comes: the second message is then shown without the first.
   */
  lemma ClearedWhileAwaited(e: string, a: Message, b: Message)
    requires IsSource([a, b], false) && a.size == b.size == 0
    ensures var s := State(map[e := Sources([a, b], [])], 0, None, [], [], []);
            Inv(s) && Covered(s) && Run(s, BrowseFirst(e) + LoadMoreAndClear()).shown == [b] &&
            !Covered(Run(s, BrowseFirst(e) + LoadMoreAndClear()))
  {
    var broker := map[e := Sources([a, b], [])];
    var s := State(broker, 0, None, [], [], []);
    assert At(broker, e) == Sources([a, b], []);
    FirstShown(broker, e, a, b);
    ShownAlone(broker, e, a, b);
    RunSplits(s, BrowseFirst(e), LoadMoreAndClear());
    OneAtATime(a, b);
    GapShows(broker, e, a, b);
  }

  lemma GapShows(broker: Broker, e: string, a: Message, b: Message)
    requires IsSource([a, b], false) && a != b && At(broker, e) == Sources([a, b], [])
    ensures !Covered(State(broker, 0, Some(e), [b], [b], []))
  {
    assert [a, b][0] == a && [a, b][1] == b;
    NotABeginning(b, [a, b]);
    assert !Covers([b], Sources([a, b], []).Sub(false), false);
  }

  function BrowseFirst(e: string): seq<Event> { [Selected(e), BrowsePressed(PeekNormal, 1), Answered(0, true)] }

  function LoadMoreAndClear(): seq<Event> { [MorePressed(PeekNormal, 1), Cleared, Answered(0, true)] }

  lemma FirstShown(broker: Broker, e: string, a: Message, b: Message)
    requires IsSource([a, b], false) && a.size == b.size == 0 && At(broker, e) == Sources([a, b], [])
    ensures Run(State(broker, 0, None, [], [], []), BrowseFirst(e)) == State(broker, 0, Some(e), [a], [a], [])
  {
    var s := State(broker, 0, None, [], [], []);
    RunThree(s, Selected(e), BrowsePressed(PeekNormal, 1), Answered(0, true));
    assert Step(Step(s, Selected(e)), BrowsePressed(PeekNormal, 1)) ==
           State(broker, 0, Some(e), [], [], [Browse(e, 0, PeekNormal, 1)]);
    OneAtATime(a, b);
    OneAnswer(State(broker, 0, Some(e), [], [], [Browse(e, 0, PeekNormal, 1)]), a);
  }

  lemma ShownAlone(broker: Broker, e: string, a: Message, b: Message)
    requires IsSource([a, b], false) && a.size == b.size == 0 && At(broker, e) == Sources([a, b], [])
    ensures Run(State(broker, 0, Some(e), [a], [a], []), LoadMoreAndClear()) == State(broker, 0, Some(e), [b], [b], [])
  {
    OneAtATime(a, b);
    var s := State(broker, 0, Some(e), [a], [a], []);
    RunThree(s, MorePressed(PeekNormal, 1), Cleared, Answered(0, true));
    assert Step(Step(s, MorePressed(PeekNormal, 1)), Cleared) ==
           State(broker, 0, Some(e), [], [], [More(e, 0, [Ask(false, a.sequence)], 1)]);
    OneAnswer(State(broker, 0, Some(e), [], [], [More(e, 0, [Ask(false, a.sequence)], 1)]), b);
  }

  /** The only request is answered with one message, which fits the empty list. */
  lemma OneAnswer(s: State, m: Message)
    requires |s.pending| == 1 && Current(s, s.pending[0]) && s.shown == s.accepted == []
    requires s.pending[0].More? ==> |s.pending[0].asks| == 1
    requires AnswerPage(s, s.pending[0]) == [m] == Accepted([m], [])
    ensures Step(s, Answered(0, true)) == s.(shown := [m], accepted := [m], pending := [])
  {
  }

  lemma NotABeginning(b: Message, source: seq<Message>)
    requires IsSource(source, false) && |source| > 0 && source[0] != b && !b.deadLetter
    ensures !Covers([b], source, false)
  {
    OfPure([b], false);
  }

  // Progress ------------------------------------------------------------------------------------

  /** An answer asked for from where the list ends, not cut by a budget, adds messages or completes the subqueue. */
  lemma FreshAnswerProgresses(s: State, i: nat)
    requires Inv(s) && Covered(s) && i < |s.pending| && s.pending[i].More? && Current(s, s.pending[i])
    requires var r := s.pending[i];
             Asking(r) && r.count > 0 && r.asks[0].cursor == MaxSequence(s.accepted, r.asks[0].deadLetter) &&
             Accepted(AnswerPage(s, r), s.shown) == AnswerPage(s, r)
    ensures var dl := s.pending[i].asks[0].deadLetter;
            var now := Of(OnAnswer(s, i, true).accepted, dl);
            |now| > |Of(s.accepted, dl)| || now == At(s.broker, s.selected.value).Sub(dl)
  {
    var r := s.pending[i];
    assert GoodRequest(s.broker, s.generation, r);
    PageProgresses(s.accepted, At(s.broker, r.entity), r.asks[0], r.count);
  }

  lemma PageProgresses(accepted: seq<Message>, sources: Sources, ask: Ask, count: nat)
    requires sources.Good() && GoodAsk(sources, ask) && CoversAll(accepted, sources)
    requires count > 0 && ask.cursor == MaxSequence(accepted, ask.deadLetter)
    ensures var now := Of(accepted + Page(sources.Sub(ask.deadLetter), count, Start(ask.cursor)), ask.deadLetter);
            |now| > |Of(accepted, ask.deadLetter)| || now == sources.Sub(ask.deadLetter)
  {
    var source := sources.Sub(ask.deadLetter);
    assert Covers(accepted, source, ask.deadLetter);
    CursorStands(accepted, source, ask.deadLetter);
    PageBrings(accepted, source, ask.deadLetter, count, Start(ask.cursor));
  }

  /** The page that starts where the accepted beginning ends makes it longer, unless it is whole. */
  lemma PageBrings(accepted: seq<Message>, source: seq<Message>, deadLetter: bool, count: nat, start: Option<int>)
    requires IsSource(source, deadLetter) && Covers(accepted, source, deadLetter) && count > 0
    requires Skip(source, start) == |Of(accepted, deadLetter)|
    ensures var now := Of(accepted + Page(source, count, start), deadLetter);
            |now| > |Of(accepted, deadLetter)| || now == source
  {
    var page := Page(source, count, start);
    if page == [] {
      EmptyPage(source, count, start);
      assert accepted + page == accepted;
    } else {
      assert page[..|page|] == page;
      PageCovers(accepted, source, deadLetter, count, start, |page|);
    }
  }

  lemma EmptyPage(source: seq<Message>, count: nat, start: Option<int>)
    requires Numbered(source) && count > 0 && Page(source, count, start) == []
    ensures Skip(source, start) == |source|
  {
    PageOfNumbered(source, count, start);
  }

  predicate Wants(mode: PeekMode, deadLetter: bool) {
    match mode
    case PeekNormal => !deadLetter
    case PeekDlq => deadLetter
    case PeekBoth => true
  }

  /** "Load more" asks a subqueue at most once, only one the mode wants, and never behind the last number. */
  lemma AsksOnlyWanted(s: State, mode: PeekMode, i: nat)
    requires i < |Asks(s.accepted, mode)|
    ensures var a := Asks(s.accepted, mode)[i];
            Wants(mode, a.deadLetter) && a.cursor != Some(MAX_SEQUENCE) && (a.cursor == None ==> mode.PeekBoth?) &&
            forall j :: 0 <= j < |Asks(s.accepted, mode)| && j != i ==> Asks(s.accepted, mode)[j].deadLetter != a.deadLetter
  {
  }

  /** A subqueue that "load more" does not ask for is complete, or nothing of it was loaded in a single mode. */
  lemma NotAskedMeansComplete(s: State, mode: PeekMode, deadLetter: bool)
    requires Inv(s) && Covered(s) && s.selected.Some? && Wants(mode, deadLetter)
    requires forall a :: a in Asks(s.accepted, mode) ==> a.deadLetter != deadLetter
    ensures var source := At(s.broker, s.selected.value).Sub(deadLetter);
            Of(s.accepted, deadLetter) == source || (Of(s.accepted, deadLetter) == [] && !mode.PeekBoth?)
  {
    var source := At(s.broker, s.selected.value).Sub(deadLetter);
    CursorStands(s.accepted, source, deadLetter);
    var one := AskOne(s.accepted, deadLetter, mode.PeekBoth?);
    if one != [] {
      assert one[0] in Asks(s.accepted, mode);
    }
  }

  // The handlers over the store -----------------------------------------------------------------

  class Loader {
    const store: Store
    var broker: Broker
    var generation: nat
    var selected: Option<string>
    var pending: seq<Request>

    constructor (broker: Broker)
      requires GoodBroker(broker)
      ensures fresh(store) && Valid() && View() == State(broker, 0, None, [], [], [])
    {
      store := new Store();
      this.broker, generation, selected, pending := broker, 0, None, [];
    }

    ghost predicate Valid()
      reads this, store
    {
      store.Valid() && Inv(View())
    }

    ghost function View(): State
      reads this, store
    {
      State(broker, generation, selected, store.peekMessages, store.accepted, pending)
    }

    /** The list is emptied before the request is even sent. */
    method PressBrowse(mode: PeekMode, count: nat)
      requires Valid()
      modifies this, store
      ensures Valid() && View() == Step(old(View()), BrowsePressed(mode, count))
    {
      StepKeepsInv(View(), BrowsePressed(mode, count));
      if selected.Some? {
        var request := Browse(selected.value, generation, mode, count);
        store.ClearPeekResults();
        pending := pending + [request];
      }
    }

    /** One subqueue: nothing to ask at the end of the numbers, nor in a single mode before anything is loaded. */
    method NextAsk(deadLetter: bool, fromStart: bool) returns (asks: seq<Ask>)
      requires store.Valid()
      ensures asks == AskOne(store.accepted, deadLetter, fromStart)
    {
      var cursor := if deadLetter then store.lastDlq else store.lastNormal;
      if cursor == None {
        return if fromStart then [Ask(deadLetter, None)] else [];
      }
      if NextSequenceNumber(cursor.value) == None {
        return [];
      }
      asks := [Ask(deadLetter, cursor)];
    }

    /** Both cursors of a "both" request are taken before the first answer. */
    method NextAsks(mode: PeekMode) returns (asks: seq<Ask>)
      requires store.Valid()
      ensures asks == Asks(store.accepted, mode)
    {
      match mode {
        case PeekNormal => asks := NextAsk(false, false);
        case PeekDlq => asks := NextAsk(true, false);
        case PeekBoth =>
          var normal := NextAsk(false, true);
          var dlq := NextAsk(true, true);
          asks := normal + dlq;
      }
    }

    method PressMore(mode: PeekMode, count: nat)
      requires Valid()
      modifies this`pending
      ensures Valid() && View() == Step(old(View()), MorePressed(mode, count))
    {
      StepKeepsInv(View(), MorePressed(mode, count));
      if selected == None {
        return;
      }
      var asks := NextAsks(mode);
      if asks != [] {
        pending := pending + [More(selected.value, generation, asks, count)];
      }
    }

    /** The worker's pages for a browse, one subqueue after the other. */
    method PeekForBrowse(mode: PeekMode, count: nat, sources: Sources)
        returns (messages: seq<Message>, ok: bool, log: seq<PeekCall>)
      requires sources.Good()
      ensures ok ==> messages == BrowsePage(sources, mode, count)
      ensures Called(log, ok)
    {
      var canAdvance;
      messages, ok, log := [], true, [];
      if !mode.PeekDlq? {
        messages, canAdvance, ok, log := PeekMessagesForSource(sources.normal, count, None);
      }
      if ok && !mode.PeekNormal? {
        var page, _, peeked, more := PeekMessagesForSource(sources.dlq, count, None);
        CalledBoth(log, more, peeked);
        messages, ok, log := messages + page, peeked, log + more;
      }
    }

    /** The page the worker brings for the i-th request, or its failure. */
    method Fetch(i: nat) returns (page: seq<Message>, ok: bool, log: seq<PeekCall>)
      requires Valid() && i < |pending|
      ensures Called(log, ok)
      ensures Asking(pending[i]) && (ok ==> page == AnswerPage(View(), pending[i]))
    {
      var r := pending[i];
      assert GoodRequest(broker, generation, r);
      var sources := At(broker, r.entity);
      if r.Browse? {
        page, ok, log := PeekForBrowse(r.mode, r.count, sources);
      } else {
        var canAdvance;
        page, canAdvance, ok, log := PeekMessagesForSource(sources.Sub(r.asks[0].deadLetter), r.count, Start(r.asks[0].cursor));
      }
    }

    /** The worker answers the i-th request, or fails because a call of its own did. */
    method Answer(i: nat) returns (ok: bool, log: seq<PeekCall>)
      requires Valid() && i < |pending|
      modifies this, store
      ensures Called(log, ok)
      ensures Valid() && View() == Step(old(View()), Answered(i, ok))
    {
      var page;
      page, ok, log := Fetch(i);
      StepKeepsInv(View(), Answered(i, ok));
      Apply(i, page, ok);
    }

    /** Shows the page if connection and selection are still those of the press. */
    method Apply(i: nat, page: seq<Message>, ok: bool)
      requires store.Valid() && i < |pending| && Asking(pending[i]) && (ok ==> page == AnswerPage(View(), pending[i]))
      modifies this, store
      ensures store.Valid() && View() == Step(old(View()), Answered(i, ok))
    {
      var r := pending[i];
      if !ok || r.generation != generation || selected != Some(r.entity) {
        pending := Without(pending, i);
      } else if r.Browse? {
        store.SetPeekResults(page);
        pending := Without(pending, i);
      } else {
        Append(i, page);
      }
    }

    /** A page of "load more"; the request goes on if another subqueue is still to be asked. */
    method Append(i: nat, page: seq<Message>)
      requires store.Valid() && i < |pending| && pending[i].More? && Asking(pending[i])
      modifies this, store
      ensures store.Valid() && broker == old(broker) && generation == old(generation) && selected == old(selected)
      ensures store.peekMessages == old(store.peekMessages) + Accepted(page, old(store.peekMessages))
      ensures store.accepted == old(store.accepted) + Accepted(page, old(store.peekMessages))
      ensures var r := old(pending)[i];
              pending == if |r.asks| == 1 then Without(old(pending), i) else old(pending)[i := r.(asks := r.asks[1..])]
    {
      var r := pending[i];
      var _ := store.AppendPeekResults(page);
      pending := if |r.asks| > 1 then pending[i := r.(asks := r.asks[1..])] else Without(pending, i);
    }

    method Clear()
      requires Valid()
      modifies store
      ensures Valid() && View() == Step(old(View()), Cleared)
    {
      store.ClearPeekResults();
    }

    method Remove(matches: Message -> bool) returns (ghost first: nat)
      requires Valid()
      modifies store
      ensures Valid() && View() == Step(old(View()), Removed(first))
    {
      StepKeepsInv(View(), Removed(0));
      first := store.RemovePeekedMessage(matches);
    }

    /** Selecting the same entity again resets nothing. */
    method Select(entity: string)
      requires Valid()
      modifies this, store
      ensures Valid() && View() == Step(old(View()), Selected(entity))
    {
      if selected == Some(entity) {
        return;
      }
      store.ClearPeekResults();
      selected := Some(entity);
    }

    method Deselect()
      requires Valid()
      modifies this
      ensures Valid() && View() == Step(old(View()), Deselected)
    {
      selected := None;
    }

    method SwitchConnection(other: Broker)
      requires Valid() && GoodBroker(other)
      modifies this, store
      ensures Valid() && View() == Step(old(View()), Switched(other))
    {
      StepKeepsInv(View(), Switched(other));
      store.ClearPeekResults();
      broker, generation, selected := other, generation + 1, None;
    }
  }
}

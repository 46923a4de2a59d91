/** The bus together with the tables that the document handler writes. */
module DocumentBus {
  import opened Wrappers
  import opened Envelope
  import opened Registry
  import opened EventBus
  import opened EventBusRuns
  import opened EventBusTables
  import opened EventBusOutcomes
  import opened Documents

  const DOCUMENT_HANDLER := "handle_document_created"

  datatype World = World(bus: Bus, store: Store)

  /** The end of a call of the document handler. */
  predicate EndsDocumentCall(b: Bus, e: Event) {
    e.Ending? && e.i < |b.pool| && b.pool[e.i].id.handler == DOCUMENT_HANDLER
  }

  /** The call returned exactly when the handler did, and the tables are as the handler left them. */
  predicate CallTells(c: Config, env: Setting, w: World, e: Event, after: Store)
    requires EndsDocumentCall(w.bus, e)
  {
    var envelope := FromFields(c.codec, w.bus.pool[e.i].fields);
    && envelope.Success?
    && after == Handle(env, w.store, envelope.value).0
    && (e.outcome.Returned? <==> Handle(env, w.store, envelope.value).1.None?)
  }

  /** One step of the bus; only calls of the document handler write the tables. */
  ghost predicate Moves(c: Config, w: World, e: Event, w': World) {
    && Enabled(c, w.bus, e) && w'.bus == Step(c, w.bus, e)
    && if EndsDocumentCall(w.bus, e) then exists env :: CallTells(c, env, w, e, w'.store) else w'.store == w.store
  }

  ghost predicate Travels(c: Config, w: World, events: seq<Event>, w': World)
    decreases |events|
  {
    if events == [] then w' == w
    else
      var n := |events| - 1;
      exists mid :: Travels(c, w, events[..n], mid) && Moves(c, mid, events[n], w')
  }

  /** Document `n` has the event's tenant and title, and no version. */
  ghost predicate Stuck(st: Store, e: EventEnvelope, n: nat) {
    && e.tenantId.Some? && "title" in e.payload
    && n < |st.documents| && st.documents[n].tenant == e.tenantId.value && st.documents[n].title == e.payload["title"]
    && forall v :: v in st.versions ==> v.document != n
  }

  lemma HandleKeepsStuck(env: Setting, st: Store, other: EventEnvelope, e: EventEnvelope, n: nat)
    requires Stuck(st, e, n)
    ensures Stuck(Handle(env, st, other).0, e, n)
  {
    var after := Handle(env, st, other).0;
    assert after.documents[n] == st.documents[n];
  }

  /** A stuck document makes the handler raise for its event. */
  lemma StuckRaises(env: Setting, st: Store, e: EventEnvelope, n: nat)
    requires Stuck(st, e, n)
    ensures Handle(env, st, e).0 == st && Handle(env, st, e).1.Some?
  {
    assert TitleTaken(st, e.tenantId.value, e.payload["title"]);
    BlockedFails(env, st, e);
  }

  /** Dispatch `d` is the document handler's, for the message of `e`. */
  ghost predicate DispatchOf(c: Config, b: Bus, d: Dispatch, e: EventEnvelope) {
    && d.handler == DOCUMENT_HANDLER && d.message < |b.stream| && FromFields(c.codec, b.stream[d.message]) == Success(e)
  }

  /** While its document is stuck, a dispatch that has not succeeded does not succeed. */
  lemma MoveKeepsStuck(c: Config, w: World, ev: Event, w': World, d: Dispatch, e: EventEnvelope, n: nat)
    requires DistinctNames(c.registry) && Reachable(c, w.bus) && Moves(c, w, ev, w')
    requires Stuck(w.store, e, n) && DispatchOf(c, w.bus, d, e) && d !in w.bus.log.succeeded
    ensures Stuck(w'.store, e, n) && DispatchOf(c, w'.bus, d, e) && d !in w'.bus.log.succeeded
  {
    StreamGrows(c, w.bus, ev);
    if EndsDocumentCall(w.bus, ev) {
      var env :| CallTells(c, env, w, ev, w'.store);
      var envelope := FromFields(c.codec, w.bus.pool[ev.i].fields).value;
      HandleKeepsStuck(env, w.store, envelope, e, n);
      if w.bus.pool[ev.i].id == d {
        ReachableTask(c, w.bus, ev.i);
        StuckRaises(env, w.store, e, n);
      }
    }
    SuccessNeedsReturn(c, w.bus, ev, d);
  }

  /** A dispatch joins the successes only when its own call returns. */
  lemma SuccessNeedsReturn(c: Config, b: Bus, ev: Event, d: Dispatch)
    requires Enabled(c, b, ev) && d !in b.log.succeeded
    ensures d in Step(c, b, ev).log.succeeded ==> ev.Ending? && b.pool[ev.i].id == d && ev.outcome.Returned?
  {
  }

  lemma {:induction false} TravelKeepsStuck(c: Config, w: World, events: seq<Event>, w': World,
                                            d: Dispatch, e: EventEnvelope, n: nat)
    requires DistinctNames(c.registry) && Reachable(c, w.bus) && Travels(c, w, events, w')
    requires Stuck(w.store, e, n) && DispatchOf(c, w.bus, d, e) && d !in w.bus.log.succeeded
    ensures Reachable(c, w'.bus)
    ensures Stuck(w'.store, e, n) && DispatchOf(c, w'.bus, d, e) && d !in w'.bus.log.succeeded
    decreases |events|
  {
    if events != [] {
      var k := |events| - 1;
      var mid :| Travels(c, w, events[..k], mid) && Moves(c, mid, events[k], w');
      TravelKeepsStuck(c, w, events[..k], mid, d, e, n);
      MoveKeepsStuck(c, mid, events[k], w', d, e, n);
      LeadsOn(c, mid.bus, events[k]);
    }
  }

  lemma {:induction false} TravelKeepsSent(c: Config, w: World, events: seq<Event>, w': World, d: Dispatch)
    requires Travels(c, w, events, w') && d in w.bus.dispatched
    ensures d in w'.bus.dispatched
    decreases |events|
  {
    if events != [] {
      var k := |events| - 1;
      var mid :| Travels(c, w, events[..k], mid) && Moves(c, mid, events[k], w');
      TravelKeepsSent(c, w, events[..k], mid, d);
      SentStays(c, mid.bus, events[k]);
    }
  }

  lemma SentStays(c: Config, b: Bus, e: Event)
    requires Enabled(c, b, e)
    ensures b.dispatched <= Step(c, b, e).dispatched
  {
  }

  /** Only the document handler gets the message, so that only its success could have recorded it. */
  lemma AloneIsNotRecorded(c: Config, b: Bus, d: Dispatch, e: EventEnvelope)
    requires DistinctNames(c.registry) && Reachable(c, b) && d in b.dispatched && d !in b.log.succeeded
    requires DispatchOf(c, b, d, e) && |HandlersOf(c.registry, e.eventType)| <= 1
    ensures !IsProcessed(b, d.message)
  {
    if IsProcessed(b, d.message) {
      RecordedIsOnly(c, b, d);
    }
  }

  /** On a drained bus with a sufficient cap, a dispatch that was not recorded, nor its worker killed, is dead. */
  lemma UnrecordedIsDead(c: Config, b: Bus, d: Dispatch)
    requires Sound(c) && CapSuffices(c) && Reachable(c, b) && Drained(b)
    requires d in b.dispatched && d !in b.log.killed && !IsProcessed(b, d.message)
    ensures d in b.log.buried
  {
    var history :| Leads(c, IDLE, history, b);
    LossesExplained(c, history, b);
    ExactlyOnePlace(c, b, d);
    DrainedIsRecordedOrDead(c, b, d);
  }

  /**
   Once a call has left a document without a version: when the bus is drained, the dispatch is dead-lettered
   (unless its worker died), and the document still has no version.
   */
  lemma StuckEndsDead(c: Config, w: World, events: seq<Event>, w': World, d: Dispatch, e: EventEnvelope, n: nat)
    requires Sound(c) && CapSuffices(c) && Reachable(c, w.bus) && Travels(c, w, events, w')
    requires Stuck(w.store, e, n) && DispatchOf(c, w.bus, d, e) && d in w.bus.dispatched && d !in w.bus.log.succeeded
    requires |HandlersOf(c.registry, e.eventType)| <= 1 && Drained(w'.bus) && d !in w'.bus.log.killed
    ensures Stuck(w'.store, e, n) && d in w'.bus.log.buried
  {
    TravelKeepsStuck(c, w, events, w', d, e, n);
    TravelKeepsSent(c, w, events, w', d);
    AloneIsNotRecorded(c, w'.bus, d, e);
    UnrecordedIsDead(c, w'.bus, d);
  }

  /**
   A running call that leaves the tables half done, from consistent tables: its document never gets a version, and
   its dispatch is dead-lettered by the time the bus is drained.
   */
  lemma HalfDoneEndsDead(c: Config, w: World, i: nat, error: string, env: Setting, e: EventEnvelope,
                         w1: World, events: seq<Event>, w2: World)
    requires Sound(c) && CapSuffices(c) && Reachable(c, w.bus) && Consistent(w.store)
    requires Enabled(c, w.bus, Ending(i, Raised(error))) && DispatchOf(c, w.bus, w.bus.pool[i].id, e)
    requires HalfDone(env, w.store, e)
    requires w1 == World(End(c, w.bus, i, Raised(error)), Handle(env, w.store, e).0) && Travels(c, w1, events, w2)
    requires |HandlersOf(c.registry, e.eventType)| <= 1 && Drained(w2.bus) && w.bus.pool[i].id !in w2.bus.log.killed
    ensures Stuck(w2.store, e, |w.store.documents|) && w.bus.pool[i].id in w2.bus.log.buried
  {
    var d := w.bus.pool[i].id;
    HalfDoneWrites(env, w.store, e);
    HalfDoneIsStuck(env, w.store, e);
    OpenIsUnrecorded(c, w.bus, i);
    SuccessNeedsReturn(c, w.bus, Ending(i, Raised(error)), d);
    SentStays(c, w.bus, Ending(i, Raised(error)));
    StreamGrows(c, w.bus, Ending(i, Raised(error)));
    LeadsOn(c, w.bus, Ending(i, Raised(error)));
    StuckEndsDead(c, w1, events, w2, d, e, |w.store.documents|);
  }

  lemma HalfDoneIsStuck(env: Setting, st: Store, e: EventEnvelope)
    requires Consistent(st) && HalfDone(env, st, e)
    ensures Stuck(Handle(env, st, e).0, e, |st.documents|)
  {
    HalfDoneWrites(env, st, e);
  }

  lemma OpenIsUnrecorded(c: Config, b: Bus, i: nat)
    requires DistinctNames(c.registry) && Reachable(c, b) && i < |b.pool|
    ensures b.pool[i].id in b.dispatched && b.pool[i].id !in b.log.succeeded
  {
    ReachableSent(c, b);
    Alone(c, b, i);
  }
}

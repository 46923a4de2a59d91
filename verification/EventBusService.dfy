/** The bus as its publisher, its poll task and its workers act on it. */
module EventBusService {
  import opened Wrappers
  import opened Envelope
  import opened Registry
  import opened EventBus
  import opened EventBusTables

  predicate PollEvent(e: Event) {
    e.Reading? || e.Starting? || e.Sending? || e.Acking?
  }

  /** `after` is reached from `b` by steps of polls alone. */
  ghost predicate Polls(c: Config, b: Bus, after: Bus) {
    exists events :: Leads(c, b, events, after) && forall e :: e in events ==> PollEvent(e)
  }

  lemma PollsNothing(c: Config, b: Bus)
    ensures Polls(c, b, b)
  {
    assert Leads(c, b, [], b);
  }

  lemma PollsOn(c: Config, b: Bus, mid: Bus, e: Event)
    requires Polls(c, b, mid) && PollEvent(e) && Enabled(c, mid, e)
    ensures Polls(c, b, Step(c, mid, e))
  {
    var events :| Leads(c, b, events, mid) && forall e :: e in events ==> PollEvent(e);
    var longer := events + [e];
    assert longer[..|events|] == events;
    assert Leads(c, b, longer, Step(c, mid, e));
  }

  lemma {:induction false} LeadsFrom(c: Config, b: Bus, mid: Bus, events: seq<Event>, after: Bus)
    requires Polls(c, b, mid) && Leads(c, mid, events, after) && forall e :: e in events ==> PollEvent(e)
    ensures Polls(c, b, after)
    decreases |events|
  {
    if events != [] {
      var n := |events| - 1;
      var last :| Leads(c, mid, events[..n], last) && Enabled(c, last, events[n]) && after == Step(c, last, events[n]);
      LeadsFrom(c, b, mid, events[..n], last);
      PollsOn(c, b, last, events[n]);
    }
  }

  lemma PollsJoin(c: Config, b: Bus, mid: Bus, after: Bus)
    requires Polls(c, b, mid) && Polls(c, mid, after)
    ensures Polls(c, b, after)
  {
    var events :| Leads(c, mid, events, after) && forall e :: e in events ==> PollEvent(e);
    LeadsFrom(c, b, mid, events, after);
  }

  /** What a run reaches from a reachable state is reachable, so that every theorem about runs applies to it. */
  lemma {:induction false} RunsStayReachable(c: Config, b: Bus, events: seq<Event>, after: Bus)
    requires Reachable(c, b) && Leads(c, b, events, after)
    ensures Reachable(c, after)
    decreases |events|
  {
    if events != [] {
      var n := |events| - 1;
      var mid :| Leads(c, b, events[..n], mid) && Enabled(c, mid, events[n]) && after == Step(c, mid, events[n]);
      RunsStayReachable(c, b, events[..n], mid);
      LeadsOn(c, mid, events[n]);
    }
  }

  ghost function Range(first: nat, n: nat): set<nat> {
    if n == 0 then {} else Range(first, n - 1) + {first + n - 1}
  }

  /** Deliveries of `n` messages from `first` on, not taken up yet. */
  function Unstarted(first: nat, n: nat): seq<Delivery> {
    seq(n, k requires 0 <= k < n => Delivery(first + k, false, 0))
  }

  lemma FirstUnstarted(front: seq<Delivery>, first: nat, n: nat)
    requires n > 0
    ensures (front + Unstarted(first, n))[|front|] == Delivery(first, false, 0)
    ensures Without(front + Unstarted(first, n), |front|) == front + Unstarted(first + 1, n - 1)
  {
    assert Unstarted(first, n)[1..] == Unstarted(first + 1, n - 1);
  }

  /** The deliveries once delivery `i` was sent to `n` handlers. */
  function SentOut(c: Config, b: Bus, i: nat, n: nat): seq<Delivery>
    requires i < |b.inflight|
  {
    b.inflight[i := b.inflight[i].(sent := n)]
  }

  /** A poll on its way: delivery `i` was sent to its first `n` handlers. */
  ghost predicate SendingOut(c: Config, b: Bus, i: nat, n: nat, mid: Bus)
    requires i < |b.inflight|
  {
    && Polls(c, b, mid)
    && mid.stream == b.stream && mid.cursor == b.cursor && mid.acked == b.acked && mid.inflight == SentOut(c, b, i, n)
  }

  lemma SendsOn(c: Config, b: Bus, i: nat, n: nat, mid: Bus, names: seq<string>)
    requires i < |b.inflight| && b.inflight[i].message < |b.stream| && b.inflight[i].started
    requires names == Names(c, b.stream[b.inflight[i].message]) && n < |names| && SendingOut(c, b, i, n, mid)
    ensures SendingOut(c, b, i, n + 1, Send(mid, i, names[n]))
  {
    PollsOn(c, b, mid, Sending(i));
  }

  /** A poll on its way: of its `n` messages the first `k` are acknowledged. */
  ghost predicate PollingOn(b: Bus, n: nat, k: nat, mid: Bus)
    requires k <= n
  {
    && mid.stream == b.stream && mid.cursor == b.cursor + n <= |mid.stream|
    && mid.inflight == b.inflight + Unstarted(b.cursor + k, n - k)
    && mid.acked == b.acked + Range(b.cursor, k)
  }

  lemma DeliversOn(b: Bus, n: nat, k: nat, mid: Bus, after: Bus)
    requires k < n && PollingOn(b, n, k, mid)
    requires after.stream == mid.stream && after.cursor == mid.cursor
    requires after.acked == mid.acked + {b.cursor + k} && after.inflight == Without(mid.inflight, |b.inflight|)
    ensures PollingOn(b, n, k + 1, after)
  {
    FirstUnstarted(b.inflight, b.cursor + k, n - k);
  }

  class Worker {
    var bus: Bus

    constructor ()
      ensures bus == IDLE
    {
      bus := IDLE;
    }

    method Publish(c: Config, e: EventEnvelope) returns (message: nat)
      modifies this
      ensures bus == Step(c, old(bus), Publishing(e))
      ensures message == |old(bus).stream| && bus.stream[message] == ToFields(c.codec, e)
    {
      message := |bus.stream|;
      bus := bus.(stream := bus.stream + [ToFields(c.codec, e)]);
    }

    /** Queues one message for every handler. */
    method SendAll(c: Config, i: nat)
      requires i < |bus.inflight| && bus.inflight[i].message < |bus.stream| && bus.inflight[i].started
      requires bus.inflight[i].sent == 0
      modifies this
      ensures Polls(c, old(bus), bus)
      ensures bus.stream == old(bus).stream && bus.cursor == old(bus).cursor && bus.acked == old(bus).acked
      ensures bus.inflight == SentOut(c, old(bus), i, |Names(c, bus.stream[old(bus).inflight[i].message])|)
    {
      var names := Names(c, bus.stream[bus.inflight[i].message]);
      PollsNothing(c, bus);
      var n := 0;
      while n < |names|
        invariant 0 <= n <= |names| && SendingOut(c, old(bus), i, n, bus)
      {
        SendsOn(c, old(bus), i, n, bus, names);
        bus := Send(bus, i, names[n]);
        n := n + 1;
      }
    }

    /** One message: skipped if processed, else sent to every handler of its type; acknowledged either way. */
    method DeliverMessage(c: Config, i: nat)
      requires i < |bus.inflight| && bus.inflight[i].message < |bus.stream|
      requires !bus.inflight[i].started && bus.inflight[i].sent == 0
      modifies this
      ensures Polls(c, old(bus), bus)
      ensures bus.stream == old(bus).stream && bus.cursor == old(bus).cursor
      ensures bus.acked == old(bus).acked + {old(bus).inflight[i].message}
      ensures bus.inflight == Without(old(bus).inflight, i)
    {
      PollsNothing(c, bus);
      PollsOn(c, old(bus), bus, Starting(i));
      var processed := IsProcessed(bus, bus.inflight[i].message);
      bus := Start(bus, i);
      if !processed {
        ghost var started := bus;
        SendAll(c, i);
        PollsJoin(c, old(bus), started, bus);
        PollsOn(c, old(bus), bus, Acking(i));
        bus := Ack(bus, i);
      }
    }

    /** A blocking read: up to `batch` messages become this poll's. */
    method ReadBatch(c: Config, batch: nat) returns (n: nat)
      requires bus.cursor <= |bus.stream|
      modifies this
      ensures Polls(c, old(bus), bus)
      ensures n <= batch && (n < batch ==> bus.cursor == |bus.stream|)
      ensures bus.stream == old(bus).stream && bus.acked == old(bus).acked
      ensures bus.cursor == old(bus).cursor + n <= |bus.stream|
      ensures bus.inflight == old(bus).inflight + Unstarted(old(bus).cursor, n)
    {
      n := 0;
      PollsNothing(c, bus);
      while n < batch && bus.cursor < |bus.stream|
        invariant n <= batch && Polls(c, old(bus), bus)
        invariant bus.stream == old(bus).stream && bus.acked == old(bus).acked
        invariant bus.cursor == old(bus).cursor + n <= |bus.stream|
        invariant bus.inflight == old(bus).inflight + Unstarted(old(bus).cursor, n)
      {
        PollsOn(c, old(bus), bus, Reading);
        bus := Read(bus);
        n := n + 1;
      }
    }

    /** The next message of a batch of `n`, whose first `k` are done. */
    method DeliverNext(c: Config, ghost first: Bus, n: nat, k: nat, base: nat)
      requires k < n && base == |first.inflight| && Polls(c, first, bus) && PollingOn(first, n, k, bus)
      modifies this
      ensures Polls(c, first, bus) && PollingOn(first, n, k + 1, bus)
    {
      FirstUnstarted(first.inflight, first.cursor + k, n - k);
      DeliverMessage(c, base);
      PollsJoin(c, first, old(bus), bus);
      DeliversOn(first, n, k, old(bus), bus);
    }

    /** All messages of a batch of `n`. */
    method DeliverBatch(c: Config, ghost first: Bus, n: nat, base: nat)
      requires base == |first.inflight| && Polls(c, first, bus) && PollingOn(first, n, 0, bus)
      modifies this
      ensures Polls(c, first, bus) && PollingOn(first, n, n, bus)
    {
      var k := 0;
      while k < n
        invariant 0 <= k <= n && Polls(c, first, bus) && PollingOn(first, n, k, bus)
      {
        DeliverNext(c, first, n, k, base);
        k := k + 1;
      }
    }

    /** A whole poll is a run of poll steps that reads up to `batch` messages and acknowledges exactly those. */
    method PollStream(c: Config, batch: nat) returns (n: nat)
      requires bus.cursor <= |bus.stream|
      modifies this
      ensures Polls(c, old(bus), bus)
      ensures n <= batch && (n < batch ==> bus.cursor == |bus.stream|)
      ensures bus.stream == old(bus).stream && bus.inflight == old(bus).inflight
      ensures bus.cursor == old(bus).cursor + n
      ensures bus.acked == old(bus).acked + Range(old(bus).cursor, n)
    {
      n := ReadBatch(c, batch);
      DeliverBatch(c, old(bus), n, |bus.inflight| - n);
      assert Unstarted(old(bus).cursor + n, 0) == [];
    }

    /**
     The part of a dispatch before the handler call: the handler to call and the envelope to call it with, nothing
     if there is nothing to do, or the error of fields that cannot be read, which ends the dispatch.
     */
    method StartDispatch(c: Config, i: nat) returns (call: Result<Option<(Handler, EventEnvelope)>, Error>)
      requires i < |bus.pool| && !bus.pool[i].running
      modifies this
      ensures bus == Step(c, old(bus), Beginning(i))
      ensures var t := old(bus).pool[i];
        call == if IsProcessed(old(bus), t.id.message) || Resolve(c.registry, t.id.handler).None? then Success(None)
                else match FromFields(c.codec, t.fields)
                     case Failure(error) => Failure(error)
                     case Success(e) => Success(Some((Resolve(c.registry, t.id.handler).value, e)))
    {
      var t := bus.pool[i];
      if IsProcessed(bus, t.id.message) {
        bus := bus.(pool := Without(bus.pool, i), log := bus.log.(skipped := bus.log.skipped + multiset{t.id}));
        return Success(None);
      }
      var handler := Resolve(c.registry, t.id.handler);
      var envelope := FromFields(c.codec, t.fields);
      if handler.None? || envelope.Failure? {
        bus := bus.(pool := Without(bus.pool, i), log := bus.log.(unresolved := bus.log.unresolved + multiset{t.id}));
        return if handler.None? then Success(None) else Failure(envelope.error);
      }
      bus := bus.(pool := bus.pool[i := t.(running := true)], log := bus.log.(calls := bus.log.calls + multiset{t.id}));
      return Success(Some((handler.value, envelope.value)));
    }

    /** The part of a dispatch after the handler call: the record, or a retry, or a dead letter. */
    method FinishDispatch(c: Config, i: nat, o: Outcome)
      requires i < |bus.pool| && bus.pool[i].running
      modifies this
      ensures bus == Step(c, old(bus), Ending(i, o))
    {
      var t := bus.pool[i];
      var error := if o.Raised? then o.error else DUPLICATE;
      if o.Returned? && !IsProcessed(bus, t.id.message) {
        bus := Succeed(bus, i);
        return;
      }
      var attempt := t.retries + 1;
      if attempt < c.maxRetries {
        if attempt <= c.cap {
          bus := Retry(bus, i);
        } else {
          bus := Drop(bus, i);
        }
        return;
      }
      bus := Bury(bus, i, error);
    }
  }
}

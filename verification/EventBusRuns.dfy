/** What every run of the bus keeps: conservation, delivery, attempt counts and the two tables. */
module EventBusRuns {
  import opened Wrappers
  import opened Envelope
  import opened Registry
  import opened EventBus

  // ---- Conservation ----

  function IdSeq(pool: seq<Task>): seq<Dispatch> {
    seq(|pool|, i requires 0 <= i < |pool| => pool[i].id)
  }

  function Ids(pool: seq<Task>): multiset<Dispatch> {
    multiset(IdSeq(pool))
  }

  function Closed(log: Log): multiset<Dispatch> {
    multiset(log.succeeded) + multiset(log.buried) + log.skipped + log.dropped + log.killed + log.unresolved
  }

  /** Every dispatch that was sent is in the pool or in exactly one of the six ends. */
  ghost predicate Conserved(b: Bus) {
    b.dispatched == Ids(b.pool) + Closed(b.log)
  }

  lemma IdsWithout(pool: seq<Task>, i: nat)
    requires i < |pool|
    ensures Ids(pool) == Ids(Without(pool, i)) + multiset{pool[i].id}
  {
    var s := IdSeq(pool);
    assert s == s[..i] + [s[i]] + s[i + 1..];
    assert IdSeq(Without(pool, i)) == s[..i] + s[i + 1..];
  }

  lemma IdsUpdate(pool: seq<Task>, i: nat, t: Task)
    requires i < |pool| && t.id == pool[i].id
    ensures Ids(pool[i := t]) == Ids(pool)
  {
    assert IdSeq(pool[i := t]) == IdSeq(pool);
  }

  lemma SendConserves(b: Bus, i: nat, handler: string)
    requires i < |b.inflight| && b.inflight[i].message < |b.stream| && Conserved(b)
    ensures Conserved(Send(b, i, handler))
  {
    assert IdSeq(Send(b, i, handler).pool) == IdSeq(b.pool) + [Dispatch(handler, b.inflight[i].message)];
  }

  lemma TakeConserves(b: Bus, i: nat, after: Bus)
    requires i < |b.pool| && Conserved(b) && after.pool == Without(b.pool, i) && after.dispatched == b.dispatched
    requires Closed(after.log) == Closed(b.log) + multiset{b.pool[i].id}
    ensures Conserved(after)
  {
    IdsWithout(b.pool, i);
  }

  lemma ReplaceConserves(b: Bus, i: nat, t: Task, after: Bus)
    requires i < |b.pool| && Conserved(b) && t.id == b.pool[i].id && after.pool == b.pool[i := t]
    requires after.dispatched == b.dispatched && Closed(after.log) == Closed(b.log)
    ensures Conserved(after)
  {
    IdsUpdate(b.pool, i, t);
  }

  lemma BeginConserves(c: Config, b: Bus, i: nat)
    requires i < |b.pool| && Conserved(b)
    ensures Conserved(Begin(c, b, i))
  {
    if IsProcessed(b, b.pool[i].id.message) || !Callable(c, b.pool[i]) {
      TakeConserves(b, i, Begin(c, b, i));
    } else {
      ReplaceConserves(b, i, b.pool[i].(running := true), Begin(c, b, i));
    }
  }

  lemma FailConserves(c: Config, b: Bus, i: nat, error: string)
    requires i < |b.pool| && Conserved(b)
    ensures Conserved(Fail(c, b, i, error))
  {
    var attempt := b.pool[i].retries + 1;
    if attempt < c.maxRetries && attempt <= c.cap {
      ReplaceConserves(b, i, b.pool[i].(retries := attempt, running := false), Retry(b, i));
    } else if attempt < c.maxRetries {
      TakeConserves(b, i, Drop(b, i));
    } else {
      assert Closed(Bury(b, i, error).log) == Closed(b.log) + multiset{b.pool[i].id};
      TakeConserves(b, i, Bury(b, i, error));
    }
  }

  lemma EndConserves(c: Config, b: Bus, i: nat, o: Outcome)
    requires i < |b.pool| && Conserved(b)
    ensures Conserved(End(c, b, i, o))
  {
    if o.Returned? && !IsProcessed(b, b.pool[i].id.message) {
      assert Closed(Succeed(b, i).log) == Closed(b.log) + multiset{b.pool[i].id};
      TakeConserves(b, i, Succeed(b, i));
    } else {
      FailConserves(c, b, i, if o.Returned? then DUPLICATE else o.error);
    }
  }

  lemma StepConserves(c: Config, b: Bus, e: Event)
    requires Enabled(c, b, e) && Conserved(b)
    ensures Conserved(Step(c, b, e))
  {
    match e
    case Sending(i) => SendConserves(b, i, Names(c, b.stream[b.inflight[i].message])[b.inflight[i].sent]);
    case Beginning(i) => BeginConserves(c, b, i);
    case Ending(i, o) => EndConserves(c, b, i, o);
    case Dying(i) => TakeConserves(b, i, Kill(b, i));
    case _ =>
  }

  // ---- Delivery ----

  /** Each handler is sent each message at most once, only messages read so far, and every one that was acknowledged. */
  ghost predicate Sent(c: Config, b: Bus) {
    && b.cursor <= |b.stream|
    && (forall d :: b.dispatched[d] <= 1)
    && (forall d :: d in b.dispatched ==> d.message < b.cursor && d.handler in Names(c, b.stream[d.message]))
    && (forall m :: m in b.acked ==> m < b.cursor && Complete(c, b, m))
    && (forall m :: 0 <= m < b.cursor ==> m in b.acked || m in b.log.lost || InFlight(b, m))
  }

  /** Every handler of message `m` was sent it. */
  ghost predicate Complete(c: Config, b: Bus, m: nat)
    requires m < |b.stream|
  {
    forall h :: h in Names(c, b.stream[m]) ==> Dispatch(h, m) in b.dispatched
  }

  ghost predicate InFlight(b: Bus, m: nat) {
    exists i :: 0 <= i < |b.inflight| && b.inflight[i].message == m
  }

  /** A message in flight was sent to exactly the first `sent` of its handlers. */
  ghost predicate PartlySent(c: Config, b: Bus, x: Delivery) {
    && x.message < b.cursor <= |b.stream|
    && x.sent <= |Names(c, b.stream[x.message])|
    && forall h :: Dispatch(h, x.message) in b.dispatched <==> h in Names(c, b.stream[x.message])[..x.sent]
  }

  /** Deliveries are of different messages, and of messages not acknowledged yet. */
  ghost predicate Deliveries(c: Config, b: Bus) {
    && (forall i :: 0 <= i < |b.inflight| ==> PartlySent(c, b, b.inflight[i]))
    && (forall i :: 0 <= i < |b.inflight| && !b.inflight[i].started ==> b.inflight[i].sent == 0)
    && (forall i, j :: 0 <= i < j < |b.inflight| ==> b.inflight[i].message != b.inflight[j].message)
  }

  /** Every row of the processed table is for a message that was sent to some handler. */
  ghost predicate ProcessedWereSent(b: Bus) {
    forall i :: 0 <= i < |b.processed| ==> WasSent(b, b.processed[i].message)
  }

  ghost predicate WasSent(b: Bus, m: nat) {
    exists h :: Dispatch(h, m) in b.dispatched
  }

  lemma PublishSent(c: Config, b: Bus, f: Fields)
    requires Sent(c, b)
    ensures Sent(c, b.(stream := b.stream + [f]))
  {
    var after := b.(stream := b.stream + [f]);
    assert forall m :: 0 <= m < b.cursor ==> after.stream[m] == b.stream[m];
    assert forall m :: InFlight(b, m) ==> InFlight(after, m);
    assert forall m :: m in b.acked ==> Complete(c, b, m);
  }

  lemma PublishDeliveries(c: Config, b: Bus, f: Fields)
    requires Deliveries(c, b)
    ensures Deliveries(c, b.(stream := b.stream + [f]))
  {
    var after := b.(stream := b.stream + [f]);
    forall i | 0 <= i < |b.inflight| ensures PartlySent(c, after, b.inflight[i]) {
      assert PartlySent(c, b, b.inflight[i]);
    }
  }

  lemma ReadSent(c: Config, b: Bus)
    requires Sent(c, b) && b.cursor < |b.stream|
    ensures Sent(c, Read(b))
  {
    ReadInFlight(b);
    assert forall m :: m in b.acked ==> Complete(c, b, m);
  }

  lemma ReadInFlight(b: Bus)
    ensures forall m :: InFlight(b, m) ==> InFlight(Read(b), m)
    ensures InFlight(Read(b), b.cursor)
  {
    var after := Read(b);
    assert after.inflight[|b.inflight|].message == b.cursor;
    assert forall i :: 0 <= i < |b.inflight| ==> after.inflight[i] == b.inflight[i];
  }

  lemma ReadDeliveries(c: Config, b: Bus)
    requires Sent(c, b) && Deliveries(c, b) && b.cursor < |b.stream|
    ensures Deliveries(c, Read(b))
  {
    var after := Read(b);
    NothingSentYet(c, b);
    forall i | 0 <= i < |after.inflight| ensures PartlySent(c, after, after.inflight[i]) {
      assert i < |b.inflight| ==> PartlySent(c, b, b.inflight[i]);
    }
    assert forall i :: 0 <= i < |b.inflight| ==> PartlySent(c, b, b.inflight[i]);
  }

  lemma NothingSentYet(c: Config, b: Bus)
    requires Sent(c, b)
    ensures forall h :: Dispatch(h, b.cursor) !in b.dispatched
  {
  }

  /** A delivery that ends takes its message out of flight and touches no other. */
  lemma WithoutInFlight(b: Bus, i: nat, after: Bus)
    requires i < |b.inflight| && after.inflight == Without(b.inflight, i)
    ensures forall m :: InFlight(b, m) ==> InFlight(after, m) || m == b.inflight[i].message
  {
    forall m | InFlight(b, m) && m != b.inflight[i].message ensures InFlight(after, m) {
      var k :| 0 <= k < |b.inflight| && b.inflight[k].message == m;
      assert after.inflight[if k < i then k else k - 1].message == m;
    }
  }

  lemma EndDeliverySent(c: Config, b: Bus, i: nat, after: Bus)
    requires Sent(c, b) && i < |b.inflight| && b.inflight[i].message < b.cursor
    requires after == Lose(b, i) || (after == Ack(b, i) && Complete(c, b, b.inflight[i].message))
    ensures Sent(c, after)
  {
    WithoutInFlight(b, i, after);
    assert forall m :: m in b.acked ==> Complete(c, b, m);
  }

  lemma EndDeliveryKeeps(c: Config, b: Bus, i: nat, after: Bus)
    requires Deliveries(c, b) && i < |b.inflight| && (after == Lose(b, i) || after == Ack(b, i))
    ensures Deliveries(c, after)
  {
    forall k | 0 <= k < |after.inflight| ensures PartlySent(c, after, after.inflight[k]) {
      assert after.inflight[k] == b.inflight[if k < i then k else k + 1];
      assert PartlySent(c, b, after.inflight[k]);
    }
  }

  lemma UpdateInFlight(b: Bus, i: nat, x: Delivery, after: Bus)
    requires i < |b.inflight| && after.inflight == b.inflight[i := x] && x.message == b.inflight[i].message
    ensures forall m :: InFlight(b, m) ==> InFlight(after, m)
  {
    forall m | InFlight(b, m) ensures InFlight(after, m) {
      var k :| 0 <= k < |b.inflight| && b.inflight[k].message == m;
      assert after.inflight[k].message == m;
    }
  }

  lemma StartSent(c: Config, b: Bus, i: nat)
    requires Sent(c, b) && Deliveries(c, b) && ProcessedWereSent(b) && i < |b.inflight| && !b.inflight[i].started
    ensures !IsProcessed(b, b.inflight[i].message)
    ensures Sent(c, Start(b, i)) && Deliveries(c, Start(b, i))
  {
    var m := b.inflight[i].message;
    assert PartlySent(c, b, b.inflight[i]);
    assert !WasSent(b, m);
    var after := Start(b, i);
    UpdateInFlight(b, i, b.inflight[i].(started := true), after);
    assert forall m :: m in b.acked ==> Complete(c, b, m);
    assert forall k :: 0 <= k < |b.inflight| ==> PartlySent(c, b, b.inflight[k]);
  }

  lemma NamesDistinct(c: Config, f: Fields)
    requires DistinctNames(c.registry)
    ensures forall i, j :: 0 <= i < j < |Names(c, f)| ==> Names(c, f)[i] != Names(c, f)[j]
  {
  }

  /** The next handler of a message has not been sent it. */
  lemma NextIsNew(c: Config, b: Bus, x: Delivery)
    requires DistinctNames(c.registry) && PartlySent(c, b, x) && x.sent < |Names(c, b.stream[x.message])|
    ensures Dispatch(Names(c, b.stream[x.message])[x.sent], x.message) !in b.dispatched
  {
    NamesDistinct(c, b.stream[x.message]);
  }

  lemma SendSent(c: Config, b: Bus, i: nat)
    requires DistinctNames(c.registry) && Sent(c, b) && Deliveries(c, b) && Enabled(c, b, Sending(i))
    ensures Sent(c, Step(c, b, Sending(i)))
  {
    var after := Step(c, b, Sending(i));
    var x := b.inflight[i];
    assert PartlySent(c, b, x);
    NextIsNew(c, b, x);
    UpdateInFlight(b, i, x.(sent := x.sent + 1), after);
    forall m | m in b.acked ensures Complete(c, after, m) {
      assert Complete(c, b, m);
    }
  }

  lemma SendDeliveries(c: Config, b: Bus, i: nat)
    requires DistinctNames(c.registry) && Sent(c, b) && Deliveries(c, b) && Enabled(c, b, Sending(i))
    ensures Deliveries(c, Step(c, b, Sending(i)))
  {
    var after := Step(c, b, Sending(i));
    var x := b.inflight[i];
    var names := Names(c, b.stream[x.message]);
    assert PartlySent(c, b, x);
    assert names[..x.sent + 1] == names[..x.sent] + [names[x.sent]];
    forall k | 0 <= k < |after.inflight| ensures PartlySent(c, after, after.inflight[k]) {
      assert PartlySent(c, b, b.inflight[k]);
    }
  }

  lemma AckIsComplete(c: Config, b: Bus, i: nat)
    requires Deliveries(c, b) && Enabled(c, b, Acking(i))
    ensures b.inflight[i].message < b.cursor && Complete(c, b, b.inflight[i].message)
  {
    var x := b.inflight[i];
    assert PartlySent(c, b, x);
    var names := Names(c, b.stream[x.message]);
    assert names[..x.sent] == names;
  }

  lemma SameSent(c: Config, b: Bus, after: Bus)
    requires Sent(c, b)
    requires after.stream == b.stream && after.cursor == b.cursor && after.acked == b.acked
    requires after.inflight == b.inflight
    requires after.dispatched == b.dispatched && after.log.lost == b.log.lost
    ensures Sent(c, after)
  {
    assert forall m :: InFlight(b, m) ==> InFlight(after, m);
    assert forall m :: m in b.acked ==> Complete(c, b, m);
  }

  lemma SameDeliveries(c: Config, b: Bus, after: Bus)
    requires Deliveries(c, b)
    requires after.stream == b.stream && after.cursor == b.cursor && after.inflight == b.inflight
    requires after.dispatched == b.dispatched
    ensures Deliveries(c, after)
  {
    assert forall k :: 0 <= k < |b.inflight| ==> PartlySent(c, b, b.inflight[k]);
  }

  /** What workers leave alone. */
  lemma WorkersFrame(c: Config, b: Bus, e: Event)
    requires Enabled(c, b, e) && (e.Beginning? || e.Ending? || e.Dying?)
    ensures var after := Step(c, b, e);
      && after.stream == b.stream && after.cursor == b.cursor && after.acked == b.acked && after.inflight == b.inflight
      && after.dispatched == b.dispatched && after.log.lost == b.log.lost
  {
  }

  ghost predicate Delivered(c: Config, b: Bus) {
    Sent(c, b) && Deliveries(c, b) && ProcessedWereSent(b)
  }

  lemma PollStepSent(c: Config, b: Bus, e: Event)
    requires DistinctNames(c.registry) && Enabled(c, b, e) && Delivered(c, b)
    requires e.Starting? || e.Sending? || e.Acking? || e.Losing?
    ensures Sent(c, Step(c, b, e)) && Deliveries(c, Step(c, b, e))
  {
    match e
    case Starting(i) => StartSent(c, b, i);
    case Sending(i) =>
      SendSent(c, b, i);
      SendDeliveries(c, b, i);
    case Acking(i) =>
      AckIsComplete(c, b, i);
      EndDeliverySent(c, b, i, Ack(b, i));
      EndDeliveryKeeps(c, b, i, Ack(b, i));
    case Losing(i) =>
      assert PartlySent(c, b, b.inflight[i]);
      EndDeliverySent(c, b, i, Lose(b, i));
      EndDeliveryKeeps(c, b, i, Lose(b, i));
  }

  lemma StepSent(c: Config, b: Bus, e: Event)
    requires DistinctNames(c.registry) && Enabled(c, b, e) && Delivered(c, b)
    ensures Sent(c, Step(c, b, e)) && Deliveries(c, Step(c, b, e))
  {
    if e.Publishing? {
      PublishSent(c, b, ToFields(c.codec, e.envelope));
      PublishDeliveries(c, b, ToFields(c.codec, e.envelope));
    } else if e.Reading? {
      ReadSent(c, b);
      ReadDeliveries(c, b);
    } else if e.Beginning? || e.Ending? || e.Dying? {
      WorkersFrame(c, b, e);
      SameSent(c, b, Step(c, b, e));
      SameDeliveries(c, b, Step(c, b, e));
    } else {
      PollStepSent(c, b, e);
    }
  }
}

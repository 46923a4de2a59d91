/** Once publishing stops, every schedule drains the bus. */
module EventBusDrain {
  import opened Wrappers
  import opened Envelope
  import opened Registry
  import opened EventBus
  import opened EventBusRuns
  import opened EventBusTables
  import opened EventBusOutcomes

  function Total(ws: seq<int>): int {
    if ws == [] then 0 else ws[0] + Total(ws[1..])
  }

  lemma {:induction false} TotalSplit(xs: seq<int>, ys: seq<int>)
    ensures Total(xs + ys) == Total(xs) + Total(ys)
  {
    if xs == [] {
      assert xs + ys == ys;
    } else {
      TotalSplit(xs[1..], ys);
      assert (xs + ys)[1..] == xs[1..] + ys;
    }
  }

  lemma TotalWithout(ws: seq<int>, i: nat)
    requires i < |ws|
    ensures Total(Without(ws, i)) == Total(ws) - ws[i]
  {
    assert ws == ws[..i] + ws[i..];
    TotalSplit(ws[..i], ws[i..]);
    assert ws[i..][1..] == ws[i + 1..];
    TotalSplit(ws[..i], ws[i + 1..]);
  }

  lemma TotalUpdate(ws: seq<int>, i: nat, w: int)
    requires i < |ws|
    ensures Total(ws[i := w]) == Total(ws) - ws[i] + w
  {
    TotalWithout(ws, i);
    TotalWithout(ws[i := w], i);
    assert Without(ws[i := w], i) == Without(ws, i);
  }

  lemma {:induction false} TotalNonNegative(ws: seq<int>)
    requires forall i :: 0 <= i < |ws| ==> ws[i] >= 0
    ensures Total(ws) >= 0
  {
    if ws != [] {
      TotalNonNegative(ws[1..]);
    }
  }

  // ---- Weights ----

  /** No event type has more than `h` handlers. */
  ghost predicate AtMost(c: Config, h: nat) {
    forall t :: |HandlersOf(c.registry, t)| <= h
  }

  /** The steps that a queued or running task can still take. */
  function TaskWeight(c: Config, t: Task): int {
    2 * (Attempts(c) - t.retries) - (if t.running then 1 else 0)
  }

  /** The steps that one more handler costs: its sending and its whole task. */
  function PerHandler(c: Config): nat {
    1 + 2 * Attempts(c)
  }

  /** The steps that an unread message can cost. */
  function PerMessage(c: Config, h: nat): nat {
    3 + h * PerHandler(c)
  }

  function DeliveryWeight(c: Config, stream: seq<Fields>, x: Delivery): int {
    (if x.started then 1 else 2)
    + (if x.message < |stream| then (|Names(c, stream[x.message])| - x.sent) * PerHandler(c) else 0)
  }

  function Load(c: Config, pool: seq<Task>): int {
    Total(TaskWeights(c, pool))
  }

  function TaskWeights(c: Config, pool: seq<Task>): seq<int> {
    seq(|pool|, i requires 0 <= i < |pool| => TaskWeight(c, pool[i]))
  }

  function DeliveryWeights(c: Config, stream: seq<Fields>, inflight: seq<Delivery>): seq<int> {
    seq(|inflight|, i requires 0 <= i < |inflight| => DeliveryWeight(c, stream, inflight[i]))
  }

  function Flight(c: Config, b: Bus): int {
    Total(DeliveryWeights(c, b.stream, b.inflight))
  }

  function Unread(c: Config, h: nat, b: Bus): int {
    (|b.stream| - b.cursor) * PerMessage(c, h)
  }

  /** A bound on the steps still possible: unread messages, messages in flight, and tasks. */
  function Measure(c: Config, h: nat, b: Bus): int {
    Unread(c, h, b) + Flight(c, b) + Load(c, b.pool)
  }

  lemma LoadNonNegative(c: Config, b: Bus)
    requires DistinctNames(c.registry) && Reachable(c, b)
    ensures Load(c, b.pool) >= 0
  {
    forall i | 0 <= i < |b.pool| ensures TaskWeight(c, b.pool[i]) >= 0 {
      ReachableTask(c, b, i);
    }
    TotalNonNegative(TaskWeights(c, b.pool));
  }

  lemma FlightNonNegative(c: Config, b: Bus)
    requires DistinctNames(c.registry) && Reachable(c, b)
    ensures Flight(c, b) >= 0
  {
    forall i | 0 <= i < |b.inflight| ensures DeliveryWeight(c, b.stream, b.inflight[i]) >= 0 {
      ReachableDelivery(c, b, i);
      DeliveryWeightPositive(c, b, b.inflight[i]);
    }
    TotalNonNegative(DeliveryWeights(c, b.stream, b.inflight));
  }

  lemma UnreadNonNegative(c: Config, h: nat, b: Bus)
    requires b.cursor <= |b.stream|
    ensures Unread(c, h, b) >= 0
  {
    Product(|b.stream| - b.cursor, PerMessage(c, h));
  }

  lemma MeasureNonNegative(c: Config, h: nat, b: Bus)
    requires DistinctNames(c.registry) && Reachable(c, b)
    ensures Measure(c, h, b) >= 0
  {
    ReachableCursor(c, b);
    LoadNonNegative(c, b);
    FlightNonNegative(c, b);
    UnreadNonNegative(c, h, b);
  }

  lemma Product(x: nat, y: nat)
    ensures x * y >= 0
    ensures x > 0 ==> x * y == (x - 1) * y + y
  {
  }

  lemma DeliveryWeightPositive(c: Config, b: Bus, x: Delivery)
    requires PartlySent(c, b, x)
    ensures DeliveryWeight(c, b.stream, x) >= 1
  {
    var left := |Names(c, b.stream[x.message])| - x.sent;
    assert left * PerHandler(c) >= 0;
  }

  // ---- Every step but publishing decreases the measure ----

  lemma TaskLeaves(c: Config, pool: seq<Task>, i: nat)
    requires i < |pool|
    ensures Load(c, Without(pool, i)) == Load(c, pool) - TaskWeight(c, pool[i])
  {
    TotalWithout(TaskWeights(c, pool), i);
    assert TaskWeights(c, Without(pool, i)) == Without(TaskWeights(c, pool), i);
  }

  lemma TaskChanges(c: Config, pool: seq<Task>, i: nat, t: Task)
    requires i < |pool|
    ensures Load(c, pool[i := t]) == Load(c, pool) - TaskWeight(c, pool[i]) + TaskWeight(c, t)
  {
    TotalUpdate(TaskWeights(c, pool), i, TaskWeight(c, t));
    assert TaskWeights(c, pool[i := t]) == TaskWeights(c, pool)[i := TaskWeight(c, t)];
  }

  lemma TaskJoins(c: Config, pool: seq<Task>, t: Task)
    ensures Load(c, pool + [t]) == Load(c, pool) + TaskWeight(c, t)
  {
    TotalSplit(TaskWeights(c, pool), [TaskWeight(c, t)]);
    assert TaskWeights(c, pool + [t]) == TaskWeights(c, pool) + [TaskWeight(c, t)];
  }

  lemma DeliveryLeaves(c: Config, b: Bus, i: nat, after: Bus)
    requires i < |b.inflight| && after.stream == b.stream && after.inflight == Without(b.inflight, i)
    ensures Flight(c, after) == Flight(c, b) - DeliveryWeight(c, b.stream, b.inflight[i])
  {
    TotalWithout(DeliveryWeights(c, b.stream, b.inflight), i);
    assert DeliveryWeights(c, b.stream, after.inflight) == Without(DeliveryWeights(c, b.stream, b.inflight), i);
  }

  lemma DeliveryChanges(c: Config, b: Bus, i: nat, x: Delivery, after: Bus)
    requires i < |b.inflight| && after.stream == b.stream && after.inflight == b.inflight[i := x]
    ensures Flight(c, after)
            == Flight(c, b) - DeliveryWeight(c, b.stream, b.inflight[i]) + DeliveryWeight(c, b.stream, x)
  {
    TotalUpdate(DeliveryWeights(c, b.stream, b.inflight), i, DeliveryWeight(c, b.stream, x));
    assert DeliveryWeights(c, b.stream, after.inflight)
           == DeliveryWeights(c, b.stream, b.inflight)[i := DeliveryWeight(c, b.stream, x)];
  }

  lemma ReadJoins(c: Config, b: Bus)
    requires b.cursor < |b.stream|
    ensures Flight(c, Read(b)) == Flight(c, b) + 2 + |Names(c, b.stream[b.cursor])| * PerHandler(c)
  {
    var x := Delivery(b.cursor, false, 0);
    TotalSplit(DeliveryWeights(c, b.stream, b.inflight), [DeliveryWeight(c, b.stream, x)]);
    assert DeliveryWeights(c, b.stream, Read(b).inflight)
           == DeliveryWeights(c, b.stream, b.inflight) + [DeliveryWeight(c, b.stream, x)];
  }

  lemma ReadDecreases(c: Config, h: nat, b: Bus)
    requires AtMost(c, h) && b.cursor < |b.stream|
    ensures Measure(c, h, Read(b)) < Measure(c, h, b)
  {
    ReadJoins(c, b);
    var k := |Names(c, b.stream[b.cursor])|;
    assert k == |HandlersOf(c.registry, FieldOf(b.stream[b.cursor], "type"))| <= h;
    Monotone(k, h, PerHandler(c));
    UnreadShrinks(c, h, b);
  }

  lemma UnreadShrinks(c: Config, h: nat, b: Bus)
    requires b.cursor < |b.stream|
    ensures Unread(c, h, Read(b)) == Unread(c, h, b) - PerMessage(c, h)
  {
    Product(|b.stream| - b.cursor, PerMessage(c, h));
  }

  lemma Monotone(x: nat, y: nat, k: nat)
    requires x <= y
    ensures x * k <= y * k
  {
  }

  lemma SendDecreases(c: Config, b: Bus, i: nat, handler: string)
    requires i < |b.inflight| && PartlySent(c, b, b.inflight[i])
    requires b.inflight[i].sent < |Names(c, b.stream[b.inflight[i].message])|
    ensures Flight(c, Send(b, i, handler)) + Load(c, Send(b, i, handler).pool) < Flight(c, b) + Load(c, b.pool)
  {
    var x, after := b.inflight[i], Send(b, i, handler);
    DeliveryChanges(c, b, i, x.(sent := x.sent + 1), after);
    TaskJoins(c, b.pool, Task(Dispatch(handler, x.message), b.stream[x.message], 0, false));
    Product(|Names(c, b.stream[x.message])| - x.sent, PerHandler(c));
  }

  lemma StartDecreases(c: Config, b: Bus, i: nat)
    requires i < |b.inflight| && PartlySent(c, b, b.inflight[i]) && !b.inflight[i].started
    ensures Flight(c, Start(b, i)) < Flight(c, b)
  {
    var x := b.inflight[i];
    DeliveryWeightPositive(c, b, x);
    if IsProcessed(b, x.message) {
      DeliveryLeaves(c, b, i, Start(b, i));
    } else {
      DeliveryChanges(c, b, i, x.(started := true), Start(b, i));
    }
  }

  lemma LeaveDecreases(c: Config, b: Bus, i: nat, after: Bus)
    requires i < |b.inflight| && PartlySent(c, b, b.inflight[i]) && (after == Ack(b, i) || after == Lose(b, i))
    ensures Flight(c, after) < Flight(c, b)
  {
    DeliveryWeightPositive(c, b, b.inflight[i]);
    DeliveryLeaves(c, b, i, after);
  }

  lemma BeginDecreases(c: Config, b: Bus, i: nat)
    requires i < |b.pool| && TaskOk(c, b, b.pool[i]) && !b.pool[i].running
    ensures Load(c, Begin(c, b, i).pool) < Load(c, b.pool)
  {
    TaskLeaves(c, b.pool, i);
    TaskChanges(c, b.pool, i, b.pool[i].(running := true));
  }

  lemma FailDecreases(c: Config, b: Bus, i: nat, error: string)
    requires i < |b.pool| && TaskOk(c, b, b.pool[i]) && b.pool[i].running
    ensures Load(c, Fail(c, b, i, error).pool) < Load(c, b.pool)
    ensures Load(c, Succeed(b, i).pool) < Load(c, b.pool) && Load(c, Kill(b, i).pool) < Load(c, b.pool)
  {
    var t := b.pool[i];
    TaskLeaves(c, b.pool, i);
    TaskChanges(c, b.pool, i, t.(retries := t.retries + 1, running := false));
  }

  lemma LoadDecreases(c: Config, b: Bus, e: Event)
    requires Enabled(c, b, e) && (e.Beginning? || e.Ending? || e.Dying?) && TaskOk(c, b, b.pool[e.i])
    ensures Load(c, Step(c, b, e).pool) < Load(c, b.pool)
  {
    match e
    case Beginning(i) => BeginDecreases(c, b, i);
    case Ending(i, o) => FailDecreases(c, b, i, if o.Returned? then DUPLICATE else o.error);
    case Dying(i) => FailDecreases(c, b, i, DUPLICATE);
  }

  /** Workers change neither the messages left to read nor those in flight. */
  lemma WorkDecreases(c: Config, h: nat, b: Bus, e: Event)
    requires DistinctNames(c.registry) && Reachable(c, b)
    requires Enabled(c, b, e) && (e.Beginning? || e.Ending? || e.Dying?)
    ensures Measure(c, h, Step(c, b, e)) < Measure(c, h, b)
  {
    WorkersFrame(c, b, e);
    ReachableTask(c, b, e.i);
    LoadDecreases(c, b, e);
    MeasureFrame(c, h, b, Step(c, b, e));
  }

  lemma MeasureFrame(c: Config, h: nat, b: Bus, after: Bus)
    requires after.stream == b.stream && after.cursor == b.cursor && after.inflight == b.inflight
    ensures Measure(c, h, after) - Measure(c, h, b) == Load(c, after.pool) - Load(c, b.pool)
  {
  }

  lemma FlightDecreases(c: Config, b: Bus, e: Event)
    requires Enabled(c, b, e) && (e.Starting? || e.Sending? || e.Acking? || e.Losing?)
    requires PartlySent(c, b, b.inflight[e.i])
    ensures Flight(c, Step(c, b, e)) + Load(c, Step(c, b, e).pool) < Flight(c, b) + Load(c, b.pool)
  {
    match e
    case Starting(i) => StartDecreases(c, b, i);
    case Sending(i) => SendDecreases(c, b, i, Names(c, b.stream[b.inflight[i].message])[b.inflight[i].sent]);
    case Acking(i) => LeaveDecreases(c, b, i, Ack(b, i));
    case Losing(i) => LeaveDecreases(c, b, i, Lose(b, i));
  }

  lemma PollDecreases(c: Config, h: nat, b: Bus, e: Event)
    requires DistinctNames(c.registry) && Reachable(c, b)
    requires Enabled(c, b, e) && (e.Starting? || e.Sending? || e.Acking? || e.Losing?)
    ensures Measure(c, h, Step(c, b, e)) < Measure(c, h, b)
  {
    ReachableDelivery(c, b, e.i);
    FlightDecreases(c, b, e);
    UnreadFrame(c, h, b, e);
  }

  lemma UnreadFrame(c: Config, h: nat, b: Bus, e: Event)
    requires Enabled(c, b, e) && (e.Starting? || e.Sending? || e.Acking? || e.Losing?)
    ensures Unread(c, h, Step(c, b, e)) == Unread(c, h, b)
  {
  }

  lemma StepDecreases(c: Config, h: nat, b: Bus, e: Event)
    requires DistinctNames(c.registry) && AtMost(c, h) && Reachable(c, b) && Enabled(c, b, e) && !e.Publishing?
    ensures Measure(c, h, Step(c, b, e)) < Measure(c, h, b)
  {
    if e.Reading? {
      ReadDecreases(c, h, b);
    } else if e.Beginning? || e.Ending? || e.Dying? {
      WorkDecreases(c, h, b, e);
    } else {
      PollDecreases(c, h, b, e);
    }
  }

  predicate NoPublishing(events: seq<Event>) {
    forall k :: 0 <= k < |events| ==> !events[k].Publishing?
  }

  lemma {:induction false} ScheduleSpends(c: Config, h: nat, b: Bus, events: seq<Event>, after: Bus)
    requires DistinctNames(c.registry) && AtMost(c, h) && Reachable(c, b)
    requires Leads(c, b, events, after) && NoPublishing(events)
    ensures Reachable(c, after) && |events| + Measure(c, h, after) <= Measure(c, h, b)
    decreases |events|
  {
    if events != [] {
      var n := |events| - 1;
      var mid :| Leads(c, b, events[..n], mid) && Enabled(c, mid, events[n]) && after == Step(c, mid, events[n]);
      ScheduleSpends(c, h, b, events[..n], mid);
      LeadsOn(c, mid, events[n]);
      StepDecreases(c, h, mid, events[n]);
    }
  }

  /** Without new messages no schedule is longer than the measure of the state it starts from. */
  lemma SchedulesAreBounded(c: Config, h: nat, b: Bus, events: seq<Event>, after: Bus)
    requires DistinctNames(c.registry) && AtMost(c, h) && Reachable(c, b)
    requires Leads(c, b, events, after) && NoPublishing(events)
    ensures |events| <= Measure(c, h, b)
  {
    ScheduleSpends(c, h, b, events, after);
    MeasureNonNegative(c, h, after);
  }

  /** Until the bus is drained some poll or worker can take a step, without anything dying. */
  lemma DrainedOrProgress(c: Config, b: Bus)
    requires DistinctNames(c.registry) && Reachable(c, b)
    ensures Drained(b) <==> !exists e :: Enabled(c, b, e) && !e.Publishing? && !e.Losing? && !e.Dying?
  {
    ReachableCursor(c, b);
    if b.cursor != |b.stream| {
      assert Enabled(c, b, Reading);
    } else if b.inflight != [] {
      ReachableDelivery(c, b, 0);
      assert Enabled(c, b, Starting(0)) || Enabled(c, b, Sending(0)) || Enabled(c, b, Acking(0));
    } else if b.pool != [] {
      assert Enabled(c, b, Beginning(0)) || Enabled(c, b, Ending(0, Returned));
    }
  }

  // ---- The queue's cap ----

  /** In no run does the queue drop a dispatch. */
  ghost predicate NeverDrops(c: Config) {
    forall b :: Reachable(c, b) ==> b.log.dropped == multiset{}
  }

  /** A first task that keeps failing is dropped once its attempts pass the cap. */
  lemma {:induction false} FailingIsDropped(c: Config, b: Bus) returns (after: Bus)
    requires Sound(c) && !CapSuffices(c) && Reachable(c, b)
    requires b.pool != [] && !b.pool[0].running && b.pool[0].retries <= c.cap && b.processed == []
    ensures Reachable(c, after) && after.log.dropped != multiset{}
    decreases c.cap - b.pool[0].retries
  {
    NeverUnresolved(c, b, 0);
    LeadsOn(c, b, Beginning(0));
    var called := Begin(c, b, 0);
    LeadsOn(c, called, Ending(0, Raised("error")));
    after := Fail(c, called, 0, "error");
    RejectedOrRetried(c, called);
    if b.pool[0].retries + 1 <= c.cap {
      after := FailingIsDropped(c, after);
    }
  }

  lemma RejectedOrRetried(c: Config, b: Bus)
    requires !CapSuffices(c) && b.pool != [] && b.pool[0].retries <= c.cap
    ensures var after := Fail(c, b, 0, "error");
            if b.pool[0].retries + 1 <= c.cap
            then after.pool != [] && after.pool[0] == b.pool[0].(retries := b.pool[0].retries + 1, running := false)
                 && after.processed == b.processed
            else b.pool[0].id in after.log.dropped
  {
  }

  /** Given any handler at all, failures always reach the dead-letter table exactly when the cap admits all retries. */
  lemma NeverDropsIff(c: Config, eventType: string)
    requires Sound(c) && HandlersOf(c.registry, eventType) != []
    ensures NeverDrops(c) <==> CapSuffices(c)
  {
    if CapSuffices(c) {
      forall b | Reachable(c, b) ensures b.log.dropped == multiset{} {
        var events :| Leads(c, IDLE, events, b);
        LossesExplained(c, events, b);
      }
    } else {
      var b := FirstTask(c, eventType);
      var after := FailingIsDropped(c, b);
    }
  }

  lemma FirstMessage(c: Config, eventType: string) returns (b: Bus)
    ensures Reachable(c, b) && b.pool == [] && b.processed == []
    ensures |b.stream| == 1 && FieldOf(b.stream[0], "type") == eventType && b.inflight == [Delivery(0, true, 0)]
  {
    var e := EventEnvelope("", eventType, None, None, map[], "");
    assert Leads(c, IDLE, [], IDLE);
    LeadsOn(c, IDLE, Publishing(e));
    b := Step(c, IDLE, Publishing(e));
    LeadsOn(c, b, Reading);
    b := Read(b);
    LeadsOn(c, b, Starting(0));
    b := Start(b, 0);
    assert b.stream[0]["type"] == eventType;
  }

  lemma FirstTask(c: Config, eventType: string) returns (b: Bus)
    requires HandlersOf(c.registry, eventType) != []
    ensures Reachable(c, b) && |b.pool| == 1 && !b.pool[0].running && b.pool[0].retries == 0 && b.processed == []
    ensures b.stream != [] && FieldOf(b.stream[0], "type") == eventType && b.inflight == [Delivery(0, true, 1)]
    ensures b.pool[0].id.message == 0
  {
    b := FirstMessage(c, eventType);
    assert |Names(c, b.stream[0])| > 0;
    LeadsOn(c, b, Sending(0));
    b := Step(c, b, Sending(0));
  }

  // ---- Recorded and dead at once ----

  ghost predicate HasLetter(b: Bus, m: nat) {
    exists i :: 0 <= i < |b.dead| && b.dead[i].message == m
  }

  /** No message is ever both recorded and dead-lettered. */
  ghost predicate Exclusive(c: Config) {
    forall b, m :: Reachable(c, b) && IsProcessed(b, m) ==> !HasLetter(b, m)
  }

  /** Two queued tasks for one message, the first of which has failed some times. */
  ghost predicate Rivals(c: Config, b: Bus, retries: nat) {
    && Reachable(c, b) && |b.pool| == 2 && b.processed == []
    && !b.pool[0].running && !b.pool[1].running
    && b.pool[0].id.message == b.pool[1].id.message && b.pool[0].retries == retries
  }

  lemma RivalFails(c: Config, b: Bus, retries: nat) returns (after: Bus)
    requires Sound(c) && CapSuffices(c)
    requires Rivals(c, b, retries) && retries + 1 < Attempts(c)
    ensures Rivals(c, after, retries + 1)
  {
    NeverUnresolved(c, b, 0);
    LeadsOn(c, b, Beginning(0));
    var called := Begin(c, b, 0);
    LeadsOn(c, called, Ending(0, Raised("error")));
    after := Fail(c, called, 0, "error");
  }

  lemma {:induction false} RivalAtLastAttempt(c: Config, b: Bus, retries: nat) returns (after: Bus)
    requires Sound(c) && CapSuffices(c)
    requires Rivals(c, b, retries) && retries < Attempts(c)
    ensures Rivals(c, after, Attempts(c) - 1)
    decreases Attempts(c) - retries
  {
    after := b;
    if retries + 1 < Attempts(c) {
      after := RivalFails(c, b, retries);
      after := RivalAtLastAttempt(c, after, retries + 1);
    }
  }

  lemma BothBegin(c: Config, b: Bus) returns (two: Bus)
    requires Sound(c) && Rivals(c, b, Attempts(c) - 1)
    ensures Reachable(c, two) && two.processed == []
    ensures two.pool == [b.pool[0].(running := true), b.pool[1].(running := true)]
  {
    NeverUnresolved(c, b, 0);
    NeverUnresolved(c, b, 1);
    LeadsOn(c, b, Beginning(0));
    var one := Begin(c, b, 0);
    assert one.pool == b.pool[0 := b.pool[0].(running := true)];
    LeadsOn(c, one, Beginning(1));
    two := Begin(c, one, 1);
  }

  lemma SecondRecords(c: Config, b: Bus) returns (after: Bus)
    requires Reachable(c, b) && b.processed == [] && |b.pool| == 2 && b.pool[1].running
    ensures Reachable(c, after) && after.pool == [b.pool[0]] && IsProcessed(after, b.pool[1].id.message)
  {
    LeadsOn(c, b, Ending(1, Returned));
    after := Succeed(b, 1);
    assert after.processed[0].message == b.pool[1].id.message;
  }

  lemma FirstIsRefused(c: Config, b: Bus) returns (after: Bus)
    requires Reachable(c, b) && |b.pool| == 1 && b.pool[0].running && b.pool[0].retries == Attempts(c) - 1
    requires IsProcessed(b, b.pool[0].id.message)
    ensures Reachable(c, after)
    ensures IsProcessed(after, b.pool[0].id.message) && HasLetter(after, b.pool[0].id.message)
  {
    LeadsOn(c, b, Ending(0, Returned));
    after := Bury(b, 0, DUPLICATE);
    ProcessedStays(b, after);
    assert after.dead[|b.dead|].message == b.pool[0].id.message;
  }

  /** Both rivals run; the second returns and is recorded, and then the first, on its last attempt, is refused. */
  lemma RivalsCollide(c: Config, b: Bus) returns (after: Bus)
    requires Sound(c) && Rivals(c, b, Attempts(c) - 1)
    ensures Reachable(c, after) && IsProcessed(after, b.pool[0].id.message) && HasLetter(after, b.pool[0].id.message)
  {
    after := BothBegin(c, b);
    after := SecondRecords(c, after);
    after := FirstIsRefused(c, after);
  }

  lemma TwoTasks(c: Config, eventType: string) returns (b: Bus)
    requires |HandlersOf(c.registry, eventType)| >= 2
    ensures Rivals(c, b, 0)
  {
    b := FirstTask(c, eventType);
    assert |Names(c, b.stream[0])| >= 2;
    LeadsOn(c, b, Sending(0));
    b := Step(c, b, Sending(0));
  }

  lemma SingleIsExclusive(c: Config, b: Bus, m: nat)
    requires DistinctNames(c.registry) && AtMost(c, 1) && Reachable(c, b) && IsProcessed(b, m)
    ensures !HasLetter(b, m)
  {
    forall i | 0 <= i < |b.dead| ensures b.dead[i].message != m {
      LetterOf(c, b, i);
      InOnePlace(c, b, b.log.buried[i]);
      MessageExists(c, b, b.log.buried[i]);
      if b.dead[i].message == m { OneHandlerExcludes(c, b, m, i); }
    }
  }

  /** With too small a cap the queue drops a dispatch before it could be dead-lettered. */
  lemma {:induction false} CappedNeverBuries(c: Config, events: seq<Event>, b: Bus)
    requires !CapSuffices(c) && Leads(c, IDLE, events, b)
    ensures b.dead == [] && forall i :: 0 <= i < |b.pool| ==> b.pool[i].retries <= c.cap
    decreases |events|
  {
    if events != [] {
      var n := |events| - 1;
      var mid :| Leads(c, IDLE, events[..n], mid) && Enabled(c, mid, events[n]) && b == Step(c, mid, events[n]);
      CappedNeverBuries(c, events[..n], mid);
      CappedStep(c, mid, events[n]);
    }
  }

  lemma CappedFails(c: Config, b: Bus, i: nat, error: string)
    requires !CapSuffices(c) && i < |b.pool| && b.dead == []
    requires forall k :: 0 <= k < |b.pool| ==> b.pool[k].retries <= c.cap
    ensures var after := Fail(c, b, i, error);
      after.dead == [] && forall k :: 0 <= k < |after.pool| ==> after.pool[k].retries <= c.cap
  {
  }

  lemma CappedStep(c: Config, b: Bus, e: Event)
    requires !CapSuffices(c) && Enabled(c, b, e) && b.dead == []
    requires forall k :: 0 <= k < |b.pool| ==> b.pool[k].retries <= c.cap
    ensures var after := Step(c, b, e);
      after.dead == [] && forall k :: 0 <= k < |after.pool| ==> after.pool[k].retries <= c.cap
  {
    if e.Ending? {
      CappedFails(c, b, e.i, if e.outcome.Returned? then DUPLICATE else e.outcome.error);
    } else if !e.Beginning? {
      TablesFrame(c, b, e);
    }
  }

  /**
   The two tables never share a message exactly when no event type has two handlers, or the queue's cap is too small
   for anything to be dead-lettered.
   */
  lemma ExclusiveIff(c: Config)
    requires Sound(c)
    ensures Exclusive(c) <==> AtMost(c, 1) || !CapSuffices(c)
  {
    if AtMost(c, 1) {
      forall b, m | Reachable(c, b) && IsProcessed(b, m) ensures !HasLetter(b, m) {
        SingleIsExclusive(c, b, m);
      }
    } else if !CapSuffices(c) {
      forall b, m | Reachable(c, b) && IsProcessed(b, m) ensures !HasLetter(b, m) {
        var events :| Leads(c, IDLE, events, b);
        CappedNeverBuries(c, events, b);
      }
    } else {
      var t :| |HandlersOf(c.registry, t)| > 1;
      var b := TwoTasks(c, t);
      b := RivalAtLastAttempt(c, b, 0);
      var after := RivalsCollide(c, b);
    }
  }

  // ---- Skipped handlers ----

  /** In no run is a handler skipped because another one has succeeded. */
  ghost predicate NeverSkips(c: Config) {
    forall b :: Reachable(c, b) ==> b.log.skipped == multiset{}
  }

  lemma SingleNeverSkips(c: Config, b: Bus)
    requires DistinctNames(c.registry) && AtMost(c, 1) && Reachable(c, b)
    ensures b.log.skipped == multiset{}
  {
    forall d: Dispatch ensures d !in b.log.skipped {
      if d in b.log.skipped {
        InOnePlace(c, b, d);
        MessageExists(c, b, d);
        ReachableRecords(c, b);
        RecordedIsOnly(c, b, d);
      }
    }
  }

  /** The first rival returns, and the second is skipped. */
  lemma RivalIsSkipped(c: Config, b: Bus) returns (after: Bus)
    requires Sound(c) && Rivals(c, b, 0)
    ensures Reachable(c, after) && after.log.skipped != multiset{}
  {
    NeverUnresolved(c, b, 0);
    LeadsOn(c, b, Beginning(0));
    var one := Begin(c, b, 0);
    LeadsOn(c, one, Ending(0, Returned));
    var two := Succeed(one, 0);
    assert two.pool == [b.pool[1]] && two.processed[0].message == b.pool[1].id.message;
    LeadsOn(c, two, Beginning(0));
    after := Begin(c, two, 0);
    assert b.pool[1].id in after.log.skipped;
  }

  /** Every handler of every message gets its turn exactly when no event type has two handlers. */
  lemma NeverSkipsIff(c: Config)
    requires Sound(c)
    ensures NeverSkips(c) <==> AtMost(c, 1)
  {
    if AtMost(c, 1) {
      forall b | Reachable(c, b) ensures b.log.skipped == multiset{} {
        SingleNeverSkips(c, b);
      }
    } else {
      var t :| |HandlersOf(c.registry, t)| > 1;
      var b := TwoTasks(c, t);
      var after := RivalIsSkipped(c, b);
    }
  }
}

/** What every run of the bus keeps about tasks, attempts, and the processed and dead-letter tables. */
module EventBusTables {
  import opened Wrappers
  import opened Envelope
  import opened Registry
  import opened EventBus
  import opened EventBusRuns

  /** A task carries its message's fields, and its attempts and backoffs so far are those its retry count tells. */
  ghost predicate TaskOk(c: Config, b: Bus, t: Task) {
    && t.id.message < |b.stream| && t.fields == b.stream[t.id.message]
    && t.retries < Attempts(c)
    && b.log.calls[t.id] == t.retries + (if t.running then 1 else 0)
    && b.log.waits[t.id] == Pow2(t.retries + 1) - 2
  }

  ghost predicate Tasks(c: Config, b: Bus) {
    forall i :: 0 <= i < |b.pool| ==> TaskOk(c, b, b.pool[i])
  }

  /** A dead letter describes its message; its handler was called the full number of times and waited for in between. */
  ghost predicate LetterOk(c: Config, b: Bus, row: DeadLetter, d: Dispatch) {
    && row.message == d.message < |b.stream|
    && row.payload == b.stream[d.message]
    && row.eventType == FieldOf(row.payload, "type") && row.tenantId == OrNone(FieldOf(row.payload, "tenant_id"))
    && row.retries == Attempts(c)
    && b.log.calls[d] == Attempts(c)
    && b.log.waits[d] == Pow2(Attempts(c)) - 2
  }

  ghost predicate Letters(c: Config, b: Bus) {
    && |b.dead| == |b.log.buried|
    && forall i :: 0 <= i < |b.dead| ==> LetterOk(c, b, b.dead[i], b.log.buried[i])
  }

  /** The processed table has one row for each success, and no two for one message. */
  ghost predicate Records(b: Bus) {
    && |b.processed| == |b.log.succeeded|
    && (forall i :: 0 <= i < |b.processed| ==> RecordOk(b, b.processed[i], b.log.succeeded[i]))
    && (forall i, j :: 0 <= i < j < |b.processed| ==> b.processed[i].message != b.processed[j].message)
    && (forall d :: d in b.log.skipped ==> IsProcessed(b, d.message))
  }

  ghost predicate RecordOk(b: Bus, row: ProcessedEvent, d: Dispatch) {
    row.message == d.message < |b.stream| && row.eventType == FieldOf(b.stream[d.message], "type")
  }

  /** No handler is called more often than allowed, or for what was never sent. */
  ghost predicate Counted(c: Config, b: Bus) {
    forall d :: b.log.calls[d] <= Attempts(c) && (d !in b.dispatched ==> b.log.calls[d] == 0 && b.log.waits[d] == 0)
  }

  /** A task in the pool is there once, and nowhere else. */
  lemma OpenOnce(c: Config, b: Bus, i: nat)
    requires Conserved(b) && Sent(c, b) && i < |b.pool|
    ensures b.dispatched[b.pool[i].id] == 1
    ensures Closed(b.log)[b.pool[i].id] == 0 && Ids(Without(b.pool, i))[b.pool[i].id] == 0
  {
    var d := b.pool[i].id;
    IdsWithout(b.pool, i);
    assert Ids(b.pool)[d] == Ids(Without(b.pool, i))[d] + 1;
    assert b.dispatched[d] == Ids(b.pool)[d] + Closed(b.log)[d];
  }

  lemma OthersDiffer(pool: seq<Task>, i: nat)
    requires i < |pool| && Ids(Without(pool, i))[pool[i].id] == 0
    ensures forall j :: 0 <= j < |pool| && j != i ==> pool[j].id != pool[i].id
  {
    var rest := Without(pool, i);
    forall j | 0 <= j < |pool| && j != i ensures pool[j].id != pool[i].id {
      var k := if j < i then j else j - 1;
      assert rest[k] == pool[j];
      assert IdSeq(rest)[k] in Ids(rest);
    }
  }

  lemma NotClosed(log: Log, d: Dispatch)
    requires Closed(log)[d] == 0
    ensures d !in log.buried && d !in log.succeeded
  {
    assert multiset(log.buried)[d] == 0 && multiset(log.succeeded)[d] == 0;
  }

  /** A task in the pool is the only one of its dispatch, which has not ended. */
  lemma Alone(c: Config, b: Bus, i: nat)
    requires Conserved(b) && Sent(c, b) && i < |b.pool|
    ensures b.pool[i].id in b.dispatched
    ensures b.pool[i].id !in b.log.buried && b.pool[i].id !in b.log.succeeded
    ensures forall j :: 0 <= j < |b.pool| && j != i ==> b.pool[j].id != b.pool[i].id
  {
    OpenOnce(c, b, i);
    OthersDiffer(b.pool, i);
    NotClosed(b.log, b.pool[i].id);
  }

  /** The tables and counts that only the beginning and the ending of a call change. */
  ghost predicate SameTables(b: Bus, after: Bus) {
    && b.stream <= after.stream
    && after.processed == b.processed && after.dead == b.dead
    && after.log.succeeded == b.log.succeeded && after.log.buried == b.log.buried && after.log.skipped == b.log.skipped
    && after.log.calls == b.log.calls && after.log.waits == b.log.waits
    && b.dispatched <= after.dispatched
  }

  lemma TablesFrame(c: Config, b: Bus, e: Event)
    requires Enabled(c, b, e) && !e.Beginning? && !e.Ending?
    ensures SameTables(b, Step(c, b, e))
  {
  }

  // ---- Tasks ----

  lemma TakeTasks(c: Config, b: Bus, i: nat, after: Bus)
    requires i < |b.pool| && Tasks(c, b) && after.pool == Without(b.pool, i) && after.stream == b.stream
    requires after.log.calls == b.log.calls && after.log.waits == b.log.waits
    ensures Tasks(c, after)
  {
    forall j | 0 <= j < |after.pool| ensures TaskOk(c, after, after.pool[j]) {
      assert TaskOk(c, b, b.pool[if j < i then j else j + 1]);
    }
  }

  /** The counts of two logs agree but for one dispatch. */
  ghost predicate SameBut(d: Dispatch, old_: Log, new_: Log) {
    forall x :: x != d ==> new_.calls[x] == old_.calls[x] && new_.waits[x] == old_.waits[x]
  }

  lemma ReplaceTasks(c: Config, b: Bus, i: nat, t: Task, after: Bus)
    requires i < |b.pool| && Tasks(c, b) && forall j :: 0 <= j < |b.pool| && j != i ==> b.pool[j].id != b.pool[i].id
    requires after.pool == b.pool[i := t] && after.stream == b.stream && SameBut(b.pool[i].id, b.log, after.log)
    requires TaskOk(c, after, t)
    ensures Tasks(c, after)
  {
    forall j | 0 <= j < |after.pool| ensures TaskOk(c, after, after.pool[j]) {
      assert TaskOk(c, b, b.pool[j]);
    }
  }

  lemma CallTasks(c: Config, b: Bus, i: nat, after: Bus)
    requires Tasks(c, b) && Enabled(c, b, Beginning(i))
    requires forall j :: 0 <= j < |b.pool| && j != i ==> b.pool[j].id != b.pool[i].id
    requires after.pool == b.pool[i := b.pool[i].(running := true)] && after.stream == b.stream
    requires after.log.calls == b.log.calls + multiset{b.pool[i].id} && after.log.waits == b.log.waits
    ensures Tasks(c, after)
  {
    assert TaskOk(c, b, b.pool[i]);
    ReplaceTasks(c, b, i, b.pool[i].(running := true), after);
  }

  lemma BeginTasks(c: Config, b: Bus, i: nat)
    requires Conserved(b) && Sent(c, b) && Tasks(c, b) && Enabled(c, b, Beginning(i))
    ensures Tasks(c, Begin(c, b, i))
  {
    if IsProcessed(b, b.pool[i].id.message) || !Callable(c, b.pool[i]) {
      TakeTasks(c, b, i, Begin(c, b, i));
    } else {
      Alone(c, b, i);
      CallTasks(c, b, i, Begin(c, b, i));
    }
  }

  lemma RetryTasks(c: Config, b: Bus, i: nat)
    requires Conserved(b) && Sent(c, b) && Tasks(c, b) && i < |b.pool| && b.pool[i].running
    requires b.pool[i].retries + 1 < c.maxRetries
    ensures Tasks(c, Retry(b, i))
  {
    var t, after := b.pool[i], Retry(b, i);
    assert TaskOk(c, b, t);
    Alone(c, b, i);
    ReplaceTasks(c, b, i, t.(retries := t.retries + 1, running := false), after);
  }

  lemma FailTasks(c: Config, b: Bus, i: nat, error: string)
    requires Conserved(b) && Sent(c, b) && Tasks(c, b) && i < |b.pool| && b.pool[i].running
    ensures Tasks(c, Fail(c, b, i, error))
  {
    var attempt := b.pool[i].retries + 1;
    if attempt < c.maxRetries && attempt <= c.cap {
      RetryTasks(c, b, i);
    } else {
      TakeTasks(c, b, i, Fail(c, b, i, error));
    }
  }

  lemma EndTasks(c: Config, b: Bus, i: nat, o: Outcome)
    requires Conserved(b) && Sent(c, b) && Tasks(c, b) && Enabled(c, b, Ending(i, o))
    ensures Tasks(c, End(c, b, i, o))
  {
    if o.Returned? && !IsProcessed(b, b.pool[i].id.message) {
      TakeTasks(c, b, i, Succeed(b, i));
    } else {
      FailTasks(c, b, i, if o.Returned? then DUPLICATE else o.error);
    }
  }

  lemma SendTasks(c: Config, b: Bus, i: nat)
    requires Counted(c, b) && Tasks(c, b) && Enabled(c, b, Sending(i))
    requires DistinctNames(c.registry) && Deliveries(c, b)
    ensures Tasks(c, Step(c, b, Sending(i)))
  {
    var after, x := Step(c, b, Sending(i)), b.inflight[i];
    assert PartlySent(c, b, x);
    NextIsNew(c, b, x);
    forall j | 0 <= j < |after.pool| ensures TaskOk(c, after, after.pool[j]) {
      assert j < |b.pool| ==> TaskOk(c, b, b.pool[j]);
      assert Pow2(1) == 2;
    }
  }

  lemma SameTasks(c: Config, b: Bus, after: Bus)
    requires Tasks(c, b) && after.pool == b.pool && b.stream <= after.stream
    requires after.log.calls == b.log.calls && after.log.waits == b.log.waits
    ensures Tasks(c, after)
  {
    assert forall i :: 0 <= i < |b.pool| ==> TaskOk(c, b, b.pool[i]);
  }

  lemma StepTasks(c: Config, b: Bus, e: Event)
    requires DistinctNames(c.registry) && Enabled(c, b, e)
    requires Conserved(b) && Sent(c, b) && Deliveries(c, b) && Counted(c, b) && Tasks(c, b)
    ensures Tasks(c, Step(c, b, e))
  {
    match e
    case Sending(i) => SendTasks(c, b, i);
    case Beginning(i) => BeginTasks(c, b, i);
    case Ending(i, o) => EndTasks(c, b, i, o);
    case Dying(i) => TakeTasks(c, b, i, Kill(b, i));
    case _ => SameTasks(c, b, Step(c, b, e));
  }

  // ---- Dead letters ----

  lemma SameLetters(c: Config, b: Bus, after: Bus)
    requires Letters(c, b) && after.dead == b.dead && after.log.buried == b.log.buried && b.stream <= after.stream
    requires forall d :: d in b.log.buried ==>
      after.log.calls[d] == b.log.calls[d] && after.log.waits[d] == b.log.waits[d]
    ensures Letters(c, after)
  {
    forall i | 0 <= i < |b.dead| ensures LetterOk(c, after, b.dead[i], b.log.buried[i]) {
      assert LetterOk(c, b, b.dead[i], b.log.buried[i]);
    }
  }

  lemma BuryLetters(c: Config, b: Bus, i: nat, error: string)
    requires Letters(c, b) && i < |b.pool| && TaskOk(c, b, b.pool[i]) && b.pool[i].running
    requires b.pool[i].retries + 1 >= c.maxRetries
    ensures Letters(c, Bury(b, i, error))
  {
    var after := Bury(b, i, error);
    forall k | 0 <= k < |after.dead| ensures LetterOk(c, after, after.dead[k], after.log.buried[k]) {
      assert k < |b.dead| ==> LetterOk(c, b, b.dead[k], b.log.buried[k]);
    }
  }

  lemma EndLetters(c: Config, b: Bus, i: nat, o: Outcome)
    requires Conserved(b) && Sent(c, b) && Tasks(c, b) && Letters(c, b) && Enabled(c, b, Ending(i, o))
    ensures Letters(c, End(c, b, i, o))
  {
    Alone(c, b, i);
    assert TaskOk(c, b, b.pool[i]);
    if o.Returned? && !IsProcessed(b, b.pool[i].id.message) {
      SameLetters(c, b, Succeed(b, i));
    } else if b.pool[i].retries + 1 >= c.maxRetries {
      BuryLetters(c, b, i, if o.Returned? then DUPLICATE else o.error);
    } else if b.pool[i].retries + 1 <= c.cap {
      SameLetters(c, b, Retry(b, i));
    } else {
      SameLetters(c, b, Drop(b, i));
    }
  }

  lemma CallLetters(c: Config, b: Bus, d: Dispatch, after: Bus)
    requires Letters(c, b) && d !in b.log.buried
    requires after.dead == b.dead && after.log.buried == b.log.buried && after.stream == b.stream
    requires after.log.waits == b.log.waits
    requires after.log.calls == b.log.calls || after.log.calls == b.log.calls + multiset{d}
    ensures Letters(c, after)
  {
    SameLetters(c, b, after);
  }

  lemma BeginLetters(c: Config, b: Bus, i: nat)
    requires Conserved(b) && Sent(c, b) && Letters(c, b) && i < |b.pool|
    ensures Letters(c, Begin(c, b, i))
  {
    Alone(c, b, i);
    CallLetters(c, b, b.pool[i].id, Begin(c, b, i));
  }

  lemma OtherLetters(c: Config, b: Bus, after: Bus)
    requires Letters(c, b) && SameTables(b, after)
    ensures Letters(c, after)
  {
    SameLetters(c, b, after);
  }

  lemma StepLetters(c: Config, b: Bus, e: Event)
    requires Enabled(c, b, e) && Conserved(b) && Sent(c, b) && Tasks(c, b) && Letters(c, b)
    ensures Letters(c, Step(c, b, e))
  {
    if e.Beginning? {
      BeginLetters(c, b, e.i);
    } else if e.Ending? {
      EndLetters(c, b, e.i, e.outcome);
    } else {
      TablesFrame(c, b, e);
      OtherLetters(c, b, Step(c, b, e));
    }
  }

  // ---- Records ----

  lemma SameRecords(b: Bus, after: Bus)
    requires Records(b) && after.processed == b.processed && after.log.succeeded == b.log.succeeded
    requires b.stream <= after.stream
    requires forall d :: d in after.log.skipped ==> IsProcessed(b, d.message)
    ensures Records(after)
  {
    assert forall i :: 0 <= i < |b.processed| ==> RecordOk(b, b.processed[i], b.log.succeeded[i]);
    assert forall m :: IsProcessed(b, m) ==> IsProcessed(after, m);
  }

  lemma ProcessedStays(b: Bus, after: Bus)
    requires b.processed <= after.processed
    ensures forall m :: IsProcessed(b, m) ==> IsProcessed(after, m)
  {
    forall m | IsProcessed(b, m) ensures IsProcessed(after, m) {
      var i :| 0 <= i < |b.processed| && b.processed[i].message == m;
      assert after.processed[i].message == m;
    }
  }

  lemma SucceedRecords(c: Config, b: Bus, i: nat)
    requires Records(b) && i < |b.pool| && TaskOk(c, b, b.pool[i]) && !IsProcessed(b, b.pool[i].id.message)
    ensures Records(Succeed(b, i))
  {
    var after := Succeed(b, i);
    ProcessedStays(b, after);
    forall k | 0 <= k < |after.processed| ensures RecordOk(after, after.processed[k], after.log.succeeded[k]) {
      assert k < |b.processed| ==> RecordOk(b, b.processed[k], b.log.succeeded[k]);
    }
  }

  lemma BeginRecords(c: Config, b: Bus, i: nat)
    requires Records(b) && i < |b.pool|
    ensures Records(Begin(c, b, i))
  {
    SameRecords(b, Begin(c, b, i));
  }

  lemma FailRecords(c: Config, b: Bus, i: nat, error: string)
    requires Records(b) && i < |b.pool|
    ensures Records(Fail(c, b, i, error))
  {
    SameRecords(b, Fail(c, b, i, error));
  }

  lemma OtherRecords(b: Bus, after: Bus)
    requires Records(b) && SameTables(b, after)
    ensures Records(after)
  {
    SameRecords(b, after);
  }

  lemma StepRecords(c: Config, b: Bus, e: Event)
    requires Enabled(c, b, e) && Tasks(c, b) && Records(b)
    ensures Records(Step(c, b, e))
  {
    match e
    case Beginning(i) => BeginRecords(c, b, i);
    case Ending(i, o) =>
      if o.Returned? && !IsProcessed(b, b.pool[i].id.message) {
        SucceedRecords(c, b, i);
      } else {
        FailRecords(c, b, i, if o.Returned? then DUPLICATE else o.error);
      }
    case _ =>
      TablesFrame(c, b, e);
      OtherRecords(b, Step(c, b, e));
  }

  // ---- Counts ----

  lemma CallCounted(c: Config, b: Bus, d: Dispatch, after: Bus)
    requires Counted(c, b) && d in b.dispatched && b.log.calls[d] < Attempts(c)
    requires after.dispatched == b.dispatched && after.log.waits == b.log.waits
    requires after.log.calls == b.log.calls || after.log.calls == b.log.calls + multiset{d}
    ensures Counted(c, after)
  {
  }

  lemma BeginCounted(c: Config, b: Bus, i: nat)
    requires Conserved(b) && Sent(c, b) && Counted(c, b) && i < |b.pool| && TaskOk(c, b, b.pool[i])
    requires !b.pool[i].running
    ensures Counted(c, Begin(c, b, i))
  {
    Alone(c, b, i);
    CallCounted(c, b, b.pool[i].id, Begin(c, b, i));
  }

  lemma WaitCounted(c: Config, b: Bus, d: Dispatch, after: Bus)
    requires Counted(c, b) && d in b.dispatched && b.dispatched <= after.dispatched && after.log.calls == b.log.calls
    requires forall x :: x != d ==> after.log.waits[x] == b.log.waits[x]
    ensures Counted(c, after)
  {
  }

  lemma RetryCounted(c: Config, b: Bus, i: nat)
    requires Counted(c, b) && i < |b.pool| && b.pool[i].id in b.dispatched
    ensures Counted(c, Retry(b, i))
  {
    WaitCounted(c, b, b.pool[i].id, Retry(b, i));
  }

  lemma FailCounted(c: Config, b: Bus, i: nat, error: string)
    requires Counted(c, b) && i < |b.pool| && b.pool[i].id in b.dispatched
    ensures Counted(c, Fail(c, b, i, error))
  {
    var attempt := b.pool[i].retries + 1;
    if attempt < c.maxRetries && attempt <= c.cap {
      RetryCounted(c, b, i);
    }
  }

  lemma EndCounted(c: Config, b: Bus, i: nat, o: Outcome)
    requires Conserved(b) && Sent(c, b) && Counted(c, b) && i < |b.pool|
    ensures Counted(c, End(c, b, i, o))
  {
    Alone(c, b, i);
    FailCounted(c, b, i, if o.Returned? then DUPLICATE else o.error);
  }

  lemma OtherCounted(c: Config, b: Bus, after: Bus)
    requires Counted(c, b) && SameTables(b, after)
    ensures Counted(c, after)
  {
  }

  lemma StepCounted(c: Config, b: Bus, e: Event)
    requires Enabled(c, b, e) && Conserved(b) && Sent(c, b) && Tasks(c, b) && Counted(c, b)
    ensures Counted(c, Step(c, b, e))
  {
    if e.Beginning? {
      BeginCounted(c, b, e.i);
    } else if e.Ending? {
      EndCounted(c, b, e.i, e.outcome);
    } else {
      TablesFrame(c, b, e);
      OtherCounted(c, b, Step(c, b, e));
    }
  }

  // ---- Runs ----

  ghost predicate Invariant(c: Config, b: Bus) {
    Conserved(b) && Sent(c, b) && Deliveries(c, b) && Tasks(c, b) && Letters(c, b) && Records(b) && Counted(c, b)
  }

  lemma RecordsWereSent(b: Bus)
    requires Conserved(b) && Records(b)
    ensures ProcessedWereSent(b)
  {
    forall i | 0 <= i < |b.processed| ensures WasSent(b, b.processed[i].message) {
      assert RecordOk(b, b.processed[i], b.log.succeeded[i]);
      SuccessWasSent(b, b.log.succeeded[i]);
    }
  }

  lemma SuccessWasSent(b: Bus, d: Dispatch)
    requires Conserved(b) && d in b.log.succeeded
    ensures d in b.dispatched && WasSent(b, d.message)
  {
    assert d in multiset(b.log.succeeded);
    assert d == Dispatch(d.handler, d.message);
  }

  /** Every step keeps everything above. */
  lemma StepInvariant(c: Config, b: Bus, e: Event)
    requires DistinctNames(c.registry) && Enabled(c, b, e) && Invariant(c, b)
    ensures Invariant(c, Step(c, b, e))
  {
    RecordsWereSent(b);
    StepConserves(c, b, e);
    StepSent(c, b, e);
    StepTasks(c, b, e);
    StepLetters(c, b, e);
    StepRecords(c, b, e);
    StepCounted(c, b, e);
  }

  lemma IdleInvariant(c: Config)
    ensures Invariant(c, IDLE)
  {
    assert Ids([]) == multiset{} by { assert IdSeq([]) == []; }
  }

  lemma {:induction false} RunInvariant(c: Config, events: seq<Event>, after: Bus)
    requires DistinctNames(c.registry) && Leads(c, IDLE, events, after)
    ensures Invariant(c, after)
    decreases |events|
  {
    if events == [] {
      IdleInvariant(c);
    } else {
      var n := |events| - 1;
      var mid :| Leads(c, IDLE, events[..n], mid) && Enabled(c, mid, events[n]) && after == Step(c, mid, events[n]);
      RunInvariant(c, events[..n], mid);
      StepInvariant(c, mid, events[n]);
    }
  }

  lemma ReachableInvariant(c: Config, b: Bus)
    requires DistinctNames(c.registry) && Reachable(c, b)
    ensures Invariant(c, b)
  {
    var events :| Leads(c, IDLE, events, b);
    RunInvariant(c, events, b);
  }

  // ---- Single facts about reachable states ----

  lemma ReachableTask(c: Config, b: Bus, i: nat)
    requires DistinctNames(c.registry) && Reachable(c, b) && i < |b.pool|
    ensures TaskOk(c, b, b.pool[i])
  {
    ReachableInvariant(c, b);
  }

  lemma ReachableDelivery(c: Config, b: Bus, i: nat)
    requires DistinctNames(c.registry) && Reachable(c, b) && i < |b.inflight|
    ensures PartlySent(c, b, b.inflight[i])
  {
    ReachableInvariant(c, b);
  }

  lemma ReachableSent(c: Config, b: Bus)
    requires DistinctNames(c.registry) && Reachable(c, b)
    ensures Conserved(b) && Sent(c, b)
  {
    ReachableInvariant(c, b);
  }

  lemma ReachableCursor(c: Config, b: Bus)
    requires DistinctNames(c.registry) && Reachable(c, b)
    ensures b.cursor <= |b.stream|
  {
    ReachableInvariant(c, b);
  }

  lemma ReachableRecords(c: Config, b: Bus)
    requires DistinctNames(c.registry) && Reachable(c, b)
    ensures Records(b)
  {
    ReachableInvariant(c, b);
  }

  lemma ReachableLetters(c: Config, b: Bus)
    requires DistinctNames(c.registry) && Reachable(c, b)
    ensures Letters(c, b) && Counted(c, b)
  {
    ReachableInvariant(c, b);
  }

  lemma LeadsOn(c: Config, b: Bus, e: Event)
    requires Reachable(c, b) && Enabled(c, b, e)
    ensures Reachable(c, Step(c, b, e))
  {
    var events :| Leads(c, IDLE, events, b);
    var longer := events + [e];
    assert longer[..|longer| - 1] == events;
    assert Leads(c, IDLE, longer, Step(c, b, e));
  }
}

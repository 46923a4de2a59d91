/** What becomes of every message and every dispatch in every run of the bus. */
module EventBusOutcomes {
  import opened Wrappers
  import opened Envelope
  import opened Registry
  import opened EventBus
  import opened EventBusRuns
  import opened EventBusTables

  /** In how many places a dispatch is. */
  function Places(b: Bus, d: Dispatch): nat {
    Ids(b.pool)[d] + multiset(b.log.succeeded)[d] + multiset(b.log.buried)[d]
    + b.log.skipped[d] + b.log.dropped[d] + b.log.killed[d] + b.log.unresolved[d]
  }

  /** Every dispatch that was sent is in exactly one place, and sent once; every other is in none. */
  lemma ExactlyOnePlace(c: Config, b: Bus, d: Dispatch)
    requires DistinctNames(c.registry) && Reachable(c, b)
    ensures Places(b, d) == b.dispatched[d] <= 1
  {
    ReachableSent(c, b);
    assert b.dispatched[d] == Ids(b.pool)[d] + Closed(b.log)[d];
  }

  /** Tasks that are still open have attempts left, and all dead letters have used exactly all of them. */
  lemma AttemptsTell(c: Config, b: Bus)
    requires DistinctNames(c.registry) && Reachable(c, b)
    ensures forall d :: b.log.calls[d] <= Attempts(c)
    ensures forall i :: 0 <= i < |b.pool| ==> TaskOk(c, b, b.pool[i])
    ensures |b.dead| == |b.log.buried| && forall i :: 0 <= i < |b.dead| ==> LetterOk(c, b, b.dead[i], b.log.buried[i])
  {
    ReachableLetters(c, b);
    forall i | 0 <= i < |b.pool| ensures TaskOk(c, b, b.pool[i]) {
      ReachableTask(c, b, i);
    }
  }

  /** An acknowledged message was sent to every handler of its type. */
  lemma AckedMeansSent(c: Config, b: Bus, m: nat)
    requires DistinctNames(c.registry) && Reachable(c, b) && m in b.acked
    ensures m < |b.stream| && forall h :: h in Names(c, b.stream[m]) ==> Places(b, Dispatch(h, m)) == 1
  {
    ReachableSent(c, b);
    assert Complete(c, b, m);
    forall h | h in Names(c, b.stream[m]) ensures Places(b, Dispatch(h, m)) == 1 {
      assert Dispatch(h, m) in b.dispatched;
      ExactlyOnePlace(c, b, Dispatch(h, m));
    }
  }

  // ---- The processed table ----

  ghost predicate Succeeded(b: Bus, i: nat, m: nat) {
    i < |b.log.succeeded| && b.log.succeeded[i].message == m
  }

  /** A message is recorded exactly when one of its dispatches succeeded, and then exactly one did. */
  lemma ProcessedIffOneSuccess(c: Config, b: Bus, m: nat)
    requires DistinctNames(c.registry) && Reachable(c, b)
    ensures IsProcessed(b, m) <==> exists i: nat :: Succeeded(b, i, m)
    ensures forall i: nat, j: nat :: Succeeded(b, i, m) && Succeeded(b, j, m) ==> i == j
  {
    ReachableRecords(c, b);
    assert forall i :: 0 <= i < |b.processed| ==> RecordOk(b, b.processed[i], b.log.succeeded[i]);
    if IsProcessed(b, m) {
      var i :| 0 <= i < |b.processed| && b.processed[i].message == m;
      assert Succeeded(b, i, m);
    }
  }

  /** Once a message is recorded no handler is called for it again. */
  lemma {:induction false} NoCallAfterRecord(c: Config, b: Bus, events: seq<Event>, after: Bus, m: nat)
    requires IsProcessed(b, m) && Leads(c, b, events, after)
    ensures IsProcessed(after, m)
    ensures forall h :: after.log.calls[Dispatch(h, m)] == b.log.calls[Dispatch(h, m)]
    decreases |events|
  {
    if events != [] {
      var n := |events| - 1;
      var mid :| Leads(c, b, events[..n], mid) && Enabled(c, mid, events[n]) && after == Step(c, mid, events[n]);
      NoCallAfterRecord(c, b, events[..n], mid, m);
      NoCallInStep(c, mid, events[n], m);
    }
  }

  lemma NoCallInStep(c: Config, b: Bus, e: Event, m: nat)
    requires IsProcessed(b, m) && Enabled(c, b, e)
    ensures IsProcessed(Step(c, b, e), m)
    ensures forall h :: Step(c, b, e).log.calls[Dispatch(h, m)] == b.log.calls[Dispatch(h, m)]
  {
    if !e.Beginning? && !e.Ending? {
      TablesFrame(c, b, e);
    }
    ProcessedStays(b, Step(c, b, e));
  }

  /** With one handler for its type, a message has one dispatch. */
  lemma OnlyDispatch(c: Config, b: Bus, d: Dispatch, s: Dispatch)
    requires DistinctNames(c.registry) && Reachable(c, b) && d in b.dispatched && s in b.dispatched
    requires d.message == s.message < |b.stream| && |Names(c, b.stream[d.message])| <= 1
    ensures d == s
  {
    ReachableSent(c, b);
    var names := Names(c, b.stream[d.message]);
    assert d.handler in names && s.handler in names;
  }

  lemma InOnePlace(c: Config, b: Bus, d: Dispatch)
    requires DistinctNames(c.registry) && Reachable(c, b)
    ensures d in b.log.succeeded ==> d in b.dispatched && d !in b.log.buried && d !in b.log.skipped
    ensures d in b.log.buried || d in b.log.skipped ==> d in b.dispatched
  {
    ExactlyOnePlace(c, b, d);
    assert d in b.log.succeeded ==> d in multiset(b.log.succeeded);
    assert d in b.log.buried ==> d in multiset(b.log.buried);
  }

  lemma MessageExists(c: Config, b: Bus, d: Dispatch)
    requires DistinctNames(c.registry) && Reachable(c, b) && d in b.dispatched
    ensures d.message < |b.stream|
  {
    ReachableSent(c, b);
  }

  /** With one handler for its type, the recorded dispatch is the only one. */
  lemma RecordedIsOnly(c: Config, b: Bus, d: Dispatch)
    requires DistinctNames(c.registry) && Reachable(c, b) && d in b.dispatched && IsProcessed(b, d.message)
    requires d.message < |b.stream| && |Names(c, b.stream[d.message])| <= 1
    ensures d in b.log.succeeded
  {
    ProcessedIffOneSuccess(c, b, d.message);
    var k: nat :| Succeeded(b, k, d.message);
    var s := b.log.succeeded[k];
    InOnePlace(c, b, s);
    OnlyDispatch(c, b, d, s);
  }

  /** With one handler for its type, a message is never both recorded and dead. */
  lemma OneHandlerExcludes(c: Config, b: Bus, m: nat, i: nat)
    requires DistinctNames(c.registry) && Reachable(c, b)
    requires m < |b.stream| && |Names(c, b.stream[m])| <= 1 && i < |b.dead| && b.dead[i].message == m
    ensures !IsProcessed(b, m)
  {
    LetterOf(c, b, i);
    var d := b.log.buried[i];
    InOnePlace(c, b, d);
    if IsProcessed(b, m) {
      RecordedIsOnly(c, b, d);
    }
  }

  lemma LetterOf(c: Config, b: Bus, i: nat)
    requires DistinctNames(c.registry) && Reachable(c, b) && i < |b.dead|
    ensures i < |b.log.buried| && b.log.buried[i].message == b.dead[i].message
  {
    ReachableLetters(c, b);
    assert LetterOk(c, b, b.dead[i], b.log.buried[i]);
  }

  /** A failure on the last attempt leaves one letter, with the message, its fields, tenant and error. */
  lemma LastFailureIsBuried(c: Config, b: Bus, i: nat, error: string)
    requires Enabled(c, b, Ending(i, Raised(error))) && b.pool[i].retries + 1 >= c.maxRetries
    ensures var t, after := b.pool[i], Step(c, b, Ending(i, Raised(error)));
      && |after.dead| == |b.dead| + 1 && b.dead <= after.dead
      && var row := after.dead[|b.dead|];
         && row.message == t.id.message && row.payload == t.fields && row.error == error && row.retries == t.retries + 1
         && ("type" in t.fields ==> row.eventType == t.fields["type"])
         && ("tenant_id" in t.fields ==>
               row.tenantId == if t.fields["tenant_id"] == "" then None else Some(t.fields["tenant_id"]))
  {
  }

  // ---- What handlers receive ----

  /** Every entry of the stream was written by a publisher. */
  ghost predicate Published(c: Config, b: Bus) {
    forall m :: 0 <= m < |b.stream| ==> WrittenBy(c, b.stream[m])
  }

  ghost predicate WrittenBy(c: Config, f: Fields) {
    exists e :: f == ToFields(c.codec, e)
  }

  lemma {:induction false} RunPublished(c: Config, events: seq<Event>, b: Bus)
    requires Leads(c, IDLE, events, b)
    ensures Published(c, b)
    decreases |events|
  {
    if events != [] {
      var n := |events| - 1;
      var mid :| Leads(c, IDLE, events[..n], mid) && Enabled(c, mid, events[n]) && b == Step(c, mid, events[n]);
      RunPublished(c, events[..n], mid);
      StreamGrows(c, mid, events[n]);
    }
  }

  lemma StreamGrows(c: Config, b: Bus, e: Event)
    requires Enabled(c, b, e)
    ensures Step(c, b, e).stream == b.stream + (if e.Publishing? then [ToFields(c.codec, e.envelope)] else [])
    ensures e.Publishing? ==> WrittenBy(c, ToFields(c.codec, e.envelope))
  {
  }

  /** The envelope that a worker reads is the one that was published at that message, up to empty contexts. */
  lemma HandlerSeesPublished(c: Config, b: Bus, i: nat) returns (e: EventEnvelope)
    requires DistinctNames(c.registry) && Inverse(c.codec) && Reachable(c, b) && i < |b.pool|
    ensures b.pool[i].id.message < |b.stream| && b.stream[b.pool[i].id.message] == ToFields(c.codec, e)
    ensures FromFields(c.codec, b.pool[i].fields)
            == Success(e.(tenantId := OrNone(OrEmpty(e.tenantId)), actorId := OrNone(OrEmpty(e.actorId))))
  {
    ReachableTask(c, b, i);
    var events :| Leads(c, IDLE, events, b);
    RunPublished(c, events, b);
    var m := b.pool[i].id.message;
    assert WrittenBy(c, b.stream[m]);
    e :| b.stream[m] == ToFields(c.codec, e);
    RoundTripKeeps(c.codec, e);
  }

  // ---- Nothing is lost ----

  /** Every queued name was registered. */
  lemma NameIsKnown(c: Config, b: Bus, i: nat)
    requires Valid(c.registry) && DistinctNames(c.registry) && Reachable(c, b) && i < |b.pool|
    ensures Resolve(c.registry, b.pool[i].id.handler).Some?
  {
    ReachableInvariant(c, b);
    Alone(c, b, i);
    var d := b.pool[i].id;
    var f := b.stream[d.message];
    var k :| 0 <= k < |Names(c, f)| && Names(c, f)[k] == d.handler;
    assert Registered(c.registry, FieldOf(f, "type"), HandlersOf(c.registry, FieldOf(f, "type"))[k]);
    ResolveIff(c.registry, d.handler);
  }

  /** A queued task can always be called. */
  lemma NeverUnresolved(c: Config, b: Bus, i: nat)
    requires Sound(c) && Reachable(c, b) && i < |b.pool|
    ensures Callable(c, b.pool[i])
  {
    NameIsKnown(c, b, i);
    var e := HandlerSeesPublished(c, b, i);
  }

  /** The limits under which a failed dispatch always reaches the dead-letter table. */
  predicate CapSuffices(c: Config) {
    Attempts(c) - 1 <= c.cap
  }

  /** No worker dies during the run. */
  predicate NoDeaths(events: seq<Event>) {
    forall k :: 0 <= k < |events| ==> !events[k].Dying?
  }

  predicate NoPollDies(events: seq<Event>) {
    forall k :: 0 <= k < |events| ==> !events[k].Losing?
  }

  /** What can make a dispatch or a message disappear. */
  lemma {:induction false} LossesExplained(c: Config, events: seq<Event>, b: Bus)
    requires Sound(c) && Leads(c, IDLE, events, b)
    ensures b.log.unresolved == multiset{}
    ensures CapSuffices(c) ==> b.log.dropped == multiset{}
    ensures NoDeaths(events) ==> b.log.killed == multiset{}
    ensures NoPollDies(events) ==> b.log.lost == {}
    decreases |events|
  {
    if events != [] {
      var n := |events| - 1;
      var mid :| Leads(c, IDLE, events[..n], mid) && Enabled(c, mid, events[n]) && b == Step(c, mid, events[n]);
      LossesExplained(c, events[..n], mid);
      assert Reachable(c, mid);
      if events[n].Beginning? {
        NeverUnresolved(c, mid, events[n].i);
      }
      LossStep(c, mid, events[n]);
    }
  }

  lemma FailLosses(c: Config, b: Bus, i: nat, error: string)
    requires i < |b.pool|
    ensures var log := Fail(c, b, i, error).log;
      && log.unresolved == b.log.unresolved && log.killed == b.log.killed && log.lost == b.log.lost
      && (CapSuffices(c) ==> log.dropped == b.log.dropped)
  {
  }

  lemma LossStep(c: Config, b: Bus, e: Event)
    requires Enabled(c, b, e) && (e.Beginning? ==> Callable(c, b.pool[e.i]))
    ensures Step(c, b, e).log.unresolved == b.log.unresolved
    ensures CapSuffices(c) ==> Step(c, b, e).log.dropped == b.log.dropped
    ensures !e.Dying? ==> Step(c, b, e).log.killed == b.log.killed
    ensures !e.Losing? ==> Step(c, b, e).log.lost == b.log.lost
  {
    if e.Ending? {
      FailLosses(c, b, e.i, if e.outcome.Returned? then DUPLICATE else e.outcome.error);
    }
  }

  /** Nothing left to read, to send or to execute. */
  predicate Drained(b: Bus) {
    b.cursor == |b.stream| && b.inflight == [] && b.pool == []
  }

  /** Whether every handler of message `m` has a dead letter. */
  ghost predicate AllBuried(c: Config, b: Bus, m: nat)
    requires m < |b.stream|
  {
    forall h :: h in Names(c, b.stream[m]) ==> Dispatch(h, m) in b.log.buried
  }

  /** Once the bus is drained and nothing died, every message is recorded, or dead-lettered for every handler. */
  lemma NothingIsLost(c: Config, events: seq<Event>, b: Bus, m: nat)
    requires Sound(c) && CapSuffices(c)
    requires Leads(c, IDLE, events, b) && NoDeaths(events) && NoPollDies(events)
    requires Drained(b) && m < |b.stream|
    ensures m in b.acked && (IsProcessed(b, m) || AllBuried(c, b, m))
  {
    assert Reachable(c, b);
    LossesExplained(c, events, b);
    ReadMeansAcked(c, b, m);
    AckedMeansSent(c, b, m);
    forall h | h in Names(c, b.stream[m]) && !IsProcessed(b, m) ensures Dispatch(h, m) in b.log.buried {
      DrainedIsRecordedOrDead(c, b, Dispatch(h, m));
    }
  }

  lemma ReadMeansAcked(c: Config, b: Bus, m: nat)
    requires DistinctNames(c.registry) && Reachable(c, b) && Drained(b) && m < |b.stream| && b.log.lost == {}
    ensures m in b.acked
  {
    ReachableSent(c, b);
  }

  lemma DrainedIsRecordedOrDead(c: Config, b: Bus, d: Dispatch)
    requires DistinctNames(c.registry) && Reachable(c, b) && Drained(b) && Places(b, d) == 1
    requires b.log.unresolved[d] == b.log.dropped[d] == b.log.killed[d] == 0
    ensures IsProcessed(b, d.message) || d in b.log.buried
  {
    assert IdSeq(b.pool) == [];
    if d in multiset(b.log.succeeded) {
      ProcessedIffOneSuccess(c, b, d.message);
      var i :| 0 <= i < |b.log.succeeded| && b.log.succeeded[i] == d;
      assert Succeeded(b, i, d.message);
    } else if d in b.log.skipped {
      ReachableRecords(c, b);
    } else {
      assert d in multiset(b.log.buried);
    }
  }
}

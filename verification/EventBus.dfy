/** The event bus: publishing, polling, handler dispatch with retries, and the dead-letter table. */
module EventBus {
  import opened Wrappers
  import opened Envelope
  import opened Registry

  /** Settings: `cap` is the queue's own limit on the retries of one task. */
  datatype Config = Config(registry: Table, codec: Codec, maxRetries: int, cap: nat)

  /** One handler for one message. */
  datatype Dispatch = Dispatch(handler: string, message: nat)

  /** A queued task, or one that a worker is running. */
  datatype Task = Task(id: Dispatch, fields: Fields, retries: nat, running: bool)

  datatype ProcessedEvent = ProcessedEvent(message: nat, eventType: string)

  datatype DeadLetter = DeadLetter(
    message: nat, eventType: string, payload: Fields, tenantId: Option<string>, error: string, retries: nat)

  /** A message that a running poll has read: whether the poll has taken it up, and to how many handlers it was sent. */
  datatype Delivery = Delivery(message: nat, started: bool, sent: nat)

  /**
   * How dispatches ended so far; those in `unresolved` had an unknown name or unreadable fields. `calls` counts
   * handler calls, `waits` adds up backoff seconds and `lost` holds the messages that a poll had read when it died.
   */
  datatype Log = Log(
    succeeded: seq<Dispatch>,
    buried: seq<Dispatch>,
    skipped: multiset<Dispatch>,
    dropped: multiset<Dispatch>,
    killed: multiset<Dispatch>,
    unresolved: multiset<Dispatch>,
    calls: multiset<Dispatch>,
    waits: multiset<Dispatch>,
    lost: set<nat>)

  datatype Bus = Bus(
    stream: seq<Fields>,
    cursor: nat,
    acked: set<nat>,
    inflight: seq<Delivery>,
    pool: seq<Task>,
    dispatched: multiset<Dispatch>,
    processed: seq<ProcessedEvent>,
    dead: seq<DeadLetter>,
    log: Log)

  const NO_LOG := Log([], [], multiset{}, multiset{}, multiset{}, multiset{}, multiset{}, multiset{}, {})

  const IDLE := Bus([], 0, {}, [], [], multiset{}, [], [], NO_LOG)

  /** How a handler call ends. */
  datatype Outcome = Returned | Raised(error: string)

  function FieldOf(f: Fields, name: string): string {
    if name in f then f[name] else ""
  }

  function Names(c: Config, f: Fields): seq<string> {
    var hs := HandlersOf(c.registry, FieldOf(f, "type"));
    seq(|hs|, i requires 0 <= i < |hs| => hs[i].qualname)
  }

  predicate IsProcessed(b: Bus, m: nat) {
    exists i :: 0 <= i < |b.processed| && b.processed[i].message == m
  }

  function Without<T>(s: seq<T>, i: nat): seq<T>
    requires i < |s|
  {
    s[..i] + s[i + 1..]
  }

  function Pow2(n: nat): nat {
    if n == 0 then 1 else 2 * Pow2(n - 1)
  }

  // ---- Polling ----

  /** One message is read: the group's cursor moves past it. */
  function Read(b: Bus): Bus {
    b.(cursor := b.cursor + 1, inflight := b.inflight + [Delivery(b.cursor, false, 0)])
  }

  function Ack(b: Bus, i: nat): Bus
    requires i < |b.inflight|
  {
    b.(inflight := Without(b.inflight, i), acked := b.acked + {b.inflight[i].message})
  }

  /** A poll takes up a message, and is done with it at once if it is processed. */
  function Start(b: Bus, i: nat): Bus
    requires i < |b.inflight|
  {
    if IsProcessed(b, b.inflight[i].message) then Ack(b, i)
    else b.(inflight := b.inflight[i := b.inflight[i].(started := true)])
  }

  /** A task for the next handler of a message. */
  function Send(b: Bus, i: nat, handler: string): Bus
    requires i < |b.inflight| && b.inflight[i].message < |b.stream|
  {
    var m := b.inflight[i].message;
    b.(inflight := b.inflight[i := b.inflight[i].(sent := b.inflight[i].sent + 1)],
       pool := b.pool + [Task(Dispatch(handler, m), b.stream[m], 0, false)],
       dispatched := b.dispatched + multiset{Dispatch(handler, m)})
  }

  /** The poll dies before it acknowledges the message. */
  function Lose(b: Bus, i: nat): Bus
    requires i < |b.inflight|
  {
    b.(inflight := Without(b.inflight, i), log := b.log.(lost := b.log.lost + {b.inflight[i].message}))
  }

  // ---- Dispatching ----

  /** The handler of a task is known, and its fields can be read. */
  predicate Callable(c: Config, t: Task) {
    Resolve(c.registry, t.id.handler).Some? && FromFields(c.codec, t.fields).Success?
  }

  /** A worker takes a task: it drops out if the message is processed or it cannot be called, else it is called. */
  function Begin(c: Config, b: Bus, i: nat): Bus
    requires i < |b.pool|
  {
    var t := b.pool[i];
    if IsProcessed(b, t.id.message) then
      b.(pool := Without(b.pool, i), log := b.log.(skipped := b.log.skipped + multiset{t.id}))
    else if !Callable(c, t) then
      b.(pool := Without(b.pool, i), log := b.log.(unresolved := b.log.unresolved + multiset{t.id}))
    else
      b.(pool := b.pool[i := t.(running := true)], log := b.log.(calls := b.log.calls + multiset{t.id}))
  }

  function Succeed(b: Bus, i: nat): Bus
    requires i < |b.pool|
  {
    var t := b.pool[i];
    b.(pool := Without(b.pool, i),
       processed := b.processed + [ProcessedEvent(t.id.message, FieldOf(t.fields, "type"))],
       log := b.log.(succeeded := b.log.succeeded + [t.id]))
  }

  function Retry(b: Bus, i: nat): Bus
    requires i < |b.pool|
  {
    var t := b.pool[i];
    b.(pool := b.pool[i := t.(retries := t.retries + 1, running := false)],
       log := b.log.(waits := b.log.waits[t.id := b.log.waits[t.id] + Pow2(t.retries + 1)]))
  }

  /** The queue refuses another retry and its own exception ends it, with no record. */
  function Drop(b: Bus, i: nat): Bus
    requires i < |b.pool|
  {
    b.(pool := Without(b.pool, i), log := b.log.(dropped := b.log.dropped + multiset{b.pool[i].id}))
  }

  function Bury(b: Bus, i: nat, error: string): Bus
    requires i < |b.pool|
  {
    var t := b.pool[i];
    b.(pool := Without(b.pool, i),
       dead := b.dead + [DeadLetter(t.id.message, FieldOf(t.fields, "type"), t.fields,
                                    OrNone(FieldOf(t.fields, "tenant_id")), error, t.retries + 1)],
       log := b.log.(buried := b.log.buried + [t.id]))
  }

  /** A call that raised, or whose record was refused. */
  function Fail(c: Config, b: Bus, i: nat, error: string): Bus
    requires i < |b.pool|
  {
    var attempt := b.pool[i].retries + 1;
    if attempt < c.maxRetries then
      if attempt <= c.cap then Retry(b, i) else Drop(b, i)
    else Bury(b, i, error)
  }

  const DUPLICATE := "duplicate message_id"

  /** The call ends. A second record for one message is refused, which counts as a failure. */
  function End(c: Config, b: Bus, i: nat, o: Outcome): Bus
    requires i < |b.pool|
  {
    match o
    case Returned => if IsProcessed(b, b.pool[i].id.message) then Fail(c, b, i, DUPLICATE) else Succeed(b, i)
    case Raised(error) => Fail(c, b, i, error)
  }

  /** The worker dies in the middle of a call. */
  function Kill(b: Bus, i: nat): Bus
    requires i < |b.pool|
  {
    b.(pool := Without(b.pool, i), log := b.log.(killed := b.log.killed + multiset{b.pool[i].id}))
  }

  // ---- Runs ----

  /** Polls, publishers and workers interleave step by step; several polls and several handlers may be under way. */
  datatype Event =
    | Publishing(envelope: EventEnvelope)
    | Reading
    | Starting(i: nat)
    | Sending(i: nat)
    | Acking(i: nat)
    | Losing(i: nat)
    | Beginning(i: nat)
    | Ending(i: nat, outcome: Outcome)
    | Dying(i: nat)

  /** The handlers that remain for a delivery. */
  function Unsent(c: Config, b: Bus, x: Delivery): int
    requires x.message < |b.stream|
  {
    |Names(c, b.stream[x.message])| - x.sent
  }

  predicate Enabled(c: Config, b: Bus, e: Event) {
    match e
    case Publishing(_) => true
    case Reading => b.cursor < |b.stream|
    case Starting(i) => i < |b.inflight| && !b.inflight[i].started
    case Sending(i) =>
      && i < |b.inflight| && b.inflight[i].started && b.inflight[i].message < |b.stream|
      && Unsent(c, b, b.inflight[i]) > 0
    case Acking(i) =>
      && i < |b.inflight| && b.inflight[i].started && b.inflight[i].message < |b.stream|
      && Unsent(c, b, b.inflight[i]) <= 0
    case Losing(i) => i < |b.inflight|
    case Beginning(i) => i < |b.pool| && !b.pool[i].running
    case Ending(i, _) => i < |b.pool| && b.pool[i].running
    case Dying(i) => i < |b.pool| && b.pool[i].running
  }

  function Step(c: Config, b: Bus, e: Event): Bus
    requires Enabled(c, b, e)
  {
    match e
    case Publishing(envelope) => b.(stream := b.stream + [ToFields(c.codec, envelope)])
    case Reading => Read(b)
    case Starting(i) => Start(b, i)
    case Sending(i) => Send(b, i, Names(c, b.stream[b.inflight[i].message])[b.inflight[i].sent])
    case Acking(i) => Ack(b, i)
    case Losing(i) => Lose(b, i)
    case Beginning(i) => Begin(c, b, i)
    case Ending(i, o) => End(c, b, i, o)
    case Dying(i) => Kill(b, i)
  }

  /** `after` is where `events`, one after another, lead from `b`. */
  ghost predicate Leads(c: Config, b: Bus, events: seq<Event>, after: Bus)
    decreases |events|
  {
    if events == [] then after == b
    else
      var n := |events| - 1;
      exists mid :: Leads(c, b, events[..n], mid) && Enabled(c, mid, events[n]) && after == Step(c, mid, events[n])
  }

  ghost predicate Reachable(c: Config, b: Bus) {
    exists events :: Leads(c, IDLE, events, b)
  }

  /** Registered names differ, and the JSON codec is an inverse pair. */
  ghost predicate Sound(c: Config) {
    Valid(c.registry) && DistinctNames(c.registry) && Inverse(c.codec)
  }

  /** The number of attempts that a dispatch gets. */
  function Attempts(c: Config): nat {
    if c.maxRetries < 1 then 1 else c.maxRetries
  }
}

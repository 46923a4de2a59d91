/** The idempotency middleware: a Redis entry per (user, key) that is in flight, then complete. */
module Idempotency {
  import opened Wrappers
  import opened TtlCache

  datatype Response = Response(status: int, body: string, contentType: string)

  datatype Saved = InFlight | Complete(response: Response)

  const PREFIX := "idempotency:"

  function RedisKey(user: string, key: string): string {
    PREFIX + user + ":" + key
  }

  /** User keys that contain no colon, such as UUIDs, keep the entries of distinct pairs apart. */
  lemma RedisKeyInjective(u: string, k: string, v: string, l: string)
    requires ':' !in u && ':' !in v
    ensures RedisKey(u, k) == RedisKey(v, l) <==> u == v && k == l
  {
    if RedisKey(u, k) == RedisKey(v, l) {
      var p := |PREFIX|;
      var r := RedisKey(u, k);
      assert r[p + |u|] == ':' && r[p + |v|] == ':';
      assert forall i :: 0 <= i < |u| ==> r[p + i] == u[i];
      assert forall i :: 0 <= i < |v| ==> r[p + i] == v[i];
      assert |u| == |v|;
      assert u == r[p..p + |u|] && v == r[p..p + |u|];
      assert k == r[p + |u| + 1..] && l == r[p + |u| + 1..];
    }
  }

  // ---- One request, from start to end ----

  datatype Config = Config(guarded: seq<string>, requireHeader: bool, ttl: nat)

  datatype Request = Request(verb: string, user: Option<string>, key: Option<string>)

  datatype Reply =
    Passed | MissingKey | Conflict | Replayed(response: Response) | Executed(response: Response) | Raised

  /** What the lookup answers; None means that the handler will run. */
  function LookupReply(s: State<Saved>, user: string, key: string): Option<Reply> {
    var cached := Lookup(s, RedisKey(user, key));
    if cached.None? then None
    else if cached.value.InFlight? then Some(Conflict)
    else Some(Replayed(cached.value.response))
  }

  /**
   The middleware around a handler that takes `work` ticks and answers, or raises and leaves its entry in flight.
   */
  method Handle(client: Cache<Saved>, cfg: Config, r: Request, answer: Option<Response>, lag: nat, work: nat)
    returns (reply: Reply)
    modifies client
    ensures r.verb !in cfg.guarded || r.user.None? ==> reply == Passed && client.View() == old(client.View())
    ensures r.verb in cfg.guarded && r.user.Some? && (r.key.None? || r.key.value == "") ==>
      reply == (if cfg.requireHeader then MissingKey else Passed) && client.View() == old(client.View())
    ensures r.verb in cfg.guarded && r.user.Some? && r.key.Some? && r.key.value != "" ==>
      var user, key := r.user.value, r.key.value;
      match LookupReply(old(client.View()), user, key)
      case Some(early) => reply == early && client.View() == old(client.View())
      case None =>
        && reply == (if answer.Some? then Executed(answer.value) else Raised)
        && client.View() == Executes(old(client.View()), cfg, user, key, answer, lag, work)
    ensures reply.Executed? ==>
      && r.user.Some? && r.key.Some?
      && forall d: nat :: d < cfg.ttl ==>
           LookupReply(Wait(client.View(), d), r.user.value, r.key.value) == Some(Replayed(reply.response))
    ensures reply.Raised? ==>
      && r.user.Some? && r.key.Some?
      && forall d: nat :: work + d < cfg.ttl ==>
           LookupReply(Wait(client.View(), d), r.user.value, r.key.value) == Some(Conflict)
  {
    if r.verb !in cfg.guarded {
      return Passed;
    }
    if r.user.None? {
      return Passed;
    }
    if r.key.None? || r.key.value == "" {
      return if cfg.requireHeader then MissingKey else Passed;
    }
    var redisKey := PREFIX + r.user.value + ":" + r.key.value;
    var cached := client.Get(redisKey);
    if cached.Some? {
      match cached.value {
        case InFlight => return Conflict;
        case Complete(response) => return Replayed(response);
      }
    }
    client.Sleep(lag);
    client.Set(redisKey, InFlight, Some(cfg.ttl));
    client.Sleep(work);
    if answer.None? {
      return Raised;
    }
    client.Set(redisKey, Complete(answer.value), Some(cfg.ttl));
    return Executed(answer.value);
  }

  // ---- Interleaved requests ----

  datatype Execution = Execution(user: string, key: string, start: int)

  datatype Record = Record(user: string, key: string, response: Response)

  /** A request whose lookup found nothing, and the number of executions that had started by then. */
  datatype Miss = Miss(user: string, key: string, since: nat)

  /** The cache, the requests between their steps, and what has happened so far. */
  datatype System = System(
    cache: State<Saved>,
    missed: map<nat, Miss>,
    running: map<nat, (string, string)>,
    executions: seq<Execution>,
    completed: set<Record>,
    served: set<Record>)

  datatype Step =
    | StLookup(id: nat, user: string, key: string)
    | StRegister(id: nat)
    | StEnter(id: nat, user: string, key: string)  // lookup and registration in one step
    | StFinish(id: nat, response: Response)
    | StRaise(id: nat)                             // the handler never answers
    | StWait(d: nat)

  function Looked(y: System, id: nat, user: string, key: string): System {
    var reply := LookupReply(y.cache, user, key);
    if reply.None? then y.(missed := y.missed[id := Miss(user, key, |y.executions|)])
    else if reply.value.Replayed? then y.(served := y.served + {Record(user, key, reply.value.response)})
    else y
  }

  function Registered(y: System, ttl: nat, id: nat): System {
    if id !in y.missed then y else
    var (user, key) := (y.missed[id].user, y.missed[id].key);
    y.(cache := Put(y.cache, RedisKey(user, key), InFlight, Some(ttl)),
       missed := y.missed - {id},
       running := y.running[id := (user, key)],
       executions := y.executions + [Execution(user, key, y.cache.now)])
  }

  function Finished(y: System, ttl: nat, id: nat, response: Response): System {
    if id !in y.running then y else
    var (user, key) := y.running[id];
    y.(cache := Put(y.cache, RedisKey(user, key), Complete(response), Some(ttl)),
       running := y.running - {id},
       completed := y.completed + {Record(user, key, response)})
  }

  function Take(y: System, ttl: nat, step: Step): System {
    match step
    case StLookup(id, user, key) => Looked(y, id, user, key)
    case StRegister(id) => Registered(y, ttl, id)
    case StEnter(id, user, key) =>
      var looked := Looked(y, id, user, key);
      if LookupReply(y.cache, user, key).None? then Registered(looked, ttl, id) else looked
    case StFinish(id, response) => Finished(y, ttl, id, response)
    case StRaise(id) => y.(running := y.running - {id})
    case StWait(d) => y.(cache := Wait(y.cache, d))
  }

  function TakeAll(y: System, ttl: nat, steps: seq<Step>): System {
    if steps == [] then y else Take(TakeAll(y, ttl, steps[..|steps| - 1]), ttl, steps[|steps| - 1])
  }

  function Init(start: int): System {
    System(State(map[], start), map[], map[], [], {}, {})
  }

  /** The cache after one request has run alone, and the same as steps of the system. */
  function Executes(s: State<Saved>, cfg: Config, user: string, key: string, answer: Option<Response>,
                    lag: nat, work: nat): State<Saved> {
    Take(Take(Take(Take(Take(Init(0).(cache := s),
      cfg.ttl, StLookup(0, user, key)),
      cfg.ttl, StWait(lag)),
      cfg.ttl, StRegister(0)),
      cfg.ttl, StWait(work)),
      cfg.ttl, if answer.Some? then StFinish(0, answer.value) else StRaise(0)).cache
  }

  // ---- Served responses are completed executions' ----

  /** User keys without a colon throughout the run. */
  predicate PlainUsers(steps: seq<Step>) {
    forall st :: st in steps && (st.StLookup? || st.StEnter?) ==> ':' !in st.user
  }

  ghost predicate Started(y: System, user: string, key: string) {
    exists i :: 0 <= i < |y.executions| && y.executions[i].user == user && y.executions[i].key == key
  }

  /** Every complete entry was written by a completed execution, and every served record is one. */
  ghost predicate Truthful(y: System) {
    && (forall id :: id in y.missed ==> ':' !in y.missed[id].user)
    && (forall id :: id in y.running ==> ':' !in y.running[id].0)
    && (forall r :: r in y.completed ==> ':' !in r.user && Started(y, r.user, r.key))
    && (forall id :: id in y.running ==> Started(y, y.running[id].0, y.running[id].1))
    && (forall k :: k in y.cache.entries && y.cache.entries[k].value.Complete? ==>
          exists r :: && r in y.completed && RedisKey(r.user, r.key) == k
                      && r.response == y.cache.entries[k].value.response)
    && y.served <= y.completed
  }

  lemma LookedTruthful(y: System, id: nat, user: string, key: string)
    requires Truthful(y) && ':' !in user
    ensures Truthful(Looked(y, id, user, key))
  {
    var reply := LookupReply(y.cache, user, key);
    if reply.Some? && reply.value.Replayed? {
      var k := RedisKey(user, key);
      var r :| r in y.completed && RedisKey(r.user, r.key) == k && r.response == y.cache.entries[k].value.response;
      RedisKeyInjective(r.user, r.key, user, key);
    }
  }

  lemma StartedStays(y: System, ttl: nat, step: Step)
    ensures forall u, k :: Started(y, u, k) ==> Started(Take(y, ttl, step), u, k)
    ensures forall id :: id in Take(y, ttl, step).running && id !in y.running ==>
      Started(Take(y, ttl, step), Take(y, ttl, step).running[id].0, Take(y, ttl, step).running[id].1)
    ensures forall id :: id in Take(y, ttl, step).running && id in y.running ==>
      Take(y, ttl, step).running[id] == y.running[id]
      || Started(Take(y, ttl, step), Take(y, ttl, step).running[id].0, Take(y, ttl, step).running[id].1)
  {
    var z := Take(y, ttl, step);
    assert forall i :: 0 <= i < |y.executions| ==> z.executions[i] == y.executions[i];
    forall u, k | Started(y, u, k) ensures Started(z, u, k) {
      var i :| 0 <= i < |y.executions| && y.executions[i].user == u && y.executions[i].key == k;
      assert z.executions[i].user == u;
    }
    if |z.executions| > |y.executions| {
      var e := z.executions[|y.executions|];
      assert Started(z, e.user, e.key);
    }
  }

  lemma TakeTruthful(y: System, ttl: nat, step: Step)
    requires Truthful(y) && PlainUsers([step])
    ensures Truthful(Take(y, ttl, step))
  {
    assert step in [step];
    StartedStays(y, ttl, step);
    match step {
      case StLookup(id, user, key) => LookedTruthful(y, id, user, key);
      case StEnter(id, user, key) => LookedTruthful(y, id, user, key);
      case StFinish(id, response) =>
        if id in y.running {
          var (user, key) := y.running[id];
          assert Record(user, key, response) in Take(y, ttl, step).completed;
        }
      case _ =>
    }
  }

  lemma {:induction false} RunTruthful(start: int, ttl: nat, steps: seq<Step>)
    requires PlainUsers(steps)
    ensures Truthful(TakeAll(Init(start), ttl, steps))
  {
    if steps != [] {
      RunTruthful(start, ttl, steps[..|steps| - 1]);
      assert steps[|steps| - 1] in steps;
      TakeTruthful(TakeAll(Init(start), ttl, steps[..|steps| - 1]), ttl, steps[|steps| - 1]);
    }
  }

  /** In any interleaving, a response served from the cache is that of a completed execution of the same pair. */
  lemma ServedIsCompleted(start: int, ttl: nat, steps: seq<Step>, r: Record)
    requires PlainUsers(steps) && r in TakeAll(Init(start), ttl, steps).served
    ensures r in TakeAll(Init(start), ttl, steps).completed
    ensures Started(TakeAll(Init(start), ttl, steps), r.user, r.key)
  {
    RunTruthful(start, ttl, steps);
  }

  // ---- When executions are TTL apart ----

  /** An execution younger than the TTL still has its entry, which expires no sooner than the TTL after it started. */
  ghost predicate Guarded(y: System, ttl: nat) {
    forall i :: 0 <= i < |y.executions| ==>
      var e := y.executions[i];
      var k := RedisKey(e.user, e.key);
      e.start <= y.cache.now
      && (y.cache.now < e.start + ttl ==>
            && k in y.cache.entries && y.cache.entries[k].expires.Some?
            && e.start + ttl <= y.cache.entries[k].expires.value)
  }

  ghost predicate Apart(y: System, ttl: nat) {
    forall i, j :: 0 <= i < j < |y.executions|
                   && y.executions[i].user == y.executions[j].user && y.executions[i].key == y.executions[j].key
      ==> y.executions[i].start + ttl <= y.executions[j].start
  }

  /** What had started before a lookup that found nothing is at least the TTL old. */
  ghost predicate Settled(y: System, ttl: nat) {
    forall id, i :: id in y.missed && 0 <= i < y.missed[id].since
                    && i < |y.executions| && SamePair(y.executions[i], y.missed[id])
      ==> y.executions[i].start + ttl <= y.cache.now
  }

  predicate SamePair(e: Execution, m: Miss) {
    e.user == m.user && e.key == m.key
  }

  /**
   A registration that comes less than the TTL after another execution of its pair, which started since its own
   lookup.
   */
  ghost predicate Overtaken(y: System, ttl: nat, step: Step) {
    && step.StRegister? && step.id in y.missed
    && exists i :: y.missed[step.id].since <= i < |y.executions| && SamePair(y.executions[i], y.missed[step.id])
                   && y.cache.now < y.executions[i].start + ttl
  }

  lemma TakeGuarded(y: System, ttl: nat, step: Step)
    requires Guarded(y, ttl)
    ensures Guarded(Take(y, ttl, step), ttl)
  {
  }

  /** A lookup that finds nothing shows that every earlier execution of the pair is at least the TTL old. */
  lemma MissIsSettled(y: System, ttl: nat, user: string, key: string, i: nat)
    requires Guarded(y, ttl) && LookupReply(y.cache, user, key).None?
    requires i < |y.executions| && y.executions[i].user == user && y.executions[i].key == key
    ensures y.executions[i].start + ttl <= y.cache.now
  {
    assert !Live(y.cache, RedisKey(user, key));
  }

  lemma LookedSettled(y: System, ttl: nat, id: nat, user: string, key: string)
    requires Guarded(y, ttl) && Settled(y, ttl)
    ensures Settled(Looked(y, id, user, key), ttl)
  {
    var z := Looked(y, id, user, key);
    forall a, i | && a in z.missed && 0 <= i < z.missed[a].since && i < |z.executions|
                  && SamePair(z.executions[i], z.missed[a])
      ensures z.executions[i].start + ttl <= z.cache.now
    {
      if LookupReply(y.cache, user, key).None? && a == id {
        MissIsSettled(y, ttl, user, key, i);
      }
    }
  }

  /** A lookup counts only executions that there are. */
  ghost predicate Counts(y: System) {
    forall id :: id in y.missed ==> y.missed[id].since <= |y.executions|
  }

  lemma RegisteredSettled(y: System, ttl: nat, id: nat)
    requires Settled(y, ttl) && Counts(y)
    ensures Settled(Registered(y, ttl, id), ttl) && Counts(Registered(y, ttl, id))
  {
  }

  lemma TakeSettled(y: System, ttl: nat, step: Step)
    requires Guarded(y, ttl) && Settled(y, ttl) && Counts(y)
    ensures Settled(Take(y, ttl, step), ttl) && Counts(Take(y, ttl, step))
  {
    match step
    case StLookup(id, user, key) => LookedSettled(y, ttl, id, user, key);
    case StRegister(id) => RegisteredSettled(y, ttl, id);
    case StEnter(id, user, key) =>
      LookedSettled(y, ttl, id, user, key);
      RegisteredSettled(Looked(y, id, user, key), ttl, id);
    case _ =>
  }

  /** A registration keeps executions apart exactly when nothing has overtaken it. */
  lemma RegisteredApart(y: System, ttl: nat, id: nat)
    requires Settled(y, ttl) && Counts(y) && Apart(y, ttl)
    ensures Apart(Registered(y, ttl, id), ttl) <==> !Overtaken(y, ttl, StRegister(id))
  {
    var z := Registered(y, ttl, id);
    if id in y.missed {
      var m, n := y.missed[id], |y.executions|;
      assert z.executions[n] == Execution(m.user, m.key, y.cache.now);
      if Overtaken(y, ttl, StRegister(id)) {
        var i :| m.since <= i < n && SamePair(y.executions[i], m) && y.cache.now < y.executions[i].start + ttl;
        assert z.executions[i] == y.executions[i];
      } else {
        forall i | 0 <= i < n && SamePair(y.executions[i], m) ensures y.executions[i].start + ttl <= y.cache.now {
          assert i >= m.since || SamePair(y.executions[i], y.missed[id]);
        }
      }
    }
  }

  lemma TakeApart(y: System, ttl: nat, step: Step)
    requires Guarded(y, ttl) && Settled(y, ttl) && Counts(y) && Apart(y, ttl)
    ensures Apart(Take(y, ttl, step), ttl) <==> !Overtaken(y, ttl, step)
  {
    match step
    case StRegister(id) => RegisteredApart(y, ttl, id);
    case StEnter(id, user, key) =>
      if LookupReply(y.cache, user, key).None? {
        var looked := Looked(y, id, user, key);
        LookedSettled(y, ttl, id, user, key);
        RegisteredApart(looked, ttl, id);
      }
    case _ =>
  }

  lemma TakeStaysClose(y: System, ttl: nat, step: Step)
    requires !Apart(y, ttl)
    ensures !Apart(Take(y, ttl, step), ttl)
  {
    var z := Take(y, ttl, step);
    var i, j :| 0 <= i < j < |y.executions| && y.executions[i].user == y.executions[j].user
                && y.executions[i].key == y.executions[j].key && y.executions[i].start + ttl > y.executions[j].start;
    assert z.executions[i] == y.executions[i] && z.executions[j] == y.executions[j];
  }

  /** No registration of the run was overtaken. */
  ghost predicate NeverOvertaken(start: int, ttl: nat, steps: seq<Step>) {
    forall n :: 0 <= n < |steps| ==> !OvertakenAt(start, ttl, steps, n)
  }

  ghost predicate OvertakenAt(start: int, ttl: nat, steps: seq<Step>, n: nat)
    requires n < |steps|
  {
    Overtaken(TakeAll(Init(start), ttl, steps[..n]), ttl, steps[n])
  }

  lemma {:induction false} RunSettled(start: int, ttl: nat, steps: seq<Step>)
    ensures var y := TakeAll(Init(start), ttl, steps); Guarded(y, ttl) && Settled(y, ttl) && Counts(y)
  {
    if steps != [] {
      var before := TakeAll(Init(start), ttl, steps[..|steps| - 1]);
      RunSettled(start, ttl, steps[..|steps| - 1]);
      TakeGuarded(before, ttl, steps[|steps| - 1]);
      TakeSettled(before, ttl, steps[|steps| - 1]);
    }
  }

  lemma OvertakenSplits(start: int, ttl: nat, steps: seq<Step>)
    requires steps != []
    ensures NeverOvertaken(start, ttl, steps) <==>
            && NeverOvertaken(start, ttl, steps[..|steps| - 1])
            && !Overtaken(TakeAll(Init(start), ttl, steps[..|steps| - 1]), ttl, steps[|steps| - 1])
  {
    var last := |steps| - 1;
    var rest := steps[..last];
    forall n | 0 <= n < last ensures OvertakenAt(start, ttl, rest, n) <==> OvertakenAt(start, ttl, steps, n) {
      assert rest[..n] == steps[..n] && rest[n] == steps[n];
    }
    assert OvertakenAt(start, ttl, steps, last) <==> Overtaken(TakeAll(Init(start), ttl, rest), ttl, steps[last]);
    if NeverOvertaken(start, ttl, steps) {
      forall n | 0 <= n < |rest| ensures !OvertakenAt(start, ttl, rest, n) {
        assert !OvertakenAt(start, ttl, steps, n);
      }
    }
  }

  /**
   In every interleaving of lookups, registrations and answers, however long handlers run: two executions of one
   pair start at least the TTL apart exactly when no registration was overtaken.
   */
  lemma {:induction false} ExecutionsApartIff(start: int, ttl: nat, steps: seq<Step>)
    ensures Apart(TakeAll(Init(start), ttl, steps), ttl) <==> NeverOvertaken(start, ttl, steps)
  {
    if steps != [] {
      var rest, last := steps[..|steps| - 1], steps[|steps| - 1];
      var before := TakeAll(Init(start), ttl, rest);
      ExecutionsApartIff(start, ttl, rest);
      OvertakenSplits(start, ttl, steps);
      RunSettled(start, ttl, rest);
      if Apart(before, ttl) {
        TakeApart(before, ttl, last);
      } else {
        TakeStaysClose(before, ttl, last);
      }
    }
  }

  predicate Atomic(steps: seq<Step>) {
    forall st :: st in steps ==> !st.StRegister?
  }

  /** In particular they are apart when lookup and registration are one step. */
  lemma ExecutionsApart(start: int, ttl: nat, steps: seq<Step>, i: nat, j: nat)
    requires Atomic(steps) && i < j < |TakeAll(Init(start), ttl, steps).executions|
    requires var es := TakeAll(Init(start), ttl, steps).executions; es[i].user == es[j].user && es[i].key == es[j].key
    ensures var es := TakeAll(Init(start), ttl, steps).executions; es[i].start + ttl <= es[j].start
  {
    forall n | 0 <= n < |steps| ensures !OvertakenAt(start, ttl, steps, n) {
      assert steps[n] in steps;
    }
    ExecutionsApartIff(start, ttl, steps);
  }

  /** The code looks up and registers in two steps, so two requests that both miss both execute at once. */
  lemma SplitLookupExecutesTwice(user: string, key: string, start: int, ttl: nat)
    ensures var steps := [StLookup(1, user, key), StLookup(2, user, key), StRegister(1), StRegister(2)];
            TakeAll(Init(start), ttl, steps).executions == [Execution(user, key, start), Execution(user, key, start)]
  {
    var steps := [StLookup(1, user, key), StLookup(2, user, key), StRegister(1), StRegister(2)];
    var y := Init(start);
    TakeAllSnoc(y, ttl, [], steps[0]);
    TakeAllSnoc(y, ttl, [steps[0]], steps[1]);
    TakeAllSnoc(y, ttl, [steps[0], steps[1]], steps[2]);
    TakeAllSnoc(y, ttl, [steps[0], steps[1], steps[2]], steps[3]);
    assert [] + [steps[0]] == [steps[0]] && [steps[0]] + [steps[1]] == [steps[0], steps[1]];
    assert [steps[0], steps[1]] + [steps[2]] == [steps[0], steps[1], steps[2]];
    assert [steps[0], steps[1], steps[2]] + [steps[3]] == steps;
    var y2 := Take(Take(y, ttl, steps[0]), ttl, steps[1]);
    assert y2.missed == map[1 := Miss(user, key, 0), 2 := Miss(user, key, 0)];
    var y3 := Take(y2, ttl, steps[2]);
    assert y3.executions == [Execution(user, key, start)] && y3.missed[2] == Miss(user, key, 0);
  }

  lemma TakeAllSnoc(y: System, ttl: nat, steps: seq<Step>, step: Step)
    ensures TakeAll(y, ttl, steps + [step]) == Take(TakeAll(y, ttl, steps), ttl, step)
  {
    assert (steps + [step])[..|steps|] == steps;
  }

  // ---- What a later request of the pair is answered ----

  /** The step registers or answers an execution of the pair. */
  predicate Touches(y: System, step: Step, user: string, key: string) {
    match step
    case StRegister(id) => id in y.missed && y.missed[id].user == user && y.missed[id].key == key
    case StEnter(_, u, k) => u == user && k == key && LookupReply(y.cache, u, k).None?
    case StFinish(id, _) => id in y.running && y.running[id] == (user, key)
    case _ => false
  }

  /** No step of `steps`, taken from `y`, touches the pair. */
  predicate Quiet(y: System, ttl: nat, steps: seq<Step>, user: string, key: string) {
    steps == []
    || (&& Quiet(y, ttl, steps[..|steps| - 1], user, key)
        && !Touches(TakeAll(y, ttl, steps[..|steps| - 1]), steps[|steps| - 1], user, key))
  }

  /** Users without a colon, wherever the system holds one. */
  ghost predicate Plain(y: System) {
    && (forall id :: id in y.missed ==> ':' !in y.missed[id].user)
    && (forall id :: id in y.running ==> ':' !in y.running[id].0)
  }

  lemma TakePlain(y: System, ttl: nat, step: Step)
    requires Plain(y) && PlainUsers([step])
    ensures Plain(Take(y, ttl, step))
  {
    assert step in [step];
  }

  /** The entry of the pair, whatever it is, is the one that it was. */
  ghost predicate SameEntry(y: System, z: System, user: string, key: string) {
    var k := RedisKey(user, key);
    && y.cache.now <= z.cache.now
    && (k in z.cache.entries <==> k in y.cache.entries)
    && (k in y.cache.entries ==> z.cache.entries[k] == y.cache.entries[k])
  }

  lemma QuietStep(y: System, ttl: nat, step: Step, user: string, key: string)
    requires Plain(y) && PlainUsers([step]) && ':' !in user && !Touches(y, step, user, key)
    ensures SameEntry(y, Take(y, ttl, step), user, key)
  {
    assert step in [step];
    match step
    case StRegister(id) => if id in y.missed { RedisKeyInjective(y.missed[id].user, y.missed[id].key, user, key); }
    case StEnter(_, u, k) => RedisKeyInjective(u, k, user, key);
    case StFinish(id, _) => if id in y.running { RedisKeyInjective(y.running[id].0, y.running[id].1, user, key); }
    case _ =>
  }

  lemma {:induction false} QuietRun(y: System, ttl: nat, steps: seq<Step>, user: string, key: string)
    requires Plain(y) && PlainUsers(steps) && ':' !in user && Quiet(y, ttl, steps, user, key)
    ensures Plain(TakeAll(y, ttl, steps)) && SameEntry(y, TakeAll(y, ttl, steps), user, key)
  {
    if steps != [] {
      var last := steps[|steps| - 1];
      assert last in steps;
      QuietRun(y, ttl, steps[..|steps| - 1], user, key);
      TakePlain(TakeAll(y, ttl, steps[..|steps| - 1]), ttl, last);
      QuietStep(TakeAll(y, ttl, steps[..|steps| - 1]), ttl, last, user, key);
    }
  }

  /** What a lookup of the pair answers: by the entry of `y` while it lasts, and nothing from then on. */
  lemma EntryAnswers(y: System, z: System, ttl: nat, user: string, key: string, saved: Saved)
    requires SameEntry(y, z, user, key) && RedisKey(user, key) in y.cache.entries
    requires y.cache.entries[RedisKey(user, key)] == Entry(saved, Some(y.cache.now + ttl))
    ensures LookupReply(z.cache, user, key)
            == if y.cache.now + ttl <= z.cache.now then None
               else Some(if saved.InFlight? then Conflict else Replayed(saved.response))
  {
  }

  lemma RunPlain(start: int, ttl: nat, steps: seq<Step>)
    requires PlainUsers(steps)
    ensures Plain(TakeAll(Init(start), ttl, steps))
  {
    RunTruthful(start, ttl, steps);
  }

  /**
   In every run: once a running execution of a pair has answered, and until another one of the pair registers or
   answers, every lookup of the pair replays that answer for the TTL, and finds nothing after it.
   */
  lemma AnswerIsReplayed(start: int, ttl: nat, before: seq<Step>, id: nat, response: Response, later: seq<Step>,
                         other: nat)
    requires PlainUsers(before) && PlainUsers(later) && id in TakeAll(Init(start), ttl, before).running
    ensures var y := TakeAll(Init(start), ttl, before);
            var (user, key) := y.running[id];
            var answered := Take(y, ttl, StFinish(id, response));
            var z := TakeAll(answered, ttl, later);
            Quiet(answered, ttl, later, user, key) ==>
              if z.cache.now < answered.cache.now + ttl then
                && LookupReply(z.cache, user, key) == Some(Replayed(response))
                && Record(user, key, response) in Take(z, ttl, StLookup(other, user, key)).served
                && Take(z, ttl, StEnter(other, user, key)).executions == z.executions
              else LookupReply(z.cache, user, key).None?
  {
    RunPlain(start, ttl, before);
    var y := TakeAll(Init(start), ttl, before);
    var (user, key) := y.running[id];
    var answered := Take(y, ttl, StFinish(id, response));
    TakePlain(y, ttl, StFinish(id, response));
    if Quiet(answered, ttl, later, user, key) {
      QuietRun(answered, ttl, later, user, key);
      EntryAnswers(answered, TakeAll(answered, ttl, later), ttl, user, key, Complete(response));
    }
  }

  /** And between a registration and its answer every lookup of the pair is told of the conflict, for the TTL. */
  lemma RunningConflicts(start: int, ttl: nat, before: seq<Step>, id: nat, later: seq<Step>)
    requires PlainUsers(before) && PlainUsers(later) && id in TakeAll(Init(start), ttl, before).missed
    ensures var y := TakeAll(Init(start), ttl, before);
            var m := y.missed[id];
            var registered := Take(y, ttl, StRegister(id));
            var z := TakeAll(registered, ttl, later);
            Quiet(registered, ttl, later, m.user, m.key) ==>
              LookupReply(z.cache, m.user, m.key)
              == if z.cache.now < registered.cache.now + ttl then Some(Conflict) else None
  {
    RunPlain(start, ttl, before);
    var y := TakeAll(Init(start), ttl, before);
    var m := y.missed[id];
    var registered := Take(y, ttl, StRegister(id));
    TakePlain(y, ttl, StRegister(id));
    if Quiet(registered, ttl, later, m.user, m.key) {
      QuietRun(registered, ttl, later, m.user, m.key);
      EntryAnswers(registered, TakeAll(registered, ttl, later), ttl, m.user, m.key, InFlight);
    }
  }
}

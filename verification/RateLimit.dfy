/** The fixed-window rate limiter: one counter key per client, opened on the first request of a window. */
module RateLimit {
  import opened Wrappers
  import opened TtlCache
  import opened Windows
  import opened CounterWindows

  datatype Verdict = Verdict(limited: bool, at: int)

  /**
   One call on `key`. The clock advances by `lag1` before the increment and by `lag2` before the reset, so
   the key may expire between the operations. The verdict carries the time of the operation that decided.
   */
  function Limit(s: State<int>, key: string, count: int, window: nat, lag1: nat, lag2: nat): (State<int>, Verdict) {
    if !Live(s, key) then
      (Put(s, key, 1, Some(window)), Verdict(false, s.now))
    else
      var s1 := Wait(s, lag1);
      if Live(s1, key) then
        var s2 := Bump(s1, key);
        (s2, Verdict(s2.entries[key].value > count, s1.now))
      else
        var s2 := Wait(s1, lag2);
        (Put(s2, key, 1, Some(window)), Verdict(false, s2.now))
  }

  /** The same call as a sequence of cache operations. */
  method IsRateLimited(cache: Cache<int>, key: string, count: int, window: nat, lag1: nat, lag2: nat)
    returns (v: Verdict)
    modifies cache
    ensures (cache.View(), v) == Limit(old(cache.View()), key, count, window, lag1, lag2)
  {
    var added := cache.Add(key, 1, Some(window));
    if added {
      return Verdict(false, cache.now);
    }
    cache.Sleep(lag1);
    var n := Incr(cache, key);
    if n.None? {
      cache.Sleep(lag2);
      cache.Set(key, 1, Some(window));
      return Verdict(false, cache.now);
    }
    return Verdict(n.value > count, cache.now);
  }

  // ---- Traces ----

  /** A request on some key, `gap` after the previous one was decided. */
  datatype Request = Request(key: string, gap: nat, lag1: nat, lag2: nat)

  datatype Decision = Decision(key: string, verdict: Verdict)

  function Serve(s: State<int>, count: int, window: nat, r: Request): (State<int>, Decision) {
    var (s', v) := Limit(Wait(s, r.gap), r.key, count, window, r.lag1, r.lag2);
    (s', Decision(r.key, v))
  }

  /** The state and the decisions after the requests, in order. */
  function ServeAll(s: State<int>, count: int, window: nat, rs: seq<Request>): (State<int>, seq<Decision>) {
    if rs == [] then (s, []) else
    var (s1, ds) := ServeAll(s, count, window, rs[..|rs| - 1]);
    var (s2, d) := Serve(s1, count, window, rs[|rs| - 1]);
    (s2, ds + [d])
  }

  /** Requests on `key` admitted at times in [from, to). */
  function Admitted(ds: seq<Decision>, key: string, from: int, to: int): nat {
    if ds == [] then 0 else
    var d := ds[|ds| - 1];
    Admitted(ds[..|ds| - 1], key, from, to)
    + (if d.key == key && !d.verdict.limited && from <= d.verdict.at < to then 1 else 0)
  }

  /** One request keeps an explanation, and its windows gain exactly what the decision admits. */
  lemma ServeExplains(ws: seq<Window>, s: State<int>, key: string, count: int, window: nat, r: Request)
    returns (ws': seq<Window>)
    requires window > 0 && Explains(ws, s, key, Max(1, count), window)
    ensures Explains(ws', Serve(s, count, window, r).0, key, Max(1, count), window)
    ensures forall a, b :: Total(ws', a, b) == Total(ws, a, b) + Admitted([Serve(s, count, window, r).1], key, a, b)
  {
    var (s', d) := Serve(s, count, window, r);
    assert forall a, b :: Admitted([d][..0], key, a, b) == 0;
    var s0 := Wait(s, r.gap);
    var s1 := Wait(s0, r.lag1);
    var cap := Max(1, count);
    FrameExplains(ws, s, s0, key, cap, window);
    FrameExplains(ws, s0, s1, key, cap, window);
    FrameExplains(ws, s1, Wait(s1, r.lag2), key, cap, window);
    ws' := ws;
    if r.key != key {
      FrameExplains(ws, s, s', key, cap, window);
    } else if Live(s0, key) && Live(s1, key) {
      var extended := BumpExplains(ws, s1, key, cap, window);
      ws' := if d.verdict.limited then ws else extended;
    } else {
      ws' := OpenExplains(ws, if Live(s0, key) then Wait(s1, r.lag2) else s0, key, cap, window);
    }
  }

  lemma AdmittedSplits(ds: seq<Decision>, d: Decision, key: string)
    ensures forall a, b :: Admitted(ds + [d], key, a, b) == Admitted(ds, key, a, b) + Admitted([d], key, a, b)
  {
    assert (ds + [d])[..|ds|] == ds && [d][..0] == [];
  }

  lemma {:induction false} TraceExplained(start: int, count: int, window: nat, rs: seq<Request>, key: string)
    returns (ws: seq<Window>)
    requires window > 0
    ensures Explains(ws, ServeAll(State(map[], start), count, window, rs).0, key, Max(1, count), window)
    ensures forall a, b :: Total(ws, a, b) == Admitted(ServeAll(State(map[], start), count, window, rs).1, key, a, b)
    decreases |rs|
  {
    ws := [];
    if rs != [] {
      var (s, ds) := ServeAll(State(map[], start), count, window, rs[..|rs| - 1]);
      ws := TraceExplained(start, count, window, rs[..|rs| - 1], key);
      ws := ServeExplains(ws, s, key, count, window, rs[|rs| - 1]);
      AdmittedSplits(ds, Serve(s, count, window, rs[|rs| - 1]).1, key);
    }
  }

  /**
   Over any trace of requests, on any mix of keys and with any expiry between the operations of a call, an
   interval of length L admits at most (ceil(L / W) + 1) * max(1, count) requests on one key.
   */
  lemma AdmissionBound(start: int, count: int, window: nat, rs: seq<Request>, key: string, from: int, length: nat)
    requires window > 0
    ensures Admitted(ServeAll(State(map[], start), count, window, rs).1, key, from, from + length)
            <= (CeilDiv(length, window) + 1) * Max(1, count)
  {
    var ws := TraceExplained(start, count, window, rs, key);
    TotalBound(ws, window, Max(1, count), from, length);
  }

  /** In any span of one window, at most twice the configured count. */
  lemma OneWindowBound(start: int, count: int, window: nat, rs: seq<Request>, key: string, from: int)
    requires window > 0
    ensures Admitted(ServeAll(State(map[], start), count, window, rs).1, key, from, from + window) <= 2 * Max(1, count)
  {
    assert CeilDiv(window, window) == 1;
    AdmissionBound(start, count, window, rs, key, from, window);
  }

  // ---- Nothing is refused without cause ----

  /** Decisions on `key`, admitted or not, at times in (after, upTo]. */
  function Decided(ds: seq<Decision>, key: string, after: int, upTo: int): nat {
    if ds == [] then 0 else
    var d := ds[|ds| - 1];
    Decided(ds[..|ds| - 1], key, after, upTo) + (if d.key == key && after < d.verdict.at <= upTo then 1 else 0)
  }

  /** A live counter has counted no more than the decisions on its key since its window opened. */
  ghost predicate Backed(s: State<int>, ds: seq<Decision>, key: string, window: int) {
    Live(s, key) ==>
      && s.entries[key].expires.Some? && s.entries[key].expires.value <= s.now + window && s.entries[key].value >= 1
      && s.entries[key].value <= Decided(ds, key, s.entries[key].expires.value - window - 1, s.now)
  }

  lemma DecidedSplits(ds: seq<Decision>, d: Decision, key: string, after: int, upTo: int)
    ensures Decided(ds + [d], key, after, upTo)
            == Decided(ds, key, after, upTo) + (if d.key == key && after < d.verdict.at <= upTo then 1 else 0)
  {
    assert (ds + [d])[..|ds|] == ds;
  }

  lemma {:induction false} DecidedGrows(ds: seq<Decision>, key: string, after: int, upTo: int, after': int, upTo': int)
    requires after' <= after && upTo <= upTo'
    ensures Decided(ds, key, after, upTo) <= Decided(ds, key, after', upTo')
  {
    if ds != [] {
      DecidedGrows(ds[..|ds| - 1], key, after, upTo, after', upTo');
    }
  }

  /** Time may pass, and other keys may change. */
  lemma BackedLater(s: State<int>, s': State<int>, ds: seq<Decision>, key: string, window: int)
    requires Backed(s, ds, key, window) && s.now <= s'.now
    requires key in s'.entries <==> key in s.entries
    requires key in s.entries ==> s'.entries[key] == s.entries[key]
    ensures Backed(s', ds, key, window)
  {
    if Live(s', key) {
      var from := s.entries[key].expires.value - window - 1;
      DecidedGrows(ds, key, from, s.now, from, s'.now);
    }
  }

  lemma MoreDecided(s: State<int>, ds: seq<Decision>, d: Decision, key: string, window: int)
    requires Backed(s, ds, key, window)
    ensures Backed(s, ds + [d], key, window)
  {
    if Live(s, key) {
      DecidedSplits(ds, d, key, s.entries[key].expires.value - window - 1, s.now);
    }
  }

  /** A decision keeps its key backed, and is negative only over `count` decisions in the window that ends at it. */
  lemma LimitBacked(s: State<int>, ds: seq<Decision>, key: string, count: int, window: nat, lag1: nat, lag2: nat)
    requires window > 0 && Backed(s, ds, key, window)
    ensures var (s', v) := Limit(s, key, count, window, lag1, lag2);
      && v.at == s'.now && Backed(s', ds + [Decision(key, v)], key, window)
      && (v.limited ==> Decided(ds, key, v.at - window, v.at) >= Max(1, count))
  {
    var (s', v) := Limit(s, key, count, window, lag1, lag2);
    var s1 := Wait(s, lag1);
    BackedLater(s, s1, ds, key, window);
    if Live(s', key) {
      DecidedSplits(ds, Decision(key, v), key, s'.entries[key].expires.value - window - 1, s'.now);
    }
    if Live(s, key) && Live(s1, key) {
      DecidedGrows(ds, key, s1.entries[key].expires.value - window - 1, s1.now, v.at - window, v.at);
    }
  }

  lemma ServeBacked(s: State<int>, ds: seq<Decision>, key: string, count: int, window: nat, r: Request)
    requires window > 0 && Backed(s, ds, key, window)
    ensures var (s', d) := Serve(s, count, window, r);
      && d.key == r.key && Backed(s', ds + [d], key, window)
      && (d.key == key && d.verdict.limited ==> Decided(ds, key, d.verdict.at - window, d.verdict.at) >= Max(1, count))
  {
    var (s', d) := Serve(s, count, window, r);
    var s0 := Wait(s, r.gap);
    BackedLater(s, s0, ds, key, window);
    if r.key == key {
      LimitBacked(s0, ds, key, count, window, r.lag1, r.lag2);
    } else {
      BackedLater(s0, s', ds, key, window);
      MoreDecided(s', ds, d, key, window);
    }
  }

  lemma {:induction false} TraceBacked(start: int, count: int, window: nat, rs: seq<Request>, key: string)
    requires window > 0
    ensures var (s, ds) := ServeAll(State(map[], start), count, window, rs); Backed(s, ds, key, window)
  {
    if rs != [] {
      var n := |rs| - 1;
      var (s, ds) := ServeAll(State(map[], start), count, window, rs[..n]);
      TraceBacked(start, count, window, rs[..n], key);
      ServeBacked(s, ds, key, count, window, rs[n]);
    }
  }

  /** The `k`-th decision is that of the `k`-th request after the first `k`. */
  lemma {:induction false} DecisionAt(s: State<int>, count: int, window: nat, rs: seq<Request>, k: nat)
    requires k < |rs|
    ensures var ds := ServeAll(s, count, window, rs).1;
            var (before, first) := ServeAll(s, count, window, rs[..k]);
            |ds| == |rs| && |first| == k && ds[..k] == first && ds[k] == Serve(before, count, window, rs[k]).1
    decreases |rs|
  {
    var n := |rs| - 1;
    if k < n {
      DecisionAt(s, count, window, rs[..n], k);
      assert rs[..n][..k] == rs[..k];
    } else if n > 0 {
      DecisionAt(s, count, window, rs[..n], n - 1);
    }
  }

  /** A refusal comes over at least max(1, count) decisions on its key within the window that ends with it. */
  ghost predicate ForCause(ds: seq<Decision>, d: Decision, count: int, window: nat) {
    d.verdict.limited ==> Decided(ds, d.key, d.verdict.at - window, d.verdict.at) >= Max(1, count)
  }

  /**
   Over any trace, a request is refused only if at least max(1, count) requests on its key were decided within the
   window that ends with it; so the first max(1, count) requests of a window are all admitted.
   */
  lemma RefusedOnlyWhenFull(start: int, count: int, window: nat, rs: seq<Request>, k: nat)
    requires window > 0 && k < |rs|
    ensures var ds := ServeAll(State(map[], start), count, window, rs).1;
            |ds| == |rs| && ds[k].key == rs[k].key && ForCause(ds[..k], ds[k], count, window)
  {
    DecisionAt(State(map[], start), count, window, rs, k);
    var (s, ds) := ServeAll(State(map[], start), count, window, rs[..k]);
    TraceBacked(start, count, window, rs[..k], rs[k].key);
    ServeBacked(s, ds, rs[k].key, count, window, rs[k]);
  }
}

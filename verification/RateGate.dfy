/** The middleware around the limiter: rate strings, counter keys, and which requests are counted at all. */
module RateGate {
  import opened Wrappers
  import opened TtlCache
  import opened Windows
  import opened CounterWindows
  import opened RateLimit

  // ---- Rate strings ----

  const PERIODS := map["second" := 1, "minute" := 60, "hour" := 3600, "day" := 86400]

  datatype RateError = BadFormat | BadCount | BadPeriod

  datatype Rate = Rate(count: int, window: nat)

  /** The parts between slashes. */
  function Split(s: string): (parts: seq<string>)
    ensures |parts| >= 1
  {
    if s == "" then [""]
    else
      var rest := Split(s[1..]);
      if s[0] == '/' then [""] + rest else [[s[0]] + rest[0]] + rest[1..]
  }

  function ParseRate(toInt: string -> Option<int>, lower: string -> string, rate: string): (r: Result<Rate, RateError>)
    ensures r.Success? ==> r.value.window > 0
  {
    var parts := Split(rate);
    if |parts| != 2 then Failure(BadFormat)
    else if toInt(parts[0]).None? then Failure(BadCount)
    else if lower(parts[1]) !in PERIODS then Failure(BadPeriod)
    else Success(Rate(toInt(parts[0]).value, PERIODS[lower(parts[1])]))
  }

  lemma {:induction false} SplitOne(a: string)
    requires '/' !in a
    ensures Split(a) == [a]
  {
    if a != "" {
      SplitOne(a[1..]);
      assert a == [a[0]] + a[1..] && a[0] in a;
    }
  }

  lemma {:induction false} SplitTwo(a: string, b: string)
    requires '/' !in a && '/' !in b
    ensures Split(a + "/" + b) == [a, b]
  {
    var s := a + "/" + b;
    if a == "" {
      assert s[1..] == b;
      SplitOne(b);
    } else {
      SplitTwo(a[1..], b);
      assert s[1..] == a[1..] + "/" + b && s[0] == a[0] && a[0] in a;
      assert a == [a[0]] + a[1..];
    }
  }

  lemma {:induction false} SplitJoins(s: string)
    requires |Split(s)| == 1
    ensures Split(s) == [s] && '/' !in s
  {
    if s != "" {
      SplitJoins(s[1..]);
      assert s == [s[0]] + s[1..];
    }
  }

  lemma {:induction false} SplitTwoJoins(s: string)
    requires |Split(s)| == 2
    ensures s == Split(s)[0] + "/" + Split(s)[1] && '/' !in Split(s)[0] && '/' !in Split(s)[1]
  {
    if s[0] == '/' {
      SplitJoins(s[1..]);
      assert s == "/" + s[1..];
    } else {
      SplitTwoJoins(s[1..]);
      assert s == [s[0]] + s[1..];
    }
  }

  /** A rate string is accepted exactly when it is a number, one slash and a known period, and then it means those. */
  lemma ParseRateIff(toInt: string -> Option<int>, lower: string -> string, rate: string, r: Rate)
    ensures ParseRate(toInt, lower, rate) == Success(r) <==>
            exists a, b :: '/' !in a && '/' !in b && rate == a + "/" + b && toInt(a) == Some(r.count)
                           && lower(b) in PERIODS && PERIODS[lower(b)] == r.window
  {
    if ParseRate(toInt, lower, rate) == Success(r) {
      SplitTwoJoins(rate);
    }
    forall a, b | '/' !in a && '/' !in b && rate == a + "/" + b ensures Split(rate) == [a, b] {
      SplitTwo(a, b);
    }
  }

  // ---- Keys ----

  function BuildKey(scope: Option<string>, ident: string, path: string): string {
    if scope.Some? && scope.value != "" then "rate_limit:" + scope.value + ":" + ident + ":" + path
    else "rate_limit:" + ident + ":" + path
  }

  lemma SlashAt(a: string, p: string)
    requires '/' !in a && p != "" && p[0] == '/'
    ensures |a| < |a + p| && (a + p)[|a|] == '/' && (forall k :: 0 <= k < |a| ==> (a + p)[k] != '/')
    ensures (a + p)[..|a|] == a && (a + p)[|a|..] == p
  {
  }

  lemma FirstSlashSplits(a: string, p: string, b: string, q: string)
    requires '/' !in a && '/' !in b && p != "" && p[0] == '/' && q != "" && q[0] == '/' && a + p == b + q
    ensures a == b && p == q
  {
    SlashAt(a, p);
    SlashAt(b, q);
    assert |a| == |b|;
  }

  /** Without a scope, clients and paths never share a counter: idents have no slash, and paths begin with one. */
  lemma KeysApart(ident: string, path: string, ident': string, path': string)
    requires '/' !in ident && '/' !in ident' && path != "" && path[0] == '/' && path' != "" && path'[0] == '/'
    ensures BuildKey(None, ident, path) == BuildKey(None, ident', path') <==> ident == ident' && path == path'
  {
    if BuildKey(None, ident, path) == BuildKey(None, ident', path') {
      var a, b := ident + ":", ident' + ":";
      assert BuildKey(None, ident, path) == "rate_limit:" + (a + path);
      assert BuildKey(None, ident', path') == "rate_limit:" + (b + path');
      assert ("rate_limit:" + (a + path))[11..] == a + path && ("rate_limit:" + (b + path'))[11..] == b + path';
      FirstSlashSplits(a, path, b, path');
      assert a[..|a| - 1] == ident && b[..|b| - 1] == ident';
    }
  }

  lemma ColonAt(a: string, p: string)
    requires ':' !in a
    ensures |a| < |a + ":" + p| && (a + ":" + p)[|a|] == ':' && (forall k :: 0 <= k < |a| ==> (a + ":" + p)[k] != ':')
    ensures (a + ":" + p)[..|a|] == a && (a + ":" + p)[|a| + 1..] == p
  {
  }

  /** Scopes without a colon never share a counter either, between themselves or with another client or path. */
  lemma ScopedKeysApart(scope: string, ident: string, path: string, scope': string, ident': string, path': string)
    requires scope != "" && ':' !in scope && scope' != "" && ':' !in scope'
    requires '/' !in ident && '/' !in ident' && path != "" && path[0] == '/' && path' != "" && path'[0] == '/'
    ensures BuildKey(Some(scope), ident, path) == BuildKey(Some(scope'), ident', path') <==>
            scope == scope' && ident == ident' && path == path'
  {
    var p, q := ident + ":" + path, ident' + ":" + path';
    if BuildKey(Some(scope), ident, path) == BuildKey(Some(scope'), ident', path') {
      assert BuildKey(Some(scope), ident, path)[11..] == scope + ":" + p;
      assert BuildKey(Some(scope'), ident', path')[11..] == scope' + ":" + q;
      ColonAt(scope, p);
      ColonAt(scope', q);
      assert |scope| == |scope'|;
      assert BuildKey(None, ident, path) == "rate_limit:" + p && BuildKey(None, ident', path') == "rate_limit:" + q;
      KeysApart(ident, path, ident', path');
    }
  }

  /** A colon in a scope lets two scopes share a counter. */
  lemma ScopedKeysCollide()
    ensures BuildKey(Some("t=a"), "ip:ip:1", "/") == BuildKey(Some("t=a:ip"), "ip:1", "/")
  {
  }

  // ---- Calls ----

  datatype Config = Config(enabled: bool, rate: string, skip: seq<string>, scope: Option<string>)

  datatype Call = Call(ident: string, path: string, optedOut: bool, gap: nat, lag1: nat, lag2: nat)

  /** `at` is the time of the decision. */
  datatype Outcome = Passed(at: int) | Throttled(at: int) | BadRate(error: RateError)

  predicate Counted(cfg: Config, q: Call) {
    cfg.enabled && !q.optedOut && forall i :: 0 <= i < |cfg.skip| ==> !(cfg.skip[i] <= q.path)
  }

  function KeyOf(cfg: Config, q: Call): string {
    BuildKey(cfg.scope, q.ident, q.path)
  }

  /** A call of the middleware, `gap` after the previous one. */
  function Admit(toInt: string -> Option<int>, lower: string -> string, cfg: Config, s: State<int>,
                 q: Call): (State<int>, Outcome) {
    var s0 := Wait(s, q.gap);
    if !Counted(cfg, q) then (s0, Passed(s0.now))
    else
      match ParseRate(toInt, lower, cfg.rate)
      case Failure(error) => (s0, BadRate(error))
      case Success(rate) =>
        var (s', v) := Limit(s0, KeyOf(cfg, q), rate.count, rate.window, q.lag1, q.lag2);
        (s', if v.limited then Throttled(v.at) else Passed(v.at))
  }

  method HandleCall(toInt: string -> Option<int>, lower: string -> string, cfg: Config, cache: Cache<int>, q: Call)
    returns (o: Outcome)
    modifies cache
    ensures (cache.View(), o) == Admit(toInt, lower, cfg, old(cache.View()), q)
  {
    cache.Sleep(q.gap);
    if !cfg.enabled || q.optedOut {
      return Passed(cache.now);
    }
    var i := 0;
    while i < |cfg.skip|
      invariant 0 <= i <= |cfg.skip| && forall j :: 0 <= j < i ==> !(cfg.skip[j] <= q.path)
    {
      if cfg.skip[i] <= q.path {
        return Passed(cache.now);
      }
      i := i + 1;
    }
    var parsed := ParseRate(toInt, lower, cfg.rate);
    if parsed.Failure? {
      return BadRate(parsed.error);
    }
    var v := IsRateLimited(cache, KeyOf(cfg, q), parsed.value.count, parsed.value.window, q.lag1, q.lag2);
    return if v.limited then Throttled(v.at) else Passed(v.at);
  }

  function AdmitAll(toInt: string -> Option<int>, lower: string -> string, cfg: Config, s: State<int>, qs: seq<Call>)
    : (State<int>, seq<Outcome>)
  {
    if qs == [] then (s, [])
    else
      var (s1, os) := AdmitAll(toInt, lower, cfg, s, qs[..|qs| - 1]);
      var (s2, o) := Admit(toInt, lower, cfg, s1, qs[|qs| - 1]);
      (s2, os + [o])
  }

  /** Counted calls on `key` that were passed on at times in [from, to). */
  function PassedOn(cfg: Config, qs: seq<Call>, os: seq<Outcome>, key: string, from: int, to: int): nat
    requires |qs| == |os|
  {
    if qs == [] then 0
    else
      var n := |qs| - 1;
      PassedOn(cfg, qs[..n], os[..n], key, from, to)
      + (if Counted(cfg, qs[n]) && KeyOf(cfg, qs[n]) == key && os[n].Passed? && from <= os[n].at < to then 1 else 0)
  }

  /** One call keeps an explanation of a key's counter, whose windows gain exactly what it passed on for that key. */
  lemma AdmitExplains(toInt: string -> Option<int>, lower: string -> string, cfg: Config, rate: Rate,
                      ws: seq<Window>, s: State<int>, key: string, q: Call) returns (ws': seq<Window>)
    requires ParseRate(toInt, lower, cfg.rate) == Success(rate) && Explains(ws, s, key, Max(1, rate.count), rate.window)
    ensures Explains(ws', Admit(toInt, lower, cfg, s, q).0, key, Max(1, rate.count), rate.window)
    ensures forall a, b :: Total(ws', a, b)
                           == Total(ws, a, b) + PassedOn(cfg, [q], [Admit(toInt, lower, cfg, s, q).1], key, a, b)
  {
    assert forall o, a, b :: PassedOn(cfg, [q][..0], [o][..0], key, a, b) == 0;
    if Counted(cfg, q) {
      var r := Request(KeyOf(cfg, q), q.gap, q.lag1, q.lag2);
      ws' := ServeExplains(ws, s, key, rate.count, rate.window, r);
      var d := Serve(s, rate.count, rate.window, r).1;
      assert forall a, b :: Admitted([d][..0], key, a, b) == 0;
      var o := Admit(toInt, lower, cfg, s, q).1;
      assert o.Passed? <==> !d.verdict.limited;
      assert forall a, b :: PassedOn(cfg, [q], [o], key, a, b) == Admitted([d], key, a, b);
    } else {
      ws' := ws;
      FrameExplains(ws, s, Wait(s, q.gap), key, Max(1, rate.count), rate.window);
    }
  }

  lemma PassedOnSplits(cfg: Config, qs: seq<Call>, os: seq<Outcome>, q: Call, o: Outcome, key: string)
    requires |qs| == |os|
    ensures forall a, b :: PassedOn(cfg, qs + [q], os + [o], key, a, b)
                           == PassedOn(cfg, qs, os, key, a, b) + PassedOn(cfg, [q], [o], key, a, b)
  {
    assert (qs + [q])[..|qs|] == qs && (os + [o])[..|os|] == os && [q][..0] == [] && [o][..0] == [];
  }

  lemma {:induction false} CallsExplained(toInt: string -> Option<int>, lower: string -> string, cfg: Config,
                                          rate: Rate,
                                          start: int, qs: seq<Call>, key: string) returns (ws: seq<Window>)
    requires ParseRate(toInt, lower, cfg.rate) == Success(rate)
    ensures var (s, os) := AdmitAll(toInt, lower, cfg, State(map[], start), qs);
            |os| == |qs| && Explains(ws, s, key, Max(1, rate.count), rate.window)
            && forall a, b :: Total(ws, a, b) == PassedOn(cfg, qs, os, key, a, b)
    decreases |qs|
  {
    ws := [];
    if qs != [] {
      var rest, q := qs[..|qs| - 1], qs[|qs| - 1];
      var (s, os) := AdmitAll(toInt, lower, cfg, State(map[], start), rest);
      ws := CallsExplained(toInt, lower, cfg, rate, start, rest, key);
      ws := AdmitExplains(toInt, lower, cfg, rate, ws, s, key, q);
      PassedOnSplits(cfg, rest, os, q, Admit(toInt, lower, cfg, s, q).1, key);
      assert qs == rest + [q];
    }
  }

  /**
   Over any sequence of calls, counted or not: an interval of length L passes on at most
   (ceil(L / W) + 1) * max(1, count) counted calls of one client on one path.
   */
  lemma PassedBound(toInt: string -> Option<int>, lower: string -> string, cfg: Config, rate: Rate,
                    start: int, qs: seq<Call>, key: string, from: int, length: nat)
    requires ParseRate(toInt, lower, cfg.rate) == Success(rate)
    ensures var os := AdmitAll(toInt, lower, cfg, State(map[], start), qs).1;
            |os| == |qs|
            && PassedOn(cfg, qs, os, key, from, from + length)
               <= (CeilDiv(length, rate.window) + 1) * Max(1, rate.count)
  {
    var ws := CallsExplained(toInt, lower, cfg, rate, start, qs, key);
    TotalBound(ws, rate.window, Max(1, rate.count), from, length);
  }

  // ---- Nothing is throttled without cause ----

  /** A call that is not counted passes, with the rate unread and every counter as it was. */
  lemma UncountedPasses(toInt: string -> Option<int>, lower: string -> string, cfg: Config, s: State<int>, q: Call)
    requires !cfg.enabled || q.optedOut || exists i :: 0 <= i < |cfg.skip| && cfg.skip[i] <= q.path
    ensures Admit(toInt, lower, cfg, s, q) == (Wait(s, q.gap), Passed(s.now + q.gap))
  {
  }

  /** The decisions that the limiter took for the counted calls. */
  function Decisions(cfg: Config, qs: seq<Call>, os: seq<Outcome>): seq<Decision>
    requires |qs| == |os|
  {
    if qs == [] then []
    else
      var n := |qs| - 1;
      Decisions(cfg, qs[..n], os[..n])
      + if Counted(cfg, qs[n]) && !os[n].BadRate?
        then [Decision(KeyOf(cfg, qs[n]), Verdict(os[n].Throttled?, os[n].at))]
        else []
  }

  lemma AdmitBacked(toInt: string -> Option<int>, lower: string -> string, cfg: Config, rate: Rate,
                    s: State<int>, ds: seq<Decision>, key: string, q: Call)
    requires ParseRate(toInt, lower, cfg.rate) == Success(rate) && Backed(s, ds, key, rate.window)
    ensures var (s', o) := Admit(toInt, lower, cfg, s, q);
      && Backed(s', ds + Decisions(cfg, [q], [o]), key, rate.window)
      && (o.Throttled? ==> Counted(cfg, q))
      && (o.Throttled? && KeyOf(cfg, q) == key ==> Decided(ds, key, o.at - rate.window, o.at) >= Max(1, rate.count))
  {
    var (s', o) := Admit(toInt, lower, cfg, s, q);
    assert [q][..0] == [] && [o][..0] == [];
    if Counted(cfg, q) {
      var r := Request(KeyOf(cfg, q), q.gap, q.lag1, q.lag2);
      ServeBacked(s, ds, key, rate.count, rate.window, r);
      assert Decisions(cfg, [q], [o]) == [Serve(s, rate.count, rate.window, r).1];
    } else {
      BackedLater(s, s', ds, key, rate.window);
      assert ds + Decisions(cfg, [q], [o]) == ds;
    }
  }

  lemma DecisionsSplit(cfg: Config, qs: seq<Call>, os: seq<Outcome>, q: Call, o: Outcome)
    requires |qs| == |os|
    ensures Decisions(cfg, qs + [q], os + [o]) == Decisions(cfg, qs, os) + Decisions(cfg, [q], [o])
  {
    assert (qs + [q])[..|qs|] == qs && (os + [o])[..|os|] == os && [q][..0] == [] && [o][..0] == [];
  }

  lemma {:induction false} CallsBacked(toInt: string -> Option<int>, lower: string -> string, cfg: Config, rate: Rate,
                                       start: int, qs: seq<Call>, key: string)
    requires ParseRate(toInt, lower, cfg.rate) == Success(rate)
    ensures var (s, os) := AdmitAll(toInt, lower, cfg, State(map[], start), qs);
            |os| == |qs| && Backed(s, Decisions(cfg, qs, os), key, rate.window)
  {
    if qs != [] {
      var rest, q := qs[..|qs| - 1], qs[|qs| - 1];
      var (s, os) := AdmitAll(toInt, lower, cfg, State(map[], start), rest);
      CallsBacked(toInt, lower, cfg, rate, start, rest, key);
      AdmitBacked(toInt, lower, cfg, rate, s, Decisions(cfg, rest, os), key, q);
      DecisionsSplit(cfg, rest, os, q, Admit(toInt, lower, cfg, s, q).1);
      assert qs == rest + [q];
    }
  }

  /** The `k`-th outcome is that of the `k`-th call after the first `k`. */
  lemma {:induction false} OutcomeAt(toInt: string -> Option<int>, lower: string -> string, cfg: Config,
                                     s: State<int>, qs: seq<Call>, k: nat)
    requires k < |qs|
    ensures var os := AdmitAll(toInt, lower, cfg, s, qs).1;
            var (before, first) := AdmitAll(toInt, lower, cfg, s, qs[..k]);
            |os| == |qs| && |first| == k && os[..k] == first && os[k] == Admit(toInt, lower, cfg, before, qs[k]).1
    decreases |qs|
  {
    var n := |qs| - 1;
    if k < n {
      OutcomeAt(toInt, lower, cfg, s, qs[..n], k);
      assert qs[..n][..k] == qs[..k];
    } else if n > 0 {
      OutcomeAt(toInt, lower, cfg, s, qs[..n], n - 1);
    }
  }

  /**
   A throttled call is counted, and comes over at least max(1, count) decisions on its counter within the window that
   ends with it.
   */
  ghost predicate ThrottledForCause(cfg: Config, rate: Rate, ds: seq<Decision>, q: Call, o: Outcome) {
    o.Throttled? ==>
      && cfg.enabled && !q.optedOut && (forall i :: 0 <= i < |cfg.skip| ==> !(cfg.skip[i] <= q.path))
      && Decided(ds, KeyOf(cfg, q), o.at - rate.window, o.at) >= Max(1, rate.count)
  }

  lemma AdmitForCause(toInt: string -> Option<int>, lower: string -> string, cfg: Config, rate: Rate,
                      s: State<int>, ds: seq<Decision>, q: Call)
    requires ParseRate(toInt, lower, cfg.rate) == Success(rate) && Backed(s, ds, KeyOf(cfg, q), rate.window)
    ensures ThrottledForCause(cfg, rate, ds, q, Admit(toInt, lower, cfg, s, q).1)
  {
    AdmitBacked(toInt, lower, cfg, rate, s, ds, KeyOf(cfg, q), q);
  }

  /** Over any sequence of calls, none is throttled without cause. */
  lemma ThrottledOnlyWhenFull(toInt: string -> Option<int>, lower: string -> string, cfg: Config, rate: Rate,
                              start: int, qs: seq<Call>, k: nat)
    requires ParseRate(toInt, lower, cfg.rate) == Success(rate) && k < |qs|
    ensures var os := AdmitAll(toInt, lower, cfg, State(map[], start), qs).1;
            |os| == |qs| && ThrottledForCause(cfg, rate, Decisions(cfg, qs[..k], os[..k]), qs[k], os[k])
  {
    OutcomeAt(toInt, lower, cfg, State(map[], start), qs, k);
    var (s, os) := AdmitAll(toInt, lower, cfg, State(map[], start), qs[..k]);
    CallsBacked(toInt, lower, cfg, rate, start, qs[..k], KeyOf(cfg, qs[k]));
    AdmitForCause(toInt, lower, cfg, rate, s, Decisions(cfg, qs[..k], os), qs[k]);
  }
}

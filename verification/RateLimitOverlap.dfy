/** Overlapping calls of the rate limiter: each cache operation is a step of its own. */
module RateLimitOverlap {
  import opened Wrappers
  import opened TtlCache
  import opened Windows
  import opened CounterWindows
  import opened RateLimit

  /** A call whose key was there is about to increment; one whose key then was gone is about to reset it. */
  datatype Pending = Incrementing(key: string) | Resetting(key: string)

  /** A time at which the counter of a key was set to one. */
  datatype Opening = Opening(key: string, at: int)

  datatype System = System(
    cache: State<int>, calls: map<nat, Pending>, openings: seq<Opening>, decisions: seq<Decision>)

  datatype Step =
    | StAdd(id: nat, key: string)
    | StIncr(id: nat)
    | StReset(id: nat)
    | StWait(d: nat)

  function Open(y: System, window: nat, key: string): System {
    y.(cache := Put(y.cache, key, 1, Some(window)),
       openings := y.openings + [Opening(key, y.cache.now)],
       decisions := y.decisions + [Decision(key, Verdict(false, y.cache.now))])
  }

  function Add(y: System, window: nat, id: nat, key: string): System {
    if Live(y.cache, key) then y.(calls := y.calls[id := Incrementing(key)]) else Open(y, window, key)
  }

  function Increment(y: System, count: int, id: nat): System {
    if id !in y.calls || !y.calls[id].Incrementing? then y
    else
      var key := y.calls[id].key;
      if !Live(y.cache, key) then y.(calls := y.calls[id := Resetting(key)])
      else
        var cache := Bump(y.cache, key);
        y.(cache := cache, calls := y.calls - {id},
           decisions := y.decisions + [Decision(key, Verdict(cache.entries[key].value > count, y.cache.now))])
  }

  function Reset(y: System, window: nat, id: nat): System {
    if id !in y.calls || !y.calls[id].Resetting? then y
    else Open(y.(calls := y.calls - {id}), window, y.calls[id].key)
  }

  function Take(y: System, count: int, window: nat, step: Step): System {
    match step
    case StAdd(id, key) => Add(y, window, id, key)
    case StIncr(id) => Increment(y, count, id)
    case StReset(id) => Reset(y, window, id)
    case StWait(d) => y.(cache := Wait(y.cache, d))
  }

  function TakeAll(y: System, count: int, window: nat, steps: seq<Step>): System {
    if steps == [] then y
    else Take(TakeAll(y, count, window, steps[..|steps| - 1]), count, window, steps[|steps| - 1])
  }

  function Init(start: int): System {
    System(State(map[], start), map[], [], [])
  }

  /** A reset that overwrites a live counter, which another call has opened in the meantime. */
  predicate Clobbers(y: System, step: Step, key: string) {
    && step.StReset? && step.id in y.calls && y.calls[step.id] == Resetting(key)
    && Live(y.cache, key)
  }

  /** No reset of the run overwrites a live counter of `key`. */
  predicate NeverClobbers(start: int, count: int, window: nat, steps: seq<Step>, key: string) {
    steps == []
    || (&& NeverClobbers(start, count, window, steps[..|steps| - 1], key)
        && !Clobbers(TakeAll(Init(start), count, window, steps[..|steps| - 1]), steps[|steps| - 1], key))
  }

  /** A call whose steps meet no other call decides as the limiter does, and leaves its cache behind. */
  lemma SerialIsLimit(y: System, id: nat, key: string, count: int, window: nat, lag1: nat, lag2: nat)
    requires window > 0
    ensures var (s, v) := Limit(y.cache, key, count, window, lag1, lag2);
            var added := Take(y, count, window, StAdd(id, key));
            var incremented := Take(Take(added, count, window, StWait(lag1)), count, window, StIncr(id));
            var reset := Take(Take(incremented, count, window, StWait(lag2)), count, window, StReset(id));
      if added.decisions != y.decisions then
        added.cache == s && added.decisions == y.decisions + [Decision(key, v)]
      else if incremented.decisions != y.decisions then
        incremented.cache == s && incremented.decisions == y.decisions + [Decision(key, v)]
      else
        reset.cache == s && reset.decisions == y.decisions + [Decision(key, v)]
  {
  }

  // ---- The bound ----

  lemma StepExplains(ws: seq<Window>, y: System, count: int, window: nat, step: Step, key: string)
    returns (ws': seq<Window>)
    requires window > 0 && Explains(ws, y.cache, key, Max(1, count), window) && !Clobbers(y, step, key)
    ensures Explains(ws', Take(y, count, window, step).cache, key, Max(1, count), window)
    ensures y.decisions <= Take(y, count, window, step).decisions
    ensures forall a, b :: Total(ws', a, b) == Total(ws, a, b)
              + Admitted(Take(y, count, window, step).decisions[|y.decisions|..], key, a, b)
  {
    var z, cap := Take(y, count, window, step), Max(1, count);
    var news := z.decisions[|y.decisions|..];
    ws' := ws;
    if news == [] {
      FrameExplains(ws, y.cache, z.cache, key, cap, window);
    } else {
      var d := z.decisions[|y.decisions|];
      assert news == [d] && [d][..0] == [];
      if d.key != key {
        FrameExplains(ws, y.cache, z.cache, key, cap, window);
      } else if step.StIncr? {
        var extended := BumpExplains(ws, y.cache, key, cap, window);
        ws' := if d.verdict.limited then ws else extended;
      } else {
        ws' := OpenExplains(ws, y.cache, key, cap, window);
      }
    }
  }

  lemma {:induction false} AdmittedJoins(xs: seq<Decision>, ys: seq<Decision>, key: string, from: int, to: int)
    ensures Admitted(xs + ys, key, from, to) == Admitted(xs, key, from, to) + Admitted(ys, key, from, to)
  {
    if ys == [] {
      assert xs + ys == xs;
    } else {
      AdmittedJoins(xs, ys[..|ys| - 1], key, from, to);
      assert (xs + ys)[..|xs + ys| - 1] == xs + ys[..|ys| - 1];
    }
  }

  lemma {:induction false} RunExplained(start: int, count: int, window: nat, steps: seq<Step>, key: string)
    returns (ws: seq<Window>)
    requires window > 0 && NeverClobbers(start, count, window, steps, key)
    ensures var y := TakeAll(Init(start), count, window, steps);
            && Explains(ws, y.cache, key, Max(1, count), window)
            && forall a, b :: Total(ws, a, b) == Admitted(y.decisions, key, a, b)
    decreases |steps|
  {
    ws := [];
    if steps != [] {
      var rest, step := steps[..|steps| - 1], steps[|steps| - 1];
      var y := TakeAll(Init(start), count, window, rest);
      ws := RunExplained(start, count, window, rest, key);
      ws := StepExplains(ws, y, count, window, step, key);
      var z := Take(y, count, window, step);
      forall a, b {
        AdmittedJoins(y.decisions, z.decisions[|y.decisions|..], key, a, b);
      }
      assert z.decisions == y.decisions + z.decisions[|y.decisions|..];
    }
  }

  /** Overlapping calls are admitted within the bound as long as no reset overwrites a live counter of the key. */
  lemma OverlapBound(start: int, count: int, window: nat, steps: seq<Step>, key: string, from: int, length: nat)
    requires window > 0 && NeverClobbers(start, count, window, steps, key)
    ensures Admitted(TakeAll(Init(start), count, window, steps).decisions, key, from, from + length)
            <= (CeilDiv(length, window) + 1) * Max(1, count)
  {
    var ws := RunExplained(start, count, window, steps, key);
    TotalBound(ws, window, Max(1, count), from, length);
  }

  // ---- When windows stay apart ----

  predicate Opens(y: System, key: string, i: nat) {
    i < |y.openings| && y.openings[i].key == key
  }

  ghost predicate Apart(y: System, window: nat, key: string) {
    forall i: nat, j: nat :: i < j && Opens(y, key, i) && Opens(y, key, j) ==>
      y.openings[i].at + window <= y.openings[j].at
  }

  /** A window that is still running has a live counter, which expires no sooner than the window ends. */
  ghost predicate Running(y: System, window: nat, key: string) {
    forall i: nat :: Opens(y, key, i) ==>
      && y.openings[i].at <= y.cache.now
      && (y.cache.now < y.openings[i].at + window ==> LiveUntil(y, key, y.openings[i].at + window))
  }

  predicate LiveUntil(y: System, key: string, end: int) {
    key in y.cache.entries && y.cache.entries[key].expires.Some? && end <= y.cache.entries[key].expires.value
  }

  /** A live counter expires when the window of one of the openings ends. */
  ghost predicate Rooted(y: System, window: nat, key: string) {
    Live(y.cache, key) ==> exists i: nat :: Opens(y, key, i) && EndsWith(y, window, key, i)
  }

  ghost predicate EndsWith(y: System, window: nat, key: string, i: nat)
    requires Opens(y, key, i) && key in y.cache.entries
  {
    y.cache.entries[key].expires == Some(y.openings[i].at + window)
  }

  lemma OpenRunning(y: System, window: nat, other: string, key: string)
    requires window > 0 && Running(y, window, key)
    ensures Running(Open(y, window, other), window, key)
  {
    var z := Open(y, window, other);
    assert forall i: nat :: i < |y.openings| ==> (Opens(z, key, i) <==> Opens(y, key, i));
  }

  lemma OpenRooted(y: System, window: nat, other: string, key: string)
    requires window > 0 && Rooted(y, window, key)
    ensures Rooted(Open(y, window, other), window, key)
  {
    var z := Open(y, window, other);
    if other == key {
      assert Opens(z, key, |y.openings|) && EndsWith(z, window, key, |y.openings|);
    } else if Live(y.cache, key) {
      var i: nat :| Opens(y, key, i) && EndsWith(y, window, key, i);
      assert Opens(z, key, i) && EndsWith(z, window, key, i);
    }
  }

  /** Opening a window keeps the windows of the key apart exactly when it does not overwrite a live counter of it. */
  lemma OpenApart(y: System, window: nat, other: string, key: string)
    requires window > 0 && Running(y, window, key) && Rooted(y, window, key)
    ensures Apart(Open(y, window, other), window, key) <==>
            Apart(y, window, key) && !(other == key && Live(y.cache, key))
  {
    var z, n := Open(y, window, other), |y.openings|;
    assert forall i: nat :: i < n ==> (Opens(z, key, i) <==> Opens(y, key, i));
    if other == key && Live(y.cache, key) {
      var i: nat :| Opens(y, key, i) && EndsWith(y, window, key, i);
      assert Opens(z, key, i) && Opens(z, key, n) && z.openings[i].at + window > z.openings[n].at;
    } else if !Apart(y, window, key) {
      var i: nat, j: nat :| i < j && Opens(y, key, i) && Opens(y, key, j)
                            && y.openings[i].at + window > y.openings[j].at;
      assert Opens(z, key, i) && Opens(z, key, j) && z.openings[i].at + window > z.openings[j].at;
    }
  }

  /** Steps that open nothing change neither the openings nor when a live counter expires. */
  lemma QuietTracked(y: System, window: nat, z: System, key: string)
    requires z.openings == y.openings && y.cache.now <= z.cache.now
    requires key in z.cache.entries <==> key in y.cache.entries
    requires key in y.cache.entries ==> z.cache.entries[key].expires == y.cache.entries[key].expires
    requires Running(y, window, key) && Rooted(y, window, key)
    ensures Running(z, window, key) && Rooted(z, window, key)
    ensures Apart(z, window, key) <==> Apart(y, window, key)
  {
    assert forall i: nat :: Opens(z, key, i) <==> Opens(y, key, i);
    if Live(z.cache, key) {
      var i: nat :| Opens(y, key, i) && EndsWith(y, window, key, i);
      assert Opens(z, key, i) && EndsWith(z, window, key, i);
    }
    RunningLater(y, window, z, key);
  }

  lemma RunningLater(y: System, window: nat, z: System, key: string)
    requires z.openings == y.openings && y.cache.now <= z.cache.now
    requires key in z.cache.entries <==> key in y.cache.entries
    requires key in y.cache.entries ==> z.cache.entries[key].expires == y.cache.entries[key].expires
    requires Running(y, window, key)
    ensures Running(z, window, key)
  {
    assert forall i: nat :: Opens(z, key, i) <==> Opens(y, key, i);
  }

  lemma StepTracked(y: System, count: int, window: nat, step: Step, key: string)
    requires window > 0 && Running(y, window, key) && Rooted(y, window, key)
    ensures Running(Take(y, count, window, step), window, key) && Rooted(Take(y, count, window, step), window, key)
    ensures Apart(Take(y, count, window, step), window, key) <==> Apart(y, window, key) && !Clobbers(y, step, key)
  {
    var z := Take(y, count, window, step);
    if z.openings == y.openings {
      QuietTracked(y, window, z, key);
    } else {
      var other := z.openings[|y.openings|].key;
      var calls := if step.StReset? then y.calls - {step.id} else y.calls;
      var ready := y.(calls := calls);
      assert z == Open(ready, window, other);
      QuietTracked(y, window, ready, key);
      OpenRunning(ready, window, other, key);
      OpenRooted(ready, window, other, key);
      OpenApart(ready, window, other, key);
    }
  }

  lemma {:induction false} RunTracked(start: int, count: int, window: nat, steps: seq<Step>, key: string)
    requires window > 0
    ensures Running(TakeAll(Init(start), count, window, steps), window, key)
    ensures Rooted(TakeAll(Init(start), count, window, steps), window, key)
    ensures Apart(TakeAll(Init(start), count, window, steps), window, key)
            <==> NeverClobbers(start, count, window, steps, key)
  {
    if steps != [] {
      RunTracked(start, count, window, steps[..|steps| - 1], key);
      StepTracked(TakeAll(Init(start), count, window, steps[..|steps| - 1]), count, window, steps[|steps| - 1], key);
    }
  }

  /** In every interleaving, the windows of a key are a width apart exactly when no reset overwrites a live counter. */
  lemma WindowsApartIff(start: int, count: int, window: nat, steps: seq<Step>, key: string)
    requires window > 0
    ensures Apart(TakeAll(Init(start), count, window, steps), window, key)
            <==> NeverClobbers(start, count, window, steps, key)
  {
    RunTracked(start, count, window, steps, key);
  }

  lemma TakeAllSnoc(start: int, count: int, window: nat, steps: seq<Step>, step: Step)
    ensures TakeAll(Init(start), count, window, steps + [step])
            == Take(TakeAll(Init(start), count, window, steps), count, window, step)
  {
    assert (steps + [step])[..|steps|] == steps;
  }

  /** One window was opened at `start`; these calls are under way at `now`. */
  function OneWindow(start: int, window: nat, key: string, now: int, calls: map<nat, Pending>): System {
    System(State(map[key := Entry(1, Some(start + window))], now), calls,
           [Opening(key, start)], [Decision(key, Verdict(false, start))])
  }

  lemma Follows(start: int, window: nat, steps: seq<Step>, step: Step, y: System, z: System)
    requires TakeAll(Init(start), 1, window, steps) == y && Take(y, 1, window, step) == z
    ensures TakeAll(Init(start), 1, window, steps + [step]) == z
  {
    TakeAllSnoc(start, 1, window, steps, step);
  }

  /** One call opens a window, and three more find its counter there. */
  lemma ThreeIncrementing(start: int, window: nat, key: string) returns (steps: seq<Step>)
    requires window > 0
    ensures TakeAll(Init(start), 1, window, steps)
            == OneWindow(start, window, key, start,
                         map[1 := Incrementing(key), 2 := Incrementing(key), 3 := Incrementing(key)])
  {
    var p := Incrementing(key);
    var y0 := OneWindow(start, window, key, start, map[]);
    var y1 := OneWindow(start, window, key, start, map[1 := p]);
    var y2 := OneWindow(start, window, key, start, map[1 := p, 2 := p]);
    Follows(start, window, [], StAdd(0, key), Init(start), y0);
    Follows(start, window, [] + [StAdd(0, key)], StAdd(1, key), y0, y1);
    Follows(start, window, [] + [StAdd(0, key)] + [StAdd(1, key)], StAdd(2, key), y1, y2);
    steps := [] + [StAdd(0, key)] + [StAdd(1, key)] + [StAdd(2, key)] + [StAdd(3, key)];
    Follows(start, window, [] + [StAdd(0, key)] + [StAdd(1, key)] + [StAdd(2, key)], StAdd(3, key),
            y2, OneWindow(start, window, key, start, map[1 := p, 2 := p, 3 := p]));
  }

  lemma WindowEnds(start: int, window: nat, key: string) returns (steps: seq<Step>)
    requires window > 0
    ensures TakeAll(Init(start), 1, window, steps)
            == OneWindow(start, window, key, start + window,
                         map[1 := Incrementing(key), 2 := Incrementing(key), 3 := Incrementing(key)])
  {
    steps := ThreeIncrementing(start, window, key);
    var calls := map[1 := Incrementing(key), 2 := Incrementing(key), 3 := Incrementing(key)];
    Follows(start, window, steps, StWait(window), OneWindow(start, window, key, start, calls),
            OneWindow(start, window, key, start + window, calls));
    steps := steps + [StWait(window)];
  }

  /** An increment that finds the counter gone. */
  lemma CounterIsGone(start: int, window: nat, key: string, steps: seq<Step>, id: nat, calls: map<nat, Pending>)
    requires TakeAll(Init(start), 1, window, steps) == OneWindow(start, window, key, start + window, calls)
    requires id in calls && calls[id] == Incrementing(key)
    ensures TakeAll(Init(start), 1, window, steps + [StIncr(id)])
            == OneWindow(start, window, key, start + window, calls[id := Resetting(key)])
  {
    TakeAllSnoc(start, 1, window, steps, StIncr(id));
  }

  /** When the window is over, each of the three finds the counter gone. */
  lemma ThreeResetting(start: int, window: nat, key: string) returns (steps: seq<Step>)
    requires window > 0
    ensures TakeAll(Init(start), 1, window, steps)
            == OneWindow(start, window, key, start + window,
                         map[1 := Resetting(key), 2 := Resetting(key), 3 := Resetting(key)])
  {
    var p, q := Incrementing(key), Resetting(key);
    steps := WindowEnds(start, window, key);
    var calls := map[1 := p, 2 := p, 3 := p];
    CounterIsGone(start, window, key, steps, 1, calls);
    CounterIsGone(start, window, key, steps + [StIncr(1)], 2, calls[1 := q]);
    CounterIsGone(start, window, key, steps + [StIncr(1)] + [StIncr(2)], 3, calls[1 := q][2 := q]);
    steps := steps + [StIncr(1)] + [StIncr(2)] + [StIncr(3)];
    assert calls[1 := q][2 := q][3 := q] == map[1 := q, 2 := q, 3 := q];
  }

  /** All three are then admitted at once, where a limit of one admits two in the span of a window. */
  lemma ThreeResetsBreakBound(start: int, window: nat, key: string) returns (steps: seq<Step>)
    requires window > 0
    ensures var now := start + window;
            Admitted(TakeAll(Init(start), 1, window, steps).decisions, key, now, now + window) == 3
  {
    steps := ThreeResetting(start, window, key);
    var now := start + window;
    var first, admitted := Decision(key, Verdict(false, start)), Decision(key, Verdict(false, now));
    TakeAllSnoc(start, 1, window, steps, StReset(1));
    steps := steps + [StReset(1)];
    TakeAllSnoc(start, 1, window, steps, StReset(2));
    steps := steps + [StReset(2)];
    TakeAllSnoc(start, 1, window, steps, StReset(3));
    steps := steps + [StReset(3)];
    var ds := TakeAll(Init(start), 1, window, steps).decisions;
    assert ds == [first, admitted, admitted, admitted];
    assert ds[..3][..2] == ds[..2] && ds[..2][..1] == ds[..1] && ds[..1][..0] == [];
    assert Admitted(ds[..1], key, now, now + window) == 0;
    assert Admitted(ds[..2], key, now, now + window) == 1;
    assert Admitted(ds[..3], key, now, now + window) == 2;
  }
}

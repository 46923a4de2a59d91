/** The windows of one cached counter: opened when the key is set, extended while it is incremented. */
module CounterWindows {
  import opened Wrappers
  import opened TtlCache
  import opened Windows

  /** The windows opened so far, at most `cap` events each, explain the cache entry of `key`. */
  ghost predicate Explains(ws: seq<Window>, s: State<int>, key: string, cap: nat, width: int) {
    && Spaced(ws, width) && Capped(ws, width, cap)
    && (ws != [] ==> ws[|ws| - 1].start <= s.now)
    && (!Live(s, key) ==> ws != [] ==> ws[|ws| - 1].start + width <= s.now)
    && (Live(s, key) ==>
          ws != [] && s.entries[key].expires == Some(ws[|ws| - 1].start + width)
          && |ws[|ws| - 1].times| <= s.entries[key].value && s.entries[key].value >= 1)
  }

  /** Time may pass, and other keys may change. */
  lemma FrameExplains(ws: seq<Window>, s: State<int>, s': State<int>, key: string, cap: nat, width: int)
    requires Explains(ws, s, key, cap, width) && s.now <= s'.now
    requires key in s'.entries <==> key in s.entries
    requires key in s.entries ==> s'.entries[key] == s.entries[key]
    ensures Explains(ws, s', key, cap, width)
  {
  }

  /** Setting a key that is not there opens a window with one event. */
  lemma OpenExplains(ws: seq<Window>, s: State<int>, key: string, cap: nat, width: nat) returns (ws': seq<Window>)
    requires width > 0 && cap > 0 && Explains(ws, s, key, cap, width) && !Live(s, key)
    ensures Explains(ws', Put(s, key, 1, Some(width)), key, cap, width)
    ensures forall a, b :: Total(ws', a, b) == Total(ws, a, b) + (if a <= s.now < b then 1 else 0)
  {
    ws' := ws + [Window(s.now, [s.now])];
    forall i, j | 0 <= i < j < |ws'| ensures ws'[i].start + width <= ws'[j].start {
      assert j == |ws| && i < |ws| - 1 ==> ws[i].start + width <= ws[|ws| - 1].start;
    }
    forall a, b {
      TotalGrows(ws, s.now, a, b);
    }
  }

  /** Incrementing a live key keeps the windows, and may count one more event in the last of them. */
  lemma BumpExplains(ws: seq<Window>, s: State<int>, key: string, cap: nat, width: nat) returns (ws': seq<Window>)
    requires width > 0 && Explains(ws, s, key, cap, width) && Live(s, key)
    ensures Explains(ws, Bump(s, key), key, cap, width)
    ensures s.entries[key].value < cap ==> Explains(ws', Bump(s, key), key, cap, width)
    ensures forall a, b :: Total(ws', a, b) == Total(ws, a, b) + (if a <= s.now < b then 1 else 0)
  {
    var last := ws[|ws| - 1];
    ws' := ws[|ws| - 1 := last.(times := last.times + [s.now])];
    forall a, b {
      TotalGrows(ws, s.now, a, b);
    }
  }
}

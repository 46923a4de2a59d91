/** Counting events that fall into windows of a fixed width whose starts are at least that width apart. */
module Windows {

  /** A window longer at `start`, with the times of the events counted in it. */
  datatype Window = Window(start: int, times: seq<int>)

  function Max(a: int, b: int): int {
    if a < b then b else a
  }

  /** How often a window of width `width` fits into `length`, rounded up. */
  function CeilDiv(length: nat, width: int): nat
    requires width > 0
  {
    (length + width - 1) / width
  }

  predicate Spaced(ws: seq<Window>, width: int) {
    forall i, j :: 0 <= i < j < |ws| ==> ws[i].start + width <= ws[j].start
  }

  /** Events lie inside their window, and no window holds more than `cap` of them. */
  predicate Capped(ws: seq<Window>, width: int, cap: nat) {
    forall i :: 0 <= i < |ws| ==>
      |ws[i].times| <= cap && forall t :: t in ws[i].times ==> ws[i].start <= t < ws[i].start + width
  }

  /** Events at times in [from, to). */
  function CountIn(times: seq<int>, from: int, to: int): nat {
    if times == [] then 0
    else CountIn(times[..|times| - 1], from, to) + (if from <= times[|times| - 1] < to then 1 else 0)
  }

  function Total(ws: seq<Window>, from: int, to: int): nat {
    if ws == [] then 0 else Total(ws[..|ws| - 1], from, to) + CountIn(ws[|ws| - 1].times, from, to)
  }

  /** Windows that start strictly between `lo` and `hi`. */
  function StartsIn(ws: seq<Window>, lo: int, hi: int): nat {
    if ws == [] then 0
    else StartsIn(ws[..|ws| - 1], lo, hi) + (if lo < ws[|ws| - 1].start < hi then 1 else 0)
  }

  lemma {:induction false} StartsInNarrow(ws: seq<Window>, lo: int, hi: int, hi': int)
    requires forall i :: 0 <= i < |ws| ==> ws[i].start < hi && ws[i].start < hi'
    ensures StartsIn(ws, lo, hi) == StartsIn(ws, lo, hi')
  {
    if ws != [] {
      StartsInNarrow(ws[..|ws| - 1], lo, hi, hi');
    }
  }

  /** Starts that are `width` apart occur at most `k` times in a span of `k` widths. */
  lemma {:induction false} StartsInBound(ws: seq<Window>, width: int, lo: int, hi: int, k: nat)
    requires width > 0 && Spaced(ws, width) && hi - lo <= k * width
    ensures StartsIn(ws, lo, hi) <= k
    decreases |ws|
  {
    if ws != [] {
      var rest, z := ws[..|ws| - 1], ws[|ws| - 1].start;
      if lo < z < hi {
        StartsInNarrow(rest, lo, hi, z - width + 1);
        assert k == 0 ==> k * width == 0;
        assert (k - 1) * width == k * width - width;
        StartsInBound(rest, width, lo, z - width + 1, k - 1);
      } else {
        StartsInBound(rest, width, lo, hi, k);
      }
    }
  }

  lemma {:induction false} CountInBounds(times: seq<int>, from: int, to: int)
    ensures CountIn(times, from, to) <= |times|
    ensures CountIn(times, from, to) > 0 ==> exists t :: t in times && from <= t < to
  {
    if times != [] {
      var rest := times[..|times| - 1];
      CountInBounds(rest, from, to);
      assert times[|times| - 1] in times;
      if t :| t in rest && from <= t < to {
        assert t in times;
      }
    }
  }

  /** Only windows that meet the interval contribute, each at most `cap`. */
  lemma {:induction false} TotalByStarts(ws: seq<Window>, width: int, cap: nat, from: int, to: int)
    requires Capped(ws, width, cap)
    ensures Total(ws, from, to) <= StartsIn(ws, from - width, to) * cap
  {
    if ws != [] {
      TotalByStarts(ws[..|ws| - 1], width, cap, from, to);
      var last := ws[|ws| - 1];
      CountInBounds(last.times, from, to);
      var n := StartsIn(ws[..|ws| - 1], from - width, to);
      assert (n + 1) * cap == n * cap + cap;
    }
  }

  lemma CeilDivCovers(length: nat, width: int)
    requires width > 0
    ensures length <= CeilDiv(length, width) * width
  {
    var x := length + width - 1;
    assert x == x / width * width + x % width;
  }

  /** Windows `width` apart, with at most `cap` events each: the bound on any interval of a given length. */
  lemma TotalBound(ws: seq<Window>, width: int, cap: nat, from: int, length: nat)
    requires width > 0 && Spaced(ws, width) && Capped(ws, width, cap)
    ensures Total(ws, from, from + length) <= (CeilDiv(length, width) + 1) * cap
  {
    var k := CeilDiv(length, width) + 1;
    CeilDivCovers(length, width);
    assert k * width == CeilDiv(length, width) * width + width;
    StartsInBound(ws, width, from - width, from + length, k);
    TotalByStarts(ws, width, cap, from, from + length);
    MulLe(StartsIn(ws, from - width, from + length), k, cap);
  }

  lemma MulLe(a: nat, b: nat, c: nat)
    requires a <= b
    ensures a * c <= b * c
  {
    assert b * c == a * c + (b - a) * c;
  }

  /** Adding an event to the last window, or opening a new one with it, adds one to the count where it falls. */
  lemma TotalGrows(ws: seq<Window>, t: int, from: int, to: int)
    ensures Total(ws + [Window(t, [t])], from, to) == Total(ws, from, to) + (if from <= t < to then 1 else 0)
    ensures ws != [] ==>
      var last := ws[|ws| - 1];
      Total(ws[|ws| - 1 := last.(times := last.times + [t])], from, to)
      == Total(ws, from, to) + (if from <= t < to then 1 else 0)
  {
    var longer := ws + [Window(t, [t])];
    assert longer[..|longer| - 1] == ws && longer[|longer| - 1].times[..0] == [];
    assert CountIn([t], from, to) == if from <= t < to then 1 else 0;
    if ws != [] {
      var last := ws[|ws| - 1];
      assert (last.times + [t])[..|last.times|] == last.times;
      assert ws[|ws| - 1 := last.(times := last.times + [t])][..|ws| - 1] == ws[..|ws| - 1];
    }
  }
}

/** Counting calls in aligned windows of fixed length, apart from any storage: what a
    fixed-window limit implies for windows and for arbitrary intervals. */
module Windows {
  import opened Prelude

  /** n calls in order; mine(i) says whether call i counts, at(i) when it came. */
  datatype Calls = Calls(n: nat, mine: nat -> bool, at: nat -> int, limit: int, period: int)

  function Window(c: Calls, t: int): int
    requires c.period > 0
  {
    t / c.period
  }

  function CountsIn(c: Calls, window: int): nat -> int
    requires c.period > 0
  {
    (i: nat) => if c.mine(i) && Window(c, c.at(i)) == window then 1 else 0
  }

  /** The calls before the i-th that counted in the window. */
  function CountBefore(c: Calls, i: nat, window: int): int
    requires c.period > 0
  {
    SumTo(i, CountsIn(c, window))
  }

  /** Call i is let through: fewer than limit calls came before it in its window. */
  predicate Passes(c: Calls, i: nat)
    requires c.period > 0
  {
    c.mine(i) && CountBefore(c, i, Window(c, c.at(i))) < c.limit
  }

  function PassesWithin(c: Calls, lo: int, hi: int): nat -> int
    requires c.period > 0
  {
    (i: nat) => if Passes(c, i) && lo <= c.at(i) < hi then 1 else 0
  }

  function PassedWithin(c: Calls, lo: int, hi: int): int
    requires c.period > 0
  {
    SumTo(c.n, PassesWithin(c, lo, hi))
  }

  function Cap(limit: int): nat { if limit > 0 then limit else 0 }

  lemma InWindow(c: Calls, window: int, t: int)
    requires c.period > 0
    ensures window * c.period <= t < window * c.period + c.period <==> Window(c, t) == window
  {
    EuclideanDivision(t, c.period);
    if window * c.period <= t < window * c.period + c.period {
      QuotientIsUnique(t, c.period, window, t - window * c.period);
    }
  }

  /** Among the first n calls of a window the first limit ones pass, and no others. */
  lemma {:induction false} FirstOnesPass(c: Calls, window: int, n: nat)
    requires c.period > 0
    ensures CountBefore(c, n, window) >= 0
    ensures SumTo(n, PassesWithin(c, window * c.period, window * c.period + c.period))
            == if CountBefore(c, n, window) < Cap(c.limit) then CountBefore(c, n, window) else Cap(c.limit)
  {
    if n > 0 {
      FirstOnesPass(c, window, n - 1);
      InWindow(c, window, c.at(n - 1));
    }
  }

  /** At most limit calls pass in an aligned window. */
  lemma WindowBound(c: Calls, window: int)
    requires c.period > 0
    ensures PassedWithin(c, window * c.period, window * c.period + c.period) <= Cap(c.limit)
  {
    FirstOnesPass(c, window, c.n);
  }

  lemma Adjacent(c: Calls, lo: int, mid: int, hi: int)
    requires c.period > 0 && lo <= mid <= hi
    ensures PassedWithin(c, lo, hi) == PassedWithin(c, lo, mid) + PassedWithin(c, mid, hi)
  {
    SumPlus(c.n, PassesWithin(c, lo, mid), PassesWithin(c, mid, hi), PassesWithin(c, lo, hi));
  }

  lemma Wider(c: Calls, lo: int, hi: int, lo': int, hi': int)
    requires c.period > 0 && lo' <= lo && hi <= hi'
    ensures PassedWithin(c, lo, hi) <= PassedWithin(c, lo', hi')
  {
    SumAtMost(c.n, PassesWithin(c, lo, hi), PassesWithin(c, lo', hi'));
  }

  /** m + 1 consecutive windows. */
  lemma {:induction false} WindowsBound(c: Calls, window: int, m: nat)
    requires c.period > 0
    ensures PassedWithin(c, window * c.period, (window + m) * c.period + c.period) <= (m + 1) * Cap(c.limit)
    decreases m
  {
    if m == 0 {
      WindowBound(c, window);
    } else {
      WindowsBound(c, window, m - 1);
      WindowBound(c, window + m);
      var lo, mid := window * c.period, (window + m) * c.period;
      assert (window + (m - 1)) * c.period + c.period == mid;
      AtLeast(window, m, c.period);
      Adjacent(c, lo, mid, mid + c.period);
      assert (m + 1) * Cap(c.limit) == m * Cap(c.limit) + Cap(c.limit);
    }
  }

  lemma AtLeast(window: int, m: nat, period: int)
    requires period > 0
    ensures (window + m) * period == window * period + m * period && m * period >= 0
  {
  }

  /** At most (m + 1) * limit calls pass in any interval as long as m periods, wherever it starts. */
  lemma RollingBound(c: Calls, start: int, m: nat)
    requires c.period > 0
    ensures PassedWithin(c, start, start + m * c.period) <= (m + 1) * Cap(c.limit)
  {
    var w := Window(c, start);
    InWindow(c, w, start);
    AtLeast(w, m, c.period);
    Wider(c, start, start + m * c.period, w * c.period, (w + m) * c.period + c.period);
    WindowsBound(c, w, m);
  }
}

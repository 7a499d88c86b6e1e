/**
 * The redraw throttle of the acquisition step: every accepted sample advances
 * `update_counter`; once it reaches `update_every_n` it drops back to 0 and the
 * curves are redrawn.
 */
module Throttle {

  /** The counter after one tick, and whether that tick redraws. */
  datatype Tick = Tick(counter: int, redraw: bool)

  /**
   * One tick. It redraws exactly when the incremented counter reaches the
   * threshold, so a threshold lowered below the counter fires on the very next
   * tick; with `n >= 1` the counter stays in `[0, n)`.
   */
  function Advance(counter: int, n: int): (r: Tick)
    ensures r.redraw <==> counter + 1 >= n
    ensures r.redraw ==> r.counter == 0
    ensures !r.redraw ==> r.counter == counter + 1
    ensures 1 <= n && 0 <= counter < n ==> 0 <= r.counter < n
  {
    var c := counter + 1;
    if c >= n then Tick(0, true) else Tick(c, false)
  }

  /** The counter and the number of redraws after `k` ticks with a fixed threshold `n`. */
  function Run(counter: int, n: int, k: nat): (int, nat)
    decreases k
  {
    if k == 0 then (counter, 0)
    else
      var (c, fires) := Run(counter, n, k - 1);
      var t := Advance(c, n);
      (t.counter, fires + if t.redraw then 1 else 0)
  }

  lemma DivModUnique(a: int, n: int, q: int, r: int)
    requires n >= 1 && 0 <= r < n && a == n * q + r
    ensures a / n == q && a % n == r
  {
    var q0, r0 := a / n, a % n;
    assert a == n * q0 + r0;
    var d := q - q0;
    assert n * d == r0 - r by {
      assert n * q == n * q0 + n * d;
    }
  }

  /** One more tick, in quotient and remainder: the remainder wraps to 0 exactly when the quotient grows. */
  lemma DivModNext(a: int, n: int)
    requires a >= 0 && n >= 1
    ensures (a + 1) % n == (if a % n + 1 == n then 0 else a % n + 1)
    ensures (a + 1) / n == (if a % n + 1 == n then a / n + 1 else a / n)
  {
    var q, r := a / n, a % n;
    assert a == n * q + r;
    if r + 1 == n {
      assert n * (q + 1) == n * q + n;
      DivModUnique(a + 1, n, q + 1, 0);
    } else {
      DivModUnique(a + 1, n, q, r + 1);
    }
  }

  /**
   * With a fixed threshold `n >= 1`, a counter starting at `c < n` redraws
   * exactly once every `n` ticks: after `k` ticks it has fired `(c + k) / n`
   * times and stands at `(c + k) % n`.
   */
  lemma {:induction false} RunFiresEveryN(c: int, n: int, k: nat)
    requires 1 <= n && 0 <= c < n
    ensures Run(c, n, k) == ((c + k) % n, (c + k) / n)
    decreases k
  {
    if k == 0 {
      DivModUnique(c, n, 0, c);
    } else {
      RunFiresEveryN(c, n, k - 1);
      var a := c + k - 1;
      var prev := Run(c, n, k - 1);
      assert prev == (a % n, a / n);
      var t := Advance(a % n, n);
      assert Run(c, n, k) == (t.counter, a / n + if t.redraw then 1 else 0);
      DivModNext(a, n);
    }
  }
}

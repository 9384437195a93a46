/** The reconnect delay (select_reconnect_delay in src/live_capture_controller.cpp). */
module Backoff {
  import opened Types

  function Pow2(n: nat): (p: nat)
    ensures p >= 1
  {
    if n == 0 then 1 else 2 * Pow2(n - 1)
  }

  function Min(a: nat, b: nat): nat {
    if a <= b then a else b
  }

  /** The upper end of the interval the delay is chosen from. */
  function Cap(initial: nat, maximum: nat, attempt: nat): nat {
    Min(initial * Pow2(attempt), maximum)
  }

  lemma {:induction false} Pow2Grows(m: nat, n: nat)
    requires m <= n
    ensures Pow2(m) <= Pow2(n)
  {
    if m < n {
      Pow2Grows(m, n - 1);
    }
  }

  lemma ProductGrows(a: nat, p: nat, q: nat)
    requires p <= q
    ensures a * p <= a * q
  {
  }

  /** Once the maximum is reached it stays. */
  lemma CapStays(initial: nat, maximum: nat, i: nat, attempt: nat)
    requires i <= attempt && Cap(initial, maximum, i) == maximum
    ensures Cap(initial, maximum, attempt) == maximum
  {
    Pow2Grows(i, attempt);
    ProductGrows(initial, Pow2(i), Pow2(attempt));
  }

  lemma CapDoubles(initial: nat, maximum: nat, i: nat)
    requires Cap(initial, maximum, i) < maximum
    ensures Cap(initial, maximum, i + 1) == Min(2 * Cap(initial, maximum, i), maximum)
  {
    assert initial * (2 * Pow2(i)) == 2 * (initial * Pow2(i));
  }

  /** The doubling loop, which never exceeds 64 bits: the initial delay times two to the
      number of attempts, or the maximum. */
  method DelayCap(initial: U64, maximum: U64, attempt: U64) returns (cap: U64)
    requires 0 < initial <= maximum
    ensures cap == Cap(initial, maximum, attempt)
  {
    cap := initial;
    var index := 0;
    while index < attempt && cap < maximum
      invariant index <= attempt && cap == Cap(initial, maximum, index)
    {
      CapDoubles(initial, maximum, index);
      cap := if cap > maximum / 2 then maximum else cap * 2;
      index := index + 1;
    }
    if index < attempt {
      CapStays(initial, maximum, index, attempt);
    }
    cap := Min(cap, maximum);
  }

  /** A delay between half the cap and the cap, whatever the jitter source answers; the count
      of attempts saturates. */
  method SelectDelay(initial: U64, maximum: U64, attempt: U64, jitter: U64) returns (selected: U64, next: U64)
    requires 0 < initial <= maximum
    ensures Cap(initial, maximum, attempt) / 2 <= selected <= Cap(initial, maximum, attempt) <= maximum
    ensures Cap(initial, maximum, attempt) / 2 <= jitter <= Cap(initial, maximum, attempt) ==> selected == jitter
    ensures next == Min(attempt + 1, U64_MAX)
  {
    var cap := DelayCap(initial, maximum, attempt);
    var lower := cap / 2;
    selected := if jitter <= cap then jitter else cap;
    selected := if selected < lower then lower else selected;
    next := if attempt != U64_MAX then attempt + 1 else attempt;
  }
}

/** Small arithmetic and option helpers shared by the detection modules.  They
    spell out the numeric operators of the original language: `round` rounds
    halves to even, `int` truncates toward zero, and a slice clamps its ends. */
module Prelude {

  datatype Option<+T> = None | Some(value: T) {
    function GetOr(default: T): T {
      if Some? then value else default
    }
  }

  function Min(x: int, y: int): int { if x <= y then x else y }

  function Max(x: int, y: int): int { if x >= y then x else y }

  function MinReal(x: real, y: real): real { if x <= y then x else y }

  function MaxReal(x: real, y: real): real { if x >= y then x else y }

  function Abs(x: real): real { if x >= 0.0 then x else -x }

  /** `x` is `raw`, moved only as far as the range from `low` to `high` asks for. */
  predicate MovedInto(low: real, high: real, raw: real, x: real) {
    x == if raw < low then low else if raw > high then high else raw
  }

  /** `int(x)`: drop the fraction. */
  function Truncate(x: real): (r: int)
    ensures x >= 0.0 ==> r as real <= x < r as real + 1.0
    ensures x <= 0.0 ==> r as real - 1.0 < x <= r as real
  {
    if x >= 0.0 then x.Floor else -((-x).Floor)
  }

  /** `round(x)`: the nearest integer, a tie going to the even one. */
  function Round(x: real): (r: int)
    ensures Abs(r as real - x) <= 0.5
    ensures Abs(r as real - x) == 0.5 ==> r % 2 == 0
  {
    var below := x.Floor;
    var fraction := x - below as real;
    if fraction < 0.5 || (fraction == 0.5 && below % 2 == 0) then below else below + 1
  }

  /** `x` is an integer nearest to `v`, the even one if there are two. */
  predicate Nearest(x: int, v: real) {
    Abs(x as real - v) <= 0.5 && (Abs(x as real - v) == 0.5 ==> x % 2 == 0)
  }

  /** Rounding cannot cross an integer. */
  lemma RoundBetweenIntegers(lo: int, x: real, hi: int)
    requires lo as real <= x <= hi as real
    ensures lo <= Round(x) <= hi
  {
    var r := Round(x);
    assert r as real < hi as real + 1.0 && lo as real - 1.0 < r as real;
  }

  /** Number of elements of `a[start:stop]` for an axis of length `n` and a
      non-negative `start`; a negative `stop` counts from the end. */
  function SliceLength(start: nat, stop: int, n: nat): (r: nat)
    ensures start + r <= Max(start, n)
  {
    var end := if stop < 0 then Max(0, stop + n) else Min(stop, n);
    Max(0, end - Min(start, n))
  }

  /** The positions that the slice selects. */
  lemma SliceSelects(start: nat, stop: int, n: nat, i: nat)
    ensures start <= i < start + SliceLength(start, stop, n)
       <==> start <= i < n && i < (if stop < 0 then stop + n else stop)
  {
  }

  /** `s[-k:]`: the last `k` elements; `k == 0` keeps everything and a negative
      `k` drops the first `-k`. */
  function Suffix<T>(s: seq<T>, k: int): (r: seq<T>)
    ensures |r| <= |s| && r == s[|s| - |r|..]
  {
    if k > 0 then s[Max(0, |s| - k)..] else s[Min(|s|, -k)..]
  }

  /** The elements at the given positions. */
  function At<T>(all: seq<T>, positions: seq<nat>): (r: seq<T>)
    requires forall i :: 0 <= i < |positions| ==> positions[i] < |all|
    ensures |r| == |positions|
  {
    seq(|positions|, i requires 0 <= i < |positions| => all[positions[i]])
  }

  /** `chosen` are the wanted items, which stand at these positions, in order. */
  ghost predicate Selects<T>(all: seq<T>, wanted: T -> bool, at: seq<nat>, chosen: seq<T>) {
    && (forall i, j :: 0 <= i < j < |at| ==> at[i] < at[j])
    && (forall i :: 0 <= i < |at| ==> at[i] < |all| && wanted(all[at[i]]))
    && (forall k :: 0 <= k < |all| && wanted(all[k]) ==> k in at)
    && chosen == At(all, at)
  }

  lemma SelectsNothing<T>(all: seq<T>, wanted: T -> bool)
    requires all == []
    ensures Selects(all, wanted, [], [])
  {
  }

  lemma SelectsOneMore<T>(all: seq<T>, n: nat, wanted: T -> bool, at: seq<nat>, chosen: seq<T>)
    requires |all| == n + 1 && Selects(all[..n], wanted, at, chosen)
    ensures wanted(all[n]) ==> Selects(all, wanted, at + [n], chosen + [all[n]])
    ensures !wanted(all[n]) ==> Selects(all, wanted, at, chosen)
  {
    var more := at + [n];
    forall k | 0 <= k <= n && wanted(all[k]) ensures k in more {
      if k == n {
        assert more[|at|] == k;
      } else {
        assert all[k] == all[..n][k];
      }
    }
  }

  function Power(base: real, exponent: nat): real {
    if exponent == 0 then 1.0 else base * Power(base, exponent - 1)
  }

  /** `n` times `x`, by repeated addition. */
  function Times(n: nat, x: real): real {
    if n == 0 then 0.0 else x + Times(n - 1, x)
  }

  lemma {:induction false} TimesIsProduct(n: nat, x: real)
    ensures Times(n, x) == n as real * x
  {
    if n > 0 {
      TimesIsProduct(n - 1, x);
      assert n as real * x == x + (n - 1) as real * x;
    }
  }

  lemma {:induction false} TimesMonotone(m: nat, n: nat, x: real)
    requires m <= n && x >= 0.0
    ensures Times(m, x) <= Times(n, x)
  {
    if m < n {
      TimesMonotone(m, n - 1, x);
    }
  }

  /** The lists one after the other. */
  function Flatten<T>(lists: seq<seq<T>>): seq<T> {
    if lists == [] then [] else Flatten(lists[..|lists| - 1]) + lists[|lists| - 1]
  }

  /** Empty lists at the end add nothing. */
  lemma {:induction false} FlattenPadded<T>(lists: seq<seq<T>>, n: nat)
    requires n <= |lists| && forall i :: n <= i < |lists| ==> lists[i] == []
    ensures Flatten(lists) == Flatten(lists[..n])
  {
    if n < |lists| {
      FlattenPadded(lists[..|lists| - 1], n);
      assert lists[..|lists| - 1][..n] == lists[..n];
    } else {
      assert lists[..n] == lists;
    }
  }

  /** What holds at one moment and is kept by every step holds at every later moment. */
  lemma {:induction false} StaysTrue(flags: seq<bool>, m: nat, n: nat)
    requires m <= n < |flags| && flags[m] && forall k :: 0 < k < |flags| && flags[k - 1] ==> flags[k]
    ensures flags[n]
    decreases n
  {
    if m < n {
      StaysTrue(flags, m, n - 1);
    }
  }
}

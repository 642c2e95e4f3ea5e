/** Where src/detection/open_vocab_object_detector.py puts the square tiles along
    the long side of a wide frame. */
module Tiling {
  import opened Prelude

  function Stride(tile: nat, overlap: real): (r: nat)
    ensures r >= 1
  {
    Max(1, Round(tile as real * (1.0 - overlap)))
  }

  /** With the clamped overlap a stride is never longer than a tile. */
  lemma StrideWithinTile(tile: nat, overlap: real)
    requires tile >= 1 && 0.10 <= overlap <= 0.50
    ensures Stride(tile, overlap) <= tile
  {
    var x := tile as real * (1.0 - overlap);
    assert 0.0 <= x <= tile as real;
    RoundBetweenIntegers(0, x, tile);
  }

  /** The number of strides needed to pass `length`. */
  function Strides(length: nat, stride: nat): (r: nat)
    requires stride >= 1
    ensures (r as int - 1) * stride < length <= r * stride || (length == 0 && r == 0)
  {
    (length + stride - 1) / stride
  }

  function StartAt(i: nat, stride: nat, last: nat): nat { Min(i * stride, last) }

  /** Start `i` is `i` strides in, but never past the last possible start. */
  function TileStarts(side: nat, tile: nat, stride: nat): (r: seq<nat>)
    requires tile <= side && stride >= 1
    ensures |r| == Strides(side - tile, stride) + 1
  {
    seq(Strides(side - tile, stride) + 1, i requires 0 <= i => StartAt(i, stride, side - tile))
  }

  lemma FullStrides(i: nat, stride: nat, last: nat)
    requires stride >= 1
    ensures i * stride <= last <==> i < Strides(last, stride) || (i == Strides(last, stride) && i * stride == last)
  {
    var n := Strides(last, stride);
    if i < n {
      assert i * stride <= (n - 1) * stride;
    } else if i > n {
      assert i * stride >= (n + 1) * stride == n * stride + stride;
    }
  }

  /** The range of multiples of the stride, then the last possible start. */
  method Starts(side: nat, tile: nat, stride: nat) returns (starts: seq<nat>)
    requires tile <= side && stride >= 1
    ensures starts == TileStarts(side, tile, stride)
  {
    var last := Max(0, side - tile);
    starts := [];
    var at := 0;
    while at < Max(1, side - tile + 1)
      invariant IsRange(starts, at, stride)
      invariant |starts| > 0 ==> starts[|starts| - 1] <= last
      decreases last + stride - at
    {
      NextMultiple(|starts|, stride);
      starts := starts + [at];
      at := at + stride;
    }
    RangeEnd(starts, at, stride, last);
    if |starts| == 0 || starts[|starts| - 1] != last {
      starts := starts + [last];
    }
  }

  /** The multiples of the stride below `at`. */
  ghost predicate IsRange(starts: seq<nat>, at: nat, stride: nat) {
    at == |starts| * stride && forall i :: 0 <= i < |starts| ==> starts[i] == i * stride
  }

  lemma RangeEnd(starts: seq<nat>, at: nat, stride: nat, last: nat)
    requires stride >= 1 && IsRange(starts, at, stride) && starts != [] && starts[|starts| - 1] <= last < at
    ensures |starts| == Strides(last, stride) + (if starts[|starts| - 1] == last then 1 else 0)
    ensures forall i :: 0 <= i < |starts| ==> starts[i] == StartAt(i, stride, last)
    ensures StartAt(|starts|, stride, last) == last
  {
    var n := |starts|;
    FullStrides(n - 1, stride, last);
    FullStrides(n, stride, last);
    forall i | 0 <= i < n ensures starts[i] == StartAt(i, stride, last) {
      if i < n - 1 {
        Scaled(i, n - 1, stride);
      }
    }
  }

  // ---- geometry of the tiling ----

  /** Starts begin at 0, strictly increase and end with the last possible start, so
      every tile lies in the frame. */
  lemma StartsSpan(side: nat, tile: nat, stride: nat)
    requires tile <= side && stride >= 1
    ensures var s := TileStarts(side, tile, stride);
      && s[0] == 0 && s[|s| - 1] == side - tile
      && (forall i, j :: 0 <= i < j < |s| ==> s[i] < s[j])
      && (forall i :: 0 <= i < |s| ==> 0 <= s[i] && s[i] + tile <= side)
  {
    var s, last := TileStarts(side, tile, stride), side - tile;
    forall i, j | 0 <= i < j < |s| ensures s[i] < s[j] {
      FullStrides(i, stride, last);
      Scaled(i, j, stride);
      if i * stride == last {
        FullStrides(j, stride, last);
      }
    }
  }

  lemma NextMultiple(i: nat, stride: nat)
    ensures (i + 1) * stride == i * stride + stride
  {
  }

  lemma {:induction false} Scaled(i: nat, j: nat, stride: nat)
    requires i < j
    ensures i * stride + stride <= j * stride
  {
    NextMultiple(j - 1, stride);
    if i < j - 1 {
      Scaled(i, j - 1, stride);
    }
  }

  lemma StrideShare(tile: nat, overlap: real)
    requires tile >= 1 && 0.10 <= overlap <= 0.50
    ensures Abs((tile - Stride(tile, overlap)) as real - tile as real * overlap) <= 0.5
  {
    var x := tile as real * (1.0 - overlap);
    assert x == tile as real - tile as real * overlap;
    assert tile as real * overlap <= tile as real * 0.5;
  }

  lemma NeighbouringStarts(side: nat, tile: nat, stride: nat, i: nat)
    requires tile <= side && stride >= 1 && i + 1 < |TileStarts(side, tile, stride)|
    ensures var s := TileStarts(side, tile, stride);
      s[i + 1] - s[i] <= stride && (i + 2 < |s| ==> s[i + 1] - s[i] == stride)
  {
    FullStrides(i, stride, side - tile);
    FullStrides(i + 1, stride, side - tile);
    NextMultiple(i, stride);
  }

  /** Neighbouring tiles share the configured part of a tile, up to half a pixel; only the
      last two may share more. */
  lemma TilesShare(side: nat, tile: nat, overlap: real, i: nat)
    requires 1 <= tile <= side && 0.10 <= overlap <= 0.50
    requires i + 1 < |TileStarts(side, tile, Stride(tile, overlap))|
    ensures var s := TileStarts(side, tile, Stride(tile, overlap));
      var shared := (s[i] + tile - s[i + 1]) as real;
      && shared >= tile as real * overlap - 0.5
      && (i + 2 < |s| ==> shared <= tile as real * overlap + 0.5)
  {
    StrideShare(tile, overlap);
    NeighbouringStarts(side, tile, Stride(tile, overlap), i);
  }

  /** The pixels `a .. a + length` all lie in tile `i`. */
  predicate InTile(s: seq<nat>, tile: nat, i: nat, a: nat, length: nat)
    requires i < |s|
  {
    s[i] <= a && a + length <= s[i] + tile
  }

  ghost predicate InSomeTile(s: seq<nat>, tile: nat, a: nat, length: nat) {
    exists i :: 0 <= i < |s| && InTile(s, tile, i, a, length)
  }

  /** The widest gap between the starts of neighbouring tiles. */
  function WidestGap(side: nat, tile: nat, stride: nat): nat
    requires tile <= side
  {
    Min(stride, side - tile)
  }

  lemma QuotientBounds(a: nat, stride: nat) returns (i: nat)
    requires stride >= 1
    ensures i * stride <= a < i * stride + stride
  {
    i := a / stride;
    assert a == stride * (a / stride) + a % stride;
  }

  lemma FitsSomewhere(side: nat, tile: nat, stride: nat, a: nat, length: nat)
    requires tile <= side && stride >= 1 && a + length <= side
    requires length <= tile && length + WidestGap(side, tile, stride) <= tile + 1
    ensures InSomeTile(TileStarts(side, tile, stride), tile, a, length)
  {
    var s, last := TileStarts(side, tile, stride), side - tile;
    StartsSpan(side, tile, stride);
    if a >= last {
      assert InTile(s, tile, |s| - 1, a, length);
    } else {
      var i := QuotientBounds(a, stride);
      FullStrides(i, stride, last);
      assert s[i] == i * stride;
      assert InTile(s, tile, i, a, length);
    }
  }

  /** Every pixel is covered. */
  lemma PixelsCovered(side: nat, tile: nat, stride: nat, x: nat)
    requires 1 <= tile <= side && 1 <= stride <= tile && x < side
    ensures InSomeTile(TileStarts(side, tile, stride), tile, x, 1)
  {
    FitsSomewhere(side, tile, stride, x, 1);
  }

  ghost predicate EveryIntervalFits(side: nat, tile: nat, stride: nat, length: nat)
    requires tile <= side && stride >= 1
  {
    forall a: nat :: a + length <= side ==> InSomeTile(TileStarts(side, tile, stride), tile, a, length)
  }

  /** The interval ending the first gap fits in no tile. */
  lemma StraddlesFirstGap(side: nat, tile: nat, stride: nat, length: nat)
    requires tile < side && stride >= 1
    requires length <= tile && length + WidestGap(side, tile, stride) > tile + 1
    ensures WidestGap(side, tile, stride) - 1 + length <= side
    ensures !InSomeTile(TileStarts(side, tile, stride), tile, WidestGap(side, tile, stride) - 1, length)
  {
    var s, gap := TileStarts(side, tile, stride), WidestGap(side, tile, stride);
    StartsSpan(side, tile, stride);
    forall i | 0 <= i < |s| ensures i == 0 || s[i] >= gap {
      if i > 0 {
        Scaled(0, i, stride);
      }
    }
  }

  /** Objects up to a length always lie whole in some tile, wherever they are, if and
      only if that length is at most a tile minus the widest gap plus one. */
  lemma EveryIntervalFitsIff(side: nat, tile: nat, stride: nat, length: nat)
    requires 1 <= tile < side && 1 <= stride <= tile && 1 <= length <= side
    ensures EveryIntervalFits(side, tile, stride, length)
       <==> length + WidestGap(side, tile, stride) <= tile + 1
  {
    var s, gap := TileStarts(side, tile, stride), WidestGap(side, tile, stride);
    if length + gap <= tile + 1 {
      forall a: nat | a + length <= side ensures InSomeTile(s, tile, a, length) {
        FitsSomewhere(side, tile, stride, a, length);
      }
    } else if length <= tile {
      StraddlesFirstGap(side, tile, stride, length);
    } else {
      assert !InSomeTile(s, tile, 0, length);
    }
  }
}

/**
 * The handful of tensor operators the game-state code is wired from
 * (ConstantFill, Flip, Transpose, Split, Concat, Reshape, plus summation for
 * stating invariants), restricted to the shapes the code uses: a batch of one
 * board, one channel per plane, and square planes.
 */
module Tensor {

  /** Side of the Go board; every plane is BoardSide x BoardSide. */
  const BoardSide: nat := 19

  /** Number of board intersections, the width of a move-probability row. */
  const BoardCells: nat := 361

  /** Outcome of an operation that can fail on a mis-shaped input. */
  datatype Result<T, E> = Ok(value: T) | Err(error: E)

  /** A two-dimensional grid indexed as g[row][column] (height, then width). */
  type Grid<T> = seq<seq<T>>

  /** g has n rows of n entries each. */
  predicate IsSquare<T>(g: Grid<T>, n: nat) {
    |g| == n && forall i :: 0 <= i < n ==> |g[i]| == n
  }

  /** Two n x n grids that agree on every cell are equal. */
  lemma GridExt<T>(a: Grid<T>, b: Grid<T>, n: nat)
    requires IsSquare(a, n) && IsSquare(b, n)
    requires forall i, j :: 0 <= i < n && 0 <= j < n ==> a[i][j] == b[i][j]
    ensures a == b
  {
    forall i | 0 <= i < n
      ensures a[i] == b[i]
    {
      assert |a[i]| == |b[i]| == n;
      assert forall j :: 0 <= j < n ==> a[i][j] == b[i][j];
    }
  }

  /** ConstantFill: an n x n grid holding v everywhere. */
  function Fill<T>(n: nat, v: T): (g: Grid<T>)
    ensures IsSquare(g, n)
    ensures forall i, j :: 0 <= i < n && 0 <= j < n ==> g[i][j] == v
  {
    seq(n, _ => seq(n, _ => v))
  }

  /** Flip along the width axis (axis 3 of an NCHW blob): mirror each row. */
  function FlipW<T>(g: Grid<T>): (r: Grid<T>)
    requires IsSquare(g, |g|)
    ensures IsSquare(r, |g|)
    ensures forall i, j :: 0 <= i < |g| && 0 <= j < |g| ==> r[i][j] == g[i][|g| - 1 - j]
  {
    seq(|g|, i requires 0 <= i < |g| => seq(|g|, j requires 0 <= j < |g| => g[i][|g| - 1 - j]))
  }

  /** Flip along the height axis (axis 2): reverse the order of the rows. */
  function FlipH<T>(g: Grid<T>): (r: Grid<T>)
    requires IsSquare(g, |g|)
    ensures IsSquare(r, |g|)
    ensures forall i, j :: 0 <= i < |g| && 0 <= j < |g| ==> r[i][j] == g[|g| - 1 - i][j]
  {
    seq(|g|, i requires 0 <= i < |g| => seq(|g|, j requires 0 <= j < |g| => g[|g| - 1 - i][j]))
  }

  /** Flip along both spatial axes (axes 2 and 3). */
  function FlipHW<T>(g: Grid<T>): (r: Grid<T>)
    requires IsSquare(g, |g|)
    ensures IsSquare(r, |g|)
    ensures forall i, j :: 0 <= i < |g| && 0 <= j < |g| ==> r[i][j] == g[|g| - 1 - i][|g| - 1 - j]
  {
    seq(|g|, i requires 0 <= i < |g| => seq(|g|, j requires 0 <= j < |g| => g[|g| - 1 - i][|g| - 1 - j]))
  }

  /** Transpose with axes (0,1,3,2): swap height and width. */
  function Transpose<T>(g: Grid<T>): (r: Grid<T>)
    requires IsSquare(g, |g|)
    ensures IsSquare(r, |g|)
    ensures forall i, j :: 0 <= i < |g| && 0 <= j < |g| ==> r[i][j] == g[j][i]
  {
    seq(|g|, i requires 0 <= i < |g| => seq(|g|, j requires 0 <= j < |g| => g[j][i]))
  }

  lemma FlipWInvolution<T>(g: Grid<T>)
    requires IsSquare(g, |g|)
    ensures FlipW(FlipW(g)) == g
  {
    GridExt(FlipW(FlipW(g)), g, |g|);
  }

  lemma FlipHInvolution<T>(g: Grid<T>)
    requires IsSquare(g, |g|)
    ensures FlipH(FlipH(g)) == g
  {
    GridExt(FlipH(FlipH(g)), g, |g|);
  }

  lemma FlipHWInvolution<T>(g: Grid<T>)
    requires IsSquare(g, |g|)
    ensures FlipHW(FlipHW(g)) == g
  {
    GridExt(FlipHW(FlipHW(g)), g, |g|);
  }

  lemma TransposeInvolution<T>(g: Grid<T>)
    requires IsSquare(g, |g|)
    ensures Transpose(Transpose(g)) == g
  {
    GridExt(Transpose(Transpose(g)), g, |g|);
  }

  /** Flipping both axes is flipping one after the other, in either order. */
  lemma FlipHWIsFlipHThenFlipW<T>(g: Grid<T>)
    requires IsSquare(g, |g|)
    ensures FlipHW(g) == FlipW(FlipH(g)) == FlipH(FlipW(g))
  {
    GridExt(FlipHW(g), FlipW(FlipH(g)), |g|);
    GridExt(FlipHW(g), FlipH(FlipW(g)), |g|);
  }

  /** Sum of a sequence of sizes. */
  function SumOf(sizes: seq<nat>): nat {
    if sizes == [] then 0 else sizes[0] + SumOf(sizes[1..])
  }

  lemma {:induction false} SumOfSnoc(sizes: seq<nat>, x: nat)
    ensures SumOf(sizes + [x]) == SumOf(sizes) + x
  {
    if sizes == [] {
      assert sizes + [x] == [x];
    } else {
      assert (sizes + [x])[1..] == sizes[1..] + [x];
      SumOfSnoc(sizes[1..], x);
    }
  }

  /** Total length of a sequence of groups. */
  function LengthOf<T>(groups: seq<seq<T>>): nat {
    if groups == [] then 0 else |groups[0]| + LengthOf(groups[1..])
  }

  /** Concat along the channel axis: the groups' channels, group after group. */
  function Concat<T>(groups: seq<seq<T>>): (s: seq<T>)
    ensures |s| == LengthOf(groups)
  {
    if groups == [] then [] else groups[0] + Concat(groups[1..])
  }

  /** Split along the channel axis into consecutive groups of the given sizes. */
  function Split<T>(s: seq<T>, sizes: seq<nat>): (groups: seq<seq<T>>)
    requires SumOf(sizes) == |s|
    ensures |groups| == |sizes|
    ensures forall k :: 0 <= k < |sizes| ==> |groups[k]| == sizes[k]
  {
    if sizes == [] then [] else [s[..sizes[0]]] + Split(s[sizes[0]..], sizes[1..])
  }

  /** Concatenating the groups of a split gives back the input. */
  lemma {:induction false} ConcatOfSplit<T>(s: seq<T>, sizes: seq<nat>)
    requires SumOf(sizes) == |s|
    ensures Concat(Split(s, sizes)) == s
  {
    if sizes != [] {
      var groups := Split(s, sizes);
      assert groups[1..] == Split(s[sizes[0]..], sizes[1..]);
      ConcatOfSplit(s[sizes[0]..], sizes[1..]);
      assert s == s[..sizes[0]] + s[sizes[0]..];
    }
  }

  /** Group k of a split starts at the sum of the sizes before it. */
  lemma {:induction false} SplitAt<T>(s: seq<T>, sizes: seq<nat>, k: nat)
    requires SumOf(sizes) == |s| && k < |sizes|
    ensures SumOf(sizes[..k]) + sizes[k] <= |s|
    ensures Split(s, sizes)[k] == s[SumOf(sizes[..k])..SumOf(sizes[..k]) + sizes[k]]
  {
    if k == 0 {
      assert sizes[..0] == [];
    } else {
      assert sizes[..k][1..] == sizes[1..][..k - 1];
      SplitAt(s[sizes[0]..], sizes[1..], k - 1);
    }
  }

  /** Reshape a row-major vector of BoardCells entries into a board plane. */
  function ToGrid<T>(v: seq<T>): (g: Grid<T>)
    requires |v| == BoardCells
    ensures IsSquare(g, BoardSide)
    ensures forall i, j :: 0 <= i < BoardSide && 0 <= j < BoardSide ==> g[i][j] == v[i * BoardSide + j]
  {
    seq(BoardSide, i requires 0 <= i < BoardSide => v[i * BoardSide..i * BoardSide + BoardSide])
  }

  /** Sum of a sequence of integers. */
  function Total(xs: seq<int>): int {
    if xs == [] then 0 else xs[0] + Total(xs[1..])
  }

  lemma {:induction false} TotalConcat(a: seq<int>, b: seq<int>)
    ensures Total(a + b) == Total(a) + Total(b)
  {
    if a == [] {
      assert a + b == b;
    } else {
      assert (a + b)[1..] == a[1..] + b;
      TotalConcat(a[1..], b);
    }
  }

  /** Totals add up pointwise. */
  lemma {:induction false} TotalPointwise(a: seq<int>, b: seq<int>, r: seq<int>)
    requires |a| == |b| == |r|
    requires forall m :: 0 <= m < |r| ==> r[m] == a[m] + b[m]
    ensures Total(r) == Total(a) + Total(b)
  {
    if r != [] {
      TotalPointwise(a[1..], b[1..], r[1..]);
    }
  }

  /** A sequence of zeros totals 0. */
  lemma {:induction false} TotalZero(xs: seq<int>)
    requires forall m :: 0 <= m < |xs| ==> xs[m] == 0
    ensures Total(xs) == 0
  {
    if xs != [] {
      TotalZero(xs[1..]);
    }
  }

  /** A sequence that is 1 at position p and 0 elsewhere totals 1. */
  lemma {:induction false} TotalUnit(xs: seq<int>, p: nat)
    requires p < |xs| && xs[p] == 1
    requires forall m :: 0 <= m < |xs| && m != p ==> xs[m] == 0
    ensures Total(xs) == 1
  {
    if p == 0 {
      TotalZero(xs[1..]);
    } else {
      TotalUnit(xs[1..], p - 1);
    }
  }
}

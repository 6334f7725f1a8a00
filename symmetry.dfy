/**
 * The optional symmetry step of game.py (Symmetric): eight views of one board's
 * prediction, one per symmetry of the square, are brought back to a common
 * orientation ("unify"), averaged, and the average is sent out again in the
 * eight orientations ("diversify").
 *
 * The eight views are given as a sequence of eight grids: the batch grouping
 * of model.Segment (game.py:60) is not defined by the code. Divergences of the
 * pseudocode that are modelled by their evident intent: `...` at game.py:60,
 * game.py:70 and game.py:81 stands for all eight views; game.py:70 averages
 * the unified views (written symm0r..symm7r, defined as symm0u..symm7u); and
 * game.py:81 concatenates the diversified views (written symm0..symm7, the
 * inputs); `axes(3)` at game.py:62 is the width flip `axes=(3)`; and the
 * undefined shape `Nx1x19x19` at game.py:72 is (N, 1, 19, 19), which for one
 * board is the averaged 19 x 19 grid itself.
 */
module Symmetry {
  import opened Tensor

  /** One view of a prediction: a square grid of scores. */
  type View = Grid<real>

  /** Number of symmetries of the square, and of views per board. */
  const Views: nat := 8

  datatype SymmetryError =
    | ViewCount  // not exactly eight views
    | ViewShape  // a view is not a 19 x 19 grid

  /** All views are n x n. */
  predicate AllSquare(views: seq<View>, n: nat) {
    forall k :: 0 <= k < |views| ==> IsSquare(views[k], n)
  }

  /** The forward transform of slot k (game.py:72-79). */
  function Forward(k: nat, x: View): (v: View)
    requires k < Views && IsSquare(x, |x|)
    ensures IsSquare(v, |x|)
  {
    if k == 0 then x
    else if k == 1 then FlipW(x)
    else if k == 2 then FlipH(x)
    else if k == 3 then FlipHW(x)
    else if k == 4 then Transpose(x)
    else if k == 5 then FlipW(Transpose(x))
    else if k == 6 then FlipH(Transpose(x))
    else FlipHW(Transpose(x))
  }

  /**
   * The inverse of slot k's forward transform, as the group of the square
   * requires: for slots 5 to 7 the flip is undone first, then the transpose.
   */
  function Inverse(k: nat, v: View): (x: View)
    requires k < Views && IsSquare(v, |v|)
    ensures IsSquare(x, |v|)
  {
    if k == 0 then v
    else if k == 1 then FlipW(v)
    else if k == 2 then FlipH(v)
    else if k == 3 then FlipHW(v)
    else if k == 4 then Transpose(v)
    else if k == 5 then Transpose(FlipW(v))
    else if k == 6 then Transpose(FlipH(v))
    else Transpose(FlipHW(v))
  }

  /** The unify step as game.py:61-68 writes it: slots 5 to 7 are only flipped. */
  function InverseAsWritten(k: nat, v: View): (x: View)
    requires k < Views && IsSquare(v, |v|)
    ensures IsSquare(x, |v|)
  {
    if k == 0 then v
    else if k == 1 then FlipW(v)
    else if k == 2 then FlipH(v)
    else if k == 3 then FlipHW(v)
    else if k == 4 then Transpose(v)
    else if k == 5 then FlipW(v)
    else if k == 6 then FlipH(v)
    else FlipHW(v)
  }

  /** Diversify: the eight oriented copies of one view. */
  function Diversify(x: View): (views: seq<View>)
    requires IsSquare(x, |x|)
    ensures |views| == Views && AllSquare(views, |x|)
    ensures forall k :: 0 <= k < Views ==> views[k] == Forward(k, x)
  {
    seq(Views, k requires 0 <= k < Views => Forward(k, x))
  }

  /** Unify: every view brought back to the orientation of slot 0. */
  function Unify(views: seq<View>, n: nat): (us: seq<View>)
    requires |views| == Views && AllSquare(views, n)
    ensures |us| == Views && AllSquare(us, n)
    ensures forall k :: 0 <= k < Views ==> us[k] == Inverse(k, views[k])
  {
    seq(Views, k requires 0 <= k < Views => Inverse(k, views[k]))
  }

  /** Unify as written in the source, with the flip-only inverses of slots 5 to 7. */
  function UnifyAsWritten(views: seq<View>, n: nat): (us: seq<View>)
    requires |views| == Views && AllSquare(views, n)
    ensures |us| == Views && AllSquare(us, n)
    ensures forall k :: 0 <= k < Views ==> us[k] == InverseAsWritten(k, views[k])
  {
    seq(Views, k requires 0 <= k < Views => InverseAsWritten(k, views[k]))
  }

  /** Sum of cell (i, j) over all views. */
  function CellSum(views: seq<View>, n: nat, i: nat, j: nat): real
    requires AllSquare(views, n) && i < n && j < n
  {
    if views == [] then 0.0 else views[0][i][j] + CellSum(views[1..], n, i, j)
  }

  /** The element-wise average of the views. */
  function Average(views: seq<View>, n: nat): (avg: View)
    requires |views| > 0 && AllSquare(views, n)
    ensures IsSquare(avg, n)
    ensures forall i, j :: 0 <= i < n && 0 <= j < n ==> avg[i][j] == CellSum(views, n, i, j) / (|views| as real)
  {
    seq(n, i requires 0 <= i < n =>
      seq(n, j requires 0 <= j < n => CellSum(views, n, i, j) / (|views| as real)))
  }

  /**
   * Symmetric: unify the eight views, average them, diversify the average.
   * Fails unless there are eight views of 19 x 19.
   */
  function Symmetric(predict: seq<View>): (r: Result<seq<View>, SymmetryError>)
    ensures r.Ok? <==> |predict| == Views && AllSquare(predict, BoardSide)
    ensures |predict| != Views ==> r == Err(ViewCount)
    ensures |predict| == Views && !AllSquare(predict, BoardSide) ==> r == Err(ViewShape)
    ensures r.Ok? ==> |r.value| == Views && AllSquare(r.value, BoardSide)
  {
    if |predict| != Views then Err(ViewCount)
    else if !AllSquare(predict, BoardSide) then Err(ViewShape)
    else Ok(Diversify(Average(Unify(predict, BoardSide), BoardSide)))
  }

  /** Symmetric with the unify step as written in the source. */
  function SymmetricAsWritten(predict: seq<View>): (r: Result<seq<View>, SymmetryError>)
    ensures r.Ok? <==> |predict| == Views && AllSquare(predict, BoardSide)
    ensures |predict| != Views ==> r == Err(ViewCount)
    ensures |predict| == Views && !AllSquare(predict, BoardSide) ==> r == Err(ViewShape)
    ensures r.Ok? ==> |r.value| == Views && AllSquare(r.value, BoardSide)
  {
    if |predict| != Views then Err(ViewCount)
    else if !AllSquare(predict, BoardSide) then Err(ViewShape)
    else Ok(Diversify(Average(UnifyAsWritten(predict, BoardSide), BoardSide)))
  }

  // ---------------------------------------------------------------------------
  // The forward transforms are the eight symmetries of the square

  /** Quarter turn clockwise. */
  function Rotate(x: View): (r: View)
    requires IsSquare(x, |x|)
    ensures IsSquare(r, |x|)
    ensures forall i, j :: 0 <= i < |x| && 0 <= j < |x| ==> r[i][j] == x[|x| - 1 - j][i]
  {
    seq(|x|, i requires 0 <= i < |x| => seq(|x|, j requires 0 <= j < |x| => x[|x| - 1 - j][i]))
  }

  /** t quarter turns clockwise, t < 4. */
  function Turn(t: nat, x: View): (r: View)
    requires t < 4 && IsSquare(x, |x|)
    ensures IsSquare(r, |x|)
  {
    if t == 0 then x
    else if t == 1 then Rotate(x)
    else if t == 2 then Rotate(Rotate(x))
    else Rotate(Rotate(Rotate(x)))
  }

  /** A symmetry of the square: mirror the width axis or not, then turn. */
  function SquareSymmetry(turns: nat, mirrored: bool, x: View): (r: View)
    requires turns < 4 && IsSquare(x, |x|)
    ensures IsSquare(r, |x|)
  {
    Turn(turns, if mirrored then FlipW(x) else x)
  }

  /** Quarter turns in slot k's symmetry. */
  function TurnsOf(k: nat): (t: nat)
    ensures t < 4
  {
    if k == 0 || k == 1 then 0
    else if k == 5 || k == 7 then 1
    else if k == 2 || k == 3 then 2
    else 3
  }

  /** Whether slot k's symmetry mirrors. */
  function MirroredOf(k: nat): bool {
    k == 1 || k == 2 || k == 4 || k == 7
  }

  /** The slot holding the symmetry with the given turns and mirroring. */
  function SlotOf(turns: nat, mirrored: bool): nat {
    if turns == 0 then (if mirrored then 1 else 0)
    else if turns == 1 then (if mirrored then 7 else 5)
    else if turns == 2 then (if mirrored then 2 else 3)
    else (if mirrored then 4 else 6)
  }

  lemma OneTurn(x: View)
    requires IsSquare(x, |x|)
    ensures Turn(1, x) == FlipW(Transpose(x))
  {
    GridExt(Rotate(x), FlipW(Transpose(x)), |x|);
  }

  lemma TwoTurns(x: View)
    requires IsSquare(x, |x|)
    ensures Turn(2, x) == FlipHW(x)
  {
    var n := |x|;
    var r := Rotate(x);
    var rr := Rotate(r);
    forall i, j | 0 <= i < n && 0 <= j < n
      ensures rr[i][j] == x[n - 1 - i][n - 1 - j]
    {
      assert rr[i][j] == r[n - 1 - j][i];
    }
    GridExt(rr, FlipHW(x), n);
  }

  lemma ThreeTurns(x: View)
    requires IsSquare(x, |x|)
    ensures Turn(3, x) == FlipH(Transpose(x))
  {
    TwoTurns(x);
    assert Turn(3, x) == Rotate(Turn(2, x));
    GridExt(Rotate(FlipHW(x)), FlipH(Transpose(x)), |x|);
  }

  lemma MirroredOneTurn(x: View)
    requires IsSquare(x, |x|)
    ensures FlipW(Transpose(FlipW(x))) == FlipHW(Transpose(x))
  {
    GridExt(FlipW(Transpose(FlipW(x))), FlipHW(Transpose(x)), |x|);
  }

  lemma MirroredHalfTurn(x: View)
    requires IsSquare(x, |x|)
    ensures FlipHW(FlipW(x)) == FlipH(x)
  {
    GridExt(FlipHW(FlipW(x)), FlipH(x), |x|);
  }

  lemma MirroredThreeTurns(x: View)
    requires IsSquare(x, |x|)
    ensures FlipH(Transpose(FlipW(x))) == Transpose(x)
  {
    GridExt(FlipH(Transpose(FlipW(x))), Transpose(x), |x|);
  }

  /** Slot k's forward transform is the symmetry (TurnsOf(k), MirroredOf(k)). */
  lemma ForwardIsSymmetry(k: nat, x: View)
    requires k < Views && IsSquare(x, |x|)
    ensures Forward(k, x) == SquareSymmetry(TurnsOf(k), MirroredOf(k), x)
  {
    if k == 0 {
      assert Turn(0, x) == x;
    } else if k == 1 {
      assert Turn(0, FlipW(x)) == FlipW(x);
    } else if k == 2 {
      TwoTurns(FlipW(x));
      MirroredHalfTurn(x);
    } else if k == 3 {
      TwoTurns(x);
    } else if k == 4 {
      ThreeTurns(FlipW(x));
      MirroredThreeTurns(x);
    } else if k == 5 {
      OneTurn(x);
    } else if k == 6 {
      ThreeTurns(x);
    } else {
      OneTurn(FlipW(x));
      MirroredOneTurn(x);
    }
  }

  /**
   * The eight slots are the eight symmetries of the square (four turns, with
   * or without mirroring), each exactly once.
   */
  lemma SlotsAreAllSymmetries()
    ensures forall k :: 0 <= k < Views ==> SlotOf(TurnsOf(k), MirroredOf(k)) == k
    ensures forall t, m :: 0 <= t < 4 ==>
      SlotOf(t, m) < Views && TurnsOf(SlotOf(t, m)) == t && MirroredOf(SlotOf(t, m)) == m
  {
  }

  // ---------------------------------------------------------------------------
  // Round trips

  /** Inverse undoes Forward, slot by slot. */
  lemma InverseOfForward(k: nat, x: View)
    requires k < Views && IsSquare(x, |x|)
    ensures Inverse(k, Forward(k, x)) == x
  {
    if k == 1 {
      FlipWInvolution(x);
    } else if k == 2 {
      FlipHInvolution(x);
    } else if k == 3 {
      FlipHWInvolution(x);
    } else if k == 4 {
      TransposeInvolution(x);
    } else if k == 5 {
      FlipWInvolution(Transpose(x));
      TransposeInvolution(x);
    } else if k == 6 {
      FlipHInvolution(Transpose(x));
      TransposeInvolution(x);
    } else if k == 7 {
      FlipHWInvolution(Transpose(x));
      TransposeInvolution(x);
    }
  }

  /** Forward undoes Inverse, slot by slot: each slot's pair is a bijection. */
  lemma ForwardOfInverse(k: nat, v: View)
    requires k < Views && IsSquare(v, |v|)
    ensures Forward(k, Inverse(k, v)) == v
  {
    if k == 1 {
      FlipWInvolution(v);
    } else if k == 2 {
      FlipHInvolution(v);
    } else if k == 3 {
      FlipHWInvolution(v);
    } else if k == 4 {
      TransposeInvolution(v);
    } else if k == 5 {
      TransposeInvolution(FlipW(v));
      FlipWInvolution(v);
    } else if k == 6 {
      TransposeInvolution(FlipH(v));
      FlipHInvolution(v);
    } else if k == 7 {
      TransposeInvolution(FlipHW(v));
      FlipHWInvolution(v);
    }
  }

  /** Unifying the diversified copies of x gives eight copies of x. */
  lemma UnifyDiversify(x: View)
    requires IsSquare(x, |x|)
    ensures Unify(Diversify(x), |x|) == seq(Views, _ => x)
  {
    forall k | 0 <= k < Views
      ensures Unify(Diversify(x), |x|)[k] == x
    {
      InverseOfForward(k, x);
    }
  }

  lemma {:induction false} CellSumOfCopies(views: seq<View>, x: View, n: nat, i: nat, j: nat)
    requires AllSquare(views, n) && IsSquare(x, n) && i < n && j < n
    requires forall k :: 0 <= k < |views| ==> views[k] == x
    ensures CellSum(views, n, i, j) == (|views| as real) * x[i][j]
  {
    if views != [] {
      CellSumOfCopies(views[1..], x, n, i, j);
    }
  }

  /** The average of copies of one grid is that grid. */
  lemma AverageOfCopies(views: seq<View>, x: View, n: nat)
    requires |views| > 0 && AllSquare(views, n)
    requires forall k :: 0 <= k < |views| ==> views[k] == x
    ensures Average(views, n) == x
  {
    var avg := Average(views, n);
    assert IsSquare(x, n) by { assert views[0] == x; }
    forall i, j | 0 <= i < n && 0 <= j < n
      ensures avg[i][j] == x[i][j]
    {
      CellSumOfCopies(views, x, n, i, j);
    }
    GridExt(avg, x, n);
  }

  /**
   * Eight views that are already the symmetric copies of one board pass
   * through Symmetric unchanged.
   */
  lemma SymmetricRoundTrip(x: View)
    requires IsSquare(x, BoardSide)
    ensures Symmetric(Diversify(x)) == Ok(Diversify(x))
  {
    UnifyDiversify(x);
    AverageOfCopies(Unify(Diversify(x), BoardSide), x, BoardSide);
  }

  /** Applying Symmetric a second time changes nothing. */
  lemma SymmetricIdempotent(predict: seq<View>)
    requires Symmetric(predict).Ok?
    ensures Symmetric(Symmetric(predict).value) == Symmetric(predict)
  {
    var avg := Average(Unify(predict, BoardSide), BoardSide);
    SymmetricRoundTrip(avg);
  }

  /** The eight output views all unify back to one and the same grid. */
  lemma SymmetricViewsAgree(predict: seq<View>)
    requires Symmetric(predict).Ok?
    ensures forall k :: 0 <= k < Views ==>
      Inverse(k, Symmetric(predict).value[k]) == Inverse(0, Symmetric(predict).value[0])
  {
    var avg := Average(Unify(predict, BoardSide), BoardSide);
    UnifyDiversify(avg);
    assert forall k :: 0 <= k < Views ==> Unify(Diversify(avg), BoardSide)[k] == avg;
  }

  /**
   * Every output view, brought back to the canonical orientation, holds at
   * each cell the mean of the eight unified input views at that cell.
   */
  lemma SymmetricIsMean(predict: seq<View>)
    requires Symmetric(predict).Ok?
    ensures forall k, i, j :: 0 <= k < Views && 0 <= i < BoardSide && 0 <= j < BoardSide ==>
      Inverse(k, Symmetric(predict).value[k])[i][j] ==
        (Inverse(0, predict[0])[i][j] + Inverse(1, predict[1])[i][j] +
         Inverse(2, predict[2])[i][j] + Inverse(3, predict[3])[i][j] +
         Inverse(4, predict[4])[i][j] + Inverse(5, predict[5])[i][j] +
         Inverse(6, predict[6])[i][j] + Inverse(7, predict[7])[i][j]) / 8.0
  {
    var us := Unify(predict, BoardSide);
    var avg := Average(us, BoardSide);
    UnifyDiversify(avg);
    assert forall k :: 0 <= k < Views ==> Inverse(k, Symmetric(predict).value[k]) == avg by {
      assert Symmetric(predict).value == Diversify(avg);
      assert forall k :: 0 <= k < Views ==> Unify(Diversify(avg), BoardSide)[k] == avg;
    }
    forall i, j | 0 <= i < BoardSide && 0 <= j < BoardSide
      ensures avg[i][j] ==
        (us[0][i][j] + us[1][i][j] + us[2][i][j] + us[3][i][j] +
         us[4][i][j] + us[5][i][j] + us[6][i][j] + us[7][i][j]) / 8.0
    {
      CellSumOfEight(us, BoardSide, i, j);
    }
  }

  // ---------------------------------------------------------------------------
  // The unify step as written

  /** As written, slots 5 to 7 come back transposed rather than restored. */
  lemma AsWrittenInverseTransposes(k: nat, x: View)
    requires 5 <= k < Views && IsSquare(x, |x|)
    ensures InverseAsWritten(k, Forward(k, x)) == Transpose(x)
  {
    var t := Transpose(x);
    if k == 5 {
      assert InverseAsWritten(k, Forward(k, x)) == FlipW(FlipW(t));
      FlipWInvolution(t);
    } else if k == 6 {
      assert InverseAsWritten(k, Forward(k, x)) == FlipH(FlipH(t));
      FlipHInvolution(t);
    } else {
      assert InverseAsWritten(k, Forward(k, x)) == FlipHW(FlipHW(t));
      FlipHWInvolution(t);
    }
  }

  lemma CellSumOfEight(views: seq<View>, n: nat, i: nat, j: nat)
    requires |views| == Views && AllSquare(views, n) && i < n && j < n
    ensures CellSum(views, n, i, j) ==
      views[0][i][j] + views[1][i][j] + views[2][i][j] + views[3][i][j] +
      views[4][i][j] + views[5][i][j] + views[6][i][j] + views[7][i][j]
  {
    assert views[8..] == [];
    assert CellSum(views[7..], n, i, j) == views[7][i][j] + CellSum(views[8..], n, i, j);
    assert CellSum(views[6..], n, i, j) == views[6][i][j] + CellSum(views[7..], n, i, j);
    assert CellSum(views[5..], n, i, j) == views[5][i][j] + CellSum(views[6..], n, i, j);
    assert CellSum(views[4..], n, i, j) == views[4][i][j] + CellSum(views[5..], n, i, j);
    assert CellSum(views[3..], n, i, j) == views[3][i][j] + CellSum(views[4..], n, i, j);
    assert CellSum(views[2..], n, i, j) == views[2][i][j] + CellSum(views[3..], n, i, j);
    assert CellSum(views[1..], n, i, j) == views[1][i][j] + CellSum(views[2..], n, i, j);
  }

  /** As written, the average of the unified copies of x mixes x with its transpose. */
  lemma AsWrittenAverage(x: View)
    requires IsSquare(x, |x|)
    ensures forall i, j :: 0 <= i < |x| && 0 <= j < |x| ==>
      Average(UnifyAsWritten(Diversify(x), |x|), |x|)[i][j] == (5.0 * x[i][j] + 3.0 * x[j][i]) / 8.0
  {
    var n := |x|;
    var us := UnifyAsWritten(Diversify(x), n);
    forall k | 0 <= k < 5
      ensures us[k] == x
    {
      InverseOfForward(k, x);
    }
    forall k | 5 <= k < Views
      ensures us[k] == Transpose(x)
    {
      AsWrittenInverseTransposes(k, x);
    }
    forall i, j | 0 <= i < n && 0 <= j < n
      ensures Average(us, n)[i][j] == (5.0 * x[i][j] + 3.0 * x[j][i]) / 8.0
    {
      AsWrittenCell(us, x, i, j);
    }
  }

  lemma AsWrittenCell(us: seq<View>, x: View, i: nat, j: nat)
    requires IsSquare(x, |x|) && |us| == Views && AllSquare(us, |x|) && i < |x| && j < |x|
    requires forall k :: 0 <= k < 5 ==> us[k] == x
    requires forall k :: 5 <= k < Views ==> us[k] == Transpose(x)
    ensures Average(us, |x|)[i][j] == (5.0 * x[i][j] + 3.0 * x[j][i]) / 8.0
  {
    CellSumOfEight(us, |x|, i, j);
    assert us[0] == x && us[1] == x && us[2] == x && us[3] == x && us[4] == x;
    assert us[5] == Transpose(x) && us[6] == Transpose(x) && us[7] == Transpose(x);
  }

  /**
   * As written, Symmetric keeps the eight copies of a board exactly when the
   * board equals its own transpose.
   */
  lemma AsWrittenRoundTripIffSymmetric(x: View)
    requires IsSquare(x, BoardSide)
    ensures SymmetricAsWritten(Diversify(x)) == Ok(Diversify(x)) <==> x == Transpose(x)
  {
    var avg := Average(UnifyAsWritten(Diversify(x), BoardSide), BoardSide);
    AsWrittenAverage(x);
    if x == Transpose(x) {
      forall i, j | 0 <= i < BoardSide && 0 <= j < BoardSide
        ensures avg[i][j] == x[i][j]
      {
        assert x[j][i] == Transpose(x)[i][j];
      }
      GridExt(avg, x, BoardSide);
    } else if SymmetricAsWritten(Diversify(x)) == Ok(Diversify(x)) {
      assert Diversify(avg)[0] == Diversify(x)[0];
      assert avg == x;
      forall i, j | 0 <= i < BoardSide && 0 <= j < BoardSide
        ensures Transpose(x)[i][j] == x[i][j]
      {
        assert avg[i][j] == x[i][j];
      }
      GridExt(Transpose(x), x, BoardSide);
      assert false;
    }
  }

  /** A 19 x 19 view scoring 1 at row 0, column 1 and 0 elsewhere. */
  function OffDiagonalPoint(): (x: View)
    ensures IsSquare(x, BoardSide)
    ensures x[0][1] == 1.0 && x[1][0] == 0.0
  {
    seq(BoardSide, i requires 0 <= i < BoardSide =>
      seq(BoardSide, j requires 0 <= j < BoardSide => if i == 0 && j == 1 then 1.0 else 0.0))
  }

  /**
   * The concrete counterexample: the copies of OffDiagonalPoint() do not come
   * through the as-written Symmetric unchanged, but do come through Symmetric.
   */
  lemma AsWrittenCounterexample()
    ensures SymmetricAsWritten(Diversify(OffDiagonalPoint())) != Ok(Diversify(OffDiagonalPoint()))
    ensures Symmetric(Diversify(OffDiagonalPoint())) == Ok(Diversify(OffDiagonalPoint()))
  {
    var x := OffDiagonalPoint();
    assert Transpose(x)[0][1] == 0.0;
    AsWrittenRoundTripIffSymmetric(x);
    SymmetricRoundTrip(x);
  }
}

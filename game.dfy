/**
 * The Go feature-plane stack and its one-ply transition (InitGame and
 * AddGamePlay of game.py), for a batch of one board.
 *
 * Channel layout of a stack (13 planes of 19 x 19):
 *   0      stones of the player to move
 *   1      stones of the opponent
 *   2      empty points
 *   3      the "ones" plane (built as zeros by InitGame, carried unchanged)
 *   4..11  turns since a stone was played: 1, 2, ..., 7, and 8 or more
 *   12     player colour: +1 everywhere while Black is to move, negated every ply
 *
 * Divergences of the pseudocode that are modelled by their evident intent:
 * the batch size N (undefined at game.py:27 and game.py:30) is 1, and the
 * split sizes (a numpy array, with numpy not imported, at game.py:24) are the
 * constant SplitSizes, and the result of the final Concat (both outputs bound
 * to the one name `data` at game.py:49, unpacked as `data, _dim` at
 * game.py:13) is the concatenated stack.
 */
module Game {
  import opened Tensor

  /** A feature plane: one channel of one board. */
  type Plane = Grid<int>

  /** Number of feature planes in a stack. */
  const Channels: nat := 13

  /** SPLIT_SIZE: the channel groups AddGamePlay splits a stack into. */
  const SplitSizes: seq<nat> := [1, 1, 1, 1, 6, 1, 1, 1]

  datatype GameError =
    | StackShape    // the stack is not 13 planes of 19 x 19
    | PredictShape  // the move scores are not one per board point

  predicate IsPlane(p: Plane) {
    IsSquare(p, BoardSide)
  }

  predicate IsStack(s: seq<Plane>) {
    |s| == Channels && forall c :: 0 <= c < |s| ==> IsPlane(s[c])
  }

  /** Board row of a row-major point index. */
  function Row(point: nat): nat { point / BoardSide }

  /** Board column of a row-major point index. */
  function Col(point: nat): nat { point % BoardSide }

  // ---------------------------------------------------------------------------
  // Element-wise operators on planes (Add, Sub, Negative)

  function Add(p: Plane, q: Plane): (r: Plane)
    requires IsPlane(p) && IsPlane(q)
    ensures IsPlane(r)
    ensures forall i, j :: 0 <= i < BoardSide && 0 <= j < BoardSide ==> r[i][j] == p[i][j] + q[i][j]
  {
    seq(BoardSide, i requires 0 <= i < BoardSide =>
      seq(BoardSide, j requires 0 <= j < BoardSide => p[i][j] + q[i][j]))
  }

  function Sub(p: Plane, q: Plane): (r: Plane)
    requires IsPlane(p) && IsPlane(q)
    ensures IsPlane(r)
    ensures forall i, j :: 0 <= i < BoardSide && 0 <= j < BoardSide ==> r[i][j] == p[i][j] - q[i][j]
  {
    seq(BoardSide, i requires 0 <= i < BoardSide =>
      seq(BoardSide, j requires 0 <= j < BoardSide => p[i][j] - q[i][j]))
  }

  function Negative(p: Plane): (r: Plane)
    requires IsPlane(p)
    ensures IsPlane(r)
    ensures forall i, j :: 0 <= i < BoardSide && 0 <= j < BoardSide ==> r[i][j] == -p[i][j]
  {
    seq(BoardSide, i requires 0 <= i < BoardSide =>
      seq(BoardSide, j requires 0 <= j < BoardSide => -p[i][j]))
  }

  /** Negating twice gives the plane back. */
  lemma NegativeInvolution(p: Plane)
    requires IsPlane(p)
    ensures Negative(Negative(p)) == p
  {
    GridExt(Negative(Negative(p)), p, BoardSide);
  }

  // ---------------------------------------------------------------------------
  // Move selection: TopK with k = 1, OneHot over the board, Reshape

  /**
   * TopK with k = 1: the index of the first maximum of the scores. The
   * framework's tie-breaking is not part of the model; ties go to the lowest
   * index.
   */
  function ArgMax(scores: seq<real>): (k: nat)
    requires |scores| > 0
    ensures k < |scores|
    ensures forall j :: 0 <= j < |scores| ==> scores[j] <= scores[k]
    ensures forall j :: 0 <= j < k ==> scores[j] < scores[k]
  {
    if |scores| == 1 then 0
    else
      var k := ArgMax(scores[..|scores| - 1]);
      if scores[|scores| - 1] > scores[k] then |scores| - 1 else k
  }

  /** The two properties of ArgMax pin the index down: there is one first maximum. */
  lemma FirstMaxUnique(scores: seq<real>, k: nat)
    requires k < |scores|
    requires forall j :: 0 <= j < |scores| ==> scores[j] <= scores[k]
    requires forall j :: 0 <= j < k ==> scores[j] < scores[k]
    ensures ArgMax(scores) == k
  {
    var a := ArgMax(scores);
    if a < k {
      assert false;
    } else if k < a {
      assert false;
    }
  }

  /** OneHot: a vector of size entries, 1 at point and 0 elsewhere. */
  function OneHot(point: nat, size: nat): (v: seq<int>)
    requires point < size
    ensures |v| == size && v[point] == 1
    ensures forall m :: 0 <= m < size && m != point ==> v[m] == 0
  {
    seq(size, m => if m == point then 1 else 0)
  }

  /** Row-major indexing: index i * 19 + j is point (i, j) and no other. */
  lemma CellOfIndex(point: nat, i: int, j: int)
    requires 0 <= i < BoardSide && 0 <= j < BoardSide
    ensures i * BoardSide + j == point <==> i == Row(point) && j == Col(point)
  {
  }

  /** The move plane: the one-hot vector over the 361 points reshaped to 19 x 19. */
  function OneHotPlane(point: nat): (p: Plane)
    requires point < BoardCells
    ensures IsPlane(p)
    ensures Row(point) < BoardSide && Col(point) < BoardSide
    ensures forall i, j :: 0 <= i < BoardSide && 0 <= j < BoardSide ==>
      p[i][j] == if i == Row(point) && j == Col(point) then 1 else 0
  {
    var p := ToGrid(OneHot(point, BoardCells));
    assert forall i, j :: 0 <= i < BoardSide && 0 <= j < BoardSide ==>
      (p[i][j] == 1 <==> i == Row(point) && j == Col(point)) by {
      forall i, j | 0 <= i < BoardSide && 0 <= j < BoardSide
        ensures p[i][j] == 1 <==> i == Row(point) && j == Col(point)
      {
        CellOfIndex(point, i, j);
      }
    }
    p
  }

  // ---------------------------------------------------------------------------
  // The stack

  /** InitGame: the stack of a new game, empty board, Black to move. */
  function InitGame(): (s: seq<Plane>)
    ensures IsStack(s)
    ensures forall c, i, j :: 0 <= c < Channels && 0 <= i < BoardSide && 0 <= j < BoardSide ==>
      s[c][i][j] == if c == 2 || c == 12 then 1 else 0
  {
    var zero := Fill(BoardSide, 0);
    var one := Fill(BoardSide, 1);
    [zero, zero, one, zero, zero, zero, zero, zero, zero, zero, zero, zero, one]
  }

  /** The split sizes cover the 13 channels; where each group starts. */
  lemma SplitSizesLayout()
    ensures SumOf(SplitSizes) == Channels
    ensures SumOf(SplitSizes[..0]) == 0 && SumOf(SplitSizes[..1]) == 1
    ensures SumOf(SplitSizes[..2]) == 2 && SumOf(SplitSizes[..3]) == 3
    ensures SumOf(SplitSizes[..4]) == 4 && SumOf(SplitSizes[..5]) == 10
    ensures SumOf(SplitSizes[..6]) == 11 && SumOf(SplitSizes[..7]) == 12
  {
    assert SplitSizes[..0] == [];
    assert SplitSizes[..1] == SplitSizes[..0] + [SplitSizes[0]];
    SumOfSnoc(SplitSizes[..0], SplitSizes[0]);
    assert SplitSizes[..2] == SplitSizes[..1] + [SplitSizes[1]];
    SumOfSnoc(SplitSizes[..1], SplitSizes[1]);
    assert SplitSizes[..3] == SplitSizes[..2] + [SplitSizes[2]];
    SumOfSnoc(SplitSizes[..2], SplitSizes[2]);
    assert SplitSizes[..4] == SplitSizes[..3] + [SplitSizes[3]];
    SumOfSnoc(SplitSizes[..3], SplitSizes[3]);
    assert SplitSizes[..5] == SplitSizes[..4] + [SplitSizes[4]];
    SumOfSnoc(SplitSizes[..4], SplitSizes[4]);
    assert SplitSizes[..6] == SplitSizes[..5] + [SplitSizes[5]];
    SumOfSnoc(SplitSizes[..5], SplitSizes[5]);
    assert SplitSizes[..7] == SplitSizes[..6] + [SplitSizes[6]];
    SumOfSnoc(SplitSizes[..6], SplitSizes[6]);
    assert SplitSizes[..8] == SplitSizes[..7] + [SplitSizes[7]];
    SumOfSnoc(SplitSizes[..7], SplitSizes[7]);
    assert SplitSizes[..8] == SplitSizes;
  }

  /**
   * The stack after a stone is played at point: the stack is split into its
   * channel groups, the groups are recombined from the next player's point of
   * view, and concatenated back in channel order (NextStackLayout says what
   * each channel becomes).
   */
  function NextStack(data: seq<Plane>, point: nat): (next: seq<Plane>)
    requires IsStack(data) && point < BoardCells
    ensures IsStack(next)
  {
    SplitSizesLayout();
    SplitLayers(data);
    var layers := Split(data, SplitSizes);
    var onehot := OneHotPlane(point);
    var layer0, layer1, layer2, layer3 := layers[0][0], layers[1][0], layers[2][0], layers[3][0];
    var layer4to9, layer10, layer11, layer48 := layers[4], layers[5][0], layers[6][0], layers[7][0];
    // perspective swap: the side that just moved becomes the opponent
    var layer0n := layer1;
    var layer1n := Add(layer0, onehot);
    // the played point is no longer empty (captures are not computed)
    var layer2n := Sub(layer2, onehot);
    var layer3n := layer3;
    // turns-since history: shift by one, buckets 7 and 8+ merge
    var layer4n := onehot;
    var layer5to10n := layer4to9;
    var layer11n := Add(layer10, layer11);
    var layer48n := Negative(layer48);
    ConcatLayout(layer0n, layer1n, layer2n, layer3n, layer4n, layer5to10n, layer11n, layer48n);
    Concat([[layer0n], [layer1n], [layer2n], [layer3n], [layer4n], layer5to10n, [layer11n], [layer48n]])
  }

  /** The eight groups a stack splits into, by channel. */
  lemma SplitLayers<T>(data: seq<T>)
    requires |data| == Channels
    ensures SumOf(SplitSizes) == |data|
    ensures var layers := Split(data, SplitSizes);
      && layers[0] == [data[0]] && layers[1] == [data[1]] && layers[2] == [data[2]]
      && layers[3] == [data[3]] && layers[4] == data[4..10] && layers[5] == [data[10]]
      && layers[6] == [data[11]] && layers[7] == [data[12]]
  {
    SplitSizesLayout();
    SplitSingle(data, 0, 0);
    SplitSingle(data, 1, 1);
    SplitSingle(data, 2, 2);
    SplitSingle(data, 3, 3);
    SplitAt(data, SplitSizes, 4);
    SplitSingle(data, 5, 10);
    SplitSingle(data, 6, 11);
    SplitSingle(data, 7, 12);
  }

  /** A group of size one holds the single channel where it starts. */
  lemma SplitSingle<T>(data: seq<T>, k: nat, c: nat)
    requires |data| == Channels && k < |SplitSizes| && SplitSizes[k] == 1
    requires SumOf(SplitSizes) == Channels && SumOf(SplitSizes[..k]) == c
    ensures c < |data| && Split(data, SplitSizes)[k] == [data[c]]
  {
    SplitAt(data, SplitSizes, k);
  }

  /** What each channel of the next stack is. */
  lemma NextStackLayout(data: seq<Plane>, point: nat)
    requires IsStack(data) && point < BoardCells
    ensures var next := NextStack(data, point);
      && next[0] == data[1]
      && next[1] == Add(data[0], OneHotPlane(point))
      && next[2] == Sub(data[2], OneHotPlane(point))
      && next[3] == data[3]
      && next[4] == OneHotPlane(point)
      && next[5..11] == data[4..10]
      && next[11] == Add(data[10], data[11])
      && next[12] == Negative(data[12])
  {
    SplitLayers(data);
    var onehot := OneHotPlane(point);
    ConcatLayout(data[1], Add(data[0], onehot), Sub(data[2], onehot), data[3], onehot,
      data[4..10], Add(data[10], data[11]), Negative(data[12]));
  }

  /** How Concat lays out the eight groups NextStack builds. */
  lemma ConcatLayout<T>(a: T, b: T, c: T, d: T, e: T, f: seq<T>, g: T, h: T)
    ensures Concat([[a], [b], [c], [d], [e], f, [g], [h]]) == [a, b, c, d, e] + f + [g, h]
  {
    assert Concat([[h]]) == [h] + Concat([]);
    assert Concat([[g], [h]]) == [g] + Concat([[h]]);
    assert Concat([f, [g], [h]]) == f + Concat([[g], [h]]);
    assert Concat([[e], f, [g], [h]]) == [e] + Concat([f, [g], [h]]);
    assert Concat([[d], [e], f, [g], [h]]) == [d] + Concat([[e], f, [g], [h]]);
    assert Concat([[c], [d], [e], f, [g], [h]]) == [c] + Concat([[d], [e], f, [g], [h]]);
    assert Concat([[b], [c], [d], [e], f, [g], [h]]) == [b] + Concat([[c], [d], [e], f, [g], [h]]);
    assert Concat([[a], [b], [c], [d], [e], f, [g], [h]]) == [a] + Concat([[b], [c], [d], [e], f, [g], [h]]);
  }

  /**
   * AddGamePlay: play the first-maximum move of the scores and advance the
   * stack by one ply. Fails when the stack or the scores have the wrong shape.
   */
  function AddGamePlay(data: seq<Plane>, predict: seq<real>): (r: Result<seq<Plane>, GameError>)
    ensures r.Ok? <==> IsStack(data) && |predict| == BoardCells
    ensures !IsStack(data) ==> r == Err(StackShape)
    ensures IsStack(data) && |predict| != BoardCells ==> r == Err(PredictShape)
    ensures r.Ok? ==> IsStack(r.value) && r.value == NextStack(data, ArgMax(predict))
  {
    if !IsStack(data) then Err(StackShape)
    else if |predict| != BoardCells then Err(PredictShape)
    else Ok(NextStack(data, ArgMax(predict)))
  }

  /** Plays one ply per score row, in order, stopping at the first failure. */
  function Play(data: seq<Plane>, predicts: seq<seq<real>>): Result<seq<Plane>, GameError>
    decreases |predicts|
  {
    if predicts == [] then Ok(data)
    else
      match AddGamePlay(data, predicts[0])
      case Err(e) => Err(e)
      case Ok(next) => Play(next, predicts[1..])
  }

  // ---------------------------------------------------------------------------
  // Invariants of a ply

  /** Summed over planes 0, 1 and 2, every point keeps its value. */
  lemma StoneSumPreserved(data: seq<Plane>, point: nat)
    requires IsStack(data) && point < BoardCells
    ensures forall i, j :: 0 <= i < BoardSide && 0 <= j < BoardSide ==>
      NextStack(data, point)[0][i][j] + NextStack(data, point)[1][i][j] + NextStack(data, point)[2][i][j]
      == data[0][i][j] + data[1][i][j] + data[2][i][j]
  {
    NextStackLayout(data, point);
  }

  /** Every point is exactly one of: the mover's stone, the opponent's, empty. */
  predicate StonesPartition(s: seq<Plane>)
    requires IsStack(s)
  {
    forall i, j :: 0 <= i < BoardSide && 0 <= j < BoardSide ==>
      (s[0][i][j] == 0 || s[0][i][j] == 1) &&
      (s[1][i][j] == 0 || s[1][i][j] == 1) &&
      (s[2][i][j] == 0 || s[2][i][j] == 1) &&
      s[0][i][j] + s[1][i][j] + s[2][i][j] == 1
  }

  lemma InitStonesPartition()
    ensures StonesPartition(InitGame())
  {
  }

  /**
   * From a partitioned board, the next board is partitioned exactly when the
   * stone goes on an empty point.
   */
  lemma PartitionKeptIffEmpty(data: seq<Plane>, point: nat)
    requires IsStack(data) && point < BoardCells && StonesPartition(data)
    ensures StonesPartition(NextStack(data, point)) <==> data[2][Row(point)][Col(point)] == 1
  {
    var next := NextStack(data, point);
    NextStackLayout(data, point);
    if data[2][Row(point)][Col(point)] != 1 {
      assert next[2][Row(point)][Col(point)] == -1;
    }
  }

  /** Sum of every cell of a plane. */
  function PlaneSum(p: Plane): int
    requires IsPlane(p)
  {
    Total(seq(BoardSide, i requires 0 <= i < BoardSide => Total(p[i])))
  }

  lemma PlaneSumZero(p: Plane)
    requires IsPlane(p)
    requires forall i, j :: 0 <= i < BoardSide && 0 <= j < BoardSide ==> p[i][j] == 0
    ensures PlaneSum(p) == 0
  {
    var rows := seq(BoardSide, i requires 0 <= i < BoardSide => Total(p[i]));
    forall i | 0 <= i < BoardSide
      ensures rows[i] == 0
    {
      TotalZero(p[i]);
    }
    TotalZero(rows);
  }

  lemma PlaneSumAdd(p: Plane, q: Plane)
    requires IsPlane(p) && IsPlane(q)
    ensures PlaneSum(Add(p, q)) == PlaneSum(p) + PlaneSum(q)
  {
    var r := Add(p, q);
    forall i | 0 <= i < BoardSide
      ensures Total(r[i]) == Total(p[i]) + Total(q[i])
    {
      TotalPointwise(p[i], q[i], r[i]);
    }
    TotalPointwise(
      seq(BoardSide, i requires 0 <= i < BoardSide => Total(p[i])),
      seq(BoardSide, i requires 0 <= i < BoardSide => Total(q[i])),
      seq(BoardSide, i requires 0 <= i < BoardSide => Total(r[i])));
  }

  lemma PlaneSumOneHot(point: nat)
    requires point < BoardCells
    ensures PlaneSum(OneHotPlane(point)) == 1
  {
    var p := OneHotPlane(point);
    var rows := seq(BoardSide, i requires 0 <= i < BoardSide => Total(p[i]));
    forall i | 0 <= i < BoardSide
      ensures rows[i] == if i == Row(point) then 1 else 0
    {
      if i == Row(point) {
        TotalUnit(p[i], Col(point));
      } else {
        TotalZero(p[i]);
      }
    }
    TotalUnit(rows, Row(point));
  }

  /** Total stone count over the eight turns-since planes 4..11. */
  function HistoryMass(s: seq<Plane>): int
    requires IsStack(s)
  {
    Total(seq(8, k requires 0 <= k < 8 => PlaneSum(s[4 + k])))
  }

  /** Each ply adds exactly one to the history mass: nothing is lost in the shift. */
  lemma HistoryMassGrows(data: seq<Plane>, point: nat)
    requires IsStack(data) && point < BoardCells
    ensures HistoryMass(NextStack(data, point)) == HistoryMass(data) + 1
  {
    var next := NextStack(data, point);
    NextStackLayout(data, point);
    var olds := seq(8, k requires 0 <= k < 8 => PlaneSum(data[4 + k]));
    var news := seq(8, k requires 0 <= k < 8 => PlaneSum(next[4 + k]));
    PlaneSumOneHot(point);
    PlaneSumAdd(data[10], data[11]);
    assert news == [1] + olds[..6] + [olds[6] + olds[7]] by {
      forall k | 1 <= k < 7 ensures news[k] == olds[k - 1] {
        assert next[4 + k] == next[5..11][k - 1];
      }
    }
    TotalConcat([1] + olds[..6], [olds[6] + olds[7]]);
    TotalConcat([1], olds[..6]);
    assert olds == olds[..6] + [olds[6], olds[7]];
    TotalConcat(olds[..6], [olds[6], olds[7]]);
    assert Total([olds[6], olds[7]]) == olds[6] + Total([olds[7]]);
    assert Total([olds[6] + olds[7]]) == olds[6] + olds[7] + Total([]);
    assert Total([olds[7]]) == olds[7] + Total([]);
    assert Total([1]) == 1 + Total([]);
    assert HistoryMass(next) == Total(news);
    assert HistoryMass(data) == Total(olds);
  }

  /** Two plies bring the colour plane back to what it was. */
  lemma ColourRestoredAfterTwoPlies(data: seq<Plane>, first: seq<real>, second: seq<real>)
    requires IsStack(data) && |first| == BoardCells && |second| == BoardCells
    ensures AddGamePlay(data, first).Ok?
    ensures AddGamePlay(AddGamePlay(data, first).value, second).Ok?
    ensures AddGamePlay(AddGamePlay(data, first).value, second).value[12] == data[12]
  {
    var next := NextStack(data, ArgMax(first));
    NextStackLayout(data, ArgMax(first));
    NextStackLayout(next, ArgMax(second));
    NegativeInvolution(data[12]);
  }

  /**
   * A run of well-shaped plies succeeds, carries plane 3 through unchanged,
   * leaves the colour plane as it was after an even number of plies and
   * negated after an odd number, and adds one to the history mass per ply.
   */
  lemma {:induction false} PlayInvariants(data: seq<Plane>, predicts: seq<seq<real>>)
    requires IsStack(data)
    decreases |predicts|
    requires forall k :: 0 <= k < |predicts| ==> |predicts[k]| == BoardCells
    ensures Play(data, predicts).Ok?
    ensures IsStack(Play(data, predicts).value)
    ensures Play(data, predicts).value[3] == data[3]
    ensures Play(data, predicts).value[12] ==
      if |predicts| % 2 == 0 then data[12] else Negative(data[12])
    ensures HistoryMass(Play(data, predicts).value) == HistoryMass(data) + |predicts|
  {
    if predicts != [] {
      var point := ArgMax(predicts[0]);
      var next := NextStack(data, point);
      assert AddGamePlay(data, predicts[0]) == Ok(next);
      assert Play(data, predicts) == Play(next, predicts[1..]);
      HistoryMassGrows(data, point);
      assert next[3] == data[3] && next[12] == Negative(data[12]) by { NextStackLayout(data, point); }
      PlayInvariants(next, predicts[1..]);
      if |predicts| % 2 == 0 {
        NegativeInvolution(data[12]);
      }
    }
  }

  /**
   * From a new game plane 3 stays all 0, the colour plane is all +1 after an
   * even number of plies and all -1 after an odd number, and the history mass
   * counts the plies.
   */
  lemma InitColourParity(predicts: seq<seq<real>>)
    requires forall k :: 0 <= k < |predicts| ==> |predicts[k]| == BoardCells
    ensures Play(InitGame(), predicts).Ok? && IsStack(Play(InitGame(), predicts).value)
    ensures Play(InitGame(), predicts).value[3] == Fill(BoardSide, 0)
    ensures Play(InitGame(), predicts).value[12] ==
      Fill(BoardSide, if |predicts| % 2 == 0 then 1 else -1)
    ensures HistoryMass(Play(InitGame(), predicts).value) == |predicts|
  {
    var init := InitGame();
    PlayInvariants(init, predicts);
    var last := Play(init, predicts).value[12];
    GridExt(last, Fill(BoardSide, if |predicts| % 2 == 0 then 1 else -1), BoardSide);
    var zeros := seq(8, k requires 0 <= k < 8 => PlaneSum(init[4 + k]));
    forall k | 0 <= k < 8 ensures zeros[k] == 0 {
      PlaneSumZero(init[4 + k]);
    }
    TotalZero(zeros);
  }

  /**
   * First ply of a new game when index 180, the centre point (9, 9), holds the
   * first highest score: no score is higher and every earlier one is lower.
   */
  lemma CentreOpening(predict: seq<real>)
    requires |predict| == BoardCells
    requires forall j :: 0 <= j < BoardCells ==> predict[j] <= predict[180]
    requires forall j :: 0 <= j < 180 ==> predict[j] < predict[180]
    ensures AddGamePlay(InitGame(), predict).Ok?
    ensures var s := AddGamePlay(InitGame(), predict).value;
      forall i, j :: 0 <= i < BoardSide && 0 <= j < BoardSide ==>
        && s[0][i][j] == 0
        && s[1][i][j] == (if i == 9 && j == 9 then 1 else 0)
        && s[2][i][j] == (if i == 9 && j == 9 then 0 else 1)
        && s[3][i][j] == 0
        && s[4][i][j] == (if i == 9 && j == 9 then 1 else 0)
        && s[12][i][j] == -1
  {
    FirstMaxUnique(predict, 180);
    NextStackLayout(InitGame(), 180);
  }
}

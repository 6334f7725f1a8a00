# Go feature planes: the one-ply transition and the symmetry average

This project models the game-state part of a Go move predictor (`game.py`).
A board is described by a stack of 13 feature planes, each 19 x 19:

| channel | meaning |
|---|---|
| 0 | stones of the player to move |
| 1 | stones of the opponent |
| 2 | empty points |
| 3 | the "ones" plane |
| 4..11 | turns since a stone was played there: 1, 2, ..., 7, and 8 or more |
| 12 | player colour, +1 while Black is to move |

Three operations are modelled as pure functions, with lemmas about them:

- `InitGame` builds the stack of a new game.
- `AddGamePlay` advances the stack by one ply. It picks the first maximum of
  the move scores, turns it into a one-hot plane, splits the stack 1/1/1/1/6/1/1/1,
  swaps the stone planes to the next player's view, places the stone, shifts
  the history planes (merging the last two), negates the colour plane, and
  concatenates the planes back.
- `Symmetric` takes eight views of one prediction, one per symmetry of the
  square. It brings each back to the canonical orientation, averages them and
  sends the average back out in the eight orientations.

Files:

- `tensor.dfy` (module `Tensor`): the framework operators the code is wired
  from (ConstantFill, Flip, Transpose, Split, Concat, Reshape) on grids, plus
  sums for stating invariants.
- `game.dfy` (module `Game`): `InitGame`, `AddGamePlay` and their invariants.
- `symmetry.dfy` (module `Symmetry`): `Symmetric` and the symmetry lemmas.

Modelling choices:

- One board (batch size N = 1). A batch is this model applied board by board.
- A plane is a 19 x 19 `seq<seq<int>>`; a stack is a sequence of 13 planes.
- `Game.Play` applies `AddGamePlay` once per score row, in order, and stops
  at the first error. It stands for the caller's loop over plies, which is
  not part of `game.py`; the lemmas about runs of plies are stated through it.
- Move scores and symmetry views hold `real` values. Only their order matters
  for the move choice. The real division is exact.
- The code checks no shapes itself. The model adds its own shape rule and
  returns an error when it is broken.
  `AddGamePlay` needs 13 planes of 19 x 19 and exactly 361 scores.
  `Symmetric` needs exactly eight views of 19 x 19. The code itself is looser
  about the scores (see "## Left out").

Where the code and its docstring disagree, the model follows the code:

- `InitGame` builds channel 3 (documented as a plane of ones) from `ZERO`
  (game.py:13). It stays zero, since every ply carries it unchanged
  (`PlayInvariants`, `InitColourParity`).
- The colour plane is negated each ply (game.py:47). It goes +1, -1, +1, ...
  It never becomes 0.

The code is pseudocode and would not run. These places are modelled by their
evident intent:

- `N` is undefined at game.py:27 and game.py:30. It is 1 here.
- `np` is not imported at game.py:24. The split sizes are a constant.
- The colon is missing at game.py:54.
- game.py:62 writes `axes(3)`, a call to an undefined name, where every other
  flip writes `axes=`. It is the width flip, as at game.py:73.
- game.py:49 binds both outputs of `Concat` to the single name `data`, while
  game.py:13 unpacks them as `data, _dim`. The model returns the concatenated
  stack.
- `Nx1x19x19` at game.py:72 is undefined. It stands for the shape
  (N, 1, 19, 19); with N = 1 the average is already that one 19 x 19 grid.
- `...` at game.py:60, game.py:70 and game.py:81 stands for all eight views.
- game.py:70 averages `symm0r..symm7r`, but the unified views are named
  `symm0u..symm7u`. The model averages the unified views.
- game.py:81 concatenates the inputs `symm0..symm7`. Taken literally,
  `Symmetric` would return its input unchanged. The model returns the
  diversified views `symm0d..symm7d`.

## Model

| member | source | states |
|---|---|---|
| `Tensor.Fill` | game.py:10-11 | ConstantFill gives an n x n grid holding the value at every cell |
| `Tensor.Split` | game.py:32-36 | splitting along the channel axis gives as many groups as sizes, group k holding exactly the k-th size of channels |
| `Tensor.ConcatOfSplit` | game.py:32-36 | concatenating the groups of a split gives the stack back, so the split loses and reorders nothing |
| `Tensor.SplitAt` | game.py:32-36 | group k of a split is the slice that starts at the sum of the sizes before it |
| `Tensor.ToGrid` | game.py:30 | reshaping 361 entries to 19 x 19 puts entry i * 19 + j at row i, column j |
| `Tensor.FlipW` | game.py:62-79 | Flip with axes (3) keeps the grid square and puts cell (i, n - 1 - j) at (i, j): each row is mirrored |
| `Tensor.FlipH` | game.py:63-79 | Flip with axes (2) keeps the grid square and puts cell (n - 1 - i, j) at (i, j): the row order is reversed |
| `Tensor.FlipHW` | game.py:64-79 | Flip with axes (2, 3) keeps the grid square and puts cell (n - 1 - i, n - 1 - j) at (i, j) |
| `Tensor.Transpose` | game.py:65-76 | Transpose with axes (0, 1, 3, 2) keeps the grid square and puts cell (j, i) at (i, j) |
| `Tensor.Concat` | game.py:49-50 | concatenation along the channel axis has as many channels as its groups together; ConcatLayout gives their order |
| `Tensor.FlipWInvolution` | game.py:62 | flipping along the width axis twice gives the grid back |
| `Tensor.FlipHInvolution` | game.py:63 | flipping along the height axis twice gives the grid back |
| `Tensor.FlipHWInvolution` | game.py:64 | flipping along both axes twice gives the grid back |
| `Tensor.FlipHWIsFlipHThenFlipW` | game.py:64 | flipping both axes is flipping height then width, in either order |
| `Tensor.TransposeInvolution` | game.py:65 | transposing a square grid twice gives it back |
| `Game.InitGame` | game.py:10-14 | a new game is 13 planes of 19 x 19; planes 2 and 12 are all 1 and every other plane, plane 3 included, is all 0 |
| `Game.InitStonesPartition` | game.py:13 | in a new game every point is exactly one of: mover's stone, opponent's stone, empty |
| `Game.SplitSizesLayout` | game.py:24 | the split sizes 1,1,1,1,6,1,1,1 add up to 13, and the groups start at channels 0,1,2,3,4,10,11,12 |
| `Game.ArgMax` | game.py:26-27 | the chosen move is a valid index, its score is at least every other score, and every earlier score is strictly lower |
| `Game.FirstMaxUnique` | game.py:26 | any index with those two properties is the one ArgMax returns |
| `Game.OneHot` | game.py:29 | the one-hot vector has the given size, a 1 at the move and 0 everywhere else |
| `Game.CellOfIndex` | game.py:30 | index i * 19 + j is the point (i, j) and no other point |
| `Game.OneHotPlane` | game.py:29-30 | the move plane is 19 x 19, with a 1 at (move div 19, move mod 19) and 0 at every other cell |
| `Game.PlaneSumOneHot` | game.py:29-30 | the move plane holds exactly one stone in total |
| `Game.SplitLayers` | game.py:32-36 | splitting a 13-channel stack 1/1/1/1/6/1/1/1 gives channels 0, 1, 2, 3 alone, channels 4..9 as one group, and channels 10, 11, 12 alone |
| `Game.Add` | game.py:39-45 | Add gives a 19 x 19 plane whose every cell is the sum of the two input cells |
| `Game.Sub` | game.py:40 | Sub gives a 19 x 19 plane whose every cell is the first input cell minus the second |
| `Game.Negative` | game.py:47 | Negative gives a 19 x 19 plane whose every cell is the input cell negated |
| `Game.NextStack` | game.py:32-50 | the next stack keeps the shape: 13 planes of 19 x 19 |
| `Game.NextStackLayout` | game.py:32-50 | plane 0 of the next stack is old plane 1; plane 1 is old plane 0 plus the move; plane 2 is old plane 2 minus the move; plane 3 is unchanged; plane 4 is the move; planes 5..10 are old planes 4..9; plane 11 is old planes 10 and 11 added; plane 12 is old plane 12 negated |
| `Game.ConcatLayout` | game.py:49-50 | concatenating the eight new groups gives their planes in channel order |
| `Game.AddGamePlay` | game.py:16-52 | the ply succeeds exactly when the stack is 13 planes of 19 x 19 and there are 361 scores. It then gives the next stack for the first-maximum move; otherwise it reports which input is mis-shaped |
| `Game.NegativeInvolution` | game.py:47 | negating a plane twice gives it back |
| `Game.StoneSumPreserved` | game.py:38-40 | at every point, planes 0 + 1 + 2 sum to the same value after the ply as before it |
| `Game.PartitionKeptIffEmpty` | game.py:38-40 | if every point was exactly one of mover / opponent / empty, this still holds after the ply if and only if the move was on an empty point |
| `Game.HistoryMassGrows` | game.py:43-45 | the total over the turns-since planes 4..11 grows by exactly 1 per ply; the shift and the merge of the last two buckets lose nothing |
| `Game.ColourRestoredAfterTwoPlies` | game.py:47 | two plies bring the colour plane back to what it was |
| `Game.PlayInvariants` | game.py:16-52 | a run of well-shaped plies succeeds and keeps the stack shape. Plane 3 is carried through unchanged. The colour plane ends as it started after an even number of plies and negated after an odd number. The history total grows by the number of plies |
| `Game.InitColourParity` | game.py:10-52 | from a new game, plane 3 stays all 0, the colour plane is all +1 after an even number of plies and all -1 after an odd number, and the history total equals the number of plies |
| `Game.CentreOpening` | game.py:10-52 | first ply of a new game when index 180 holds the first highest score (no score higher, every earlier score lower): plane 0 is all 0; planes 1 and 4 have a single 1 at (9, 9); plane 2 is 1 except a single 0 at (9, 9); plane 3 is all 0; plane 12 is all -1 |
| `Symmetry.Forward` | game.py:72-79 | each slot's forward transform keeps the grid square; ForwardIsSymmetry says which symmetry of the square it is |
| `Symmetry.Inverse` | game.py:61-68 | each slot's corrected unify transform keeps the grid square; InverseOfForward and ForwardOfInverse prove it undoes that slot's forward transform |
| `Symmetry.Unify` | game.py:59-68 | unifying eight n x n views gives eight n x n views, slot k holding input view k brought back by slot k's corrected inverse |
| `Symmetry.InverseAsWritten` | game.py:61-68 | each slot's unify transform as the code writes it (flip only in slots 5 to 7) keeps the grid square |
| `Symmetry.UnifyAsWritten` | game.py:59-68 | as written, unifying gives eight n x n views, slot k holding input view k under slot k's flip-only transform |
| `Symmetry.SymmetricAsWritten` | game.py:54-82 | as written, Symmetric succeeds exactly when given eight views of 19 x 19, reports too few or too many views as ViewCount and a mis-shaped view as ViewShape, and returns eight views of 19 x 19 |
| `Symmetry.Diversify` | game.py:72-79 | diversify gives eight views of the same side, slot k holding the slot's forward transform of the average |
| `Symmetry.ForwardIsSymmetry` | game.py:72-79 | each slot's forward transform is a symmetry of the square: mirror or not, then 0 to 3 quarter turns |
| `Symmetry.SlotsAreAllSymmetries` | game.py:72-79 | the eight slots are the eight symmetries of the square, each exactly once |
| `Symmetry.InverseOfForward` | game.py:61-79 | in every slot, unifying undoes diversifying (slots 5 to 7 with the transpose-after-flip inverse) |
| `Symmetry.ForwardOfInverse` | game.py:61-79 | in every slot, diversifying undoes unifying, so each slot's pair of transforms is a bijection |
| `Symmetry.UnifyDiversify` | game.py:61-79 | unifying the eight diversified copies of a grid gives eight copies of that grid |
| `Symmetry.Average` | game.py:70 | each cell of the average is that cell's sum over the views divided by their number |
| `Symmetry.AverageOfCopies` | game.py:70 | averaging copies of one grid returns that grid |
| `Symmetry.Symmetric` | game.py:54-82 | Symmetric succeeds exactly when given eight views of 19 x 19, reports too few or too many views as ViewCount and a mis-shaped view as ViewShape, and returns eight views of 19 x 19; SymmetricIsMean gives their contents |
| `Symmetry.SymmetricIsMean` | game.py:61-81 | every output view, brought back to the canonical orientation, holds at each cell the mean of the eight unified input views at that cell |
| `Symmetry.SymmetricRoundTrip` | game.py:54-82 | the eight symmetric copies of a board pass through Symmetric unchanged |
| `Symmetry.SymmetricIdempotent` | game.py:54-82 | applying Symmetric to its own output changes nothing |
| `Symmetry.SymmetricViewsAgree` | game.py:72-81 | the eight output views all unify back to the same grid |
| `Symmetry.AsWrittenInverseTransposes` | game.py:66-68 | with the source's flip-only inverses, slots 5 to 7 come back as the transpose of the original |
| `Symmetry.AsWrittenAverage` | game.py:61-70 | with the source's inverses, the average of the unified copies of x is (5 x + 3 transpose(x)) / 8 at every cell |
| `Symmetry.AsWrittenRoundTripIffSymmetric` | game.py:61-81 | with the source's inverses, the copies of a board pass through unchanged if and only if the board equals its transpose |
| `Symmetry.AsWrittenCounterexample` | game.py:66-68 | for the board scoring 1 only at row 0, column 1, the source's unify step changes the copies, and the corrected one does not |

## Left out

- `modeling.py` as a whole: the database reader and casts, the
  convolution/ReLU stack with padding and softmax, accuracy, cross-entropy,
  gradients and the SGD update, and logging. These are calls into the
  deep-learning framework and floating-point numerics, with no game logic.
- Batches of more than one board. The model handles one board; a batch is the
  same transition applied board by board.
- The framework's own tie-breaking in TopK. The model fixes it: ties go to the
  first maximum.
- Floating-point semantics. Planes are integers; scores and the average are
  exact reals.
- Go capture rules. The code does not compute captured stones (see the comment
  at game.py:40), so plane 2 only loses the new stone. The model keeps this.
- The batch grouping of `model.Segment` (game.py:60), which the code does not
  define. The model takes the eight views as an explicit sequence of eight
  grids in slot order.
- `Game.AddGamePlay`: the score-count rule is the model's, not the code's.
  TopK with k = 1 (game.py:26) picks an index among however many scores it
  gets, and the one-hot size is the constant 361 (game.py:23, game.py:29). A
  row of 1 to 360 scores would still play a move in the code, where the model
  returns `Err(PredictShape)`. The model does not capture what the framework
  does with an index of 361 or more.
- Spatial shapes other than 19 x 19 and channel counts other than one per
  view. The code reshapes the average to N x 1 x 19 x 19 (game.py:72).

## Findings

| source | as written | input that shows it | evidently intended | confidence | as-written member | corrected member |
|---|---|---|---|---|---|---|
| game.py:66-68 | `symm5u`..`symm7u` undo only the flip of their slot. Their forward transforms (game.py:77-79) are a flip after a transpose, so these views come back transposed, not in the canonical orientation | the eight symmetric copies of the board scoring 1 only at row 0, column 1. After the as-written unify, cell (0, 1) of the average is 5/8 instead of 1, so the copies do not come back unchanged | undo the flip, then transpose, so every slot returns to the canonical orientation and the round trip holds | not executed | `Symmetry.SymmetricAsWritten`, `Symmetry.AsWrittenCounterexample` | `Symmetry.Symmetric`, `Symmetry.SymmetricRoundTrip` |

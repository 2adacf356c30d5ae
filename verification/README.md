# Brick Crush game logic in Dafny

This project models the deterministic core of Brick Crush, an 8×8 block-placement puzzle. A bag of three polyomino pieces is dealt. The player drops pieces onto the board. Full rows and columns are cleared and scored with a combo multiplier. When all three pieces are used, a new bag is dealt. The game ends when no piece in the bag fits anywhere.

The modules follow the source files:

| module | source | form |
|---|---|---|
| `Types` | src/game/Types.ts | coordinates, 0/1 cells, boards, pieces, three-slot bags, Option/Result |
| `Random` | src/game/Random.ts | class `SeededRandom` over a stream of draws in [0, 1) |
| `PieceSet` | src/game/PieceSet.ts | constant templates and weights, look-ups, clone, 90° rotation |
| `BagGenerator` | src/game/Bag.ts | weighted draw, the first-pass filter, bag generation as a function of the draw stream, and the methods proved equal to it |
| `BagManagement` | src/game/BagManager.ts | class `BagManager` holding the bag and the generator |
| `BoardEngine` | src/game/GameEngine.ts | class `GameEngine` with a `board` field rewritten cell by cell |
| `Scoring` | src/game/Scoring.ts | class `ScoringEngine` with a `state` record; the per-round formula as functions |
| `GameStateHook` | src/hooks/useGameState.ts | clear-animation delays, confetti cells, total duration, ghost preview |

Modelling choices:

- **The seedrandom library** is foreign code. `SeededRandom` holds a stream of values standing for what that library would yield, given with the seed rather than derived from it, as a function `draws` from position to a real in [0, 1), plus the number of values consumed, `pos`. `next()` returns `draws(pos)` and advances `pos`. Every random result is therefore a function of the stream and the position.
- **A generated bag** is specified by the function `GeneratedBag(cat, draws, pos)`:
  - round i of the first pass uses draw `pos + 2i` for the weighted pick and `pos + 2i + 1` for the rotation;
  - the methods that push into the `pieces` list and the `usedIds` set are proved to compute exactly that function.
- **The catalogue.** The generator is stated over a `Catalogue`: the library, the weight table and the rotation. The game's own catalogue is `GameCatalogue()`. The guarantees hold for any catalogue that is `Suitable`, and `GameCatalogueSuitable` proves the game's catalogue is.
- **Numbers:**
  - the piece weights and the draws are exact reals;
  - `Math.floor(u * n)` is the exact floor;
  - scores and combos are unbounded integers.

## Model

| member | source | states |
|---|---|---|
| Random.SeedText | src/game/Random.ts:12-15 | a string seed is kept as given; a number seed becomes a non-empty decimal string |
| Random.ScaleDraw | src/game/Random.ts:27-29 | for a draw in [0, 1) and min < max, `Math.floor(u * (max - min)) + min` lies in [min, max) |
| Random.SliceEnd | src/game/Random.ts:76 | the end index `slice(0, count)` uses never passes the length, and is `count` itself when 0 ≤ count ≤ length |
| Random.Shuffled | src/game/Random.ts:58-65 | the Fisher–Yates countdown from index i keeps the length |
| Random.ShuffledPermutes | src/game/Random.ts:58-65 | a shuffle is a permutation of its input: same multiset of elements |
| Random.ShuffledStep | src/game/Random.ts:60-63 | one swap of index i with the drawn index leaves the countdown from i - 1 on the next draw |
| Random.SwapInPlace | src/game/Random.ts:62 | the destructuring swap exchanges the two array elements and leaves every other element alone |
| Random.SeededRandom.constructor | src/game/Random.ts:12-15 | the seed is stored in string form (what `getSeed` returns), and the stream starts at its first value |
| Random.SeededRandom.Next | src/game/Random.ts:20-22 | returns the current draw, which lies in [0, 1), and consumes exactly one value |
| Random.SeededRandom.NextInt | src/game/Random.ts:27-29 | one draw; for min < max the result lies in [min, max) |
| Random.SeededRandom.NextIntMax | src/game/Random.ts:34-36 | `nextInt(0, max)`: one draw; for max > 0 the result lies in [0, max) |
| Random.SeededRandom.Choice | src/game/Random.ts:48-53 | an empty list is an error and consumes no draw; otherwise one draw selects an element of the list |
| Random.SeededRandom.ShuffleInPlace | src/game/Random.ts:59-64 | the in-place countdown loop leaves the array equal to the specified shuffle and consumes length - 1 draws |
| Random.SeededRandom.Shuffle | src/game/Random.ts:58-65 | returns a permutation of the argument (same length and multiset), the specified shuffle, using length - 1 draws; the argument is untouched |
| Random.SeededRandom.Sample | src/game/Random.ts:70-77 | a full shuffle when count ≥ length; otherwise the first count elements of a shuffle; exactly count elements when 0 ≤ count ≤ length; always a sub-multiset of the input |
| Random.SeededRandom.SetSeed | src/game/Random.ts:89-92 | the new seed is stored in string form and its stream restarts from the first value |
| PieceSet.ImageForPieceSize | src/game/PieceSet.ts:10-25 | the red brick is used exactly for cell counts outside 2..5 |
| PieceSet.ImagesPerSizeDistinct | src/game/PieceSet.ts:10-25 | the five sizes 1..5 get five different images |
| PieceSet.MonoNormalised | src/game/PieceSet.ts:28-33 | MONO is a normalised template |
| PieceSet.DominoHNormalised | src/game/PieceSet.ts:36-44 | DOMINO_H is a normalised template |
| PieceSet.DominoVNormalised | src/game/PieceSet.ts:46-54 | DOMINO_V is a normalised template |
| PieceSet.TrominoINormalised | src/game/PieceSet.ts:57-66 | TROMINO_I is a normalised template |
| PieceSet.TrominoLNormalised | src/game/PieceSet.ts:68-77 | TROMINO_L is a normalised template |
| PieceSet.TetrominoINormalised | src/game/PieceSet.ts:80-90 | TETROMINO_I is a normalised template |
| PieceSet.TetrominoONormalised | src/game/PieceSet.ts:92-102 | TETROMINO_O is a normalised template |
| PieceSet.TetrominoTNormalised | src/game/PieceSet.ts:104-114 | TETROMINO_T is a normalised template |
| PieceSet.TetrominoLNormalised | src/game/PieceSet.ts:116-126 | TETROMINO_L is a normalised template |
| PieceSet.TetrominoJNormalised | src/game/PieceSet.ts:128-138 | TETROMINO_J is a normalised template |
| PieceSet.TetrominoSNormalised | src/game/PieceSet.ts:140-150 | TETROMINO_S is a normalised template |
| PieceSet.TetrominoZNormalised | src/game/PieceSet.ts:152-162 | TETROMINO_Z is a normalised template |
| PieceSet.PentominoINormalised | src/game/PieceSet.ts:165-176 | PENTOMINO_I is a normalised template |
| PieceSet.Hexomino3x2Normalised | src/game/PieceSet.ts:179-191 | HEXOMINO_3X2 is a normalised template |
| PieceSet.BigL3x3Normalised | src/game/PieceSet.ts:194-205 | BIG_L_3X3 is a normalised template |
| PieceSet.BigBlock3x3Normalised | src/game/PieceSet.ts:207-222 | BIG_BLOCK_3X3 is a normalised template |
| PieceSet.TemplateNormalised | src/game/PieceSet.ts:225-242 | every entry of PIECE_LIBRARY has distinct cells, minimum x and y 0, and size one more than its maximum x and y |
| PieceSet.LibraryNormalised | src/game/PieceSet.ts:27-242 | every library piece is normalised |
| PieceSet.LibraryCellsNonEmpty | src/game/PieceSet.ts:225-242 | every library piece has at least one cell |
| PieceSet.LibraryIdsDistinct | src/game/PieceSet.ts:225-242 | the library ids are pairwise distinct |
| PieceSet.SmallTemplates | src/game/PieceSet.ts:225-242 | library entries 1–3 are DOMINO_H, DOMINO_V and TROMINO_I, of 2, 2 and 3 cells |
| PieceSet.TemplateCellCount | src/game/PieceSet.ts:225-242 | only the first three entries have at most 2 cells, and exactly the entries from the sixth on have 4 or more |
| PieceSet.TemplateWeight | src/game/PieceSet.ts:225-263 | each library entry has a weight, non-negative, and zero exactly for MONO |
| PieceSet.LibraryWeights | src/game/PieceSet.ts:225-263 | every library id has a weight entry; MONO is the only zero weight and none is negative |
| PieceSet.FindById | src/game/PieceSet.ts:269 | `find` by id: nothing exactly when no piece has the id; otherwise a member with that id |
| PieceSet.GetPiece | src/game/PieceSet.ts:268-270 | nothing exactly when no library piece has the id; otherwise a library piece with that id (exactly which one: GetPieceFinds) |
| PieceSet.GetPieceFinds | src/game/PieceSet.ts:268-270 | `getPiece(id)` is some piece p exactly when p is in the library with that id (the ids are distinct) |
| PieceSet.AtMostCells | src/game/PieceSet.ts:276 | the filter keeps exactly the pieces of at most the given number of cells |
| PieceSet.AtLeastCells | src/game/PieceSet.ts:283 | the filter keeps exactly the pieces of at least the given number of cells |
| PieceSet.GetSmallPieces | src/game/PieceSet.ts:275-277 | every piece returned is a library piece of at most 2 cells (the exact list: SmallPieces) |
| PieceSet.GetLargePieces | src/game/PieceSet.ts:282-284 | every piece returned is a library piece of at least 4 cells (the exact list: LargePieces) |
| PieceSet.SmallPieces | src/game/PieceSet.ts:275-277 | `getSmallPieces` is MONO, DOMINO_H and DOMINO_V, in library order |
| PieceSet.LargePieces | src/game/PieceSet.ts:282-284 | `getLargePieces` is the eleven pieces of 4 or more cells, in library order |
| PieceSet.ClonePiece | src/game/PieceSet.ts:289-297 | the clone equals the original in every field |
| PieceSet.Rotate90 | src/game/PieceSet.ts:302-339 | the rotation keeps the id, colour, image and cell count |
| PieceSet.RotatedCells | src/game/PieceSet.ts:309-319 | each cell (x, y) goes to (y - minY, maxX - x) |
| PieceSet.RotateSize | src/game/PieceSet.ts:330-338 | the new size is one more than the largest rotated x and y |
| PieceSet.RotateDistinct | src/game/PieceSet.ts:309-319 | distinct cells stay distinct |
| PieceSet.RotateAtOrigin | src/game/PieceSet.ts:321-328 | the rotated cells reach x = 0 and y = 0 |
| PieceSet.RotateNormalises | src/game/PieceSet.ts:302-339 | any piece with cells comes out origin-normalised with size max + 1, keeping id, cell count and distinctness |
| PieceSet.RotateMaxima | src/game/PieceSet.ts:330-337 | for a piece at the origin, the rotation swaps the largest x and the largest y |
| PieceSet.RotateNormalised | src/game/PieceSet.ts:302-339 | on a normalised piece of width w, (x, y) goes to (y, w - 1 - x), the size swaps, and the result is normalised |
| PieceSet.RotateTimes | src/game/PieceSet.ts:351-353 | repeated rotation keeps id, colour, image and cell count |
| PieceSet.QuarterTwice | src/game/PieceSet.ts:309-319 | two quarter turns inside the box are the half turn (x, y) to (w - 1 - x, h - 1 - y) |
| PieceSet.HalfTurn | src/game/PieceSet.ts:302-339 | rotating a normalised piece twice is the half turn, and stays normalised |
| PieceSet.HalfTurnTwice | src/game/PieceSet.ts:302-339 | four calls of rotatePiece90 on a normalised piece give it back |
| PieceSet.FourRotationsRestore | src/game/PieceSet.ts:351-353 | four rotations of a normalised piece restore the original piece |
| PieceSet.RandomlyRotate | src/game/PieceSet.ts:344-356 | a random rotation keeps id, colour, image and cell count |
| PieceSet.RandomRotationIsQuarterTurn | src/game/PieceSet.ts:348-353 | a draw in [0, 1) gives 0, 1, 2 or 3 quarter turns |
| PieceSet.RotateRepeatedly | src/game/PieceSet.ts:351-353 | the loop applies exactly `rotations` quarter turns |
| PieceSet.RandomlyRotatePiece | src/game/PieceSet.ts:344-356 | consumes one draw and returns the clone turned ⌊u·4⌋ times |
| BagGenerator.WeightOf | src/game/Bag.ts:82 | `PIECE_WEIGHTS[id] ?? 1.0`: the table's weight, or 1 for an id without one |
| BagGenerator.Positive | src/game/Bag.ts:81-84 | the positive-weight filter never lengthens the list |
| BagGenerator.PositiveMembers | src/game/Bag.ts:81-84 | the filter keeps exactly the pieces of positive weight |
| BagGenerator.TotalWeightPositive | src/game/Bag.ts:91-94 | the total weight of positive pieces is non-negative, and positive when any piece is left |
| BagGenerator.PickIndex | src/game/Bag.ts:98-107 | the subtraction loop always lands on an index of the list (the last piece is the fallback) |
| BagGenerator.PickIndexInInterval | src/game/Bag.ts:96-104 | the piece picked is the first whose cumulative weight reaches the scaled draw r |
| BagGenerator.Scale | src/game/Bag.ts:96 | the scaled draw `next() * totalWeight` lies in [0, total) |
| BagGenerator.WeightedPick | src/game/Bag.ts:79-108 | for the draw u, an error exactly when the positive-weight filter is empty, otherwise a member of that filter; WeightedPickInInterval says which one |
| BagGenerator.WeightedPickSpec | src/game/Bag.ts:79-108 | the pick throws exactly when no piece has positive weight; otherwise it returns a positive-weight member of the input |
| BagGenerator.WeightedPickInInterval | src/game/Bag.ts:91-104 | for a draw in [0, 1) the result is the piece whose cumulative-weight interval holds the scaled draw |
| BagGenerator.SubtractUntilSpent | src/game/Bag.ts:98-107 | the `for … of` loop subtracting weights returns the specified index |
| BagGenerator.WeightedRandomPiece | src/game/Bag.ts:79-108 | equals the specified weighted pick of the current draw; one draw is consumed unless it throws first |
| BagGenerator.AdmitMembers | src/game/Bag.ts:16-46 | the first-pass filter keeps exactly the library pieces that have a non-zero weight, an unused id, and that keep the 4–6, 7+ and 6+ cell caps |
| BagGenerator.AvailableNeverEmpty | src/game/Bag.ts:16-48 | with a suitable catalogue and at most two ids used, the filter is never empty, so the fallback branch never runs |
| BagGenerator.BagClone | src/game/Bag.ts:121-128 | Bag.ts's clone copies id, cells, size and colour but drops the image |
| BagGenerator.ClonePieceWithRandomRotation | src/game/Bag.ts:113-116 | consumes one draw and returns the catalogue's rotation of the clone for that draw |
| BagGenerator.ExtendShape | src/game/Bag.ts:48-60 | a successful round appends exactly one library template and keeps the earlier picks |
| BagGenerator.DraftedShape | src/game/Bag.ts:15-61 | after k successful rounds there are k picks, all library templates |
| BagGenerator.DraftedErrSticks | src/game/Bag.ts:15-61 | once a round throws, the whole first pass throws with that error |
| BagGenerator.GeneratedBag | src/game/Bag.ts:10-74 | a bag that is generated holds a piece in each of its three slots |
| BagGenerator.ExtendKeepsGood | src/game/Bag.ts:16-60 | a round on a good draft of at most two picks succeeds and keeps ids distinct, the caps, and every pick a positive-weight template |
| BagGenerator.DraftedGood | src/game/Bag.ts:15-61 | with a suitable catalogue, up to three rounds succeed and leave a good draft |
| BagGenerator.GeneratedPieces | src/game/Bag.ts:55-73 | slot k is the rotated clone of the k-th pick, turned by draw pos + 2k + 1 |
| BagGenerator.DraftedSucceeds | src/game/Bag.ts:15-61 | with a suitable catalogue the three rounds never throw |
| BagGenerator.GeneratedBagIsGood | src/game/Bag.ts:10-74 | every slot is filled with a positive-weight piece without image; the ids are distinct; at most two pieces of 4–6 cells and at most one of 6+ |
| BagGenerator.GeneratedBagTurnsTemplates | src/game/Bag.ts:55-58 | each slot is a library template turned 0–3 quarter turns |
| BagGenerator.GameCatalogue | src/game/Bag.ts:2 | the game's catalogue (PIECE_LIBRARY, PIECE_WEIGHTS, randomlyRotatePiece) has pieces with cells, and its turn accepts them |
| BagGenerator.GameTurnKeeps | src/game/PieceSet.ts:344-356 | the game's random rotation keeps id, cell count and image |
| BagGenerator.GameTurnByQuarters | src/game/PieceSet.ts:344-356 | the game's random rotation is 0–3 quarter turns |
| BagGenerator.GameWeightsNonNegative | src/game/PieceSet.ts:246-263 | no game weight is negative |
| BagGenerator.GameSmallTemplates | src/game/PieceSet.ts:225-263 | three distinct small templates of the game library have non-zero weight |
| BagGenerator.GameCatalogueSuitable | src/game/Bag.ts:2 | the game's catalogue satisfies everything the bag guarantees rely on |
| BagGenerator.GeneratedBagAvoids | src/game/Bag.ts:16-20 | a piece whose weight is not positive never appears in a bag |
| BagGenerator.GameMonoWeight | src/game/PieceSet.ts:247 | MONO weighs 0 |
| BagGenerator.GameBagHasNoMono | src/game/Bag.ts:10-74 | a game bag never holds MONO |
| BagGenerator.PickTemplate | src/game/Bag.ts:16-60 | one pass of the first loop picks exactly what the specified round picks, and records the id only when the filter was not empty |
| BagGenerator.RoundStep | src/game/Bag.ts:15-61 | a successful round after i rounds gives the draft of i + 1 rounds |
| BagGenerator.RoundFails | src/game/Bag.ts:15-61 | a round that throws makes generation throw the same error |
| BagGenerator.RoundsAssemble | src/game/Bag.ts:73 | three rounds' rotated copies form the returned bag, slot by slot |
| BagGenerator.CopiesExtend | src/game/Bag.ts:55-58 | pushing the rotated clone of the new pick keeps slot and pick aligned |
| BagGenerator.TakeRound | src/game/Bag.ts:15-61 | one iteration of the first loop: two draws, and the lists equal the specified draft after i + 1 rounds, or the round's error |
| BagGenerator.GenerateBagFrom | src/game/Bag.ts:10-74 | generation over any usable catalogue whose turn keeps id, cell count and image returns the specified bag and consumes six draws when it succeeds |
| BagGenerator.GenerateBag | src/game/Bag.ts:10-74 | `generateBag(rng)` never throws with the game's catalogue, returns the specified bag and consumes exactly six draws |
| BagGenerator.HasSmallPiece | src/game/Bag.ts:133-135 | true exactly when some occupied slot holds a piece of at most 2 cells |
| BagGenerator.BagHasSmallPiece | src/game/Bag.ts:133-135 | true exactly when one of the three slots holds a piece of at most 2 cells |
| BagGenerator.GetBagSize | src/game/Bag.ts:140-145 | zero exactly when every slot is empty or holds a piece without cells; CellTotalAfterRemoval gives how it falls as slots empty |
| BagGenerator.CellTotal | src/game/Bag.ts:140-145 | the cell total is zero exactly when every slot is empty or holds a piece without cells |
| BagGenerator.CellTotalAfterRemoval | src/game/Bag.ts:140-145 | emptying a slot lowers the total by exactly the cells of the piece it held |
| BagManagement.Occupied | src/game/BagManager.ts:19 | the occupied pieces are never more than the slots |
| BagManagement.OccupiedMembers | src/game/BagManager.ts:18-20 | the occupied pieces are exactly the pieces held, and the list is empty exactly when every slot is empty |
| BagManagement.OccupiedConcat | src/game/BagManager.ts:19 | filtering the slots of two lists joined is joining their filtered lists |
| BagManagement.OccupiedPrefixCount | src/game/BagManager.ts:19 | the first n slots contribute exactly one piece per occupied slot among them |
| BagManagement.OccupiedPositions | src/game/BagManager.ts:18-20 | the filtered list has one entry per occupied slot, and each occupied slot's piece sits at the count of occupied slots before it |
| BagManagement.OccupiedAfterRemoval | src/game/BagManager.ts:27 | emptying an occupied slot removes exactly one piece from the occupied list |
| BagManagement.GeneratedBagFull | src/game/BagManager.ts:9-12 | a dealt bag is not all empty and has three occupied slots |
| BagManagement.DealtNotEmpty | src/game/BagManager.ts:30-32 | a dealt bag is never all empty |
| BagManagement.BagManager.constructor | src/game/BagManager.ts:9-12 | a new manager's generator is the seed's stream, six draws in, and its bag is the first bag of that stream |
| BagManagement.BagManager.Deal | src/game/BagManager.ts:31 | `generateBag(this.rng)` installs the specified bag of the next six draws; the manager's invariant holds |
| BagManagement.BagManager.GetValidPieces | src/game/BagManager.ts:18-20 | the result holds exactly the pieces in the bag; it has one entry per occupied slot, and the piece of occupied slot k sits after those of the occupied slots before k: the non-null slots in slot order, repeats kept |
| BagManagement.BagManager.HasValidPieces | src/game/BagManager.ts:37-39 | true exactly when some slot holds a piece |
| BagManagement.BagManager.AlwaysHasPieces | src/game/BagManager.ts:30-39 | between calls the manager always has a piece to offer |
| BagManagement.BagManager.RemovePiece | src/game/BagManager.ts:22-35 | refuses an index outside 0..2 or an empty slot and changes nothing; otherwise empties that slot and returns true; if that empties the bag, the next bag of the stream replaces it |
| BagManagement.BagManager.Reset | src/game/BagManager.ts:41-46 | without a seed, the same generator deals the next bag; with one, a fresh generator on the new seed's stream deals its first bag |
| BagManagement.RemovalShrinksBag | src/game/BagManager.ts:27 | a removal without a new deal lowers the bag's cell count by that piece's cells and its piece count by one |
| BoardEngine.EmptyBoard | src/game/GameEngine.ts:11-15 | eight rows of eight zeros |
| BoardEngine.Placed | src/game/GameEngine.ts:48-53 | writing a piece keeps the board 8 × 8 with 0/1 cells |
| BoardEngine.CollectExactly | src/game/GameEngine.ts:122-133 | the detection loops list exactly the flagged indices, each once, in ascending order |
| BoardEngine.FullLinesExactly | src/game/GameEngine.ts:120-133 | the reported rows and columns are exactly the full ones, on the board, ascending, no duplicates |
| BoardEngine.Cleared | src/game/GameEngine.ts:135-147 | clearing keeps the board 8 × 8 with 0/1 cells |
| BoardEngine.NoFullLineAfterClear | src/game/GameEngine.ts:135-147 | after clearing the detected lines no row or column is full |
| BoardEngine.PlacedKeepsFilled | src/game/GameEngine.ts:48-53 | placing never empties a filled cell |
| BoardEngine.PlacedBlocksSameSpot | src/game/GameEngine.ts:43-56 | a piece with cells that was placed cannot be placed again at the same origin |
| BoardEngine.FullBoardClearsAll | src/game/GameEngine.ts:112-154 | on a full board all eight rows and all eight columns are detected, and clearing empties the board |
| BoardEngine.DetectFullRows | src/game/GameEngine.ts:122-126 | the row-detection loop returns the specified full rows |
| BoardEngine.DetectFullCols | src/game/GameEngine.ts:129-133 | the column-detection loop returns the specified full columns |
| BoardEngine.WriteCells | src/game/GameEngine.ts:49-53 | the write loop produces the board with exactly the translated cells set to 1 |
| BoardEngine.GameEngine.constructor | src/game/GameEngine.ts:7-9 | a new engine's board is empty |
| BoardEngine.GameEngine.GetBoard | src/game/GameEngine.ts:17-19 | the copy is equal to the board; the board is a value, so the copy is independent |
| BoardEngine.GameEngine.CanPlacePiece | src/game/GameEngine.ts:21-41 | true exactly when a piece is given and every translated cell is on the board and empty; an empty cell list is accepted; the board is not modified |
| BoardEngine.GameEngine.PlacePiece | src/game/GameEngine.ts:43-56 | returns canPlacePiece's answer; on false the board is unchanged; on true exactly the translated cells become 1 |
| BoardEngine.GameEngine.ClearRowCells | src/game/GameEngine.ts:137-139 | one row is zeroed; every other cell is unchanged |
| BoardEngine.GameEngine.ClearColCells | src/game/GameEngine.ts:144-146 | one column is zeroed; every other cell is unchanged |
| BoardEngine.GameEngine.ZeroRows | src/game/GameEngine.ts:136-140 | the listed rows are zeroed; every other cell is unchanged |
| BoardEngine.GameEngine.ZeroCols | src/game/GameEngine.ts:143-147 | the listed columns are zeroed; every other cell is unchanged |
| BoardEngine.GameEngine.ClearLines | src/game/GameEngine.ts:112-154 | reports the lines full before the call; zeroes exactly their cells; score is 100 per line |
| BoardEngine.GameEngine.CheckPotentialLineCompletion | src/game/GameEngine.ts:157-195 | empty lists when the piece cannot be placed; otherwise the rows and columns full after placing it; the board is not touched |
| BoardEngine.GameEngine.Reset | src/game/GameEngine.ts:197-199 | the board becomes empty |
| BoardEngine.GameEngine.CanPieceFitAnywhere | src/game/GameEngine.ts:223-232 | true exactly when the piece fits at some origin in [0, 8)² |
| BoardEngine.GameEngine.IsGameOver | src/game/GameEngine.ts:202-220 | true exactly when some slot holds a piece and no held piece fits anywhere; false for an all-empty bag |
| BoardEngine.EmptyBoardAcceptsBoxedPiece | src/game/GameEngine.ts:21-41 | a piece whose cells all lie on the board fits an empty board at (0, 0) |
| BoardEngine.NormalisedFitsEmptyBoard | src/game/GameEngine.ts:21-41 | a normalised piece no larger than 8 × 8 fits an empty board at (0, 0) |
| Scoring.LineScore | src/game/Scoring.ts:47-58 | a round's base score is never negative |
| Scoring.LineScoreClosedForm | src/game/Scoring.ts:47-58 | 50 + 100 + … + 50·2^(n-1) = 50·(2^n − 1), and 0 for no lines |
| Scoring.LineScoreIncreases | src/game/Scoring.ts:50-55 | each extra line raises the base score |
| Scoring.LineScoreExamples | src/game/Scoring.ts:43-57 | 0, 1, 2, 3, 4 lines score 0, 50, 150, 350, 750 |
| Scoring.NextCombo | src/game/Scoring.ts:86-89 | the combo rises by one below 25 and stays put at or above it |
| Scoring.RoundState | src/game/Scoring.ts:63-105 | no lines leave the state alone; otherwise the combo steps by NextCombo, the lines add up, and the base score, last clear and total grow by exactly what the round reports |
| Scoring.RoundResult | src/game/Scoring.ts:63-112 | the round reports its own line count, the pre-round combo as multiplier, a base of 50·(2^n − 1), the final score as base times combo, and a new combo exactly when lines were cleared below 25 |
| Scoring.ComboStaysInRange | src/game/Scoring.ts:85-89 | from a combo in [1, 25] a round keeps it there; a clearing round gives min(combo + 1, 25) |
| Scoring.TotalNeverDecreases | src/game/Scoring.ts:92-95 | the total grows by exactly the round's final score, never decreases, and rises on a clearing round |
| Scoring.SingleClearsRaiseCombo | src/game/Scoring.ts:85-89 | k single-line rounds raise the combo by k, capped at 25 |
| Scoring.ThirtyClearsCapCombo | src/game/Scoring.ts:85-89 | thirty single clears from a fresh state leave the combo at 25 |
| Scoring.WalkthroughTotals1450 | src/game/Scoring.ts:63-112 | clears of 1, 2 and 3 lines, a bag without clears, then 1 line: results 50, 300, 1050 and total 1450 with combo 2 |
| Scoring.Potential | src/game/Scoring.ts:175-197 | the preview's base is 50·(2^n − 1), its final score is base times combo, and comboAfter is the combo for no lines and min(combo + 1, 25) otherwise |
| Scoring.PotentialMatchesRound | src/game/Scoring.ts:175-197 | with the combo at most 25, the preview's base, final and comboAfter match what processLineClear would produce |
| Scoring.PotentialDisagreesAboveCap | src/game/Scoring.ts:190 | above the cap the preview says 25 while the round keeps the combo unchanged |
| Scoring.ComboDisplayText | src/game/Scoring.ts:158-163 | empty exactly for combo 1; otherwise the decimal combo followed by "x COMBO!" |
| Scoring.ComboBand | src/game/Scoring.ts:234-248 | the five bands ≥25, 10–24, 5–9, 2–4 and ≤1 partition the combos |
| Scoring.ScoreColor | src/game/Scoring.ts:234-240 | each colour is returned exactly on its combo band |
| Scoring.ScoreAnimation | src/game/Scoring.ts:242-248 | each animation is returned exactly on its combo band |
| Scoring.ColorAndAnimationAgree | src/game/Scoring.ts:234-248 | colour and animation are chosen by the same bands |
| Scoring.OrDefault | src/game/Scoring.ts:213-217 | the or-default of a parsed field keeps a present non-zero value and otherwise gives the default |
| Scoring.Restored | src/game/Scoring.ts:212-218 | a restored combo is never 0 |
| Scoring.RestoreSerialized | src/game/Scoring.ts:202-218 | restoring a saved state gives it back, except that a combo of 0 restores as 1 |
| Scoring.ScoringEngine.constructor | src/game/Scoring.ts:31-40 | the defaults (combo 1, counters 0), overridden field by field by the caller's values |
| Scoring.ScoringEngine.CalculateLineClearScore | src/game/Scoring.ts:47-58 | the loop's sum is the round's base score, 50·(2^n − 1) for n ≥ 0 |
| Scoring.ScoringEngine.ProcessLineClear | src/game/Scoring.ts:63-104 | returns the round's result (base, final = base × the combo before, that combo, lines, whether it rose) and moves the state to the round's new state; no lines changes nothing |
| Scoring.ScoringEngine.ProcessBagCompleteWithoutClears | src/game/Scoring.ts:110-112 | combo becomes 1; every other field is unchanged |
| Scoring.ScoringEngine.Reset | src/game/Scoring.ts:145-153 | the state becomes the fresh state |
| Scoring.ScoringEngine.GetComboDisplayText | src/game/Scoring.ts:158-163 | empty exactly when the combo is 1 |
| Scoring.ScoringEngine.IsMaxCombo | src/game/Scoring.ts:168-170 | true exactly at combo 25 |
| Scoring.ScoringEngine.CalculatePotentialScore | src/game/Scoring.ts:175-197 | zero scores and the current combo for no lines; otherwise base and base × combo, agreeing with processLineClear while the combo is within the cap |
| Scoring.ScoringEngine.Deserialize | src/game/Scoring.ts:209-223 | a record that fails to parse resets the state; otherwise each field is restored with its default |
| Scoring.NoOverridesIsFresh | src/game/Scoring.ts:31-40 | an engine built without overrides starts from the fresh state |
| GameStateHook.ClearedKeys | src/hooks/useGameState.ts:125-146 | the keys are exactly the cells of the cleared rows and of the cleared columns |
| GameStateHook.SetRowDelays | src/hooks/useGameState.ts:126-130 | the inner row loop sets column · 50 on the eight cells of the row and leaves every other entry |
| GameStateHook.SetColDelays | src/hooks/useGameState.ts:135-145 | the inner column loop sets row · 50 on the eight cells of the column, or the larger of that and an existing delay |
| GameStateHook.RowPassStep | src/hooks/useGameState.ts:125-131 | sweeping one more cleared row keeps the map exact for the rows swept so far |
| GameStateHook.ColPassStep | src/hooks/useGameState.ts:134-146 | sweeping one more cleared column keeps the map exact for the columns swept so far |
| GameStateHook.CalculateCellDelays | src/hooks/useGameState.ts:119-151 | the result's keys are exactly the cleared cells, each with its specified delay |
| GameStateHook.RowCellDelay | src/hooks/useGameState.ts:125-131 | a cell of a cleared row on no cleared column waits column · 50 |
| GameStateHook.ColCellDelay | src/hooks/useGameState.ts:134-146 | a cell of a cleared column waits row · 50, or the larger of its row and column delays when its row is cleared too |
| GameStateHook.DelaysBounded | src/hooks/useGameState.ts:119-151 | every delay lies in [0, 350] ms |
| GameStateHook.ConfettiCells | src/hooks/useGameState.ts:189-199 | the confetti set is exactly the cells of the cleared rows and columns |
| GameStateHook.ConfettiMatchesDelays | src/hooks/useGameState.ts:183-199 | the confetti falls on exactly the cells that get a delay |
| GameStateHook.TotalDuration | src/hooks/useGameState.ts:216-218 | the total is the largest delay plus 600 ms |
| GameStateHook.LongestDelay | src/hooks/useGameState.ts:216-218 | when any line is cleared the largest delay is 350, so the animation lasts 950 ms |
| GameStateHook.GhostOrigin | src/hooks/useGameState.ts:309-310 | no origin for no targets; otherwise (least column, least row), both attained by some target |
| GameStateHook.GhostValid | src/hooks/useGameState.ts:297-306 | a valid ghost has every target on the board and on an empty cell; GhostValidIffFits ties it to the engine's placement check |
| GameStateHook.GhostValidIffFits | src/hooks/useGameState.ts:297-306 | over the cells a piece covers, the ghost is valid exactly when the engine's placement check accepts |
| GameStateHook.GhostOriginOfTranslation | src/hooks/useGameState.ts:309-310 | for a piece touching both axes, the origin found is the origin the piece was translated to |
| GameStateHook.GhostAgreesWithEngine | src/hooks/useGameState.ts:296-318 | the preview asks the engine at the piece's own origin, and validity agrees with the engine's check |
| GameStateHook.GhostPreview | src/hooks/useGameState.ts:296-318 | validity is the count-and-empty-cells rule; the origin is the least column and row; line completion is asked of the engine only when valid and is empty otherwise |

## Left out

- The seedrandom algorithm and `next()` itself are foreign code. The stream each seed yields is a parameter (`draws`) of the generator.
- The seed and the stream are independent parameters of the `SeededRandom` and `BagManager` constructors, of `SetSeed` and of `Reset`. Nothing ties a seed to one stream, so reproducibility per seed (the same seed deals the same bags) is not modelled.
- PieceSet.GetSmallPieces, PieceSet.GetLargePieces: their own ensures state only that each returned piece is a library piece of the right size. The exact lists, which imply the converse, are the lemmas `SmallPieces` and `LargePieces`.
- `nextFloat` (src/game/Random.ts:41-43) is plain float arithmetic and is not part of this model. `createRandom` and the module-level `globalRandom` are not part of it either.
- The clock default of the `SeededRandom` and `BagManager` constructors (`Date.now()`) is passed in as an ordinary seed.
- Float rounding is not modelled: draws, weights and the scaled draw are exact reals, and `Math.floor` is the exact floor.
- Random.SeededRandom.GetSeed: carries no ensures of its own. The constructor and `SetSeed` state what it returns.
- BagManagement.BagManager.GetBag: carries no ensures. The bag is a value, so the copy the source makes is the bag itself.
- The bag is a `seq` the manager reassigns slot by slot. Aliasing of the source's array is not modelled, and neither is a non-integer index passed to `removePiece`.
- BagManagement.BagManager.constructor: a three-empty-slot placeholder bag is assigned before the first deal, because Dafny needs every field set before the object is complete.
- The top-up `while (pieces.length < 3)` loop (src/game/Bag.ts:64-71) never runs, because the first loop always pushes three pieces, so it is not modelled.
- The fallback branch (src/game/Bag.ts:48-55) is modelled in `Extend`. `AvailableNeverEmpty` proves that the game's catalogue never reaches it.
- The random rotation enters the generator as the catalogue's `turn` field, so that the generator's proofs do not depend on the literal library. `GameTurnKeeps` and `GameTurnByQuarters` tie it to `randomlyRotatePiece`.
- PieceSet.RotateRepeatedly: takes the rotation count as a `nat`, because it always comes from a draw scaled to [0, 4).
- PieceSet.Rotate90: requires a piece with at least one cell. On an empty cell list the source computes sizes from `Math.max()` of nothing (−Infinity).
- `calculateGhostPosition` (src/game/GameEngine.ts:58-110) depends on DOM rectangles and float pixel arithmetic, so it is not part of this model.
- `serialize` and `deserialize` (src/game/Scoring.ts:202-223):
  - JSON text is not modelled;
  - a parse is an abstract `Result<PartialState>`;
  - a missing or non-numeric field is `None`;
  - `|| default` is modelled on integers.
- `formatScore` (src/game/Scoring.ts:230-232) is locale formatting and is not part of this model.
- `getState`, `getCurrentCombo`, `getTotalScore` and `getLastClearScore` (src/game/Scoring.ts:117-140) only read fields of `state` and are not modelled as separate members.
- The hook's cell keys are the pairs `CellKey(row, col)` rather than the strings `${row}-${col}`. The two are in one-to-one correspondence for integers.
- The hook's timers, React state setters and sounds (src/hooks/useGameState.ts:153-285) are not part of this model. Neither are the undefined engine calls they make (`detectCompletedLines`, `clearSpecificLines`, `getImageBoard`).
- In `updateGhostPosition`, the missing-`draggedPiece` early return and the ghost-key string comparison are UI state and are not modelled.
- The hook's `board` state is taken to be the engine's board.
- GameStateHook.GhostPreview: with no targets the source's origin is `Math.min()` of nothing (Infinity). The model asks the engine at (0, 0) instead. The ghost is then valid only for a piece with no cells, and such a piece gives the same answer at every origin.
- Scoring.PotentialDisagreesAboveCap records that `calculatePotentialScore` and `processLineClear` differ only for a combo above 25. Such a combo is reachable only through a constructor override or restored data.

# N-queens without three in a line: a verified model

This project models the core of `mwlazlo/n-queen`, a backtracking N-queens
solver with an extra rule: no three queens may lie on a common straight line,
at any slope. The model has two parts.

- `Board` is a mutable constraint engine. It holds `queens[row]`, the column of
  the queen in each row or -1 for an empty row. It also holds an attack-count
  grid `board[row][col]` and a tally `queensPlaced`.
  - `placeQueen` refuses a covered square. It also refuses a square that is
    collinear with two queens already placed, using the exact integer
    cross-product test.
  - When it accepts a square, it adds the queen's attack pattern to the grid:
    its own square, its row, its column and its four diagonal rays.
  - `removeQueen` first checks that the square's count is exactly 1, then
    subtracts the same pattern.
- `Algorithm.search` is the backtracking driver. It seeds row 0 with a start
  column, then tries every column of each later row. At a full board it takes a
  deep copy; otherwise it recurses. It always takes the queen back off.

The Dafny modules follow that structure:

- `Geometry`: the attack relation and the collinearity test. The test is proved
  equivalent to "the three points lie on one proper line `a*x + b*y == d`".
- `Placements`: a value-level view of the `queens` array as a `seq<int>`, with
  these functions:
  - `Placed`, the number of occupied rows;
  - `CoverCount`, the number of placed queens attacking a square;
  - `FormsLine`, `CanPlace`, `Legal` and `IsSolution`;
  - the lemmas that update them when a queen is placed or removed.
- `Boards`: `class Board`, with the two constant arrays and the mutable tally.
  - `Valid()` is the invariant that `placeQueen` and a last-in-first-out
    `removeQueen` preserve. The tally counts the queens. Every grid cell equals
    `CoverCount`. The queens are legal.
- `Algorithms`: three mutually recursive ghost functions, `Solutions`, `Columns`
  and `Attempt`.
  - They are the reference for what the search collects, and in what order.
    They are proved sound, complete and free of duplicates.
  - `class Algorithm`'s methods are proved to return fresh `Board` copies whose
    queens are exactly that sequence.
  - The methods are also proved to hand the live board back in its entry state.

The model follows the code as written, including one place where the code
misses a solution it evidently means to keep. The full-board branch of the
recursive search (Algorithm.java:55-56) keeps every full legal board, and on
the 1-by-1 board `[0]` is one. Yet the public search always recurses from row 1
(Algorithm.java:34), where the recursion returns nothing (Algorithm.java:47-48);
see "## Findings".

## Model

| member | source | states |
|---|---|---|
| Geometry.CollinearIffCommonLine | src/main/java/com/compilerworks/interview/nqueens/Board.java:227-229 | the cross-product test holds exactly when some proper line a*x+b*y==d passes through all three points (both directions) |
| Geometry.CollinearOnCommonLine | src/main/java/com/compilerworks/interview/nqueens/Board.java:227-229 | points passing the cross-product test lie on a common proper line |
| Geometry.CommonLineCollinear | src/main/java/com/compilerworks/interview/nqueens/Board.java:227-229 | points on a common proper line pass the cross-product test |
| Geometry.LineThrough | src/main/java/com/compilerworks/interview/nqueens/Board.java:227-229 | the line through two points with normal (y1-y2, x2-x1) holds them both, and holds a third point when the test does |
| Geometry.CollinearSwap12 | src/main/java/com/compilerworks/interview/nqueens/Board.java:204 | exchanging the first two points gives the same answer, so the order in which placeFormsRow passes points does not matter |
| Geometry.CollinearSwap23 | src/main/java/com/compilerworks/interview/nqueens/Board.java:204 | exchanging the last two points gives the same answer |
| Placements.PlacedFull | src/main/java/com/compilerworks/interview/nqueens/Algorithm.java:55 | the queen count never exceeds the board size, and equals it exactly when every row holds a queen |
| Placements.PlacedNone | src/main/java/com/compilerworks/interview/nqueens/Board.java:27 | a board with every row empty has a queen count of 0 |
| Placements.PlacedPrefix | src/main/java/com/compilerworks/interview/nqueens/Algorithm.java:32-34 | with rows 0..row-1 occupied and the rest empty, the count is row |
| Placements.PlacedUpdate | src/main/java/com/compilerworks/interview/nqueens/Board.java:75-76 | putting a queen in an empty row raises the count by exactly 1 |
| Placements.PlacedAtLeastOne | src/main/java/com/compilerworks/interview/nqueens/Board.java:183 | one occupied row gives a count of at least 1 |
| Placements.PlacedAtLeastTwo | src/main/java/com/compilerworks/interview/nqueens/Board.java:183 | two occupied rows give a count of at least 2 |
| Placements.FewerThanTwoFormNoLine | src/main/java/com/compilerworks/interview/nqueens/Board.java:183-185 | placeFormsRow's early exit is sound: with fewer than two queens placed, no line can form |
| Placements.UncoveredIffNoAttacker | src/main/java/com/compilerworks/interview/nqueens/Board.java:238-240 | a square's count is 0 exactly when no placed queen occupies or attacks it |
| Placements.EmptyUncovered | src/main/java/com/compilerworks/interview/nqueens/Board.java:36 | on an empty board every square's count is 0 |
| Placements.CoverUpdate | src/main/java/com/compilerworks/interview/nqueens/Board.java:74-79 | placing a queen in an empty row adds 1 to exactly the squares it attacks, and 0 elsewhere |
| Placements.SoleAttacker | src/main/java/com/compilerworks/interview/nqueens/Board.java:92 | a square attacked by exactly one placed queen has count 1 |
| Placements.OccupiedCountIsOne | src/main/java/com/compilerworks/interview/nqueens/Board.java:92 | on a legal board each occupied square has count exactly 1, so removeQueen's sanity check passes for a placed queen |
| Placements.OccupiedRowCovered | src/main/java/com/compilerworks/interview/nqueens/Board.java:70 | every square of an occupied row is covered, so no second queen can enter that row |
| Placements.PlaceKeepsLegal | src/main/java/com/compilerworks/interview/nqueens/Board.java:68-82 | an accepted placement keeps queens pairwise non-attacking and no three collinear |
| Placements.RemoveKeepsLegal | src/main/java/com/compilerworks/interview/nqueens/Board.java:99-101 | taking a queen off keeps the board legal |
| Boards.AttackPattern | src/main/java/com/compilerworks/interview/nqueens/Board.java:74-79 | the own square, the traverseXYSpace cells and the four diagonal rays are pairwise disjoint, and together they are exactly the attacked squares |
| Boards.Board.constructor | src/main/java/com/compilerworks/interview/nqueens/Board.java:34-43 | a new board satisfies the invariant, has every row -1, every count 0, a tally of 0 and fresh arrays |
| Boards.Board.Copy | src/main/java/com/compilerworks/interview/nqueens/Board.java:50-59 | the copy has equal size, tally, queens and grid, in freshly allocated arrays, and keeps the invariant |
| Boards.Board.GetQueensPlaced | src/main/java/com/compilerworks/interview/nqueens/Board.java:281-283 | the tally is the number of occupied rows, lies in 0..boardSize, and equals boardSize exactly when every row is occupied |
| Boards.Board.IsSquareCovered | src/main/java/com/compilerworks/interview/nqueens/Board.java:238-240 | the count test is true exactly when some placed queen occupies or attacks the square |
| Boards.Board.PlaceFormsRow | src/main/java/com/compilerworks/interview/nqueens/Board.java:181-214 | the result is true exactly when two placed queens q1 < q2 are collinear with (row, col) |
| Boards.Board.SquareAdd | src/main/java/com/compilerworks/interview/nqueens/Board.java:170-172 | that one cell goes up by 1 and no other cell changes |
| Boards.Board.SquareSub | src/main/java/com/compilerworks/interview/nqueens/Board.java:160-162 | that one cell goes down by 1 and no other cell changes |
| Boards.Board.Operate | src/main/java/com/compilerworks/interview/nqueens/Board.java:288-290 | the operation changes its one cell by +1 (Add) or -1 (Sub) and nothing else |
| Boards.Board.TraverseXYSpace | src/main/java/com/compilerworks/interview/nqueens/Board.java:142-152 | exactly the other cells of the queen's row and column change, each by the operation's delta once |
| Boards.Board.TraverseDiagonalSpace | src/main/java/com/compilerworks/interview/nqueens/Board.java:113-134 | exactly the cells of the four diagonal rays, stopping at the edges, change, each by the delta once |
| Boards.Board.PlaceQueen | src/main/java/com/compilerworks/interview/nqueens/Board.java:68-82 | accepts when the square is uncovered and forms no line, and changes nothing otherwise; on success sets queens[row], adds 1 to the tally and 1 to exactly the attacked cells, and keeps the invariant |
| Boards.Board.PlaceThenRemove | src/main/java/com/compilerworks/interview/nqueens/Board.java:68-105 | the round trip: placeQueen(row, col) succeeds exactly when the square is allowed, and a successful placement followed by removeQueen(row, col) passes the sanity check and restores queens, tally and every grid cell |
| Boards.Board.RemoveQueen | src/main/java/com/compilerworks/interview/nqueens/Board.java:90-105 | fails, changing nothing, exactly when the count is not 1; otherwise clears the row, takes 1 off the tally and off every attacked cell; removing a placed queen from a valid board always succeeds and keeps the invariant |
| Algorithms.Seed | src/main/java/com/compilerworks/interview/nqueens/Algorithm.java:29-32 | the seeded board has the right size, its row-0 queen in the start column, and exactly one queen placed |
| Algorithms.SolutionsSound | src/main/java/com/compilerworks/interview/nqueens/Algorithm.java:44-65 | everything the search from a legal board collects is a full legal board that keeps every queen already placed |
| Algorithms.ColumnsSound | src/main/java/com/compilerworks/interview/nqueens/Algorithm.java:51-63 | the solutions collected from columns 0..k-1 of a row are legal, extend the board, and have their queen in that row below column k |
| Algorithms.AttemptSound | src/main/java/com/compilerworks/interview/nqueens/Algorithm.java:53-62 | the solutions collected from one column are legal, extend the board, and have their queen in that column |
| Algorithms.ExtensionCanPlace | src/main/java/com/compilerworks/interview/nqueens/Board.java:68-72 | placeQueen accepts the next queen of any solution that extends the current board |
| Algorithms.SolutionsComplete | src/main/java/com/compilerworks/interview/nqueens/Algorithm.java:44-65 | every solution extending a board that is filled up to row is collected by the search from row |
| Algorithms.ColumnsComplete | src/main/java/com/compilerworks/interview/nqueens/Algorithm.java:51-63 | such a solution whose queen in row is below k is collected from columns 0..k-1 |
| Algorithms.AttemptComplete | src/main/java/com/compilerworks/interview/nqueens/Algorithm.java:53-62 | such a solution is collected when its own column is tried |
| Algorithms.SolutionsDistinct | src/main/java/com/compilerworks/interview/nqueens/Algorithm.java:44-65 | the search never collects the same solution twice |
| Algorithms.ColumnsDistinct | src/main/java/com/compilerworks/interview/nqueens/Algorithm.java:51-63 | the solutions collected from columns 0..k-1 are pairwise different |
| Algorithms.AttemptDistinct | src/main/java/com/compilerworks/interview/nqueens/Algorithm.java:53-62 | the solutions collected from one column are pairwise different |
| Algorithms.FirstPlacementSucceeds | src/main/java/com/compilerworks/interview/nqueens/Algorithm.java:32 | the first placeQueen(0, col) on an empty board is accepted |
| Algorithms.RootSolutionsExact | src/main/java/com/compilerworks/interview/nqueens/Algorithm.java:27-35 | for boards of size 2 or more, search(n, col) returns exactly the n-by-n solutions with queen (0, col), each once |
| Algorithms.RootSearchMissesSingleQueen | src/main/java/com/compilerworks/interview/nqueens/Algorithm.java:27-35 | on the 1-by-1 board, [0] is a solution but search(1, 0) returns nothing |
| Algorithms.CorrectedRootSolutionsExact | src/main/java/com/compilerworks/interview/nqueens/Algorithm.java:27-35 | the corrected entry point returns exactly the solutions with queen (0, col), each once, for every board size |
| Algorithms.StartColumnsPartition | src/main/java/com/compilerworks/interview/nqueens/NQueens.java:36-38 | concatenating search(n, i) for i in 0..k-1 gives the search over columns 0..k-1 of row 0 on the empty board |
| Algorithms.AllSolutionsExact | src/main/java/com/compilerworks/interview/nqueens/NQueens.java:36-38 | for n >= 2, the driver loop's result contains exactly the n-by-n solutions, each once |
| Algorithms.Algorithm.constructor | src/main/java/com/compilerworks/interview/nqueens/Algorithm.java:16-18 | records the board size |
| Algorithms.Algorithm.Search | src/main/java/com/compilerworks/interview/nqueens/Algorithm.java:44-65 | returns nothing from row >= boardSize; otherwise returns fresh valid full copies whose queens are Solutions(entry queens, row), in order; restores the queens, tally and every grid cell |
| Algorithms.Algorithm.TryColumn | src/main/java/com/compilerworks/interview/nqueens/Algorithm.java:53-62 | one turn of the loop: returns fresh copies holding Attempt(entry queens, row, col); the removeQueen call never fails; restores queens and tally and keeps the invariant |
| Algorithms.Algorithm.Descend | src/main/java/com/compilerworks/interview/nqueens/Algorithm.java:55-59 | after an accepted placement, returns a single copy of a full board or the recursive search of the next row, as Attempt describes, with the board unchanged |
| Algorithms.Algorithm.SearchFrom | src/main/java/com/compilerworks/interview/nqueens/Algorithm.java:27-35 | returns valid full boards whose queens are RootSolutions(boardSize, col), in order, each in freshly allocated arrays |
| Algorithms.Algorithm.SearchFromCorrected | src/main/java/com/compilerworks/interview/nqueens/Algorithm.java:27-35 | returns valid full boards whose queens are CorrectedRootSolutions(boardSize, col), in order, each in freshly allocated arrays |

Notes on the form of the model:

- Java's `int[][] board` is a Dafny `array2<int>`. The source never shares its
  rows between boards.
- The `SquareOperation` method references are the datatype `Add | Sub`.
  `Operate` dispatches to `SquareAdd` or `SquareSub`.
- `removeQueen`'s `SanityCheckException` is a `false` result that leaves the
  board unchanged. Inside the search, that result is proved never to occur.
- `PlaceThenRemove` has no counterpart method in the source. It composes
  `placeQueen` and `removeQueen` the way `Algorithm.java:53-61` pairs them, so the
  round trip is stated on its own.
- The loop body of the recursive `search` is split into `TryColumn`, which
  places and removes the queen, and `Descend`, the branch between those two
  calls. Together they do what `Algorithm.java:53-62` does, in the same order.

## Left out

- `Board.toString` and every log4j call: diagnostics that do not affect the result.
- `NQueens.main`: argument parsing, exit codes, the stop watch and printing.
  - Its loop over start columns is modelled only as the ghost function
    `AllStartColumns` and its lemmas.
- `src/test/java/TestArrayCopy.java`: a timing benchmark, with no behaviour to state.
- Java 32-bit arithmetic: coordinates are unbounded integers.
  - The largest product in `collinear` is `(boardSize - 1)^2`. The model
    agrees with Java while `boardSize <= 46341`; larger boards, where the
    products wrap around, are outside the model.
- `Boards.Board.constructor`: the size is a `nat`, so the exception Java throws
  for a negative size is not modelled.
- `Algorithms.Algorithm.SearchFrom`: requires `0 <= col < boardSize`, the range
  the driver loop uses. Java would throw an index exception outside it.
- `Algorithms.Algorithm.Search`: states that each returned board is fresh. It
  does not state that the returned boards are pairwise distinct objects. Each is
  allocated by its own copy, so later backtracking cannot change one.
- `Boards.Board.RemoveQueen`: its sanity check only compares the count with 1.
  The model, like the source, does not detect removal from an empty row whose
  square happens to have count 1; the guarantee is stated for a placed queen.
- The concrete number of solutions for particular sizes (for example N = 4) is
  not computed, because nothing is executed.

## Findings

| source | as written | input that shows it | evidently intended | confidence | as-written member | corrected member |
|---|---|---|---|---|---|---|
| src/main/java/com/compilerworks/interview/nqueens/Algorithm.java:27-35 | after seeding (0, col) the public search always recurses from row 1, and search(board, 1) returns an empty list when 1 >= boardSize | boardSize = 1, col = 0: placeQueen(0, 0) fills the board, yet the result is empty, so the 1-by-1 board reports 0 solutions | a seed that already fills the board is itself returned as a solution, as in the full-board branch at Algorithm.java:55-56 | high (proved in the model; not executed) | Algorithms.RootSearchMissesSingleQueen | Algorithms.CorrectedRootSolutionsExact |

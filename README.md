# Advent of Code 2024 solvers, modelled in Dafny

This project models the Rust solvers for days 1, 2, 4 to 20 of Advent of Code
2024 (`src/bin/NN.rs`). Each solver reads a puzzle input, parses it into
grids, lists or numbers, and computes two answers. The Dafny model starts
from the parsed values. It states what each answer is in the puzzle's own
terms: a cheapest route, a count of cells, a sum over the inputs that pass a
test. Then it proves that the solver's own algorithm computes it.

Layout:

- `common.dfy` (module `Common`) holds the shared pieces: `Option`, positions
  as `(x, y)`, maps as rows of characters indexed `map[y][x]`, the four
  direction offsets `DIRS`, quarter turns, the scans that find the start cells,
  and row and column scans over sets of cells.
- `queue.dfy` (module `PriorityQueue`) models `BinaryHeap` as a sequence.
  `pop` returns an entry that no other entry is ordered before in the
  solver's own `Ord`.
- `paths.dfy` (module `Paths`) holds weighted routes over an edge function.
  It proves the invariant of Dijkstra's search once: the popped entry
  crossing the frontier is cheapest, and a drained heap settles everything
  reachable. Days 13, 16, 18 and 20 use it.
- `dayNN.dfy` (module `DayNN`) holds one day each. Code that updates
  variables in loops is a `method` with loop invariants. It is proved equal
  to a function or a predicate that states the answer. Code made of
  expressions and recursion is a function with lemmas. Day 15's warehouse
  moves boxes in place, so it is a class (`Day15.Warehouse`) whose `grid`
  field, a sequence of rows, its methods reassign one cell at a time. Days
  6, 8, 10 and 14 keep the source's arrays: the `seen` array of day 6's
  `does_loop`, the `antinodes` table of day 8, the `seen` table of day 10
  and the quadrant counts of day 14.

Unbounded loops that stop only when the input makes them stop take a `fuel`
bound. These are day 6's walk, day 16's `dijkstra2`, and day 17's program
runs and quine search. Panics in the source, such as an `unwrap` of `None`,
an index off the map or a subtraction below zero, become `None` or a
dedicated outcome wherever the source can reach them, except for the
preconditions listed under "## Left out", which stay a `requires`. Where the code and its
own comments disagree, the model follows the code. For example, the doc
comment of `run_program2` in `src/bin/17.rs` speaks of the last `index`
outputs, but its loop runs from `len - 1 - index` and so compares the last
`index + 1`. The model compares `index + 1`, as the code does.

## Model

| member | source | states |
|---|---|---|
| Common.Clockwise | src/bin/16.rs:111-112 | a quarter turn clockwise, `(d + 1) % 4`, stays a direction index |
| Common.Anticlockwise | src/bin/16.rs:113 | a quarter turn anticlockwise, `(d + 3) % 4`, stays a direction index and undoes the clockwise turn |
| Common.Cells | src/bin/16.rs:129-138 | the cells of a map are exactly its in-bounds positions |
| Common.Set | src/bin/06.rs:62 | writing a cell, as days 6 and 15 do (15.rs lines 67 and 68), keeps the map's shape and changes that cell alone |
| Common.ScanColumns | src/bin/16.rs:129-138 | the start-and-goal scan, columns outermost, returns the last cell holding each symbol, or (0, 0) when there is none |
| Common.ScanRows | src/bin/06.rs:50-56 | the start scan, rows outermost, returns the last cell holding the symbol, or (0, 0) when there is none |
| Common.RepeatsNeverStops | src/bin/06.rs:122-126 | a walk that revisits a state never stops, so repeating and stopping exclude each other |
| Common.RowScanNext | src/bin/04.rs:99-105 | passing a cell in a row scan adds it to the passed part of a set exactly when it is in the set |
| Common.RowScanAll | src/bin/04.rs:97-107 | a scan of every row starts with nothing passed and ends having passed the whole set |
| Common.ColumnScanAll | src/bin/08.rs:91 | a scan of every column starts with nothing passed and ends having passed the whole set |
| PriorityQueue.RemoveAt | src/bin/16.rs:92 | popping entry k leaves the other entries: one fewer, the same multiset less that entry |
| PriorityQueue.IndexOfTop | src/bin/16.rs:92 | the entry `BinaryHeap::pop` returns is one that no other entry is ordered before |
| Paths.Extend | src/bin/16.rs:102-113 | a route extended by one move is a route costing that move more |
| Paths.FrontierCrossing | src/bin/16.rs:90-116 | a route from the source that ends outside the settled states has a frontier entry no dearer than the route |
| Paths.PopCheapest | src/bin/16.rs:92-100 | the cheapest frontier entry, popped while its state is unsettled, carries that state's shortest distance |
| Paths.PopSettled | src/bin/16.rs:97-99 | dropping an entry whose state is settled keeps the search invariant |
| Paths.PopAndSettle | src/bin/16.rs:100-113 | settling the cheapest entry and offering every move out of it keeps the search invariant |
| Paths.Drained | src/bin/16.rs:116 | with nothing left to pop, every state reachable from the source is settled |
| Paths.PopGoal | src/bin/16.rs:92-95 | the first goal state popped at the cheapest frontier cost carries the cheapest cost of any route to a goal |
| Paths.DrainedGoal | src/bin/16.rs:116 | a search that drains without settling a goal state proves that no goal is reachable |
| Paths.CheapestThrough | src/bin/16.rs:243-260 | a state on a cheapest route to s, where s lies on a cheapest route to t, lies on a cheapest route to t |
| Day01.Insert | src/bin/01.rs:39-43 | inserting into a sorted column keeps it sorted and adds exactly the one entry |
| Day01.Sort | src/bin/01.rs:37-44 | `.sorted()`: the result is in ascending order and holds exactly the entries of the column |
| Day01.SortedUnique | src/bin/01.rs:37-44 | two sorted sequences with the same entries are equal, so the sorted column is determined by its multiset |
| Day01.Part1ByMultisets | src/bin/01.rs:30-49 | the total distance depends only on which IDs each column holds and how often: lines in another order, or columns rearranged independently, give the same answer |
| Day01.SameColumns | src/bin/01.rs:36-47 | once sorted, two columns of the same length are at distance 0 exactly when they hold the same IDs equally often |
| Day01.Part1 | src/bin/01.rs:30-49 | `part1`: the columns sorted independently and the distances of the entries side by side summed; the total is 0 exactly when both columns hold the same IDs equally often |
| Day01.Counts | src/bin/01.rs:70-77 | the fold maps exactly the IDs of the second column, each to its number of occurrences |
| Day01.WeightedIsSimilarity | src/bin/01.rs:80-83 | the table look-up with its 0 default gives each ID times its number of occurrences |
| Day01.Part2 | src/bin/01.rs:61-85 | `part2` sums every first-column ID times its number of occurrences in the second column |
| Day02.Deltas | src/bin/02.rs:28-33 | one difference for each level after the first, `input[i+1] - input[i]` |
| Day02.IsSafe | src/bin/02.rs:26-37 | `is_safe` is true exactly when all differences lie in [-3, -1] or all in [1, 3] |
| Day02.RisingSteps | src/bin/02.rs:35-36 | differences all in [1, 3] make every level below every later one |
| Day02.FallingSteps | src/bin/02.rs:35-36 | differences all in [-3, -1] make every level above every later one |
| Day02.SafeIff | src/bin/02.rs:26-37 | a report is safe exactly when its levels rise strictly, or fall strictly, never by more than 3 between neighbours |
| Day02.Tolerates | src/bin/02.rs:74-83 | the filter of `part2` is true exactly when removing some one level leaves a safe report |
| Day02.SafeIsDampened | src/bin/02.rs:74-83 | every safe report with at least one level passes the dampener |
| Day02.ShortReports | src/bin/02.rs:26-83 | an empty report is safe but fails the dampener, having no level to remove; a one-level report passes both |
| Day02.Part1 | src/bin/02.rs:39-50 | the count is the number of safe reports |
| Day02.Part2 | src/bin/02.rs:62-87 | the count is the number of reports the dampener passes |
| Day02.SafeCountAtMostDampened | src/bin/02.rs:39-87 | with no empty report, the dampener passes at least the safe reports |
| Day02.SampleSafe | src/bin/02.rs:26-37 | the sample reports `7 6 4 2 1` and `1 3 6 7 9` are safe |
| Day02.SampleUnsafe | src/bin/02.rs:26-37 | the other four sample reports are not |
| Day02.SampleDampened | src/bin/02.rs:74-83 | removing the second level of `1 3 2 4 5` and the third of `8 6 4 4 1` leaves safe reports |
| Day04.Starts | src/bin/04.rs:53-55 | the loops try exactly every (cell on the grid, direction index below 8) pair |
| Day04.Spells | src/bin/04.rs:56-66 | the letter loop, leaving at the first step off the grid or the first wrong letter, finds XMAS exactly when the four cells along the direction are on the grid and read X, M, A, S |
| Day04.ScanNext | src/bin/04.rs:53-70 | passing one (cell, direction) pair adds one to the passed part of a set exactly when the pair is in it |
| Day04.HitNext | src/bin/04.rs:56-69 | trying one direction at a cell adds one hit exactly when XMAS reads there |
| Day04.HitWrapCell | src/bin/04.rs:55 | after the eighth direction the scan moves to the next cell |
| Day04.HitWrapRow | src/bin/04.rs:54 | after the last column the scan moves to the next row |
| Day04.HitsAll | src/bin/04.rs:53-72 | the scan starts with nothing passed and ends having passed every hit |
| Day04.Part1 | src/bin/04.rs:43-74 | the answer is the number of (start cell, direction) pairs along which XMAS reads |
| Day04.CrossIsXShape | src/bin/04.rs:95-103 | the corner test at an interior cell holds exactly when two MAS words, each read either way, cross at an `A` on the two diagonals |
| Day04.ScanRow | src/bin/04.rs:95-105 | one interior row adds exactly its cells that pass the corner test |
| Day04.Part2 | src/bin/04.rs:86-108 | the answer is the number of cells that centre an X-MAS |
| Day05.PositionFrom | src/bin/05.rs:77-78 | the first index at or after i holding the page, or `None` when no later index holds it |
| Day05.Position | src/bin/05.rs:77-78 | `find_position`: the first index holding the page, `None` exactly when the page does not occur |
| Day05.HoldsIff | src/bin/05.rs:76-86 | a rule holds exactly when, if its first page occurs at all, every occurrence of its second page has an occurrence of the first in front of it |
| Day05.PartsAddUp | src/bin/05.rs:74-93 | the middle pages of all updates split into those of the valid and of the invalid ones |
| Day05.Part1 | src/bin/05.rs:49-94 | the sum of the middle pages of the updates in the right order; with the invalid ones' it makes up all middle pages |
| Day05.Relevant | src/bin/05.rs:159-161 | the sort's graph holds exactly the rules whose two pages both occur in the update |
| Day05.Sources | src/bin/05.rs:163-166 | the initial stack holds exactly the update's pages with no incoming edge |
| Day05.Retain | src/bin/05.rs:172-182 | `graph.retain` keeps exactly the edges not leaving n and collects the targets of the removed edges, losing none |
| Day05.PushFree | src/bin/05.rs:184-187 | only collected targets with no incoming edge left are pushed |
| Day05.SortStep | src/bin/05.rs:168-187 | one pop of the sort keeps its loop state: every page popped so far comes after the sources of all its incoming edges |
| Day05.KahnOrderSound | src/bin/05.rs:156-188 | Kahn's order lists only the update's pages, each after the sources of all the relevant rules that end at it |
| Day05.TopologicalHolds | src/bin/05.rs:76-86 | a topological order of the update's pages satisfies every rule |
| Day05.KahnOrderValid | src/bin/05.rs:156-188 | whatever the sort returns obeys every rule |
| Day05.PushTargets | src/bin/05.rs:184-187 | the stack after the pushes is the old stack followed by the targets left with no incoming edge, in order |
| Day05.KahnSort | src/bin/05.rs:156-188 | the in-place sort loop returns Kahn's order |
| Day05.Reorder | src/bin/05.rs:136-193 | one update adds nothing when valid, else the middle page of its sorted order; `None` when that order is empty |
| Day05.Part2 | src/bin/05.rs:108-197 | the sum of the middle pages of the invalid updates after the sort; `None` from the first sort that returns no pages |
| Day05.ReorderedNoneStays | src/bin/05.rs:192 | once a partial sum of the contributions is the panic, every longer partial sum is too: one empty sort makes the whole answer the panic |
| Day06.States | src/bin/06.rs:113-114 | every (cell, direction) state on the map, the space `seen` indexes |
| Day06.Advance | src/bin/06.rs:64-82 | one move lands on the map or is `None`: off the map ahead it stops, before a `#` it turns right in place, otherwise it steps forward |
| Day06.TraceStep | src/bin/06.rs:59-82 | one more move of the walk is `Advance` applied where the guard stands |
| Day06.TraceOnMap | src/bin/06.rs:59-82 | a guard that starts on the map stays on it while it walks |
| Day06.SameLoops | src/bin/06.rs:142-147 | only walls steer the guard: maps of one size with the same `#` cells give the same walk |
| Day06.StartedWalk | src/bin/06.rs:62 | when the start is not a wall, marking it changes nothing about the walk |
| Day06.OpenWalk | src/bin/06.rs:76-82 | a guard that starts off the walls never stands on one |
| Day06.MarkedCells | src/bin/06.rs:59-82 | a cell is marked `X` exactly when it was `X` already or the guard stood on it |
| Day06.MarkedWalls | src/bin/06.rs:62-76 | marking `X` never adds or removes a wall of the map the guard walks |
| Day06.CountCells | src/bin/06.rs:87-95 | the count loop returns the number of cells holding the symbol |
| Day06.CoveredCells | src/bin/06.rs:59-95 | the `X` cells after n + 1 marks are the cells of the first n + 1 states of the walk, with any `X` already there |
| Day06.PatrolStep | src/bin/06.rs:59-82 | one pass of the walking loop marks the guard's cell and then either stops at the edge, where the walk leaves, or makes the move `Advance` makes |
| Day06.Patrol | src/bin/06.rs:59-82 | within `fuel` moves: the map with every cell the guard stood on marked `X` once it is about to leave, and the number of moves it took; `None` when it is still on the map |
| Day06.Part1 | src/bin/06.rs:39-96 | the guard starts at the last `^` of the row scan facing up; the answer is the number of cells it stood on before leaving, together with any `X` already there |
| Day06.Recurs | src/bin/06.rs:122-126 | a recurring state is a loop, and a guard in a loop never leaves |
| Day06.Leaves | src/bin/06.rs:137-140 | a guard that leaves the map does not loop |
| Day06.WalkStep | src/bin/06.rs:129-147 | one move as `does_loop` takes it: off the map it stops, facing `#` it turns, otherwise it steps |
| Day06.Record | src/bin/06.rs:127 | recording the state of move k keeps the record of first visits |
| Day06.Room | src/bin/06.rs:113 | a state not yet recorded leaves room for it among all states, which bounds the walk |
| Day06.See | src/bin/06.rs:127 | setting `seen[y][x][dir]` marks exactly the guard's state as seen |
| Day06.MoveGuard | src/bin/06.rs:129-147 | the move either exits, and then the guard leaves and does not loop, or yields the next state of the walk |
| Day06.DoesLoop | src/bin/06.rs:109-149 | true exactly when some (cell, direction) state of the walk recurs, which is exactly when the guard never leaves the map |
| Day06.Trial | src/bin/06.rs:174-183 | one obstacle trial on the partly reset map is made where it would be made on the original map, loops exactly when the cell traps the guard, and resetting it to `.` keeps the map restored |
| Day06.TryObstacle | src/bin/06.rs:174-183 | the trial loops exactly when an obstacle at (x, y) traps the guard, and the map is restored up to `.` resets |
| Day06.CountTraps | src/bin/06.rs:171-186 | the trial loop counts exactly the cells where an obstacle traps the guard |
| Day06.Part2 | src/bin/06.rs:152-189 | the guard starts as in `part1`; the answer is the number of cells, neither `#` nor `^`, where an obstacle makes it loop, and 0 on a map whose rows are empty |
| Day07.MulDiv | src/bin/07.rs:38 | a positive value divides its multiple exactly, so undoing a multiplication by `/` recovers the factor |
| Day07.Extend | src/bin/07.rs:38 | one more value after a solvable prefix keeps the equation solvable under either operator |
| Day07.CanMakeSound | src/bin/07.rs:30-39 | what the corrected `can_make` accepts is solvable with `+` and `*` evaluated left to right |
| Day07.CanMakeComplete | src/bin/07.rs:30-39 | every solvable equation is accepted by the corrected `can_make` |
| Day07.CanMakeIff | src/bin/07.rs:30-57 | the corrected `can_make`, started at the last value, accepts exactly the solvable equations |
| Day07.CanMakeAsWritten | src/bin/07.rs:30-39 | `can_make` as written accepts everything the corrected version accepts |
| Day07.CanMake | src/bin/07.rs:30-39 | the corrected `can_make` never accepts a remaining result of 0, the case the code as written accepts at once (see Findings) |
| Day07.AsWrittenAcceptsUnsolvable | src/bin/07.rs:31-38 | as written, `5: 3 5` is accepted (5 - 5 leaves 0 with the 3 unused) although it is not solvable |
| Day07.Part1 | src/bin/07.rs:41-65 | the corrected `part1`, which calls the corrected `can_make` (see Findings), sums exactly the targets of the solvable equations |
| Day07.Part1AsWritten | src/bin/07.rs:41-65 | `part1` as written, calling `can_make` as written, sums at least what the corrected `part1` sums |
| Day07.Part1AsWrittenOvercounts | src/bin/07.rs:41-65 | as written, `part1` sums 5 for the lone equation `5: 3 5`, where the solvable targets sum to 0 |
| Day07.SampleAccepted | src/bin/07.rs:57 | the sample equations with targets 190, 3267 and 292 are accepted |
| Day07.SampleRejected | src/bin/07.rs:57 | the other six sample equations are rejected |
| Day08.PartnersHas | src/bin/08.rs:65-87 | the two inner loops mark exactly what the pairs (a, b) with b already scanned mark |
| Day08.ScannedHas | src/bin/08.rs:59-89 | the two outer loops mark exactly what the antennas already scanned mark with their partners |
| Day08.ScanMarksAll | src/bin/08.rs:59-89 | a full scan marks every antinode and nothing else |
| Day08.NoPartners | src/bin/08.rs:61-64 | a cell without an antenna pairs with nothing |
| Day08.RayEnds | src/bin/08.rs:134-138 | a walk from a cell on the map that stops at step k has marked exactly its first k points |
| Day08.RayCovers | src/bin/08.rs:134-143 | a walk from a cell on the map to a point on the map stays on the map in between |
| Day08.RayFromInside | src/bin/08.rs:134-143 | a walk from a cell on the map marks exactly the points p + k·d, k >= 0, that lie on the map |
| Day08.MirrorAntinodes | src/bin/08.rs:74-82 | part 1's antinodes are exactly the cells on the map one offset beyond an antenna, away from another antenna of its frequency |
| Day08.LineAntinodes | src/bin/08.rs:129-143 | part 2's antinodes are exactly the cells on the map of the form a + k·(b - a), k >= 0, for a pair of same-frequency antennas a, b |
| Day08.AntennasResonate | src/bin/08.rs:134-135 | in part 2 every antenna that shares its frequency with another is an antinode |
| Day08.Mark | src/bin/08.rs:78-81 | setting `antinodes[x][y]` adds exactly that cell to the marked set |
| Day08.TrailNext | src/bin/08.rs:134-138 | one more step of a walk adds its current point to the trail |
| Day08.Walk | src/bin/08.rs:134-143 | one `while` walk marks exactly its ray and ends at the first point off the map |
| Day08.MarkPair | src/bin/08.rs:72-144 | the body for a same-frequency pair marks exactly what the part's rule marks for that pair |
| Day08.PairUp | src/bin/08.rs:65-87 | the two inner loops mark exactly what antenna a marks with its partners |
| Day08.MarkAll | src/bin/08.rs:57-89 | the four nested loops on a fresh `width` × `height` table mark exactly the antinodes |
| Day08.CountMarked | src/bin/08.rs:91 | the flattened count is the number of marked cells |
| Day08.Part1 | src/bin/08.rs:50-94 | the number of antinodes by mirroring |
| Day08.Part2 | src/bin/08.rs:105-155 | the number of cells on some line of same-frequency antennas, in whole steps of the pair's offset |
| Day09.SeriesClosed | src/bin/09.rs:22-25 | twice the sum of `len` consecutive positions from `start` is `(start + end) · len` |
| Day09.GaussSum | src/bin/09.rs:22-25 | `gauss_sum` is the sum of the positions start, start + 1, …, start + len - 1 |
| Day09.RunWeight | src/bin/09.rs:48-72 | a file id times `gauss_sum` is what a run of that file adds to the checksum |
| Day09.Compacted | src/bin/09.rs:43-82 | the block-by-block compaction has the disk's length, and a block holds a file exactly when it lies before the number of file blocks |
| Day09.CompactedKeeps | src/bin/09.rs:43-82 | a file block before the end of the compacted files stays where it is |
| Day09.CompactedFills | src/bin/09.rs:60-77 | the free block with n free blocks before it receives the n-th file block counted from the end |
| Day09.KeepFile | src/bin/09.rs:52-53 | a file still before the backward cursor is counted where it stands |
| Day09.MeetFile | src/bin/09.rs:47-51 | when the cursors meet, the unconsumed rest of that file closes the checksum of the compacted disk |
| Day09.TakeRest | src/bin/09.rs:70-76 | a gap that takes the whole rest of the backward file moves the backward cursor one file down |
| Day09.GapDone | src/bin/09.rs:60-80 | after the gap loop either the gap is full and the forward cursor moves on, or the cursors have met and the answer is the checksum |
| Day09.FillGap | src/bin/09.rs:56-78 | filling a gap from the backward file keeps the loop state, and ends with the checksum when the cursors meet |
| Day09.Part1 | src/bin/09.rs:27-83 | the corrected `part1` (see Findings): the checksum of the disk after moving single file blocks from the end into the leftmost free blocks; `None` for an empty map, where the source's `input.len() - 1` underflows |
| Day09.AsWrittenCountsTwice | src/bin/09.rs:60-77 | as written (`Part1AsWritten`), the map 1113111 gives 15: the gap after file 1 goes on taking blocks once the backward cursor has reached file 1 itself |
| Day09.FillAsWritten | src/bin/09.rs:56-77 | as written, a gap loop that does not panic always fills the whole gap, moving the position on by exactly the gap's length even past the meeting point, and only adds to the answer |
| Day09.ForwardAsWritten | src/bin/09.rs:43-81 | as written, the outer loop only adds to the answer |
| Day09.Part1AsWritten | src/bin/09.rs:27-83 | `part1` as written: `None` on an empty map, where `input.len() - 1` underflows, and 0 for a lone file, which is file 0 |
| Day09.DiskExample | src/bin/09.rs:27-33 | the map 1113111 lays out the disk `0.1...2.3` |
| Day09.CompactedChecksumExample | src/bin/09.rs:43-82 | the compaction of 1113111 is `0312`, with checksum 11 |
| Day09.FirstFit | src/bin/09.rs:139-150 | the leftmost free run before index e long enough for the file, or `None` when no run before it fits |
| Day09.Move | src/bin/09.rs:133-152 | one move keeps the list's length or grows it by the inserted run |
| Day09.MovePermutes | src/bin/09.rs:144-149 | a move only reorders the disk's blocks: the multiset of blocks is unchanged |
| Day09.RearrangePermutes | src/bin/09.rs:133-153 | the whole rearrangement only reorders the disk's blocks and keeps its length |
| Day09.ChecksumRun | src/bin/09.rs:158-165 | each run adds its id times its positions to the checksum, free runs nothing |
| Day09.TryMove | src/bin/09.rs:134-152 | the in-place attempt to move the run at index e leaves the list that `Move` describes |
| Day09.Rearrange | src/bin/09.rs:133-153 | the move loop of `part2`, from the last index down: each index tried adds at most one run to the list, so after e tries it has between its old length and e more runs |
| Day09.Tally | src/bin/09.rs:156-166 | the run-by-run sum with the closed-form sums is the checksum of the laid-out disk |
| Day09.Part2 | src/bin/09.rs:113-169 | the checksum after trying once, from the last index down, to move each file into the leftmost gap before it that is long enough; the rearranged disk holds the same blocks as the original |
| Day10.PushChild | src/bin/10.rs:60-73 | pushing the climb in one direction adds what that direction leads to: its summits, its trails and its pops |
| Day10.PushChildren | src/bin/10.rs:60-73 | popping a cell below `9` and pushing its climbs hands its summits, trails and remaining pops on to the stack, one pop spent |
| Day10.PopSummit | src/bin/10.rs:52-58 | a popped `9` is its own only summit and its own only trail |
| Day10.Climb | src/bin/10.rs:60-73 | the direction loop pushes exactly the in-bounds neighbours one higher, in `DIRS` order |
| Day10.Dfs2 | src/bin/10.rs:79-115 | `dfs2` follows every trail from the trailhead to its end, so it returns the rating: the number of trails to a `9` |
| Day10.ScoutSummit | src/bin/10.rs:52-58 | a popped `9` is a summit of the trailhead and joins the ones found |
| Day10.Mark | src/bin/10.rs:52-57 | a popped `9` is counted the first time it is popped, when its `seen` entry is set |
| Day10.MarkSwapped | src/bin/10.rs:52-57 | the same with `seen` indexed `[x][y]` as the source writes it |
| Day10.Dfs | src/bin/10.rs:36-77 | with `seen` indexed `[y][x]` the count is the score of the trailhead: the number of distinct `9` cells it reaches |
| Day10.DfsAsWritten | src/bin/10.rs:43-54 | as written, the count is the score when every reachable `9` fits the swapped bounds of `seen`, and otherwise the lookup panics |
| Day10.SummitsAreNines | src/bin/10.rs:52 | every summit is a `9` cell of the map |
| Day10.SquareFits | src/bin/10.rs:43-53 | on a square map `dfs` as written never indexes `seen` out of range |
| Day10.RampPanics | src/bin/10.rs:43-53 | on the one-row map `0123456789` the summit (9, 0) needs `seen[9]`, but `seen` has a single row |
| Day10.RampScore | src/bin/10.rs:36-77 | the trailhead of that map has score 1 |
| Day10.Part1 | src/bin/10.rs:117-136 | the corrected `part1`, which calls the corrected `dfs` with `seen[y][x]` (see Findings): the sum of the scores of the trailheads, the `0` cells, scanned x outermost |
| Day10.Part2 | src/bin/10.rs:151-170 | the sum of the ratings of the trailheads |
| Day11.PowerAdd | src/bin/11.rs:33-39 | b^(m + n) = b^m · b^n |
| Day11.Pow | src/bin/11.rs:33-39 | `pow` multiplies the base into an accumulator `exponent` times and returns base^exponent |
| Day11.DigitsIff | src/bin/11.rs:22-31 | v has n decimal digits exactly when 10^(n-1) <= v < 10^n, or v < 10 for n = 1 |
| Day11.NumDigits | src/bin/11.rs:22-31 | the loop raising a power of ten until it exceeds the value returns the number of decimal digits, 1 for 0 |
| Day11.LeftHalf | src/bin/11.rs:54-56 | a number with 2n digits divided by 10^n has exactly n digits |
| Day11.SplitHalves | src/bin/11.rs:53-59 | a number with an even number 2h of digits splits into a left half of exactly h digits and a right half of at most h digits that put back together give the number |
| Day11.Stones | src/bin/11.rs:41-63 | `num_stones`: a stone is still at least one stone after any number of blinks |
| Day11.StonesAtMostDouble | src/bin/11.rs:41-63 | a blink at most doubles the stones: one stone becomes at most 2^s after s blinks |
| Day11.StonesGrow | src/bin/11.rs:41-63 | no blink removes a stone: the count never drops with more blinks |
| Day11.Total | src/bin/11.rs:71 | the row's total is at least its number of stones |
| Day11.TotalAtMost | src/bin/11.rs:71 | a row of n stones becomes at most n · 2^s stones after s blinks |
| Day11.Part1 | src/bin/11.rs:65-74 | the answer after 25 blinks lies between the number of stones and that number times 2^25 |
| Day11.NumStones2 | src/bin/11.rs:86-119 | `num_stones2` returns the count of the plain recursion `num_stones`; every table entry stays a true count, no entry is removed, and (value, steps) is recorded whenever steps > 0 |
| Day11.SplitStones | src/bin/11.rs:108-111 | the even-digits branch returns the plain recursion's counts of both halves added, and keeps every table entry a true count |
| Day11.Part2 | src/bin/11.rs:121-131 | with one table shared by the whole row, the answer is the plain recursion's count after 75 blinks |
| Day12.RegionLeast | src/bin/12.rs:46-72 | a region lies inside every set of plots that holds its start and that the flood fill cannot leave |
| Day12.RegionHasStart | src/bin/12.rs:44-46 | a region holds the plot it is flooded from |
| Day12.RegionClosed | src/bin/12.rs:56-72 | a region is closed: no plot of it has a same-plant neighbour outside it |
| Day12.RegionPlant | src/bin/12.rs:64-70 | every plot of a region grows the plant of its start |
| Day12.RegionSymmetric | src/bin/12.rs:56-72 | being in the same region is symmetric |
| Day12.RegionShared | src/bin/12.rs:56-72 | plots of one region have that same region |
| Day12.RegionInOrOut | src/bin/12.rs:88-91 | a closed set holds either the whole region of a plot or none of it, so the scan never floods half a region |
| Day12.MarksAdd | src/bin/12.rs:56-72 | adding a new plot to a set adds its own fence segments or corners |
| Day12.ProductSize | src/bin/12.rs:75 | pairing every member of one set with every member of another gives the product of their sizes |
| Day12.RegionCharge | src/bin/12.rs:75 | a region pays its area times its number of fence segments, or of corners |
| Day12.ChargeRegion | src/bin/12.rs:88-91 | flooding one more region into a closed set of plots charges that region area × marks, and a start already seen adds nothing |
| Day12.PushedLinks | src/bin/12.rs:56-72 | every same-plant in-bounds neighbour is pushed, and only plots of the map are |
| Day12.SurveyFences | src/bin/12.rs:56-72 | the direction loop of `dfs` pushes the same-plant neighbours and counts one fence segment per side facing off the map or another plant |
| Day12.SurveyCorners | src/bin/12.rs:124-156 | the direction loop of `dfs2` counts a corner where sides d and d + 1 are both fenced, or both open with another plant on the diagonal, and pushes each open side |
| Day12.PopSeen | src/bin/12.rs:48-50 | popping a plot already seen changes nothing else |
| Day12.PopFresh | src/bin/12.rs:51-72 | popping a fresh plot takes it, adds its marks and pushes its same-plant neighbours, keeping the flood state |
| Day12.Visit | src/bin/12.rs:51-72 | a fresh plot is marked seen, counted in the area, its marks counted and its open sides pushed |
| Day12.Pop | src/bin/12.rs:46-73 | one turn of the stack loop keeps the flood state and gets the search closer to its end |
| Day12.Flooded | src/bin/12.rs:46-74 | when the stack runs dry the plots taken are exactly the region of the start, or nothing when it had been seen |
| Day12.Dfs | src/bin/12.rs:39-76 | `dfs` and `dfs2` leave `seen` grown by the region of the start and return area × marks of that region, or 0 when the start had been seen |
| Day12.Scan | src/bin/12.rs:86-93 | the scan over every plot, x outermost, charges every plot once for each mark of its region |
| Day12.VisitPlot | src/bin/12.rs:90 | one step of the scan keeps the seen plots closed and the answer equal to the charge of the seen plots, and adds the plot it visits |
| Day12.Part1 | src/bin/12.rs:78-95 | the sum over regions of area × perimeter |
| Day12.Part2 | src/bin/12.rs:162-179 | the sum over regions of area × number of sides, counted as corners |
| Day12.LonePlot | src/bin/12.rs:56-156 | a one-plot map is one region behind four fence segments and four corners, so both parts price it at 4 |
| Day13.ScaleIsProduct | src/bin/13.rs:75-76 | n presses of a button move the claw by n times the button's move in each coordinate |
| Day13.PressCounts | src/bin/13.rs:75-76 | one more press keeps the claw at i·a + j·b for the new counts and adds its price to 3·i + j |
| Day13.RouteCounts | src/bin/13.rs:75-76 | every route of presses from (0, 0) ends at i·a + j·b and costs 3·i + j, for its numbers i and j of A and B presses |
| Day13.PressesRoute | src/bin/13.rs:75-76 | any numbers of presses make a route from (0, 0) to i·a + j·b costing at most 3·i + j |
| Day13.CheapestIsFewest | src/bin/13.rs:62-64 | the cheapest route of presses to the prize is the fewest tokens that win it |
| Day13.ReachableIsWinnable | src/bin/13.rs:75-76 | the prize can be reached by presses exactly when some numbers of presses land on it |
| Day13.Monotone | src/bin/13.rs:65-68 | presses never move the claw back, so every position on a route is at most its last in both coordinates |
| Day13.BoxedRoutes | src/bin/13.rs:65-68 | discarding overshot positions loses nothing: routes to the prize, and their costs, are the same with or without the box |
| Day13.BeforeIsStrict | src/bin/13.rs:44-50 | the pop order of `State` (lower cost first, then greater position) is a strict order |
| Day13.Top | src/bin/13.rs:61 | `heap.pop()` returns an entry that no other entry is popped ahead of |
| Day13.PopTop | src/bin/13.rs:61 | the popped entry is the cheapest, and removing it takes at most its own pair out of the frontier |
| Day13.InvInit | src/bin/13.rs:58-60 | the search starts at (0, 0) with cost 0 and an empty cache, and the search invariant holds |
| Day13.PopAtPrize | src/bin/13.rs:62-64 | the first pop of the prize, before any overshoot or cache check, carries the cost of a cheapest route to it |
| Day13.PopDiscard | src/bin/13.rs:65-72 | dropping an overshot entry, or one whose position is cached, keeps the invariant |
| Day13.PushesOffer | src/bin/13.rs:75-76 | from a position within the box the two pushes offer every press at its price |
| Day13.SettleStep | src/bin/13.rs:70-76 | a pop within the box and not yet cached settles it at its popped cost, queues its presses and leaves fewer positions to settle |
| Day13.Drained | src/bin/13.rs:61-79 | with the heap empty and the prize never popped, no route within the box reaches it |
| Day13.FoundFewest | src/bin/13.rs:62-64 | the cheapest route within the box is the fewest tokens |
| Day13.NoneWinnable | src/bin/13.rs:79 | no route within the box means no numbers of presses land on the prize |
| Day13.PushPresses | src/bin/13.rs:75-76 | the heap after the pushes is the old heap followed by A at cost + 3 and B at cost + 1 |
| Day13.Dijkstra | src/bin/13.rs:57-80 | `Some(c)`: c tokens win the prize and no numbers of presses landing on it cost fewer; `None` exactly when no numbers of presses land on it |
| Day13.TokensOrZero | src/bin/13.rs:131 | `min_cost_old`: the fewest tokens for a winnable prize, 0 for one that cannot be won |
| Day14.Rem | src/bin/14.rs:44-45 | Rust's `%` on `i32` gives a remainder in (-n, n) with the sign of the dividend, and quotient · n + remainder is the dividend |
| Day14.Wrap | src/bin/14.rs:44-45 | `((p + v·100) % n + n) % n` lands in [0, n) and equals the mathematical remainder of p + v·100, so negative coordinates wrap to the far side |
| Day14.WrapAgrees | src/bin/14.rs:44-45 | adding n to a truncated remainder and taking it again gives the remainder in [0, n) |
| Day14.ModUnique | src/bin/14.rs:44-45 | a = k·n + s with s in [0, n) makes k and s the quotient and remainder of a by n |
| Day14.EndPos | src/bin/14.rs:43-46 | every robot's tile after 100 seconds is on the floor |
| Day14.Quadrant | src/bin/14.rs:49-64 | a tile counts in quadrant 0, 1, 2 or 3 exactly when it lies top-left, top-right, bottom-right or bottom-left of the middle lines, and in none exactly when it is on the middle column or row |
| Day14.CountsPartition | src/bin/14.rs:49-64 | every robot is counted once: in one quadrant or on a middle line |
| Day14.Tally | src/bin/14.rs:49-64 | the nested tests raise the slot of the tile's quadrant by one and no other slot |
| Day14.Part1 | src/bin/14.rs:35-70 | the safety factor is the product of the numbers of robots ending in each quadrant |
| Day15.ReachStep | src/bin/15.rs:58-61 | a cell on the map has room for at least itself in every direction, and one step on leaves one step less |
| Day15.SetSymbols | src/bin/15.rs:67-68 | one write trades the overwritten symbol for the written one in the map's multiset of symbols |
| Day15.ShoveShifts | src/bin/15.rs:50-79 | `try_move` succeeds exactly when the cell after the run of boxes ahead is on the map and not a wall, and then it shifts the mover and the boxes one step, leaves `.` where the mover stood and changes nothing else |
| Day15.ShoveSymbols | src/bin/15.rs:66-78 | a successful push trades the free cell's symbol for a `.`; every other symbol count is kept |
| Day15.ShoveKeepsBoxes | src/bin/15.rs:66-78 | a push never changes the number of boxes |
| Day15.ReplayKeeps | src/bin/15.rs:125-131 | along the robot's walk the tracked position always holds `@`, and the number of `O` boxes never changes |
| Day15.Moves | src/bin/15.rs:101-111 | `>`, `v`, `<`, `^` become the direction indices 0 to 3, anything else is skipped |
| Day15.GpsSum | src/bin/15.rs:136-143 | the sum of 100·y + x over the cells holding the box symbol |
| Day15.WidenCells | src/bin/15.rs:226-237 | widening keeps the map rectangular, doubles its width, and turns `#`, `O`, `@`, `.` at (x, y) into `##`, `[]`, `@.`, `..` at (2x, y) and (2x+1, y) |
| Day15.NarrowWidenRow | src/bin/15.rs:226-237 | widening loses nothing: the narrow row can be read back from the wide one |
| Day15.DryRunWritesNothing | src/bin/15.rs:185-218 | a dry run of `try_move2` writes nothing |
| Day15.FailWritesNothing | src/bin/15.rs:158-220 | a push that fails writes nothing, dry or not |
| Day15.DryRunPredicts | src/bin/15.rs:185-218 | a dry run predicts the real push's answer on the unchanged map, and a vertical box push happens only when both halves' dry runs pass |
| Day15.HorizontalIsShove | src/bin/15.rs:174-184 | pushing horizontally on the wide map is `try_move` with `[` and `]` as the boxes |
| Day15.MoverAdvances | src/bin/15.rs:176-218 | a successful push leaves the mover one step on and `.` where it stood |
| Day15.Replay2Keeps | src/bin/15.rs:262-268 | on the wide map the tracked position holds `@` after every move that does not panic |
| Day15.Warehouse.TryMove | src/bin/15.rs:50-79 | the method answers whether the push succeeds and leaves the map that `Shove` describes, or the old map when it fails |
| Day15.Warehouse.Walk | src/bin/15.rs:125-131 | the map and the robot's position after the move loop are those of `Replay` |
| Day15.Warehouse.TryMove2 | src/bin/15.rs:158-220 | the answer and the new map are those of `Push` |
| Day15.Warehouse.PushBox | src/bin/15.rs:185-218 | the vertical box branch: the answer and the new map are those of `Vertical` |
| Day15.Warehouse.Walk2 | src/bin/15.rs:262-268 | the map and the position after the move loop are those of `Replay2`, or `None` where a push would panic |
| Day15.Part1 | src/bin/15.rs:93-146 | the robot starts at the last `@` of the row-by-row scan, the final map is `Replay`'s, and the result is that map's GPS sum of `O` boxes |
| Day15.Part2 | src/bin/15.rs:222-283 | the robot starts at the last `@` of the widened map; the result is the GPS sum of the `[` halves after `Replay2`, or `None` where a push would panic |
| Day16.BeforeIsStrict | src/bin/16.rs:71-78 | the pop order of `State` (lower cost first, then greater position, then greater direction index) is a strict order |
| Day16.Top | src/bin/16.rs:92 | `heap.pop()` returns an entry that no other entry is popped ahead of |
| Day16.PopTop | src/bin/16.rs:71-78 | the popped entry is a cheapest one, and removing it takes at most its own (state, cost) pair out of the frontier |
| Day16.PushesAreEdges | src/bin/16.rs:102-113 | the entries pushed after expanding a state are exactly its moves: a step forward (cost 1, same direction) into an in-bounds non-`#` cell, and both quarter turns (cost 1000, direction (d+1)%4 and (d+3)%4) |
| Day16.Expand | src/bin/16.rs:102-113 | the heap after the pushes is the old heap followed by exactly those moves |
| Day16.InvInit | src/bin/16.rs:89-91 | the search starts at cost 0 facing east with an empty cache, and the search invariant holds |
| Day16.PopAtGoal | src/bin/16.rs:92-95 | the first pop at the goal cell carries the lowest score of any route from the start to a goal state |
| Day16.PopSeen | src/bin/16.rs:97-99 | a pop of a state already in the cache is skipped and the invariant still holds |
| Day16.SettleStep | src/bin/16.rs:100-113 | a pop of a new state settles it at its popped cost, pushes its moves, keeps the invariant and leaves fewer states to settle |
| Day16.Dijkstra | src/bin/16.rs:85-117 | `Some(cost)` is the lowest score of a route from the start facing east to the goal cell facing any way; `None` exactly when no route reaches it |
| Day16.Part1 | src/bin/16.rs:119-141 | S and E are the cells the column scan finds last; the answer is that lowest score, and the error exactly when the goal is unreachable |
| Day16.BeforeWithPrevIsStrict | src/bin/16.rs:162-170 | the pop order of `StateWithPrev` (as `State`, then the greater `prev`) is a strict order |
| Day16.PopTopWithPrev | src/bin/16.rs:189 | the entry `dijkstra2` pops is a cheapest one and removing it takes at most its own pair out of the frontier |
| Day16.PushesWithPrevStrip | src/bin/16.rs:220-232 | without their `prev`s, the entries `dijkstra2` pushes are those `dijkstra` pushes |
| Day16.PushesWithPrevAreMoves | src/bin/16.rs:220-232 | each pushed entry is a move out of the popped state at the popped cost plus the move's; the step forward records the popped state as `prev`, the turns keep the popped `prev` |
| Day16.Record | src/bin/16.rs:201-217 | `prevs.entry(key).or_default().push(prev)`: key gains prev when there is one, nothing else changes |
| Day16.PopStale | src/bin/16.rs:193-198 | a pop dearer than the cached cost changes nothing but the heap |
| Day16.PrevIsCheapest | src/bin/16.rs:190-217 | a pop that is the first of its state, or no dearer than the cached cost, is at the state's cheapest cost, and its `prev` lies on a cheapest route to it |
| Day16.RecordCheapest | src/bin/16.rs:201-217 | recording a `prev` that lies on a cheapest route keeps every recorded `prev` on a cheapest route |
| Day16.PopRecord | src/bin/16.rs:189-232 | one recording pass of the loop (cache if new, record `prev`, push moves) keeps the `dijkstra2` invariant |
| Day16.SearchWithPrevs | src/bin/16.rs:183-233 | every state recorded in `prevs` as a way into a state lies on a cheapest route to it |
| Day16.PrevOnBestPath | src/bin/16.rs:250-256 | a recorded way into a goal state, or into a state on a cheapest route to one, is itself on a cheapest route to a goal state |
| Day16.WalkBack | src/bin/16.rs:243-260 | the back-walk from the four goal states always counts the goal cell, and every cell it counts is the goal or lies on a cheapest route to a goal state |
| Day16.Dijkstra2 | src/bin/16.rs:178-274 | the result is `Some` of the number of counted cells, at least 1 because the goal always counts, and every counted cell lies on a best route |
| Day16.Part2 | src/bin/16.rs:276-297 | S and E are found as in `part1`; the result is never the error and counts at least the goal |
| Day17.Combo | src/bin/17.rs:48-57 | operands 0 to 3 stand for themselves and 4 to 6 for the registers; operand 7 has no value |
| Day17.Step | src/bin/17.rs:46-97 | one instruction: `jnz` jumps to its operand when A is non-zero and every other opcode advances `ip` by 2; only `out` appends, one 3-bit value; it panics exactly on an unknown opcode or a combo operand 7 used by `adv`, `bst`, `out`, `bdv` or `cdv` |
| Day17.Run | src/bin/17.rs:40-97 | the loop of `run_program` within its fuel: an empty program is `Crashed`, and a halted run only appends to the output it started with |
| Day17.RunOutput | src/bin/17.rs:83-86 | every value a halted run outputs is below 8 |
| Day17.MoreFuel | src/bin/17.rs:40-97 | more fuel does not change a run that has ended |
| Day17.RunProgram | src/bin/17.rs:34-97 | the loop stops once `ip` has no opcode with its operand left and ends as `Run` says; a halted run outputs only 3-bit values |
| Day17.JoinUnjoin | src/bin/17.rs:99 | the comma-joined output can be read back, and is 2n - 1 characters long for n values |
| Day17.Part1 | src/bin/17.rs:102-124 | the text is present exactly when the run halts, and is then the run's output (every value below 8) joined with commas, which reads back as that output |
| Day17.RunProgram2 | src/bin/17.rs:135-213 | the answer is that of `Verdict`: a panic for a run that panics or outputs a different number of values than the program has, otherwise whether the last index + 1 outputs equal the program's |
| Day17.Verdict | src/bin/17.rs:135-213 | `run_program2`'s answer: present exactly when the run halts with as many outputs as the program has values; at the last index it is true exactly when the program output itself |
| Day17.SameFrom | src/bin/17.rs:205-211 | the comparison loop answers true exactly when the outputs from the first compared index on equal the program from that index on |
| Day17.SetGroupGroups | src/bin/17.rs:226-233 | `(a & !(0b111 << 3k)) \| (i << 3k)` sets 3-bit group k to i and leaves every other group of a unchanged |
| Day17.TopStep | src/bin/17.rs:226 | dropping k + 1 groups is dropping k groups and then one more |
| Day17.TopBound | src/bin/17.rs:226 | x has at most k 3-bit groups exactly when nothing is left above them |
| Day17.FindQuine | src/bin/17.rs:220-243 | the recursive search, with its loop over the values 0 to 7 (0 skipped for the top group), computes `Quine` |
| Day17.Quine | src/bin/17.rs:219-243 | `find_quine` from an index: an answer found before the end of the program is a value of A that makes the program output itself |
| Day17.Candidates | src/bin/17.rs:226-241 | the loop over the values of one group: an answer it finds makes the program output itself |
| Day17.QuineKeepsHighGroups | src/bin/17.rs:226-233 | the search only rewrites the group of its index and the groups after it |
| Day17.CandidatesKeepHighGroups | src/bin/17.rs:227-231 | trying the candidates keeps the groups above the index, and the top group of an answer from index 0 is not 0 |
| Day17.Part2 | src/bin/17.rs:245-267 | an answer found from A = 0 makes the program output itself and has exactly as many octal digits as the program has values |
| Day18.PushesFacts | src/bin/18.rs:70-79 | every entry pushed after a pop is a free in-bounds neighbour one step dearer, and every free neighbour is pushed |
| Day18.InvInit | src/bin/18.rs:55-57 | the queue starts with (0, 0) at cost 0 and nothing seen, and the search invariant holds |
| Day18.FrontCheapest | src/bin/18.rs:59 | the front of the FIFO queue, whose costs never fall and differ by at most one, is its cheapest entry |
| Day18.AtExit | src/bin/18.rs:61-63 | the first pop of the exit carries the length of a shortest route, and the exit is reachable |
| Day18.SkipStale | src/bin/18.rs:64-66 | a pop of a position already seen changes nothing else |
| Day18.PushedLayered | src/bin/18.rs:70-79 | pushing the neighbours one step dearer at the back keeps the queue layered |
| Day18.PushesAreEdges | src/bin/18.rs:70-79 | the pushed entries offer exactly the moves out of the popped position |
| Day18.Settle | src/bin/18.rs:67-79 | a pop of an unseen position settles it at its popped cost, pushes its free neighbours, keeps the invariant and leaves fewer positions to settle |
| Day18.PushNeighbours | src/bin/18.rs:70-79 | the queue after the pushes is the old queue followed by the free in-bounds neighbours in `DIRS` order, one step dearer |
| Day18.QueueDrained | src/bin/18.rs:58-82 | an empty queue means the exit is not reachable |
| Day18.Bfs | src/bin/18.rs:54-83 | `Some(cost)` is the length of a shortest route from (0, 0) to (size-1, size-1) over free cells; `None` exactly when there is no route |
| Day18.FallOne | src/bin/18.rs:95-97 | one more fallen byte adds exactly its coordinate to the corrupted set |
| Day18.FewerCorruptions | src/bin/18.rs:73-75 | a route around a superset of corrupted cells is a route, of the same cost, around the subset |
| Day18.CutStaysCut | src/bin/18.rs:134-141 | once the exit is cut off it stays cut off as more bytes fall |
| Day18.Part1 | src/bin/18.rs:85-111 | the shortest route once the first `num_fallen` bytes have fallen, and the error exactly when there is none |
| Day18.Part2 | src/bin/18.rs:124-145 | the error exactly when the exit stays reachable after every byte; otherwise the byte whose fall first cuts the exit off, every earlier prefix leaving it reachable |
| Day19.MakeableFromIff | src/bin/19.rs:38-46 | the towels from index j on include one that matches at i and leaves a makeable rest, stated without the loop order |
| Day19.MakeableIff | src/bin/19.rs:35-47 | a design can be made from i on exactly when i is at its end or some towel is a prefix of the rest and the rest after it can be made |
| Day19.MakeableIffWays | src/bin/19.rs:83-99 | a design can be made exactly when there is at least one way to make it |
| Day19.WaysWithPositive | src/bin/19.rs:91-96 | the first n towels give a way exactly when one of them matches and leaves a makeable rest |
| Day19.CanMake | src/bin/19.rs:31-49 | `can_make` answers whether the rest can be made, keeps every table entry the uncached answer and never removes one, and records the answer at a position inside the design |
| Day19.NumWays | src/bin/19.rs:83-99 | `num_ways` returns the number of ways to make the rest, under the same table discipline |
| Day19.CountAtMostWays | src/bin/19.rs:51-121 | every makeable design has at least one way, so part 1's answer never exceeds part 2's |
| Day19.Part1 | src/bin/19.rs:51-71 | the number of designs that can be made, each checked with a fresh table |
| Day19.Part2 | src/bin/19.rs:101-121 | the ways summed over all designs, each counted with a fresh table |
| Day20.BeforeIsStrict | src/bin/20.rs:55-62 | the pop order of `State` (lower cost first, then greater position, cheat start and cheat end, `None` least) is a strict order |
| Day20.Top | src/bin/20.rs:77 | `heap.pop()` returns an entry that no other entry is popped ahead of |
| Day20.PopTop | src/bin/20.rs:77 | the popped entry is a cheapest one, and removing it takes at most its own pair out of the frontier |
| Day20.MovesAreEdges | src/bin/20.rs:86-93 | the entries `dijkstra_shortest` pushes out of a cell are exactly its racetrack moves, each one step dearer |
| Day20.PushMoves | src/bin/20.rs:86-93 | the heap after the pushes is the old heap followed by the in-bounds, non-`#` neighbours in `DIRS` order, one step dearer, cheat fields carried along |
| Day20.PopAnswer | src/bin/20.rs:78-80 | every popped entry, stale or not, carries the cost of a real route from the goal, so the reassigned answer stays a route cost |
| Day20.PopSeen | src/bin/20.rs:82-84 | a pop of a cell already in the cache is skipped and the search invariant still holds |
| Day20.SettleStep | src/bin/20.rs:85-93 | a pop of a new cell caches it at its distance from the goal, pushes its moves and leaves fewer cells to settle |
| Day20.DistDone | src/bin/20.rs:77-96 | with the heap drained, the cache holds exactly the cells the goal reaches, each with its distance |
| Day20.DijkstraShortest | src/bin/20.rs:70-97 | the cache becomes the distance table of every cell reachable from the goal; the answer is `None` exactly when the start cannot be reached, and otherwise the cost of a route between goal and start |
| Day20.ReverseTrack | src/bin/20.rs:86-93 | a route whose first cell is open can be walked backwards, so distances from the goal are distances to it |
| Day20.DistanceToGoal | src/bin/20.rs:100 | when the goal is not a wall, every cached value is the length of a shortest route from that cell to the goal |
| Day20.TotalRemove | src/bin/20.rs:186 | the sum of a map's values does not depend on which key is taken first |
| Day20.BumpTotal | src/bin/20.rs:143 | `*answers.entry(k).or_default() += 1` adds exactly one to the sum of the values |
| Day20.SumValues | src/bin/20.rs:186 | `answers.values().sum()` is the sum of the map's values |
| Day20.CheatPushesFacts | src/bin/20.rs:151-178 | every entry the cheat search pushes is one of its moves out of the popped entry, one step dearer, and stays on the track inside the key universe |
| Day20.PushFresh | src/bin/20.rs:168-178 | before a cheat: for each in-bounds neighbour, a plain step if it is not a wall, then always the first cheat step with `cheat_duration - 1` steps left and the cheat start recorded |
| Day20.PushActive | src/bin/20.rs:151-163 | during a cheat with steps left: for each in-bounds neighbour, a cheat step, then the cheat's end there if it is not a wall |
| Day20.ExpandCheats | src/bin/20.rs:131-178 | the pushes are `PushFresh`'s before a cheat, `PushActive`'s during a cheat with steps left, and nothing otherwise |
| Day20.ExpandStep | src/bin/20.rs:123-126 | remembering a new key and pushing its moves keeps the invariant and leaves fewer keys unseen |
| Day20.PopDuplicate | src/bin/20.rs:123-125 | a pop whose key has been seen changes nothing but the heap |
| Day20.CountStep | src/bin/20.rs:137-145 | counting an ended cheat within the budget keeps the tally, and its (start, end) pair was not counted before because its key was not yet seen |
| Day20.CountShortest | src/bin/20.rs:101-187 | the result is the number of distinct (cheat start, cheat end) pairs counted, each reachable by a cheating route whose cost plus the end's distance to the goal is within the budget; `None` (the panic) only when some reachable cheat end has no distance |
| Day20.Race | src/bin/20.rs:189-216 | S and E are the cells the column scan finds last; the distance table is filled; a result means the start is reachable, the saving is at most the shortest answer, and every pair it counts is a good cheat within `shortest - save_at_least` (soundness only) |
| Day20.Part1 | src/bin/20.rs:189-216 | `Race` with cheats of at most 2 steps (soundness only) |
| Day20.Part2 | src/bin/20.rs:228-255 | `Race` with cheats of at most 20 steps (soundness only) |

## Left out

- Reading input files, parsing, `start_day`, `time_snippet!` and the answers printed: the model starts from parsed grids, lists and numbers.
- The rendering helpers (`print_map`, `print_state`, `print_blocks`, the map dumps in `dijkstra2`): they only write output.
- `src/bin/03.rs`: its parsing is built on the `regex` library, which is not part of this model.
- Day13: `f1` and the part 1 and part 2 totals built on it compute with `f64` slopes and rounding; floating point is not modelled. `dijkstra` and `min_cost_old` (as `TokensOrZero`) are modelled.
- Day14: part 2 is a visual search that sleeps and prints maps for a person to look at; only part 1 is modelled.
- `BinaryHeap`, `HashMap` and `HashSet` internals: a heap is a sequence popped in the solver's order, maps and sets are Dafny `map` and `set`. Ties the `Ord` calls equal (day 20 ignores `cheat_duration_left`) are popped in an unspecified order.
- Machine integer widths: numbers are unbounded `nat`/`int`. `u32`, `u64` and `usize` overflow are not modelled, and neither are `i32` wrap-around in day 14, shifts of 64 bits or more in day 17, and `stone * 2024` in day 11. A `usize` subtraction below zero becomes `None` in day 20's `Race` and a precondition elsewhere. Day 9's `gauss_sum(0, 0)` computes `0 + 0 - 1`, which underflows, but the model gives 0.
- Fuel: `Day06.Patrol`, `Day16.SearchWithPrevs`, `Day17.Run` and `Day17.Quine` take a `fuel` bound for loops the source runs until the input stops them. In days 6 and 17 a run that uses up its fuel is reported as unfinished, not as the source's endless loop.
- Day16.SearchWithPrevs: when its fuel runs out before the heap drains, the loop stops without saying so, and `Day16.Dijkstra2` and `Day16.Part2` count tiles from the prevs recorded so far. The source drains the heap. The count is still sound, because every recorded prev is cheapest, but it can be smaller than the source's.
- The sample answers asserted in the sources are not proved: 7036 and 11048, 45 and 64 (16); 44 and 285 (20); 22 and `6,1` (18); 480 (13); 10092 and 9021 (15); 41 and 6 (6); `4,6,3,5,6,3,5,2,1,0` and 117440 (17); 1928 and 2858 (9); 143 and 123 (5); 1930 and 1206 (12); 36 and 81 (10); 14 and 34 (8); 55312 (11); 6 and 16 (19); 12 (14); 18 and 9 (4); 2 and 4 (2); 11 and 31 (1). Evaluating the solvers on those literals is far beyond what the verifier can unfold. Per-line sample facts are proved instead for days 2 and 7.
- Day05.KahnSort: soundness only. Whatever the sort returns lists only the update's pages and obeys every rule. That it returns all the pages when the rules have no cycle is not proved.
- Day16.Dijkstra2: soundness only. Every counted tile is the goal or lies on a cheapest route to some goal state. The source counts cheapest routes per facing at the goal, not overall, and the back-walk skips a tile once seen under any facing. So the count is not claimed to equal the number of tiles on best routes.
- Day16.Part2: as `Day16.Dijkstra2`, soundness only.
- Day20.CountShortest: soundness only. Each counted (cheat start, cheat end) pair is distinct and is reached by a cheating route within the budget. That every such pair is counted is not proved.
- Day20.DijkstraShortest: the returned cost is that of some route from the start to the goal (the last pop at the start, stale pops included). That it is the shortest is not claimed, because a stale pop can be dearer.
- Day20.Race: as `Day20.CountShortest` and `Day20.DijkstraShortest`, soundness only. Every counted pair is a good cheat within the cost `DijkstraShortest` returns minus `saveAtLeast`. That every such cheat is counted is not proved, and neither is that cost being the shortest.
- Day20.Part1: as `Day20.Race` with cheats of 2 steps, soundness only.
- Day20.Part2: as `Day20.Race` with cheats of 20 steps, soundness only.
- Preconditions the source relies on without checking, each kept as a `requires`:
  - Every map has at least one row, and all its rows are as long as the first (`Common.IsGrid`, required by every grid day). The source reads the width from the first row (`input[0].len()` or `map[0].len()`, for example at 04.rs line 43, 06.rs line 45 and 16.rs line 87), so an empty input panics there, and it indexes every row up to that width.
  - Day07 values are positive (`result % cur` panics on 0).
  - Day19 towels have at least one stripe each (an empty towel makes both recursions loop for ever).
  - Day06's `Part1` needs a non-empty first row: with no `^` found the guard starts at (0, 0), where the walk writes `X` into `input[0][0]`.
  - Day04's `Part2` needs a non-empty first row once the map has three rows (`width - 1` is a `usize`).
  - Day15 maps have a non-empty first row, and day 15 part 2 maps hold only `#`, `O`, `@` and `.`.
  - Day18's `Part1` lets at most as many bytes fall as the input lists.
- Day02.SafeCountAtMostDampened: stated for lists of non-empty reports only; an empty report is safe but cannot have a level removed, as `Day02.ShortReports` shows.
- Day08: part 2 marks the whole multiples of the offset between two antennas, as the code does; the cells in between that a common divisor would put on the line are not marked.

## Findings

| source | as written | input that shows it | evidently intended | confidence | as-written member | corrected member |
|---|---|---|---|---|---|---|
| src/bin/09.rs:60-77 | the loop filling a gap goes on taking blocks from the back after the front and back indices have met, so file blocks are counted twice | disk map `1113111` gives 15 | 11, the checksum of `0.1...2.3` compacted to `0312` | not executed | Day09.AsWrittenCountsTwice | Day09.Part1 |
| src/bin/10.rs:43-54 | `seen` is allocated `height` rows of `width` but indexed `seen[x][y]`, so `dfs` indexes out of range on a map wider than it is tall | the one-row map `0123456789` panics | score 1, with `seen[y][x]` | not executed | Day10.DfsAsWritten | Day10.Dfs |
| src/bin/07.rs:31-38 | `can_make` accepts as soon as the remaining result is 0, even with values still unused | equation `5: 3 5` is accepted | rejected, since 3 + 5 = 8 and 3 · 5 = 15 | not executed | Day07.AsWrittenAcceptsUnsolvable | Day07.CanMakeIff |

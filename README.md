# Advent of Code 2017 solutions, modelled in Dafny

This project models eight of the daily puzzle solutions of the repository and proves what
they compute. Each day is one module in one file; `common.dfy` holds what several days share.

| file | module | day | what it models |
|---|---|---|---|
| `spiral.dfy` | `Spiral` | 3 | the square spiral numbering: the closed-form maps between a square's number and its coordinates, the Manhattan distance to square 1, and the loop that writes the sums of neighbours |
| `hexgrid.dfy` | `HexGrid` | 11 | the six moves on an axial hex grid, the cube-coordinate distance and the walk that tracks the furthest distance |
| `knothash.dfy` | `KnotHash` | 14 | the knot hash: circular in-place reversals over 64 rounds, XOR folding to 16 bytes and hexadecimal output |
| `regions.dfy` | `DiskRegions` | 14 | counting used squares and the 4-connected regions of used squares with a worklist flood fill |
| `dance.dfy` | `Dance` | 16 | the dance of spin, exchange and partner moves on a line stored as a list plus a start offset, the permutation it produces, and the repeated application of that permutation with a double buffer |
| `duet.dfy` | `Duet` | 18 | the register machine: decoding lines into instructions, their effect on 26 registers and two FIFO mailboxes, the single-program "recover" run, and two `Program` objects stepped in turn until neither makes progress |
| `tubes.dfy` | `Tubes` | 19 | the packet walking a routing diagram: its start, its turns, the letters it collects and the steps it takes |
| `fractal.dfy` | `Fractal` | 21 | square pictures stored as flat boolean lists: cells, blocks, flips and turns, the bit-packing hash, rules matched over the eight orientations, enhancement and iteration, and the text form of patterns and rules |
| `fractal_example.dfy` | `FractalExample` | 21 | the worked example of the puzzle text: the two rule lines read, and two enhancements of the start picture giving 12 pixels on |
| `tower.dfy` | `Tower` | 7 | reading the tower of programs into a name table, memoised total weights held in a `Tower` object, the leaves and the siblings of a program, the root, and the weight correction among three or more siblings |
| `tower_example.dfy` | `TowerExample` | 7 | the worked example of the puzzle text read from its thirteen lines: the text of a line read back as its entry, reading a whole file of such lines, the root `tknk` and the correction of `ugml` to 60 |
| `common.dfy` | `Common` | all | `Option`/`Result`, Python's `int()` on a token, Python's `%` and list indexing, whitespace stripping, swapping |

Where the source changes objects in place, the model does too. Such an object is a `class`, and
its methods are proved against functions on values: `Tower`, `Duet.Program`,
`Duet.Mailbox`, `Dance.Programs`, `Fractal.Pattern` and `Tubes.Map`. An in-place loop over a list
becomes a method over an `array`: `KnotHash.Reverse`, `Dance.ApplyTransforms`, and the flood fill
of `DiskRegions`, whose flags are an `array2`. Pure code becomes functions, and the properties are proved as lemmas about them.
Most exceptions the source raises appear in the model as error values. A few inputs are
excluded by a precondition instead, and each of these is listed under "Left out":
- an irregular diagram for `Tubes.Map.constructor`;
- a ragged grid for `DiskRegions`;
- a transform list that is not an index map for `Dance.ApplyTransforms`;
- a rule table whose outputs do not grow by one for the enhancement in `Fractal`;
- Unicode digits other than `0`-`9` for `Common.ParseInt`.
The source's loops that need not stop take a `fuel` bound, also listed below.

## Model

| member | source | states |
|---|---|---|
| Spiral.InnerPointsNext | day_3.py:68-69 | the inner square count grows by 8r from ring r to ring r + 1 |
| Spiral.FindIndexOnRing | day_3.py:65-79 | `find_index` numbers the centre 1 and puts every square of ring r strictly after the (2r-1)^2 inner squares and at most at (2r+1)^2 |
| Spiral.CeilSqrt | day_3.py:83 | the result is the least c with c*c >= n, the integer value of `math.ceil(math.sqrt(n))` |
| Spiral.IndexRadiusRing | day_3.py:83-86 | the radius `find_coordinates` computes is the ring whose number range holds the index, and radius 0 only for index 1 |
| Spiral.RingIndexRadius | day_3.py:83 | every index in ring r's number range gets radius r |
| Spiral.FindCoordinatesRadius | day_3.py:81-98 | the coordinates found lie on the ring of the computed radius |
| Spiral.IndexOfCoordinates | day_3.py:65-98 | `find_index(find_coordinates(i)) == i` for every index i >= 1 |
| Spiral.CoordinatesOfIndex | day_3.py:65-98 | every square's index is at least 1 and `find_coordinates(find_index(c)) == c`: the two maps are inverse bijections |
| Spiral.CountStepsFromOne | day_3.py:100-103 | square 1 is 0 steps away |
| Spiral.CountStepsFromTwelve | day_3.py:100-103 | square 12 is 3 steps away |
| Spiral.CountStepsFromTwentyThree | day_3.py:100-103 | square 23 is 2 steps away |
| Spiral.CountStepsFrom1024 | day_3.py:100-103 | square 1024 is 31 steps away |
| Spiral.IteratePrefix | day_3.py:107-131 | values once appended to `numbers` never change: each shorter run is a prefix of each longer one |
| Spiral.FindIndexPositive | day_3.py:123 | `find_index(...) - 1` is never negative, so `numbers[index]` never wraps around |
| Spiral.AddNeighbour | day_3.py:123-125 | one pass of the inner loop adds exactly the stored value of that neighbour, or nothing for an unwritten square |
| Spiral.NextValue | day_3.py:110-125 | the nested loops compute the sum of the stored values of the eight neighbours of square len(numbers)+1 |
| Spiral.FindFirstLarger | day_3.py:105-131 | a returned value is the first written value after square 1 that exceeds `value`, and it exceeds it; `None` only when every value within the fuel bound is at most `value` |
| Spiral.StoredIs | day_3.py:123-125 | a square whose number is known reads the value stored at that index, or 0 when it is not written yet |
| Spiral.NeighbourSumIs | day_3.py:110-125 | the next value is the sum of the stored values of the eight squares around the square numbered len(numbers)+1 |
| Spiral.NeighbourSumOfSquareTwo | day_3.py:43 | square 2, at (1, 0), is written 1: the sum of its written neighbours among the values of squares 1 to 1 |
| Spiral.NeighbourSumOfSquareThree | day_3.py:44 | square 3, at (1, 1), is written 2: the sum of its written neighbours among the values of squares 1 to 2 |
| Spiral.NeighbourSumOfSquareFour | day_3.py:45 | square 4, at (0, 1), is written 4: the sum of its written neighbours among the values of squares 1 to 3 |
| Spiral.NeighbourSumOfSquareFive | day_3.py:46 | square 5, at (-1, 1), is written 5: the sum of its written neighbours among the values of squares 1 to 4 |
| Spiral.NeighbourSumOfSquareSix | day_3.py:52-56 | square 6, at (-1, 0), is written 10: the sum of its written neighbours among the values of squares 1 to 5 |
| Spiral.NeighbourSumOfSquareSeven | day_3.py:52-56 | square 7, at (-1, -1), is written 11: the sum of its written neighbours among the values of squares 1 to 6 |
| Spiral.NeighbourSumOfSquareEight | day_3.py:52-56 | square 8, at (0, -1), is written 23: the sum of its written neighbours among the values of squares 1 to 7 |
| Spiral.NeighbourSumOfSquareNine | day_3.py:52-56 | square 9, at (1, -1), is written 25: the sum of its written neighbours among the values of squares 1 to 8 |
| Spiral.NeighbourSumOfSquareTen | day_3.py:52-56 | square 10, at (2, -1), is written 26: the sum of its written neighbours among the values of squares 1 to 9 |
| Spiral.NeighbourSumOfSquareEleven | day_3.py:52-56 | square 11, at (2, 0), is written 54: the sum of its written neighbours among the values of squares 1 to 10 |
| Spiral.NeighbourSumOfSquareTwelve | day_3.py:52-56 | square 12, at (2, 1), is written 57: the sum of its written neighbours among the values of squares 1 to 11 |
| Spiral.NeighbourSumOfSquareThirteen | day_3.py:52-56 | square 13, at (2, 2), is written 59: the sum of its written neighbours among the values of squares 1 to 12 |
| Spiral.NeighbourSumOfSquareFourteen | day_3.py:52-56 | square 14, at (1, 2), is written 122: the sum of its written neighbours among the values of squares 1 to 13 |
| Spiral.NeighbourSumOfSquareFifteen | day_3.py:52-56 | square 15, at (0, 2), is written 133: the sum of its written neighbours among the values of squares 1 to 14 |
| Spiral.NeighbourSumOfSquareSixteen | day_3.py:52-56 | square 16, at (-1, 2), is written 142: the sum of its written neighbours among the values of squares 1 to 15 |
| Spiral.NeighbourSumOfSquareSeventeen | day_3.py:52-56 | square 17, at (-2, 2), is written 147: the sum of its written neighbours among the values of squares 1 to 16 |
| Spiral.NeighbourSumOfSquareEighteen | day_3.py:52-56 | square 18, at (-2, 1), is written 304: the sum of its written neighbours among the values of squares 1 to 17 |
| Spiral.NeighbourSumOfSquareNineteen | day_3.py:52-56 | square 19, at (-2, 0), is written 330: the sum of its written neighbours among the values of squares 1 to 18 |
| Spiral.NeighbourSumOfSquareTwenty | day_3.py:52-56 | square 20, at (-2, -1), is written 351: the sum of its written neighbours among the values of squares 1 to 19 |
| Spiral.NeighbourSumOfSquareTwentyOne | day_3.py:52-56 | square 21, at (-2, -2), is written 362: the sum of its written neighbours among the values of squares 1 to 20 |
| Spiral.NeighbourSumOfSquareTwentyTwo | day_3.py:52-56 | square 22, at (-1, -2), is written 747: the sum of its written neighbours among the values of squares 1 to 21 |
| Spiral.NeighbourSumOfSquareTwentyThree | day_3.py:52-56 | square 23, at (0, -2), is written 806: the sum of its written neighbours among the values of squares 1 to 22 |
| Spiral.IterateMatches | day_3.py:107-131 | a sequence that starts with 1 and whose every later value is the neighbour sum of the values before it is the sequence of written values |
| Spiral.WrittenFirstValues | day_3.py:49-56 | the first 23 values written are 1, 1, 2, 4, 5, 10, 11, 23, 25, 26, 54, 57, 59, 122, 133, 142, 147, 304, 330, 351, 362, 747, 806 |
| Spiral.FirstValuesBelow747 | day_3.py:52-56 | every one of those values but the last is at most 747 |
| Spiral.FirstLargerThan747 | day_3.py:52-56 | the 22nd value written after square 1 is 806 and every earlier one is at most 747 |
| Spiral.FindFirstLargerThan747 | day_3.py:105-131 | `find_first_larger(747)` returns 806 |
| HexGrid.ParseDirection | day_11.py:46-57 | a direction is recognised only from its own name |
| HexGrid.ParseName | day_11.py:46-57 | each of the six names is recognised as its own direction |
| HexGrid.MakeMoveAsWritten | day_11.py:44-59 | as written: a known direction moves to its neighbour, and any other string fails with TypeError |
| HexGrid.UnknownDirectionRaisesTypeError | day_11.py:58-59 | `"x"` and `"n\n"` fail with TypeError, not ValueError |
| HexGrid.MakeMove | day_11.py:44-59 | as intended: a known direction moves to its neighbour, and exactly the unknown directions fail with ValueError |
| HexGrid.MoveIsOneStep | day_11.py:44-57 | every move goes to a hex at distance 1 |
| HexGrid.CubeSumEven | day_11.py:74-75 | abs(x)+abs(y)+abs(z) is even, so the division by 2 in `int(... / 2)` is exact |
| HexGrid.DistanceZeroIffOrigin | day_11.py:74-75 | the distance is 0 exactly at the start |
| HexGrid.OppositeMovesCancel | day_11.py:44-57 | a move followed by the opposite move returns to the same hex |
| HexGrid.MoveChangesDistanceByAtMostOne | day_11.py:71-75 | one move changes the distance by at most 1 |
| HexGrid.SomeMoveApproachesOrigin | day_11.py:44-57 | from any hex but the start some move brings it one step closer, so the distance is the fewest steps |
| HexGrid.FollowOk | day_11.py:69-71 | the walk succeeds exactly when every move names a direction |
| HexGrid.FollowDistanceBound | day_11.py:69-75 | after n moves the distance is at most n |
| HexGrid.MaxDistanceBound | day_11.py:76 | the largest distance is at least the distance after every prefix of the moves |
| HexGrid.MaxDistanceAttained | day_11.py:76 | a positive largest distance is reached after some prefix of the moves |
| HexGrid.Prefix | day_11.py:69-71 | once a move fails, the whole walk fails the same way |
| HexGrid.Walk | day_11.py:66-79 | the loop fails exactly when the walk fails, with the same error; otherwise it ends at the walk's final hex with `distance` the distance there and `max_distance` the largest distance after any move |
| HexGrid.FollowNames | day_11.py:64-71 | walking the names of directions never fails and reaches where the directions lead |
| HexGrid.ExampleThreeNorthEast | day_11.py:28 | ne,ne,ne ends at (3, -3) |
| HexGrid.ExampleThereAndBack | day_11.py:29 | ne,ne,sw,sw returns to the start |
| HexGrid.ExampleNorthEastThenSouth | day_11.py:30 | ne,ne,s,s ends at (0, -2) |
| HexGrid.ExampleZigZag | day_11.py:31 | se,sw,se,sw,sw ends at (-3, 1) |
| HexGrid.ExampleDistances | day_11.py:28-31 | those ends are 3, 2 and 3 steps away |
| KnotHash.WrapDistinct | day_14.py:87-88 | two different steps within one lap land on different list positions |
| KnotHash.SwapsMultiset | day_14.py:86-89 | any number of the swaps of `reverse` keeps the same multiset of marks |
| KnotHash.ReversedMultiset | day_14.py:85-89 | `reverse` only permutes the list |
| KnotHash.ReversedShape | day_14.py:85-89 | for a length within the list, `reverse` puts the mark from step length-1-k at step k of the section, and leaves every position outside the section unchanged |
| KnotHash.Reverse | day_14.py:85-89 | the in-place loop on the array leaves exactly the reversed list, a permutation of the old one |
| KnotHash.Marks | day_14.py:93 | the starting list holds 0..255 in order |
| KnotHash.Lengths | day_14.py:97 | the lengths are the character codes of the input followed by 17, 31, 73, 47, 23 |
| KnotHash.TwistTied | day_14.py:101-103 | one length keeps the marks a permutation of 0..255 and the position and skip in 0..255 |
| KnotHash.TwistAllTied | day_14.py:100-103 | so does a whole round of lengths |
| KnotHash.RoundsTied | day_14.py:99-103 | so do any number of rounds |
| KnotHash.PermutationHoldsBytes | day_14.py:93 | a permutation of 0..255 holds bytes only |
| KnotHash.SparseHashPermutation | day_14.py:93-103 | the sparse hash is a permutation of 0..255, so every entry is a byte |
| KnotHash.XorStep | day_14.py:107-108 | one more `^=` adds the next entry to the running XOR of the block |
| KnotHash.Dense | day_14.py:105-108 | the dense hash has 16 bytes, byte i the XOR of entries 16i..16i+15 |
| KnotHash.HexValue | day_14.py:110 | a hex digit's value is below 16 and names that digit back |
| KnotHash.HexValueOfDigit | day_14.py:110 | the value of the digit of v is v |
| KnotHash.HexByte | day_14.py:110 | `'{:02x}'` of a byte is two hex digits |
| KnotHash.HexString | day_14.py:110 | the joined string has two hex digits per byte |
| KnotHash.ParseHexSnoc | day_14.py:110 | reading two more digits appends one byte |
| KnotHash.ParseHexByte | day_14.py:110 | the two digits `'{:02x}'` writes read back as the same byte |
| KnotHash.ParseHexString | day_14.py:110 | the hex string reads back as the dense hash: the formatting loses nothing |
| KnotHash.KnotHash | day_14.py:92-111 | the hash is 32 characters long |
| KnotHash.KnotHashDigits | day_14.py:92-111 | the hash is 32 hex digits that read back as the 16 dense-hash bytes |
| KnotHash.TieKnot | day_14.py:93-103 | the 64 rounds on the array leave the marks of 64 rounds of the lengths from 0..255 |
| KnotHash.Condense | day_14.py:105-108 | the XOR loops compute the dense hash of the array |
| KnotHash.ComputeHash | day_14.py:92-111 | `compute_hash` returns the knot hash of the input |
| DiskRegions.InUsedCells | day_14.py:114-115 | a square is among the used cells exactly when it is used |
| DiskRegions.RowCellsCount | day_14.py:115 | the used squares of a row are as many as `sum(row)` counts |
| DiskRegions.UsedRowsStep | day_14.py:115 | the used squares of one more row are added, and they are new |
| DiskRegions.UsedRowsCount | day_14.py:115 | the used squares of the first rows are as many as their row sums add up to |
| DiskRegions.CountUsedBlocksCells | day_14.py:114-115 | `count_used_blocks` is the number of used squares |
| DiskRegions.ReachesStep | day_14.py:140-147 | a reachable square's used, unblocked neighbour is reachable too |
| DiskRegions.ConnectedSymmetric | day_14.py:53-56 | connection between used squares is symmetric |
| DiskRegions.ConnectedTransitive | day_14.py:53-56 | connection is transitive |
| DiskRegions.InOwnRegion | day_14.py:53-56 | every used square lies in its own region |
| DiskRegions.RegionOfMember | day_14.py:53-56 | any member of a region has that same region |
| DiskRegions.RegionsDisjoint | day_14.py:53-56 | two different regions share no square, so every used square is in exactly one region |
| DiskRegions.RegionsAtMostBlocks | day_14.py:114-130 | there are never more regions than used squares |
| DiskRegions.ClosedHoldsReach | day_14.py:133-147 | a set closed under used, unblocked neighbours holds everything reachable from a member |
| DiskRegions.ReachesAvoiding | day_14.py:124-127 | squares of other regions never cut a walk within a region |
| DiskRegions.VisitKeepsOrder | day_14.py:135-147 | popping, visiting and pushing the unvisited used neighbours keeps every visited square's neighbours visited, blocked or waiting |
| DiskRegions.OpenNeighboursExactly | day_14.py:140-147 | one visit pushes exactly the unflagged used neighbours |
| DiskRegions.PushStep | day_14.py:141-147 | one pass of the offset loop pushes the vertical then the horizontal neighbour when open |
| DiskRegions.PushNeighbours | day_14.py:140-147 | the offset loop pushes exactly the open neighbours, in push order |
| DiskRegions.OpenIsFree | day_14.py:142-146 | a flagged-or-not test on the array agrees with "blocked or visited" |
| DiskRegions.VisitStep | day_14.py:135-147 | one pop of the worklist moves the frontier invariant forward |
| DiskRegions.ExploreRegion | day_14.py:133-147 | `explore_region` flags exactly the squares flagged before plus those reachable from the start over used unflagged squares |
| DiskRegions.ReachedUsed | day_14.py:142-146 | only used squares are ever reached |
| DiskRegions.ExploreStep | day_14.py:124-128 | exploring from the first unflagged used square flags exactly one more region |
| DiskRegions.ScanSkip | day_14.py:124-125 | a free or already flagged square is skipped |
| DiskRegions.AllFound | day_14.py:121-130 | after the scan every region has been found |
| DiskRegions.CountUsedRegions | day_14.py:118-130 | `count_used_regions` returns the number of regions |
| Dance.Range | day_16.py:55 | the starting line holds 0..n-1 in order |
| Dance.IndexOf | day_16.py:73-74 | `list.index` finds the first position holding the value |
| Dance.RangeIsPermutation | day_16.py:55 | the starting line is a permutation of 0..n-1 |
| Dance.SwapKeepsPermutation | day_16.py:70 | swapping two positions keeps a permutation |
| Dance.RotatedKeepsPermutation | day_16.py:58-62 | reading the line from any start keeps a permutation |
| Dance.SwapValuesKeepsPermutation | day_16.py:72-75 | swapping two programs by name keeps a permutation |
| Dance.SpinRotatesLine | day_16.py:64-65 | moving `start` back by `count` is the spin of the line as seen from `start`: the last `count` programs move to the front in order |
| Dance.ExchangeSwapsLine | day_16.py:67-70 | swapping the stored positions `start + pos` swaps positions `pos1` and `pos2` of the line as seen from `start` |
| Dance.PartnerSwapsLine | day_16.py:72-75 | swapping where two programs are stored swaps the two programs in the line as seen from any start |
| Dance.RotatedFromZero | day_16.py:58-62 | read from start 0 the line is the stored list |
| Dance.RotatedSameMembers | day_16.py:58-62 | the line holds the same programs as the stored list |
| Dance.SplitJoin | day_16.py:86 | `split('/')` loses nothing: joining the pieces gives the string back, and no piece holds a separator |
| Dance.SpinMoveKeepsPermutation | day_16.py:83-84 | a spin that parses keeps a permutation |
| Dance.SpinKeepsPermutation | day_16.py:64-65 | a spin by any count keeps a permutation |
| Dance.ExchangeMoveKeepsPermutation | day_16.py:87-88 | an exchange that parses keeps a permutation |
| Dance.PartnerMoveKeepsPermutation | day_16.py:89-91 | a partner move that succeeds keeps a permutation |
| Dance.MoveKeepsPermutation | day_16.py:81-93 | any move that succeeds keeps a permutation |
| Dance.PerformKeepsPermutation | day_16.py:78-95 | a dance that succeeds ends in a permutation |
| Dance.PartnerSkipped | day_16.py:89-91 | without partner moves a `p` move leaves the line as it is |
| Dance.UnknownMoveFails | day_16.py:92-93 | a move starting with anything but s, x or p raises the unknown-command error |
| Dance.Programs.Line | day_16.py:58-62 | the line as seen from `start` has one entry per program |
| Dance.Programs.constructor | day_16.py:54-56 | a new line holds 0..n-1 with start 0 |
| Dance.Programs.GetTransforms | day_16.py:58-62 | `get_transforms` returns the line as seen from `start`, a permutation |
| Dance.Programs.Spin | day_16.py:64-65 | `spin` changes only `start`, by `-count` modulo the length, and the line becomes its spin |
| Dance.Programs.Exchange | day_16.py:67-70 | `exchange` swaps the two stored places and so the two line positions, `start` unchanged |
| Dance.Programs.Partner | day_16.py:72-75 | `partner` fails as the partner move does, changing nothing then, and otherwise swaps the two programs in the line |
| Dance.DoSpin | day_16.py:83-84 | the `s` branch does to the object what the spin move does to the line |
| Dance.DoExchange | day_16.py:86-88 | the `x` branch does to the object what the exchange move does to the line |
| Dance.Dispatch | day_16.py:82-93 | one pass of the command loop does to the object what the move does to the line, errors included |
| Dance.GetTransformsOf | day_16.py:78-95 | `get_transforms` of the commands is the dance performed on 0..n-1, or its first error, and a permutation when it succeeds |
| Dance.PerformErrStays | day_16.py:81-93 | once a move fails the whole dance fails with that error |
| Dance.ApplyAdd | day_16.py:104-110 | a rounds then b rounds equal a + b rounds |
| Dance.StepAssociative | day_16.py:106 | one permutation step after another is the step by the composed index map |
| Dance.StepKeepsIndexMap | day_16.py:106 | composing two index maps gives an index map |
| Dance.ApplyThroughPower | day_16.py:98-112 | n rounds by `t` equal one step by the index map of n rounds |
| Dance.ApplyPower | day_16.py:98-112 | b rounds by the map of a rounds equal a * b rounds |
| Dance.IdentityStep | day_16.py:106 | stepping 0..n-1 by `t` gives `t` |
| Dance.BillionRounds | day_16.py:133-136 | three nested thousands of rounds give one billion rounds, the shortcut `main` takes |
| Dance.ApplyTransforms | day_16.py:98-112 | the double-buffered loop returns `repeats` rounds of the index map |
| Dance.Round | day_16.py:105-106 | one pass writes `destination[i] = source[transforms[i]]` for all i |
| Dance.NamesRoundTrip | day_16.py:115-116 | each letter `transforms_to_string` writes reads back as its program number |
| Dance.SpinExamples | day_16.py:12-13 | s1 and s3 on five programs give eabcd and cdeab |
| Dance.FirstMove | day_16.py:19 | s1 on abcde gives eabcd |
| Dance.SecondMove | day_16.py:20 | x3/4 on eabcd gives eabdc |
| Dance.ThirdMove | day_16.py:21 | pe/b on eabdc gives baedc |
| Dance.FiveProgramNames | day_16.py:23 | the final line is written baedc |
| Dance.FiveProgramDance | day_16.py:16-23 | the whole example dance on five programs ends in baedc |
| Duet.Words | day_18.py:261 | every token `split()` returns is a non-empty run of non-whitespace characters |
| Duet.WordsOfUnwords | day_18.py:261 | splitting tokens joined by single spaces gives back exactly those tokens |
| Duet.WordsIgnoreTrailingSpace | day_18.py:261 | trailing whitespace never changes the tokens `split()` finds |
| Duet.WordsOfRStrip | day_18.py:261 | `line.rstrip().split()` gives the same tokens as `line.split()`, so the `rstrip` only drops the newline |
| Duet.DecodeOperand | day_18.py:136-143 | `generate_get_value` gives a literal exactly when `int()` accepts the token, with that value; a register exactly when `int()` rejects it and it is one character long; a "Wrong registry name" error exactly when `int()` rejects it and it is not one character long |
| Duet.Lookup | day_18.py:303-321 | a name found in the command table is the keyword of the entry found |
| Duet.LookupKeyword | day_18.py:303-321 | each of the seven keywords is found in the table, as its own entry |
| Duet.Construct | day_18.py:146-222 | construction only fails on a bad operand, and the sound table never builds the duet `rcv` nor the duet table the sound `rcv` |
| Duet.DecodeBlank | day_18.py:261-262 | a line fails with the empty-line error exactly when it has no tokens |
| Duet.DecodeUnknown | day_18.py:265-266 | a line whose first token is not in the table fails with the unknown-command error naming that token |
| Duet.DecodeArity | day_18.py:268 | a known command given the wrong number of arguments fails with the argument-count error, naming the command and the count |
| Duet.DecodeDialect | day_18.py:303-321 | the two tables differ only in `rcv`: a line decoded with the sound table is never the duet `rcv`, and the other way round |
| Duet.OperandTextDecodes | day_18.py:136-143 | the written form of every readable operand is one token that decodes back to that operand |
| Duet.DecodeTokens | day_18.py:260-268 | a line made of a keyword and the right number of argument tokens decodes to the constructor call on those tokens |
| Duet.TokensOfLine | day_18.py:261 | a line written as tokens joined by spaces is split back into those tokens |
| Duet.ConstructArgs | day_18.py:268 | every well-formed instruction is rebuilt by its constructor from its own argument tokens |
| Duet.DecodeShow | day_18.py:260-268 | showing a well-formed instruction and decoding the text gives the instruction back |
| Duet.DecodeExample | day_18.py:260-268 | the line `jgz a -1` decodes to a jump on register `a` by -1 |
| Duet.CharSlot | day_18.py:252-257 | a register name resolves to a slot below 26, and `a` to `z` resolve to slots 0 to 25 in order |
| Duet.Slot | day_18.py:252-257 | a target register resolves to a slot below 26 |
| Duet.Value | day_18.py:136-143 | a literal operand evaluates to its own value whatever the registers |
| Duet.Execute | day_18.py:150-226 | an instruction that runs leaves 26 registers |
| Duet.ExecuteFrame | day_18.py:150-226 | an instruction changes no register but its target, appends to the outgoing mailbox exactly when it is `snd`, and then appends the value of its operand, takes from the front of the incoming mailbox only as a duet `rcv` with a value waiting, and recovers only as a sound `rcv` |
| Duet.ArithmeticResult | day_18.py:155-195 | `set`, `add`, `mul` and `mod` advance by one, leave the mailboxes and the other registers alone and store Y, X + Y, X * Y, or a remainder with the sign of Y that differs from X by a multiple of Y |
| Duet.ModByZeroFails | day_18.py:193 | `mod X Y` with Y equal to 0 raises the division error |
| Duet.ReceiveResult | day_18.py:211-216 | a duet `rcv` with an empty incoming mailbox reports shift 0 and changes nothing; otherwise it stores the front value in its register, takes it out of the mailbox and advances by one |
| Duet.JumpResult | day_18.py:224-226 | `jgz X Y` advances by one when X is not positive, and by Y when X is positive |
| Duet.ShiftZeroChangesNothing | day_18.py:238-249 | an instruction that reports shift 0 changed nothing |
| Duet.Initial | day_18.py:230-236 | a new program has 26 registers, all 0 except `p` (slot 15), which holds its number |
| Duet.ProgramStep | day_18.py:238-249 | a step that runs keeps 26 registers |
| Duet.OutOfRangeStops | day_18.py:239-240 | a program whose position is outside the list makes no progress and changes nothing |
| Duet.StepEffects | day_18.py:238-249 | a step that makes no progress changes nothing; a step that does was at a valid position; the send counter grows by one exactly for an executed `snd`, which also appends the value of its operand to the outgoing mailbox; the incoming mailbox loses at most its front |
| Duet.NonPositiveJumpAdvances | day_18.py:222-224 | a `jgz` on a literal that is not positive only moves the program on by one |
| Duet.EmptyReceiveBlocks | day_18.py:209-211 | a duet `rcv` with nothing waiting makes no progress and changes nothing |
| Duet.Round | day_18.py:297-298 | a turn keeps both programs at 26 registers |
| Duet.ScheduleStep | day_18.py:294-298 | one turn of the part 2 loop ends the run with the exception, stops it when neither program made progress, or goes on from the new states |
| Duet.StalledRoundChangesNothing | day_18.py:296-298 | a turn in which neither program made progress leaves both programs as they were |
| Duet.ScheduleEndsInStall | day_18.py:296-298 | when the part 2 loop stops, neither program can make progress from the final states, and another turn would change nothing |
| Duet.ScheduleFuelMonotone | day_18.py:294-298 | a run that ended within some number of turns ends the same way when more turns are allowed |
| Duet.Zeros | day_18.py:280 | the part 1 register list is 26 zeros |
| Duet.RecoverAdvances | day_18.py:281-288 | a step of the part 1 loop that recovers nothing goes on from the new position with the registers it left and the last value sent |
| Duet.SoundExampleHead | day_18.py:5-60 | the first five instructions of the sound example leave `a` at 4 with 4 played |
| Duet.SoundExampleTail | day_18.py:5-60 | from there the example recovers 4 |
| Duet.SoundExample | day_18.py:5-60 | the sound example recovers the frequency 4 |
| Duet.DeadlockExample | day_18.py:294-298 | two programs that both start with `rcv a` stop in the first turn, having sent nothing |
| Duet.DuetSend | day_18.py:97-98 | in the duet example each of the first three turns makes both programs send their value |
| Duet.DuetReceive | day_18.py:98-102 | in the duet example each receiving turn stores the other program's front value |
| Duet.DuetExampleHead | day_18.py:98-99 | after three turns program 0 has sent 1, 2, 0 and program 1 has sent 1, 2, 1 |
| Duet.DuetExampleReceives | day_18.py:99-103 | the next three turns store 1, 2 and the other program's number in `a`, `b` and `c` |
| Duet.DuetExampleTail | day_18.py:99-107 | from the fourth turn on, the three receives and then the stall end the run with `a`, `b`, `c` holding 1, 2 and the other program's number |
| Duet.DuetExampleStall | day_18.py:105-107 | the fourth `rcv` with both mailboxes empty stops the run |
| Duet.DuetExampleFrom | day_18.py:88-107 | the whole duet example ends with both programs at the fourth `rcv`, `c` holding the other program's number |
| Duet.DuetExample | day_18.py:88-107 | in the duet example the run stops and program 1 sent 3 values |
| Duet.Mailbox.Put | day_18.py:152 | `put` appends the value at the back of the queue |
| Duet.Mailbox.Get | day_18.py:215 | `get` on a non-empty queue returns the front value and removes it |
| Duet.RunCommand | day_18.py:150-226 | running an instruction on the register array and the two queues does what `Execute` describes, including each error |
| Duet.Program.constructor | day_18.py:230-236 | a new program starts in the initial state for its number, with its own fresh queue and registers |
| Duet.Program.Execute | day_18.py:238-249 | `execute` moves the program exactly as one program step says and reports whether it made progress |
| Duet.TakeTurn | day_18.py:297-298 | program 0 executes against program 1's queue, then program 1 against program 0's, exactly as a turn says |
| Duet.RunDuet | day_18.py:294-300 | the part 2 loop over two built programs answers what the run says program 1 sent |
| Duet.CountSends | day_18.py:291-300 | part 2 answers how many values program 1 sent in the run from programs 0 and 1 |
| Duet.SoundStep | day_18.py:282-288 | one pass of the part 1 loop either ends the run with its answer or leaves a state from which the run's answer is unchanged |
| Duet.RecoverFrequency | day_18.py:278-288 | part 1 answers the run of the sound variant from position 0, all registers 0 and no sound |
| Tubes.Cell | day_19.py:80-81 | the character at a cell inside the diagram is not blank exactly when the packet may stand there |
| Tubes.FirstIndex | day_19.py:76 | `index('|')` is the position of the first `|` in the row |
| Tubes.Start | day_19.py:74-78 | the packet starts on the top row at the first `|`, heading down, with one step counted |
| Tubes.BlockedIsClosed | day_19.py:116-122 | the bounds checks of `move` and the blank test together say exactly that the cell ahead is not open |
| Tubes.TurnChoice | day_19.py:83-102 | a turn goes to an open side cell, never straight on or back; left wins over right and up over down; no turn exactly when both sides are closed |
| Tubes.StepMoves | day_19.py:104-133 | a move lands on the open neighbour in its new heading, counts one step, and keeps its heading exactly when the cell ahead was open |
| Tubes.TraceUnfold | day_19.py:135-144 | the walk ends where `move` stops, and otherwise records the character it lands on and goes on from there |
| Tubes.ContinueAppend | day_19.py:144 | the characters recorded before a walk add up in order |
| Tubes.TraceEnds | day_19.py:135-144 | a finished walk stops at a cell where `move` can go nowhere, its step count is the start count plus the cells it landed on, and it never lands on a blank |
| Tubes.TraceFuelMonotone | day_19.py:137-144 | a walk that finishes within some number of moves finishes the same way when more are allowed |
| Tubes.Straight | day_19.py:104-133 | while the cells ahead are open the packet goes straight over them, one step per cell |
| Tubes.StraightStep | day_19.py:131-133 | a move onto the open cell ahead records that cell and counts one step |
| Tubes.Corner | day_19.py:124-129 | at a blocked cell the packet turns and then goes straight in the new heading |
| Tubes.LettersAppend | day_19.py:141-144 | keeping the letters of two pieces of the walk one after the other keeps the letters of the whole |
| Tubes.LettersDrop | day_19.py:141-142 | the kept text is no longer than what was seen and holds no `|`, `-` or `+` |
| Tubes.LettersKeep | day_19.py:143-144 | every other character seen is kept |
| Tubes.ExampleHasCells | day_19.py:44-49 | the example diagram has the characters its rows show |
| Tubes.ExampleRectangular | day_19.py:44-49 | the example rows are all as wide and the top `|` is in column 5 |
| Tubes.ExampleLeg1 | day_19.py:53 | the packet goes down over `|A||+` |
| Tubes.ExampleLeg2 | day_19.py:54 | then right over `B-+` |
| Tubes.ExampleLeg3 | day_19.py:55 | then up over `|||+` |
| Tubes.ExampleLeg4 | day_19.py:56 | then right over `--+` |
| Tubes.ExampleLeg5 | day_19.py:57 | then down over `C-|+` |
| Tubes.ExampleLeg6 | day_19.py:58 | then right over `--+` |
| Tubes.ExampleLeg7 | day_19.py:59 | then up over `D+` |
| Tubes.ExampleLeg8 | day_19.py:60 | then left over `---` |
| Tubes.ExampleLeg9 | day_19.py:60 | then on over `E-|-` |
| Tubes.ExampleLeg10 | day_19.py:60 | then on over `-|-` |
| Tubes.ExampleLeg11 | day_19.py:60 | then on over `--F` |
| Tubes.ExampleEnd | day_19.py:30 | at the `F` the packet can go nowhere and the walk ends |
| Tubes.ExampleOutward | day_19.py:53-56 | the first four legs join up |
| Tubes.ExampleDown | day_19.py:57-59 | the next legs join up |
| Tubes.ExampleHome | day_19.py:60 | the last leg ends at the `F` after 38 steps |
| Tubes.ExampleBack | day_19.py:57-60 | the walk from the second corner on ends at the `F` |
| Tubes.ExampleOutwardText | day_19.py:26-28 | the letters of the first part are `AB` |
| Tubes.ExampleBackText | day_19.py:29-30 | the letters of the rest are `CDEF` |
| Tubes.ExampleText | day_19.py:31 | the letters of the whole walk are `ABCDEF` |
| Tubes.ExamplePath | day_19.py:51-60 | the whole walk over the example diagram and where it ends |
| Tubes.Example | day_19.py:31-62 | on the example the packet collects `ABCDEF` and takes 38 steps |
| Tubes.Map.constructor | day_19.py:74-78 | a new map is in the start state |
| Tubes.Map.Move | day_19.py:104-133 | `move` updates the packet exactly as one step says and returns the character it lands on, or nothing and no change at the end |
| Tubes.Map.Go | day_19.py:135-144 | `go` returns the letters of the whole walk and leaves the packet where the walk ends, with its step count |
| Fractal.IndexOf | day_21.py:129-133 | the flat index `row * size + column` of a cell inside the grid is below size², and the row and column are recovered from it |
| Fractal.IndexSplit | day_21.py:129-133 | every flat index below size² is the index of exactly one row and column |
| Fractal.Isqrt | day_21.py:120 | `int(math.sqrt(len(pattern)))` is the largest r with r² at most the length |
| Fractal.IsqrtSquare | day_21.py:120 | the size read back from a square list of n² pixels is n |
| Fractal.SameCells | day_21.py:129-130 | two pictures of one size agreeing on every cell are equal |
| Fractal.Dest | day_21.py:158-177 | every flip and turn moves each cell to a cell of the grid, and from there back to where it came from |
| Fractal.SrcInjective | day_21.py:158-177 | no two cells of the result are read from the same cell of the source |
| Fractal.ApplyCell | day_21.py:158-177 | each cell of a flipped or turned picture is the source cell the symmetry maps it to |
| Fractal.ApplyThen | day_21.py:219-230 | applying one symmetry after another is applying their composition |
| Fractal.ApplyIdentity | day_21.py:223 | the identity keeps the picture |
| Fractal.FlipsAndTurns | day_21.py:158-177 | flipping twice horizontally, flipping twice vertically, or turning four times gives the picture back |
| Fractal.ApplyInverse | day_21.py:158-177 | every symmetry is undone by its inverse |
| Fractal.OrientationsList | day_21.py:219-231 | the rule's list holds eight pictures, the input under the eight symmetries in the source's order |
| Fractal.OrientationsAreSymmetries | day_21.py:219-231 | a picture is in that list exactly when it is the input under some symmetry: the list is the whole symmetry group |
| Fractal.OrientationsClosed | day_21.py:219-231 | turning or flipping a picture keeps it in, or out of, the list |
| Fractal.CountIsCard | day_21.py:101 | the number of on-pixels counted is the size of the set of their indexes |
| Fractal.CountPermuted | day_21.py:158-177 | a rearrangement of the pixels keeps the number that are on |
| Fractal.ApplyCount | day_21.py:158-177 | flipping or turning a picture keeps its number of on-pixels |
| Fractal.HashPrefixBound | day_21.py:123-127 | the hash of the first i pixels is below 2^i |
| Fractal.HashInjective | day_21.py:123-127 | two pictures of one length have the same hash exactly when they are equal |
| Fractal.HashSetSnoc | day_21.py:234 | the hash set of a list grows by the hash of each picture added |
| Fractal.MatchOrientations | day_21.py:213-237 | a rule matches a block of its size exactly when the block is its input under some rotation or flip |
| Fractal.MatchInvariant | day_21.py:213-237 | turning or flipping a block never changes whether a rule matches it |
| Fractal.DivisorOf | day_21.py:135-141 | the divisor exists exactly when the size is even or a multiple of 3; it is 2 or 3 and divides the size, and 3 only for odd sizes |
| Fractal.BlockInside | day_21.py:143-151 | every cell of block (R, C) lies inside the picture |
| Fractal.Block | day_21.py:143-151 | a block is a square picture of the divisor's size |
| Fractal.BlockCellAt | day_21.py:143-151 | each cell of block (R, C) is the picture's cell at row R·d + r, column C·d + c |
| Fractal.BlockRow | day_21.py:147-149 | each slice the source copies is one row of the block |
| Fractal.PutBlock | day_21.py:153-156 | writing a block keeps the picture square |
| Fractal.PutBlockCell | day_21.py:153-156 | after writing a block, the cells inside it are the block's and every other cell is unchanged |
| Fractal.CopyDone | day_21.py:158-177 | once every cell has been written the new picture is the symmetry applied to the old one |
| Fractal.Zeros | day_21.py:145 | `[0] * k` is k pixels, all off |
| Fractal.MatchingMembers | day_21.py:191 | a rule is among the matching ones exactly when it is one of the rules and matches the block |
| Fractal.Grown | day_21.py:180-183 | a size n split into n/d blocks of size d grows to n + n/d, split into the same number of blocks of size d + 1 |
| Fractal.FirstFailingNone | day_21.py:186-194 | the scan over the blocks in row order finds no failure exactly when every block from the start point on passes |
| Fractal.FirstNonUniqueNone | day_21.py:186-194 | no block fails the uniqueness test exactly when every block matches exactly one rule |
| Fractal.FirstNonUnique | day_21.py:192-194 | the count reported for a failing block is never 1 |
| Fractal.PartialComplete | day_21.py:186-199 | once every block has been written the new picture is the full assembly |
| Fractal.AssembleBlocks | day_21.py:186-199 | every block of the assembled picture is the output placed there |
| Fractal.Enhanced | day_21.py:179-199 | an enhancement that succeeds was on a size with a divisor d and gives a picture of size n + n/d |
| Fractal.EnhancedUnique | day_21.py:190-194 | when enhancing succeeds, every block matched exactly one rule of its size |
| Fractal.EnhancedBlocks | day_21.py:186-199 | when enhancing succeeds, each block of the new picture is the output of the one rule its block of the old picture matched |
| Fractal.EnhancedAssembled | day_21.py:179-199 | the enhanced picture is the assembly of the rule outputs, block by block |
| Fractal.OutputAt | day_21.py:191-197 | the output used for a block whose match is unique is that rule's output |
| Fractal.EnhancedErrors | day_21.py:135-199 | enhancing fails for want of a divisor exactly when the size has none, fails for a missing rule table exactly when the table for the divisor is absent, and succeeds exactly when every block matches exactly one rule |
| Fractal.EnhanceStep | day_21.py:186-197 | one pass of the block loop either raises for the block or writes its output and moves on |
| Fractal.Enlarged | day_21.py:179-199 | an enhanced picture is square, with its new size |
| Fractal.Iterated | day_21.py:251-256 | each iteration keeps the picture square |
| Fractal.IteratedNext | day_21.py:253-254 | iterating k times is enhancing once and iterating k - 1 times |
| Fractal.IteratedFails | day_21.py:253-254 | a failing enhancement ends the iterations with its error |
| Fractal.IteratedAdd | day_21.py:253-254 | j + k iterations are j iterations followed by k more |
| Fractal.ParsePattern | day_21.py:240-241 | a parsed pattern has no more pixels than the text has characters |
| Fractal.ParsePatternConcat | day_21.py:240-241 | parsing two texts one after the other parses their concatenation |
| Fractal.ParseNoSlash | day_21.py:241 | in a text without `/` every character is one pixel, on exactly when it is `#` |
| Fractal.RowText | day_21.py:203-207 | the text of a row has one character per column |
| Fractal.ParseShown | day_21.py:240-241 | parsing the text of a picture gives the picture back |
| Fractal.ShownParse | day_21.py:201-208 | a text of n rows of n `.`/`#` characters separated by `/` parses to a picture whose text is that text |
| Fractal.FindArrow | day_21.py:245 | the search finds the first `=>` after the start point, and none before it |
| Fractal.ParsedRuleArrow | day_21.py:245-247 | a rule line fails for want of `=>` exactly when it has none |
| Fractal.ArrowBetween | day_21.py:245 | in `a => b` with plain sides the only `=>` is the one between them |
| Fractal.ParsedPlain | day_21.py:244-248 | `a => b` splits into `a ` and ` b` |
| Fractal.RuleFromShown | day_21.py:246-248 | stripping and parsing the two sides of the text of a rule gives that rule |
| Fractal.ParsedRuleText | day_21.py:244-248 | parsing the text `in => out` of two square patterns gives the rule built from them |
| Fractal.Start | day_21.py:252 | the start picture is the 3×3 picture `.#./..#/###` |
| Fractal.StartPixels | day_21.py:252 | the start picture's pixels are, row by row, off on off, off off on, on on on |
| Fractal.Pattern.constructor | day_21.py:119-121 | a new pattern keeps the pixels it is given and takes the integer square root of their number as its size |
| Fractal.Pattern.Hash | day_21.py:123-127 | `hash` computes the hash of the pattern's pixels |
| Fractal.Pattern.ToString | day_21.py:201-208 | `__str__` gives the text of the picture, rows separated by `/` |
| Fractal.Pattern.Set | day_21.py:132-133 | `set` changes only the pixel at `row * size + column` |
| Fractal.Pattern.GetSubpattern | day_21.py:143-151 | `get_subpattern` returns a new pattern holding block (row, column) |
| Fractal.Pattern.SetSubpattern | day_21.py:153-156 | `set_subpattern` writes the block at (row, column) and changes nothing else |
| Fractal.Pattern.CopyRow | day_21.py:158-177 | one pass of the outer loop of a flip or turn writes the cells of that row of the source into their places |
| Fractal.Pattern.FlipHorizontal | day_21.py:158-163 | `flip_horizontal` returns a new pattern holding the picture mirrored left to right |
| Fractal.Pattern.FlipVertical | day_21.py:165-170 | `flip_vertical` returns a new pattern holding the picture mirrored top to bottom |
| Fractal.Pattern.RotateCcw | day_21.py:172-177 | `rotate_ccw` returns a new pattern holding the picture turned a quarter counter-clockwise |
| Fractal.Pattern.EnhanceBlock | day_21.py:188-197 | one pass of the inner block loop raises exactly when the block does not match exactly one rule, and otherwise writes that rule's output into the new picture |
| Fractal.Pattern.EnhanceRow | day_21.py:187-197 | one pass of the outer block loop handles every block of that row |
| Fractal.Pattern.EnhanceRows | day_21.py:186-197 | the block loops raise the first failing block's error or fill the whole new picture |
| Fractal.Pattern.Enhance | day_21.py:179-199 | `enchance` succeeds exactly when the enhancement does, returning a new pattern holding the enhanced picture at its new size, and otherwise raises its error |
| Fractal.NewRule | day_21.py:213-234 | `Rule(in, out)` keeps the output, the input's size and the hashes of the input's eight orientations |
| Fractal.Hashes | day_21.py:234 | the set built is the set of the hashes of the pictures |
| Fractal.ParseRule | day_21.py:244-248 | `parse_rule` reads a line as the rule it describes, or fails as it would |
| Fractal.BuildRule | day_21.py:246-248 | both sides are stripped, parsed and made into a rule |
| Fractal.DoIterations | day_21.py:251-256 | `do_iterations` returns the start picture enhanced `count` times, or the first error |
| Fractal.Run | day_21.py:253-256 | the loop over the iterations gives the picture iterated `count` times, or the first error |
| Fractal.Step | day_21.py:254 | one iteration of the loop leaves a picture from which the rest of the iterations give the same outcome |
| FractalExample.ExampleFromText | day_21.py:51-101 | reading `../.# => ##./#../...` and `.#./..#/### => #..#/..../..../#..#` into the table by size, two enhancements of `.#./..#/###` succeed and give a 6 by 6 picture with 12 pixels on |
| FractalExample.TwoEnhancements | day_21.py:51-101 | with those two rules, two iterations from the start picture give a 6 by 6 picture with 12 pixels on |
| FractalExample.ExampleRulesFit | day_21.py:53-54 | the two example rules are a well-formed table: each output is one size larger than its input |
| FractalExample.ExampleFirst | day_21.py:62-69 | the start picture of size 3 is one block that matches the second rule unturned, and enhancing it gives `#..#/..../..../#..#` at size 4 |
| FractalExample.ExampleSecond | day_21.py:71-101 | enhancing `#..#/..../..../#..#` succeeds at size 6 with 12 pixels on |
| FractalExample.SmallRuleLine | day_21.py:53 | `../.# => ##./#../...` reads as the rule from the 2 by 2 input with only its last pixel on to `##./#../...` |
| FractalExample.LargeRuleLine | day_21.py:54 | `.#./..#/### => #..#/..../..../#..#` reads as the rule from the start picture to the 4 by 4 picture with its corners on |
| FractalExample.RuleLine | day_21.py:244-248 | a line `a => b` of plain sides whose input parses to a square picture reads as the rule built from the two parsed sides |
| FractalExample.SmallInText | day_21.py:240-241 | `../.#` parses to the pixels off, off, off, on |
| FractalExample.SmallOutText | day_21.py:240-241 | `##./#../...` parses to three on and six off pixels in that order |
| FractalExample.LargeOutText | day_21.py:240-241 | `#..#/..../..../#..#` parses to the 4 by 4 picture with only its corners on |
| FractalExample.TopLeftBlock | day_21.py:71-78 | the top left block of `#..#/..../..../#..#` is `#./..` |
| FractalExample.TopRightBlock | day_21.py:71-78 | the top right block is `.#/..` |
| FractalExample.BottomLeftBlock | day_21.py:71-78 | the bottom left block is `../#.` |
| FractalExample.BottomRightBlock | day_21.py:71-78 | the bottom right block is `../.#` |
| FractalExample.CornerTurns | day_21.py:80-82 | each of the four corner blocks is `../.#` under a flip or turn, so all four match the same rule, three of them turned |
| FractalExample.MatchedBy | day_21.py:213-237 | a block that is a rule's input under some flip or turn matches that rule |
| FractalExample.BlockWhole | day_21.py:143-151 | a picture cut into blocks of its own size is one block, the picture itself |
| FractalExample.UniformEnhancement | day_21.py:179-199 | when the table for the divisor holds one rule and every block matches it, enhancing succeeds and every block of the new picture is that rule's output |
| FractalExample.UniformBlock | day_21.py:186-197 | in that case the block (R, C) of the new picture is the rule's output |
| FractalExample.FirstEnhancement | day_21.py:179-199 | a picture that is its size's only rule input enhances, as one block, to that rule's output |
| FractalExample.SecondEnhancement | day_21.py:179-199 | a 4 by 4 picture whose four blocks are turns of the only 2 by 2 rule input enhances to a 6 by 6 picture with four times the output's on-pixels |
| FractalExample.FourBlocksCount | day_21.py:271 | a 6 by 6 picture made of four copies of one 3 by 3 block has four times the block's on-pixels |
| FractalExample.HalfCount | day_21.py:271 | the top or bottom half of such a picture has twice the block's on-pixels |
| FractalExample.RowTwice | day_21.py:271 | a row of such a picture has twice the on-pixels of the block's row |
| FractalExample.RowOfBlock | day_21.py:147-149 | row i of block (R, C) of a 6 by 6 picture is the slice of three pixels at 18R + 6i + 3C |
| FractalExample.OutputRows | day_21.py:92-101 | the rows of `##./#../...` have 2, 1 and 0 pixels on |
| FractalExample.CountConcat | day_21.py:271 | counting the on-pixels of two lists joined is adding their counts |
| FractalExample.CountPieces | day_21.py:271 | counting the on-pixels of a slice is adding the counts of its two parts |
| FractalExample.TwoSteps | day_21.py:253-254 | two successful enhancements in a row are two iterations |
| Tower.StripRight | day_7.py:154 | stripping characters from the right keeps a prefix of the line, ends in a character that is not stripped, and removes only stripped characters |
| Tower.StripLeft | day_7.py:161 | stripping characters from the left keeps a suffix, starts with a character that is not stripped, and removes only stripped characters |
| Tower.StripChars | day_7.py:154 | stripping both ends gives at most the text, with neither end a stripped character |
| Tower.Split | day_7.py:154 | `split(' ')` gives at least one piece, and no piece holds a space |
| Tower.JoinSplit | day_7.py:154 | joining the pieces of `split(' ')` with single spaces gives the text back, so no character is lost or added |
| Tower.Inner | day_7.py:157 | `w[1:-1]` drops the first and the last character, and is empty for fewer than two |
| Tower.Words | day_7.py:154 | every line splits into at least one piece |
| Tower.ParseLine | day_7.py:154-164 | a line fails for want of a weight exactly when it has fewer than two pieces; it fails on the weight exactly when `int()` rejects the second piece without its brackets; otherwise it names the first piece, with that weight and the pieces from the fourth on, with commas stripped, as its children |
| Tower.GetNode | day_7.py:142-150 | `get_node` returns the node of a name already seen unchanged, and otherwise adds a new node of weight 0 with no children |
| Tower.AttachAll | day_7.py:160-164 | attaching children keeps the parent program in the table |
| Tower.AttachAllSnoc | day_7.py:160-164 | attaching one more child is one more pass of the loop |
| Tower.EnterEffect | day_7.py:156-164 | reading a line sets its program's weight and appends its children to the ones it had; the other programs are kept, each child not seen before is added with weight 0, and each child gets the line's program as its parent |
| Tower.AttachAllName | day_7.py:163 | the children are appended, in order, to the parent's list |
| Tower.AttachAllOthers | day_7.py:162 | the other programs are kept, and each child not seen before is added with weight 0 and no children |
| Tower.AttachAllParent | day_7.py:164 | each child gets the program as its parent; the other parents are kept |
| Tower.EnterLinked | day_7.py:141-164 | reading a line keeps every parent and every child a program of the table |
| Tower.ReadAllLinked | day_7.py:152-164 | after reading the whole file every parent and every child is a program of the table |
| Tower.ReadAllNext | day_7.py:153-164 | reading one more line is one more pass of the loop over the file |
| Tower.ReadAllFails | day_7.py:153-164 | once a line fails, the whole file fails with that line's error |
| Tower.TotalOfLeaf | day_7.py:114-122 | a program without a disc weighs its own weight |
| Tower.SettledFills | day_7.py:119-122 | a cached total, once correct, stays correct as the cache fills |
| Tower.StillSettled | day_7.py:119-122 | every program of a disc whose cache was correct stays correct as the cache fills |
| Tower.Filled | day_7.py:121-122 | storing the sum of a disc fills the cache with a correct entry |
| Tower.SoundAfter | day_7.py:121-122 | once every program on a disc is correct, storing their sum makes the program correct and keeps the cache correct |
| Tower.Tower.constructor | day_7.py:107-112 | a new tower holds the read table, with every cached children weight at 0 |
| Tower.Tower.GetTotalWeight | day_7.py:114-117 | `get_total_weight` returns the weight of the program and everything above it, leaves the cache correct and complete for it, and changes the cache only when it was not yet filled |
| Tower.Tower.UpdateChildrenWeight | day_7.py:119-122 | `update_children_weight` leaves the program's cached children weight correct, and changes nothing for a program already filled or without a disc |
| Tower.Tower.SumChildren | day_7.py:122 | the sum over the disc is the sum of the total weights of the programs on it, each left correct in the cache |
| Tower.Tower.Siblings | day_7.py:131-136 | the root has no siblings; any other program's siblings are its parent's children, the program among them |
| Tower.Tower.CompareTotals | day_7.py:196-198 | the two totals are the total weights of the two siblings, and they differ exactly when the totals do |
| Tower.Tower.CheckAt | day_7.py:195-209 | one pass of the sibling loop reports the correction, or the two-sibling case, exactly as the scan does at that index |
| Tower.Tower.CheckSiblings | day_7.py:195-209 | the loop over the siblings gives the scan of their weights and totals |
| Tower.ReadTree | day_7.py:138-166 | `read_tree` fails with the first failing line's error, and fails when every program has a parent; it succeeds exactly when every line reads and some program has no parent, and then gives a tower holding the table read and such a program as the root |
| Tower.FindRoot | day_7.py:166 | a root is found exactly when some program has no parent, and it is such a program |
| Tower.ReadLine | day_7.py:154-164 | one pass of the loop over the file reads the line as described |
| Tower.AttachChildren | day_7.py:159-164 | the loop over the child names attaches them all |
| Tower.AllSettledAt | day_7.py:122 | each program of a disc whose cache is correct is correct |
| Tower.LeafChildrenExact | day_7.py:126 | the leaves of a disc are exactly the children without a disc, each listed once |
| Tower.FlattenIn | day_7.py:127-128 | a name is in the lists joined together exactly when it is in one of them |
| Tower.LeafLists | day_7.py:124-129 | `get_leafs` is the leaves of the disc followed by the leaves found above each child, one list per child |
| Tower.LeafsSound | day_7.py:124-129 | every program `get_leafs` returns is a leaf above the program |
| Tower.LeafsComplete | day_7.py:124-129 | every leaf above the program is returned |
| Tower.LeafsExact | day_7.py:124-129 | `get_leafs` returns exactly the leaves above the program |
| Tower.StepAt | day_7.py:198-221 | a pass at two differing totals reports the two-sibling case for two siblings; with more, it corrects sibling i when it also differs from sibling i + 1 (wrapping), and sibling i - 1 otherwise, by the difference of the totals |
| Tower.ScanBalanced | day_7.py:195-209 | the scan finds nothing exactly when all siblings have the same total; the source then goes on with the next program in its queue |
| Tower.ScanBalancedFrom | day_7.py:195-198 | a scan that finds nothing from some index on leaves all the totals equal to the first |
| Tower.ScanStops | day_7.py:195-198 | a scan stops only at an index whose total differs from the one before |
| Tower.ScanOneOff | day_7.py:195-209 | with three or more siblings of which exactly one has a different total, the scan corrects that sibling's weight to make its total match the others |
| Tower.ScanSkips | day_7.py:195-198 | the scan passes over equal totals |
| Tower.Weights | day_7.py:205-209 | one weight per sibling |
| Tower.TotalsAt | day_7.py:196-197 | each entry of the totals is the sibling's total weight, and each entry of the weights its own weight |
| Tower.Totals | day_7.py:196-197 | one total per sibling |
| Tower.DiscOfThree | day_7.py:114-122 | a program carrying three leaves of weight w weighs its weight plus 3w |
| Tower.DiscTotals | day_7.py:195-197 | the weights and totals of three siblings, in order |
| Tower.TotalOfThreeLeaves | day_7.py:114-122 | a program carrying three leaves weighs its weight plus theirs |
| Tower.ExampleTotals | day_7.py:58-94 | given the table of the example, which `TowerExample.ExampleTower` reads from its thirteen lines, the discs on `tknk` weigh 68, 45 and 72 and total 251, 243 and 243, and the scan corrects `ugml` to 60 |
| Tower.ExampleCorrection | day_7.py:87-94 | the weights 68, 45, 72 with totals 251, 243, 243 give the correction 60 |
| TowerExample.SplitJoin | day_7.py:154 | `split(' ')` of pieces joined at single spaces, none holding a space, gives the pieces back |
| TowerExample.SplitAfter | day_7.py:154 | `split` of a text with a separator in it is the split of either side, put together |
| TowerExample.WordsOfLine | day_7.py:154 | the words of a line written for an entry, line breaks stripped and split at spaces, are its name, its weight in parentheses, and for a disc the arrow and the names with commas after all but the last |
| TowerExample.ParseLineText | day_7.py:154-164 | reading the line written for an entry whose names hold no space, comma or line break gives that entry back |
| TowerExample.StripComma | day_7.py:161 | `strip(',')` of a listed name, with or without its comma, is the name |
| TowerExample.ReadEntries | day_7.py:152-164 | reading lines that each describe a program, no program twice, never fails and does not depend on the order of the lines: each described program gets the weight and disc of its line, a program only listed on a disc gets weight 0 and no disc, and exactly the listed programs get a parent |
| TowerExample.EnterRead | day_7.py:156-164 | one more line, for a program not described before, adds that program and its disc to what was read |
| TowerExample.ExampleDescribed | day_7.py:24-36 | each of the thirteen example lines is the text of its program |
| TowerExample.ExampleRead | day_7.py:24-36 | the thirteen example lines read without error, each as its program |
| TowerExample.ExampleRoot | day_7.py:58-59 | after reading the example, `tknk` is the only program without a parent |
| TowerExample.ExampleRanked | day_7.py:37-56 | the tower read from the example has no cycle: `tknk` at level two, the programs on its disc at level one, the rest at level zero |
| TowerExample.ExampleTower | day_7.py:24-94 | reading the thirteen example lines succeeds; `tknk` is the only program without a parent; and the scan of its disc corrects `ugml` to 60 |
| TowerExample.ExampleReadTree | day_7.py:138-166 | `read_tree` on the thirteen example lines returns `tknk` |
| Common.ParseInt | day_7.py:157 | on ASCII text, `int()` accepts exactly an optional sign followed by decimal digits; a value with a leading `-` is never positive, and any other value is never negative |
| Common.ParseIntToString | day_18.py:138 | the decimal text of every integer is read back by `int()` as that integer |
| Common.FloorMod | day_18.py:193 | Python's `%` takes the sign of the divisor, lies strictly inside it, and is the remainder of the floor division |
| Common.PyIndex | day_18.py:282 | a Python list index is valid exactly from -len to len - 1, and a negative one counts from the end |
| Common.SwapMultiset | day_16.py:70-75 | swapping two places keeps the same items |
| Common.RStrip | day_18.py:261 | `rstrip()` keeps a prefix, drops only whitespace, and leaves no trailing whitespace |
| Common.LStrip | day_21.py:246-247 | the left half of `strip()` keeps a suffix, drops only whitespace, and leaves no leading whitespace |

## Left out

- File reading and printing in every `main`. The parsed input is a parameter: a string, a list of lines, or a grid.
- Day 20 is not part of this model. Its collision test rests on floating-point square roots and true division.
- Floating point elsewhere is replaced by exact integer arithmetic:
  - `math.ceil(math.sqrt(n))` in day 3 becomes `Spiral.CeilSqrt`.
  - `int(math.sqrt(len(pattern)))` in day 21 becomes `Fractal.Isqrt`.
  - `int(x / 2)` in day 11 becomes an exact division, which `HexGrid.CubeSumEven` justifies. Float rounding above 2^53 is not modelled.
  - `int(length / 2)` in day 14 becomes `length / 2`.
- Common.ParseInt: reads only the ASCII digits `0`-`9`, with no surrounding whitespace and no `_` separators. Python's `int()` also accepts other Unicode decimal digits (`int('٣')` is 3), as well as ` 12` and `1_000`. The model rejects all three forms; the puzzle inputs contain none of them.
- Loops that need not stop take a `fuel` bound, and the result says when it ran out:
  - `Spiral.FindFirstLarger` (day 3's `while True`).
  - `Duet.RecoverFrequency` and `Duet.CountSends` (both loops of day 18's `main`).
  - `Tubes.Map.Go` (day 19's `go`, whose path may cycle).
- Day 11: `readline()` keeps the trailing newline, so the last move of a real input reads as `"nw\n"`. The model takes the moves as given; `HexGrid.UnknownDirectionRaisesTypeError` shows what the source does with such a token.
- Day 14: the 128 hash rows of `main`, their conversion to bits, and the example key `flqrgnkx` (8108 used squares, 1242 regions). Each needs 128 knot hashes of 64 rounds, which is far beyond what the verifier can evaluate. The knot hash and the region count are proved for every input instead.
- KnotHash.ReversedShape: the exact section reversal is stated only for lengths up to the list size. A character code above 255 gives a longer length, whose swaps overlap; for those the model still proves that the marks stay a permutation.
- DiskRegions: the grid must be rectangular, with every row as wide as the first. The source only builds 128 × 128 grids.
- Dance: the line length is a parameter, where the source fixes 16 programs. The worked example needs five.
- Dance.ApplyTransforms: requires the transforms to be an index map of the line's length. `get_transforms` always returns one.
- Dance.NamesRoundTrip: requires every index to map to a character below the surrogate range, since Dafny's `char` excludes surrogates. Python's `chr` accepts them.
- The comment at day_16.py:129-132 claims that partner moves cancel over an even number of dances. The claim holds only for some inputs, so it is not stated.
- Duet: `queue.Queue` is a plain FIFO list (`Duet.Mailbox`). The two programs run alternately in one thread, so locking and blocking `get` are not modelled.
- Tubes.Map.constructor: requires a rectangular diagram whose top row holds a `|`. The source raises IndexError on ragged rows and ValueError without a `|`.
- Fractal.ParseRule: a rule whose input has a non-square number of pixels fails to parse. The source instead builds a rule whose rotated and flipped forms use only the leading pixels.
- Fractal.Enhanced, Fractal.Enlarged, Fractal.Iterated, Fractal.Pattern.Enhance, Fractal.Pattern.EnhanceBlock, Fractal.Pattern.EnhanceRow, Fractal.Pattern.EnhanceRows, Fractal.DoIterations, Fractal.Run, Fractal.Step: require `RulesFit`, so that every rule for inputs of size d produces a square of size d + 1. The source never checks this. A rule file that breaks it would have the source write blocks of the wrong size into the new picture, which the model does not follow. Every rule of the puzzle maps a square to one a size larger, so a real rule file meets it; `FractalExample.ExampleRulesFit` proves it for the example.
- Fractal: `[0] * n` builds integers where the rest of the code stores booleans. The model stores booleans throughout; `hash` and `__str__` treat `0` and `False` alike.
- Tower: the queue loop of `get_correct_weight` (day_7.py:182-193 and 223-224) is not modelled. `while nodes:` on a `queue.Queue` is always true, `get` blocks on an empty queue, the root's `None` parent is put into the queue, and the order of the leaves comes from iterating a Python set. The model proves what each visit of a program computes on its siblings (`Tower.Tower.CheckSiblings`, `Tower.ScanOneOff`).
- Tower: the two-sibling branch and `is_parent_lighter` are reported as the `TwoSiblings` verdict and not worked out. `is_parent_lighter` compares an integer with a bound method (day_7.py:178 lacks the call parentheses), which raises TypeError in Python 3.
- Tower: the order of `get_leafs` is not modelled. The list of leaf children is built from a Python set, whose order is not specified. `Tower.LeafsExact` states which programs it returns, and `Tower.LeafChildrenExact` that each appears once.
- Tower: the root chosen when several programs lack a parent comes from set order. The model picks any such program (`Tower.FindRoot`).
- Tower: a tower must have no cycle, which the ghost `rank` argument witnesses. On a cyclic input the recursion of the source never ends.

## Findings

| source | as written | input that shows it | evidently intended | confidence | as-written member | corrected member |
|---|---|---|---|---|---|---|
| day_11.py:58-59 | `raise ValueError("Unknown direction: $s" % direction)` formats a string with no conversion specifier, so the `%` itself raises TypeError ("not all arguments converted") before ValueError is built | any direction other than the six, such as `"x"` or the `"nw\n"` left by `readline()` | raise ValueError naming the unknown direction | high, not executed | HexGrid.MakeMoveAsWritten, HexGrid.UnknownDirectionRaisesTypeError | HexGrid.MakeMove |

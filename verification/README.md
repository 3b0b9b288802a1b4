# Advent of Code 2023 solvers, modelled in Dafny

This project models the puzzle solvers of one Advent of Code 2023 repository, one Python script per puzzle part, and proves properties of the model. Every script is modelled except `6.py`. The chain-reaction solver of day 22 part 2 (`22p2.py`) is modelled in the most detail.

Each module follows one script, or a pair of scripts for a day's two parts. The module takes the script's input once it has been parsed into records, and computes what the script computes. Where the script raises a Python exception, the module returns an `Err` that names the exception class (`Outcomes.Error`), so contracts can state the error cases. The script's `while` loops that may not end take an explicit `fuel` bound and report `Unfinished` when it runs out (`Outcomes.Run`).

Shared modules:

- `Outcomes`: `Option`, `Result`, `Run` and the Python exception classes.
- `Seqs`: sums, counts, decimal digits and slicing.
- `Dicts`: insertion-ordered dictionaries.
- `Counters`: `defaultdict(int)` used as a counter.
- `Sorting`: a stable comparator sort, as `sorted(..., key=cmp_to_key(...))` does.
- `NumberTheory`: gcd and the lcm fold.
- `Rectangles`: cell counts of a grid.
- `Pipes`: pipe symbols and compass turns, shared by days 10 and 18.
- `Scanline`: the row-ray count of enclosed cells, shared by days 10 and 18.
- `SegmentTrees`: the segment tree of day 5.

Puzzle modules:

- Day 1, trebuchet calibration (`1.py`, `1p2.py`): `Calibration` takes the first and last digit of each line. `CalibrationWords` also counts spelled-out digits, overlapping matches included.
- Day 2, cube games (`2.py`, `2p2.py`): `CubeGame` decides which games are possible against a 12/13/14 bag. `CubeGameMinimum` finds the fewest cubes of each colour and the game's power.
- Day 3, gear ratios (`3.py`, `3p2.py`): `Schematic` sums the part numbers that touch a symbol. `SchematicGears` finds the `*` gears and the products of their two numbers.
- Day 4, scratchcards (`4.py`, `4p2.py`): `Scratchcards` doubles the points per match. `ScratchcardCopies` counts the cascade of copies.
- Day 5, seeds through the almanac (`5.py`): `Almanac` moves seeds along the segment trees of its maps and takes the lowest location.
- Day 7, camel cards (`7.py`, `7p2.py`): `CamelCards` types and ranks the hands. `CamelCardsJokers` does the same with jokers.
- Day 8, haunted wasteland (`8.py`, `8p2.py`): `Network` walks the instructions. `GhostWalk` walks every start node and combines the cycle lengths with an lcm fold.
- Day 9, mirage maintenance (`9p2.py`): `Extrapolation` builds repeated differences and predicts the value before the first reading.
- Day 10, pipe maze (`10.py`, `10p2.py`): `PipeMaze` traces the loop from the start. `PipeLoop` records the loop and counts the cells it encloses.
- Day 11, cosmic expansion (`11.py`): `Galaxies` doubles the blank rows and columns and sums the pairwise taxicab distances.
- Day 12, hot springs (`12.py`): `Springs` counts the arrangements of the unknown springs. `SpringsExamples` works seven of the ten rows of the test suite.
- Day 13, point of incidence (`13.py`, `13p2.py`): `Mirrors` finds mirror lines, either exact or with exactly one smudge.
- Day 14, parabolic reflector dish (`14.py`, `14p2.py`): `Boulders` tilts the platform, spins it a whole cycle, computes the load and does the arithmetic of the cycle skip.
- Day 15, lens library (`15.py`, `15p2.py`): `Hashing` computes the HASH. `Lenses` runs the HASHMAP of 256 boxes. `LensesExamples` works the example sequence.
- Day 16, the floor will be lava (`16.py`, `16p2.py`): `Beams` holds the tile rules and a trace that remembers every beam it follows. `BeamTrace` is the trace as written.
- Day 17, clumsy crucible (`17.py`): `Crucible` covers the moves, costs, heuristic and best-first search.
- Day 18, lavaduct lagoon (`18.py`, `18p2.py`): `Lagoon` draws the dig plan and counts it with the scanline. `Trench` grows the centre line of the plan into the outer polygon and takes its shoelace area.
- Day 19, aplenty (`19.py`, `19p2.py`): `Workflows` classifies single parts. `PartRanges` classifies boxes of parts at once.
- Day 20, pulse propagation (`20.py`, `20p2.py`): `Pulses` models the flip-flops, conjunctions and broadcaster. `PulsesWatch` presses the button until `rx` gets a low pulse.
- Day 21, step counter (`21.py`, `21p2.py`): `Garden` is the bounded breadth-first search. `GardenBlocks` assembles the tiled answer from bounded searches.
- Day 22, sand slabs (`22.py`, `22p2.py`): `Bricks` covers the falling sticks, their settling and the count of removable sticks. `BricksChain` covers the chain reaction of `22p2.py`:
  - `fake_disintegrate` is proved to compute the least set that is closed under dropping;
  - the sanity check is characterised;
  - restoring the saved sticks is proved to give back the settled document;
  - the answer is proved to be the sum, over every stick, of the sticks that fall when it alone is removed.
- Day 23, a long walk (`23.py`, `23p2.py`): `Hiking` is the breadth-first search over downhill paths. `HikingGraph` builds the junction graph and searches it for the longest simple path.

## Model

| member | source | states |
|---|---|---|
| Calibration.Digits | 1.py:11 | the digits of a line are digit characters and no more than the line's length |
| Calibration.DigitsAppend | 1.py:11 | extracting digits distributes over concatenation |
| Calibration.TwoDigitValue | 1.py:12 | an empty digit string is an IndexError, and only it; otherwise the value is at most 99 |
| Calibration.LineValueFirstLast | 1.py:8-12 | the value is 10 x the first digit + the last digit, whatever lies around them |
| Calibration.SingleDigitLine | 1.py:8-12 | a line with a single digit d is worth 11 x d |
| Calibration.NonDigitIrrelevant | 1.py:11 | inserting a non-digit anywhere leaves the value unchanged |
| Calibration.NoDigitLineFails | 1.py:12 | a line without digits raises IndexError rather than counting as 0 |
| Calibration.TotalAdditive | 1.py:6-13 | the total of two inputs concatenated is the sum of their totals |
| CalibrationWords.MatchAt | 1p2.py:37-44 | a digit character matches as itself; anything else that matches is a word starting at that position |
| CalibrationWords.WordAt | 1p2.py:25-44 | the match is the first word of the table starting there, mapped to its digit; no match means no word starts there |
| CalibrationWords.DigitsWithoutWords | 1p2.py:38-52 | without words, the matches are exactly the digit characters |
| CalibrationWords.AgreesWithoutWords | 1p2.py:47-54 | on lines without number words the value equals the first part's |
| CalibrationWords.OverlappingWords | 1p2.py:7-38 | overlapping words both count: "twone" reads "21" |
| CubeGame.Tally | 2.py:32-37 | the tally's keys are the colours present, in first-appearance order, each mapped to its total count |
| CubeGame.HandfulPossible | 2.py:40-48 | possible iff red <= 12, green <= 13 and blue <= 14 |
| CubeGame.PossibleIdSum | 2.py:65-69 | bounded by the sum of all game numbers and equal to it when every game is possible |
| CubeGame.PossibleIdSumAppend | 2.py:69 | the sum over two lists of games is the sum of their sums |
| CubeGame.PossibleIdSumSingle | 2.py:69 | one game adds its number when it is possible and nothing otherwise |
| CubeGameMinimum.UpdateMinimum | 2p2.py:51-56 | raises exactly the handful's colours to the max of old minimum and handful count, adds them as keys, leaves others alone |
| CubeGameMinimum.MinimumStep | 2p2.py:72-79 | one more handful raises each colour's minimum to that handful's count |
| CubeGameMinimum.MinimumSetBounds | 2p2.py:72-79 | every handful's count of a colour is at most the minimum set's |
| CubeGameMinimum.MinimumSetAttained | 2p2.py:72-79 | the minimum set's colours are the colours that appear, and each minimum is some handful's count |
| CubeGameMinimum.PossibleIffMinimumWithinBag | 2p2.py:72-79 | a game is possible (2.py) iff its minimum set fits in the bag |
| CubeGameMinimum.Power | 2p2.py:81-87 | TypeError iff no handful has any cubes; otherwise the product of the minimum counts in key order |
| Schematic.RunEnd | 3.py:35-37 | the run end is the first non-digit at or after the start |
| Schematic.RunsFrom | 3.py:35-37 | runs lie inside the row, strictly increasing and separated, digits only |
| Schematic.RunsAreMaximal | 3.py:35-37 | each run is maximal: no digit directly before or after it |
| Schematic.RunsCoverDigits | 3.py:35-37 | every digit of the row lies in a run |
| Schematic.Numbers | 3.py:33-37 | every number lies within its row of the grid |
| Schematic.FirstSymbol | 3.py:52-54 | the leftmost symbol of the window, or none at all |
| Schematic.RowSymbol | 3.py:44-54 | leftmost symbol of the clipped window in that row; none means no symbol in the window |
| Schematic.IsPartNumber | 3.py:39-59 | part number iff some symbol touches it, diagonals included |
| Schematic.TouchesIffRowSymbol | 3.py:49-57 | touching a symbol iff one of the three row searches finds one |
| Schematic.PartNumbers | 3.py:61-65 | exactly the numbers touching a symbol, in order |
| Schematic.PartNumbersTouch | 3.py:61-65 | every kept number is one of the numbers and a part number, and every part number among them is kept |
| Schematic.PartNumbersAppend | 3.py:65 | the part numbers of two lists are those of the first followed by those of the second |
| Schematic.PartNumbersSingle | 3.py:65 | one number is kept exactly when it touches a symbol |
| Schematic.PartValuesTotal | 3.py:71 | the values of the part numbers add up to the total of the numbers that touch a symbol |
| Schematic.PartNumberSum | 3.py:27 | an empty schematic is an IndexError, any other has a sum |
| Schematic.PartNumberSumValue | 3.py:70-71 | on a non-empty schematic the printed sum is the total value of the numbers touching a symbol |
| Schematic.ExampleRow | 3.py:35-37 | "467..114.." holds the runs 467 and 114 |
| SchematicGears.AdjacentSymbols | 3p2.py:57-78 | at most three reports, one per row, each a touching symbol that is its row's leftmost |
| SchematicGears.RowReport | 3p2.py:68-76 | a row reports at most one symbol, the leftmost of its window |
| SchematicGears.AdjacentNonEmptyIffPart | 3p2.py:57-84 | a number reports some symbol iff it is a part number of the first part |
| SchematicGears.AllAdjacentSymbols | 3p2.py:57-78 | corrected reporting: only touching symbols, each position once |
| SchematicGears.AllAdjacentComplete | 3p2.py:57-78 | corrected reporting misses no touching symbol |
| SchematicGears.AllAdjacentNonEmptyIffPart | 3p2.py:57-84 | corrected reporting is non-empty iff part number |
| SchematicGears.AllAdjacentMentions | 3p2.py:57-78 | corrected reporting names a position once if touched, else never |
| SchematicGears.Report | 3p2.py:20-30 | reporting appends the value to each named position, once per mention, leaving other positions alone |
| SchematicGears.ReportKeepsKinds | 3p2.py:23-30 | every part's kind is the grid character at its position |
| SchematicGears.Accumulate | 3p2.py:48-55 | each position collects the values of the numbers that named it, in number order |
| SchematicGears.AccumulateKeepsKinds | 3p2.py:48-55 | kinds stay those of the grid after all numbers report |
| SchematicGears.CorrectedPartsCollectTouching | 3p2.py:48-55 | with corrected reporting a symbol collects exactly the values of the numbers touching it |
| SchematicGears.CorrectedGearIffTwoTouching | 3p2.py:86-91 | a star is a gear iff exactly two numbers touch it |
| SchematicGears.AsWrittenReportsOnlyLeftmost | 3p2.py:68-76 | as written a second symbol in the same window row is never told of the number |
| SchematicGears.AsWrittenMissesSecondStar | 3p2.py:71-76 | in "2*3*4" the number 3 reports only the first star though it touches both |
| Scratchcards.OurWinningNumbers | 4.py:23-27 | exactly the numbers that are both ours and winning |
| Scratchcards.Matches | 4.py:37 | at most the count of our numbers and of the winning numbers |
| Scratchcards.ValueDoubles | 4.py:29-38 | worth 0 iff no match, 1 for one match, doubling with each further match |
| Scratchcards.DuplicateIrrelevant | 4.py:27 | repeating one of our numbers does not change the matches |
| Scratchcards.MatchesSymmetric | 4.py:27 | swapping our and the winning numbers keeps the matches |
| Scratchcards.ExampleCard | 4.py:29-38 | the puzzle's first card is worth 8 |
| ScratchcardCopies.Copies | 4p2.py:15 | an id never written reads as one copy |
| ScratchcardCopies.Bump | 4p2.py:30-31 | exactly the ids id+1 .. id+k gain `copies`, all others unchanged |
| ScratchcardCopies.Process | 4p2.py:50 | every count in the table stays at least one |
| ScratchcardCopies.TotalCards | 4p2.py:51 | at least one card per input card |
| ScratchcardCopies.CountsSumRef | 4p2.py:25-31 | with cards numbered in order, the counts of the first `n` cards add up to the reference recurrence's copies of those cards |
| ScratchcardCopies.TotalCardsIsRecurrenceSum | 4p2.py:51 | with cards numbered in order, the printed total is the sum of the reference recurrence's copies over all cards |
| ScratchcardCopies.ProcessPrefix | 4p2.py:25-31 | after n cards, card i holds 1 plus the copies won for it by the cards before min(n, i) |
| ScratchcardCopies.CountsFollowRecurrence | 4p2.py:25-31 | with cards numbered in order, each final count satisfies the reference recurrence |
| ScratchcardCopies.CountSettled | 4p2.py:28-31 | with increasing ids a card's count no longer changes once read |
| ScratchcardCopies.ExampleCounts | 4p2.py:50-51 | the puzzle's matches 4, 2, 2, 1, 0, 0 give 30 cards |
| SegmentTrees.Hull | 5.py:89-92 | an ordered tree spans [first start, last end) with start < end, and every leaf lies within that span |
| SegmentTrees.Pairs | 5.py:169-170 | the leaf for each consecutive pair of endpoints [e_i, e_i+1), without data |
| SegmentTrees.ConstructTree | 5.py:160-177 | the tree spans the first to the last endpoint and its leaves in order are exactly the consecutive endpoint pairs |
| SegmentTrees.PairsSplit | 5.py:173-175 | the halves sharing the middle endpoint yield the left pairs followed by the right pairs |
| SegmentTrees.ConstructOrdered | 5.py:160-177 | strictly increasing endpoints give an ordered tree: leaves non-empty and left before right |
| SegmentTrees.Construct | 5.py:164-177 | no tree iff at most one endpoint; otherwise the leaves are the consecutive pairs, ordered when the endpoints increase |
| SegmentTrees.OverlappingMembers | 5.py:74-79 | the overlap filter keeps exactly leaves that overlap [start, end) and carry data, and is empty iff no leaf does |
| SegmentTrees.ContainedMembers | 5.py:81-83 | the containment filter is non-empty iff some leaf lies inside [start, end) and has data or data is not required |
| SegmentTrees.OverlappingNone | 5.py:74-79 | a query that overlaps no leaf with data finds nothing |
| SegmentTrees.QueryOverlap | 5.py:100-106 | every segment yielded overlaps the query and carries data |
| SegmentTrees.QueryOverlapIsFilter | 5.py:100-106 | on an ordered tree, descending only into overlapping children yields exactly the in-order leaves that overlap and carry data |
| SegmentTrees.QueryContainedIsFilter | 5.py:108-116 | on an ordered tree, the containment query yields exactly the in-order leaves contained in the query (with data unless allowed without) |
| SegmentTrees.QueryPointCovers | 5.py:185-189 | on a tree built from increasing endpoints, a point query yields at most one leaf, and one iff a leaf with data covers the point |
| SegmentTrees.PointHitAt | 5.py:185-189 | a non-empty point query is exactly one leaf, which covers the point |
| SegmentTrees.PointHit | 5.py:185-189 | a point inside leaf i with data queries to exactly [leaf i] |
| SegmentTrees.AtMostOneCovering | 5.py:169-175 | consecutive-pair leaves cover any point at most once |
| SegmentTrees.SetData | 5.py:150-154 | writing data into contained leaves keeps the tree's span, leaf bounds and order |
| SegmentTrees.SetDataLeaves | 5.py:152-153 | exactly the leaves contained in the segment take its data; all others keep theirs |
| SegmentTrees.Bounds | 5.py:144 | the values listed are exactly the starts and ends of the segments |
| SegmentTrees.InsertSorted | 5.py:144 | inserting into a strictly increasing sequence keeps it strictly increasing and adds exactly the one value |
| SegmentTrees.SortedUnique | 5.py:144 | strictly increasing, with exactly the same values as the input |
| SegmentTrees.Endpoints | 5.py:144 | the sorted distinct starts and ends of the segments |
| SegmentTrees.ContainsLeafIffNonEmpty | 5.py:150-158 | a segment whose bounds are endpoints contains some leaf iff start < end |
| SegmentTrees.FillOutcome | 5.py:150-158 | RuntimeError iff some segment is empty; otherwise each leaf holds the data of the last segment containing it, with bounds and order kept |
| SegmentTrees.FillWithoutTree | 5.py:147-152 | without a tree, segments to apply are an AttributeError and none at all succeed |
| SegmentTrees.BuildOutcome | 5.py:128-177 | construction succeeds iff every segment is non-empty; then the leaves are the consecutive endpoint pairs, each holding the last containing segment's data |
| Almanac.SegmentsOf | 5.py:234-240 | one segment [source_start, source_start + length) per range, carrying its target start, length and target kind |
| Almanac.MapTreeOutcome | 5.py:233-241 | a map's tree is built iff all its ranges have positive length |
| Almanac.TreeOf | 5.py:234-240 | the tree of a map with positive lengths is the one construction produces |
| Almanac.BuildEdges | 5.py:231-241 | the table is built iff every map has positive lengths, and is then well formed |
| Almanac.BuildAlmanac | 5.py:228-241 | the almanac is built iff every map has positive lengths; it keeps the seeds |
| Almanac.RangeMapCovered | 5.py:211-221 | an id in the first covering range k is shifted by target_start - source_start |
| Almanac.RangeMapUncovered | 5.py:222-224 | an id in no range maps to itself |
| Almanac.HitCovered | 5.py:211-221 | for disjoint ranges, a point query for an id in range k yields exactly the leaf starting at its source start, carrying its mapping |
| Almanac.HitUncovered | 5.py:222-224 | for disjoint ranges, a point query for an id in no range yields nothing |
| Almanac.TargetsFollowRanges | 5.py:211-224 | for disjoint positive ranges, a vertex's successor is the one its id is carried to by the range map |
| Almanac.Visit | 5.py:243-257 | the search yields only vertices of kind location |
| Almanac.LowestId | 5.py:268 | ValueError iff there is no vertex; otherwise the least id, attained by some vertex |
| Almanac.ChainEdges | 5.py:231-241 | after the first n maps of a chain, exactly their source kinds have out-edges, each to its one target's tree |
| Almanac.AdjacentInChain | 5.py:211-224 | in a chain, a kind's successor is the vertex its map carries the id to, and the last kind has none |
| Almanac.VisitAlong | 5.py:243-257 | in a chain the search below a kind-i vertex yields exactly the location its id is carried to by maps i onwards |
| Almanac.VisitSeeds | 5.py:247-257 | searching from seed vertices yields, in order, the location each seed is carried to |
| Almanac.SearchChain | 5.py:243-266 | in a chain, the search from the seeds yields each seed's location, last seed first |
| Almanac.LowestLocationIsLowestComposed | 5.py:259-268 | in a chain, the answer is ValueError iff there are no seeds, else the least location any seed is carried to |
| Counters.Counter | 7.py:33-36 | the counter holds exactly the cards of the hand, each with the number of times it occurs (at least once) |
| Counters.IncrementTotal | 7.py:35-36 | one increment raises the total of the counts by one |
| Counters.CounterTotal | 7.py:33-36 | the counts add up to the number of cards |
| Sorting.Insert | 7.py:79-80 | inserting keeps exactly the values plus the new one |
| Sorting.Sort | 7.py:79-80 | the result is a permutation of the input |
| Sorting.SortSorted | 7.py:79-80 | under a total preorder the result is in comparator order |
| Sorting.SortedUnique | 7.py:79-80 | under a total order only one sorted arrangement of a multiset of values exists |
| Sorting.SortOrderIndependent | 7.py:79-80 | under a total order the result depends only on the values, not their input order |
| CamelCards.CountsOf | 7.py:33-36 | sorted ascending, summing to the number of cards, holding exactly the numbers of times some card occurs |
| CamelCards.FivePartitions | 7.py:42-57 | a five-card hand's sorted counts are one of the seven partitions of five |
| CamelCards.TypeMatchesPuzzle | 7.py:42-57 | on five cards the code's cascade gives the type the puzzle describes by repeats (five, four, three and two, three, two pairs, a pair, none) |
| CamelCards.HandTypeByRepeats | 7.py:38-57 | a five-card hand's type is fixed by how often its cards repeat |
| CamelCards.CompareCardsIsLex | 7.py:74-78 | with distinct card characters the tie-break is the lexicographic order of card values |
| CamelCards.CompareTotal | 7.py:71-78 | on equally long hands the comparator is antisymmetric in sign and ties exactly identical cards |
| CamelCards.CompareTransitive | 7.py:71-78 | on equally long hands the comparator's "goes no later" is transitive |
| CamelCards.Ranked | 7.py:79-83 | the ranking is a permutation of the hands and, on equally long hands, in ascending comparator order |
| CamelCards.RankedWinningsIsSum | 7.py:59-60 | the hand at position i of the ranking contributes bid times rank i + 1 |
| CamelCards.WinningsOrderIndependent | 7.py:79-94 | with distinct, equally long hands the total winnings do not depend on the input order |
| CamelCardsJokers.NonJokers | 7p2.py:33-38 | drops exactly the jokers: no J left, every other card counted as often as before |
| CamelCardsJokers.TypeJFails | 7p2.py:44-50 | the type fails, with IndexError, exactly for a hand of only jokers that is not five long |
| CamelCardsJokers.CountsJFail | 7p2.py:45-50 | typing from the counts fails, with IndexError, exactly when no regular card is counted and there are not five jokers |
| CamelCardsJokers.NoCountsIffEmpty | 7p2.py:49 | the sorted counts are empty exactly for a hand with no cards |
| CamelCardsJokers.NoJokersAsBefore | 7p2.py:40-76 | without jokers the type is the one the first part gives |
| CamelCardsJokers.BoostedCounts | 7p2.py:49-76 | on five cards the cascade gives the type of the counts with the jokers added to the largest group |
| CamelCardsJokers.JokersJoinLargest | 7p2.py:44-76 | a five-card hand with a regular card has the type, by repeats, of its counts with all jokers joining the largest group |
| CamelCardsJokers.JokerLosesTie | 7p2.py:10-16 | between hands of equal type, a joker at the first differing position loses to any regular card |
| CamelCardsJokers.FirstDifferenceDecides | 7p2.py:94-97 | the tie-break is the value difference at the first differing position |
| CamelCardsJokers.CompareJTotal | 7p2.py:90-97 | on equally long hands the joker comparator is antisymmetric and ties exactly identical cards |
| CamelCardsJokers.CompareJTransitive | 7p2.py:90-97 | on equally long hands the joker comparator is transitive |
| CamelCardsJokers.TotalWinningsJ | 7p2.py:85-113 | IndexError iff at least two hands and some hand is only jokers and not five long |
| CamelCardsJokers.RankedJ | 7p2.py:98-102 | a permutation of the hands, in comparator order on equally long hands |
| CamelCardsJokers.WinningsJOrderIndependent | 7p2.py:85-113 | with distinct, equally long hands the outcome does not depend on the input order |
| NumberTheory.Gcd | 8p2.py:102-105 | positive when either operand is |
| NumberTheory.GcdDividesBoth | 8p2.py:102-105 | the gcd divides both operands |
| NumberTheory.CommonDivisorDividesGcd | 8p2.py:102-105 | every common divisor divides the gcd |
| NumberTheory.Lcm | 8p2.py:107 | the lcm of positive numbers is positive |
| NumberTheory.LcmMultipleOfBoth | 8p2.py:107 | a * b // gcd(a, b) is a multiple of a and of b |
| NumberTheory.LcmAllMultipleOfEach | 8p2.py:107 | the reduce fold is a multiple of every step count |
| Network.VerticesKeys | 8.py:26-28 | the vertices are exactly the sources of the lines |
| Network.VerticesLast | 8.py:26-28 | a source's targets are those of its last line |
| Network.Move | 8.py:37-46 | at step k the instruction k mod len chooses edges[0] for L, edges[1] for R; KeyError for an unknown node, IndexError for a missing edge, ValueError for another letter |
| Network.MovePeriodic | 8.py:37 | a move depends only on the step modulo the number of instructions |
| Network.FailurePersists | 8.py:40-46 | once a move fails, no later position exists |
| Network.WalkFirstArrival | 8.py:30-49 | the walk returns k iff k <= 1000001, the walk stands on end after k moves and not before |
| Network.WalkTooLong | 8.py:48-49 | a walk that keeps moving without reaching end within the limit fails with ValueError |
| GhostWalk.PairVertices | 8p2.py:28-30 | built iff every line has two targets, else IndexError; the result is a valid insertion-ordered dictionary |
| GhostWalk.PairVerticesAgree | 8p2.py:28-30 | same sources as the first part's vertices, each paired with the first two of its targets |
| GhostWalk.WalkFirstAccepted | 8p2.py:32-48 | walk returns k iff the walk stands on an accepted node after k moves and on none before (within the bound) |
| GhostWalk.WalkOn | 8p2.py:72-84 | a finished walk_from takes at least one step |
| GhostWalk.WalkFromFirstAccepted | 8p2.py:63-84 | walk_from returns (n, v) iff n >= 1 is the first step after 0 at which the walk stands on accepted node v |
| GhostWalk.WalkOnFuel | 8p2.py:72-84 | a larger iteration bound does not change a finished walk |
| GhostWalk.Starts | 8p2.py:86 | exactly the keys the start criterion accepts |
| GhostWalk.WalkEach | 8p2.py:89 | when all walks finish, result i is walk_from of start i |
| GhostWalk.CyclesBack | 8p2.py:100 | true means every end node walks back to itself in the same number of steps |
| GhostWalk.WalkAllAnswer | 8p2.py:86-109 | TypeError iff there is no start node; an answer is a multiple of every start's step count, each end node cycling back to itself |
| Extrapolation.Diffs | 9p2.py:30 | the differences are one shorter than a non-empty history, which is what makes the recursion terminate, and entry i is reading i+1 minus reading i |
| Extrapolation.ShortcutAgrees | 9p2.py:25-35 | the all-zero base case (empty history included) gives the same prediction as running the difference recursion down to the empty sequence |
| Extrapolation.PredictAdditive | 9p2.py:21-35 | the prediction of the element-wise sum of two histories is the sum of their predictions |
| Extrapolation.PredictScales | 9p2.py:21-35 | scaling a history by c scales its prediction by c |
| Extrapolation.ConstantPredictsItself | 9p2.py:21-35 | a non-empty constant history predicts its constant |
| Extrapolation.ProgressionPredictsNext | 9p2.py:21-35 | an arithmetic progression of two or more terms predicts its next term |
| Extrapolation.ReversedProgressionPredictsPrevious | 9p2.py:19-35 | because readings are reversed when parsed, an arithmetic progression of readings yields the term before its first |
| Pipes.OppositeReverses | 10p2.py:19-41 | `opposite` pairs north with south and east with west, is an involution without fixed points, and reverses the displacement |
| Pipes.TurnFollowsPipe | 10.py:30-33 | moving d into a cell turns to e exactly when the cell is a pipe whose ends are the side entered by (d reversed) and e |
| Pipes.NonPipeBlocks | 10.py:83-87 | a symbol that is not one of the six pipes stops every probe |
| Pipes.CellFromDirectionsCases | 10p2.py:43-59 | equal directions give the straight symbol along them, a perpendicular pair the bend joining exactly those two sides, and an opposite pair raises ValueError |
| Pipes.PipeJoining | 10p2.py:43-59 | the intended symbol: for any two different sides the pipe whose ends are exactly those sides; equal sides are an error |
| Pipes.AsWrittenStraightStartRaises | 10p2.py:110-112 | a straight start (left heading d, re-entered heading d) gets an opposite pair and raises, where the joining pipe is the straight symbol |
| Pipes.BentStartAgrees | 10p2.py:110-112 | for a bent start the written rule and the joining pipe agree and join the two sides used |
| Scanline.HalfBounded | 10p2.py:154-170 | the half-pipe counter stays in {-1, 0, 1} along any row |
| Scanline.RayParity | 10p2.py:155-174 | the ray is inside exactly when the number of full crossings plus completed half-pipe pairs is odd |
| Scanline.ScanRow | 10p2.py:150-183 | the row loop computes the marks of the specification (blank and inside) and their number, and fails exactly on an unknown symbol |
| Scanline.CountContained | 10p2.py:136-184 | the count is the number of marked cells of the marked grid; IndexError for no rows, ValueError exactly when some symbol is unknown |
| Scanline.DugRow | 18.py:124-161 | the lagoon's row loop counts the pipe cells plus the blank cells the maze's ray marks |
| Scanline.CountDug | 18.py:110-162 | the lagoon count equals the pipe cells of the outline plus the maze's contained-cell count, with the same errors |
| PipeMaze.FindSourceFirst | 10.py:44-52 | the result holds 'S' and no earlier cell in row-major order does; None exactly when there is no 'S' |
| PipeMaze.Advance | 10.py:68-87 | an onward move lands inside the grid, off the start, one unit step along the heading, with the heading turned by the table; the only error is IndexError from a short row |
| PipeMaze.TraceFirstClose | 10.py:64-77 | a trace returns n exactly when the n-th move first re-enters the start, within the fuel bound |
| PipeMaze.TraceBreaks | 10.py:71-87 | a probe that leaves the grid or is blocked before closing ends the trace with no distance |
| PipeMaze.TraceOnFuel | 10.py:66-87 | more fuel does not change a trace that has ended |
| PipeMaze.FindMainLoopFirst | 10.py:62-88 | the result is the distance of the first candidate (north, south, east, west) whose trace closes, all earlier ones having broken off; ValueError exactly when all four break off |
| PipeMaze.Farthest | 10.py:94-98 | the answer is half the main loop's length, rounded down |
| PipeLoop.Advance2AsBefore | 10p2.py:96-116 | at a real start the second part's reordered checks move the probe exactly as the first part's |
| PipeLoop.Trace2AsTrace | 10p2.py:89-123 | the second part's trace has the first part's outcome and distance; the start gets the symbol for the side left and the side re-entered; the other written cells are exactly those passed, with their own symbols |
| PipeLoop.WrittenHoldsGrid | 10p2.py:113 | every written loop cell holds the grid's symbol at that place |
| PipeLoop.WrittenHasSpots | 10p2.py:94-113 | every cell the probe passed is in loop_cells |
| PipeLoop.WrittenOnlySpots | 10p2.py:94-113 | only cells the probe passed are in loop_cells, as the grid is reset for each candidate |
| PipeLoop.LoopGrid | 10p2.py:94-113 | loop_cells is w by h, blank except at the written cells |
| PipeLoop.StraightStartRaises | 10p2.py:110-112 | whenever the first part closes a loop through a straight start, the second part as written raises ValueError; the corrected rule yields the loop with the straight symbol at the start |
| PipeLoop.AsWrittenStraightStartFails | 10p2.py:81-123 | on the three-row grid `F-7`, `S.` followed by a vertical pipe, `L-J`, the start is found at (0, 1) and find_main_loop raises ValueError |
| PipeLoop.CorrectedStraightStartCloses | 10p2.py:81-123 | with the corrected start symbol the same grid yields a loop of 8 with a vertical pipe at the start |
| PipeLoop.Enclosed | 10p2.py:190-197 | the answer is the number of blank cells the ray marks inside the main loop's loop_cells, with the loop's errors passed on |
| Galaxies.BuildMapping | 11.py:17-28 | entry i of the mapping is i plus the number of blank indices up to and including i |
| Galaxies.ShiftedIncreasing | 11.py:17-31 | the mappings are strictly increasing, never below the raw index, and below the effective size |
| Galaxies.ShiftedLast | 11.py:28-31 | the last mapped index is the effective size minus one, the effective size being the raw size plus the blank count |
| Galaxies.ShiftedDistance | 11.py:13-28 | two non-blank indices are mapped their raw distance plus the blank indices strictly between them apart |
| Galaxies.Expand | 11.py:11-31 | Grid construction: IndexError exactly for an image with no rows; otherwise both mappings and the effective width and height |
| Galaxies.RawStarsSpec | 11.py:38-43 | the stars are listed exactly once each, in row-major order |
| Galaxies.GalaxiesSpec | 11.py:33-44 | find_galaxies gives every star at its mapped column and row, in row-major order |
| Galaxies.TaxicabSymmetric | 11.py:55 | a pair's length is symmetric and zero exactly for a galaxy paired with itself |
| Galaxies.ExpandedDistance | 11.py:13-55 | two galaxies' expanded distance is their raw distance plus one per blank row and per blank column strictly between them |
| Galaxies.PairLengthsCount | 11.py:52-55 | n galaxies give n(n+1)/2 lengths, n(n-1)/2 of them between different galaxies |
| Galaxies.SelfPairsAddNothing | 11.py:52-55 | pairing each galaxy with itself does not change the sum |
| Galaxies.TotalLength | 11.py:58-62 | the answer is non-negative and equals the sum over pairs of different galaxies; IndexError for an empty image |
| Springs.LineSetup | 12.py:31-44 | the set-up state starts with one operational spring, followed by the row with no operational spring at either end |
| Springs.DropZeros | 12.py:104-106 | the dropped list is a suffix of the groups, and its head, if any, is positive |
| Springs.ConcreteMatches | 12.py:73-115 | on a row without unknowns the solver returns 1 or 0. After '.' it is 1 when the runs of the rest are the remaining groups; after '#' it is 1 when the row first completes the open group and the runs after it match |
| Springs.UnknownSplits | 12.py:92-113 | an unknown spring counts its operational reading plus its damaged one, wherever it stands in the row |
| Springs.SolverCountsFillings | 12.py:73-115 | with 0 in front of the groups, the solver counts the fillings of the unknowns whose damaged runs are the groups |
| Springs.PermutationsCountFillings | 12.py:20-53 | a row's count (line_setup, the leading 0, then the solver) is the number of fillings of its unknowns whose runs of damaged springs are exactly the groups |
| Springs.FillingsPadded | 12.py:44 | operational springs around a row change no filling count, so stripping them is harmless |
| Springs.FindPermutation | 12.py:55-71 | with a sound cache, the cached search returns the uncached count; the cache stays sound, keeps its keys and gains the key asked for |
| Springs.FindAllPermutationCounts | 12.py:29-53 | with one cache shared by every row, each row's count is its uncached count |
| Springs.TotalCountsFillings | 12.py:117-122 | the printed sum is the total number of valid fillings over all rows |
| Mirrors.CheckIsReflection | 13.py:24-27 | the test at an index (the pair there, then the outer pairs zipped from both sides) holds exactly when every reflected pair around the gap is equal |
| Mirrors.FindMirrorFirst | 13.py:12-35 | find_mirror returns the first row r in 1..len-1 with a clean mirror, and None exactly when there is none |
| Mirrors.FlipFlip | 13p2.py:13-17 | the transpose is rectangular, and transposing a non-empty rectangular pattern twice gives it back |
| Mirrors.PatternValue | 13.py:46-56 | 100 times the horizontal mirror's row, else the vertical mirror's column; AssertionError exactly when neither orientation has one |
| Mirrors.PatternValueMirror | 13.py:46-56 | a pattern scores exactly when it has a clean mirror in some orientation, and the first horizontal mirror r scores 100r |
| Mirrors.Summarize | 13.py:58-64 | the sum succeeds exactly when every pattern has a mirror |
| Mirrors.SummarizeAppend | 13.py:64 | summing two lists of patterns fails with the first list's error, else the second's, and otherwise adds their sums |
| Mirrors.SummarizeSnoc | 13.py:64 | one more pattern at the end adds its score to the sum, or the first error stands |
| Mirrors.SummarizeSingle | 13.py:64 | one pattern sums to its own score, or fails with its error |
| Mirrors.LineDeltasSpec | 13p2.py:19-23 | line_deltas is symmetric and at most the shorter length; for lines of equal length it is 0 exactly when they are equal |
| Mirrors.ScanDeltasTotal | 13p2.py:38-45 | breaking off once the running delta passes 1 loses nothing: the scan finishes exactly when the total is at most 1, and returns the total |
| Mirrors.FindSmudgedMirrorsSpec | 13p2.py:25-51 | find_smudged_mirrors yields, in increasing order, exactly the rows in 1..len-1 whose reflected pairs differ in a single place |
| Mirrors.CleanIsNotSmudged | 13p2.py:25-76 | a clean mirror is never a smudged one; in a rectangular pattern a mirror is clean exactly when its reflected pairs differ nowhere |
| Mirrors.SkipNeverFires | 13p2.py:88-111 | for patterns at most 100 wide the skip of the original value never fires: the values are 100 per smudged row, then each smudged column |
| Boulders.SlideIsTilt | 14.py:32-59 | the commit loop of `slide` turns every stretch between cube rocks into its rounded rocks followed by its empty cells, with the cube rocks in place, for any row |
| Boulders.SlideProperties | 14p2.py:55-82 | on a row of 'O', '.' and '#', `slide` keeps the length, the cube-rock positions and the rounded-rock count, yields only those three kinds, puts a cube rock between any empty cell and a later rounded rock, and is idempotent |
| Boulders.TiltCounts | 14.py:50-58 | a tilted row has as many rounded rocks and as many empty cells as the row, whatever else it holds |
| Boulders.TransposeTwice | 14p2.py:14-18 | the transpose of a non-empty rectangular grid is rectangular with the sizes swapped, and transposing twice is the identity |
| Boulders.FlipIsTranspose | 14.py:13-17 | 14.py's `flip` (join, zip, split) equals `transpose` once the grid has a column |
| Boulders.FlipRowTwice | 14p2.py:20-24 | `flip` puts cell `i` at `len - 1 - i` and is an involution |
| Boulders.TransposeCount | 14p2.py:14-18 | transposing a rectangular grid keeps the number of cells holding any character |
| Boulders.SlideAllKeeps | 14p2.py:84-90 | for each of the four directions, `slide_all` keeps the grid's size, every cube rock and the rounded-rock count, and leaves no rounded rock that could roll further that way |
| Boulders.SlideAllTwice | 14p2.py:84-90 | tilting twice towards the same direction equals tilting once |
| Boulders.CycleKeeps | 14p2.py:92-99 | a north, west, south, east cycle keeps size, cube rocks and rounded-rock count and ends with nothing able to roll east |
| Boulders.RowWeight | 14.py:67-74 | `row_weight` fails with IndexError exactly when there are no rows |
| Boulders.NorthBeamLoadIsNorthLoad | 14.py:80-91 | 14.py's answer (flip, slide each row, weigh each rock by `len(rows[0]) - i`) equals 14p2.py's `row_weight` (`height - y` per rock) of the grid tilted north |
| Boulders.SkipLoops | 14p2.py:125-139 | when the state at step `i` was first seen at `i - p`, the `(target - i) mod p` remaining steps reach the state after `target` steps |
| Boulders.Spin | 14p2.py:122-139 | the detect-a-repeat-then-skip loop returns exactly the state after `target` cycles |
| Boulders.SpunLoad | 14p2.py:114-144 | the answer is the north load of the platform after 1000000000 cycles |
| Hashing.Hash | 15.py:12-25 | the HASH of any string is below 256 |
| Hashing.HashRecurrence | 15.py:19-25 | the character loop obeys the stated recurrence: the empty string hashes to 0 and appending a character adds its code, multiplies by 17 and reduces modulo 256 |
| Hashing.HashHASH | 15.py:49-69 | "H", "HA", "HAS" and "HASH" hash to 200, 153, 172 and 52, the test suite's values |
| Hashing.HashRn1 | 15.py:54-69 | "rn=1" hashes to 30 |
| Hashing.InitSequenceOfSteps | 15.py:27-35 | for steps free of commas and line breaks, `init_sequence` of their comma-joined text is the sum of their hashes |
| Hashing.ExampleTotal | 15.py:71-75 | the test suite's eleven example steps, comma-joined, give 1320 |
| Seqs.JoinSplit | 15.py:34 | joining the pieces of `split(sep)` with `sep` gives the text back |
| Seqs.SplitJoin | 15.py:34 | splitting a join of separator-free pieces gives the pieces back |
| Lenses.Step | 15p2.py:36-62 | a step fails with IndexError exactly when it is empty or a single character other than '-' |
| Lenses.Arrange | 15p2.py:36-62 | the steps all run exactly when none of them is malformed |
| Lenses.RemoveSpec | 15p2.py:44-48 | removing from a box with unique labels leaves no lens with the label, keeps unique labels, shortens the box by one exactly when the label was present, and leaves every other label's lens findable |
| Lenses.PutSpec | 15p2.py:56-62 | putting leaves a lens with the label and the new focal length, in the old lens's slot when there was one (nothing else moves) or at the back otherwise; other labels are found where they were |
| Lenses.StepRemoves | 15p2.py:38-48 | a "label-" step keeps the HASHMAP invariant, makes the label absent, keeps every other label's lens and touches only box `hash(label)` |
| Lenses.StepPuts | 15p2.py:49-62 | a "label=f" step keeps the invariant, maps the label to label+f, keeps every other label's lens and touches only box `hash(label)` |
| Lenses.StepIgnores | 15p2.py:36-62 | a step ending in neither "-" nor "=x" leaves the boxes alone |
| Lenses.ArrangeWellFormed | 15p2.py:35-62 | every successful run of steps from a well-formed HASHMAP (every lens in its label's box, labels unique per box) ends well-formed |
| Lenses.FocusingPower | 15p2.py:64-71 | the nested loops return the sum of (1 + box)(1 + slot) times focal length, and stop at the first lens whose last character is not a digit |
| Lenses.Power | 15p2.py:64-71 | the focusing power is defined exactly when every lens ends in a digit |
| Lenses.PowerNonNegative | 15p2.py:64-71 | the focusing power is never negative |
| Lenses.InitSequence2 | 15p2.py:27-71 | the arrangement from 256 empty boxes is well-formed, and the answer fails exactly on a malformed step or a lens without a digit focal length |
| Beams.Deflect | 16.py:31-48 | the tile rules: the two mirrors, the two splitters and `.` give a turn, and any other tile fails the assertion |
| Beams.MirrorRules | 16.py:31-34 | each mirror turns a unit beam through a right angle, undoes itself, and sends each of the four headings the documented way |
| Beams.SplitterRules | 16.py:35-46 | a splitter splits exactly the beams hitting its flat side, into the two neighbouring cells along its length; other beams and '.' pass unchanged |
| Beams.Tile | 16.py:30 | reading a tile fails exactly on a row shorter than the first |
| Beams.Next | 16.py:28-50 | one step of a unit beam yields one or two unit beams, each one cell on in its own heading |
| Beams.ReachedBound | 16.py:17-57 | a beam energises at most width times height cells |
| Beams.Energize | 16.py:21-57 | the trace that remembers every beam it follows always ends; it fails exactly when the beam reaches a missing or unknown tile, and otherwise energises exactly the reached cells |
| Beams.FinishedCovers | 16.py:21-57 | a finished trace that remembers its beams covers exactly the cells the beam reaches, and no reached beam meets a tile it cannot pass |
| Beams.EnergizedCount | 16.py:13-68 | part 1 fails on an empty grid, fails exactly when the beam from the top left heading east is blocked, and otherwise counts the cells it reaches, at most the grid's area |
| Beams.ColumnStarts | 16p2.py:55-57 | the column starts are exactly the beams heading down from the top row and up from the bottom row |
| Beams.RowStarts | 16p2.py:58-60 | the row starts are exactly the beams heading right from the left column and left from the right column |
| Beams.EdgeStartsEnter | 16p2.py:54-60 | in a non-empty grid the edge starts are exactly the unit beams in the grid whose cell behind them is outside |
| Beams.TallyFails | 16p2.py:71 | the maximum over the traces fails exactly when some start's trace fails |
| Beams.TallyMax | 16p2.py:71 | a successful maximum is the count of some start and at least the count of every start |
| Beams.TallyBound | 16p2.py:71 | a successful maximum is at most the grid's area |
| Beams.MostEnergized | 16p2.py:54-71 | the loop over the starts computes the maximum, failing exactly when the reference fold fails |
| Beams.BestEnergy | 16p2.py:54-71 | part 2 fails on an empty grid, fails exactly when some edge start is blocked, and otherwise returns the most cells any edge start energises |
| BeamTrace.Trace | 16.py:21-27 | a beam already started returns the state unchanged; a finished trace only adds to the state, remembers the beam, keeps energised cells in the grid, and fails only with IndexError or AssertionError |
| BeamTrace.Walk | 16.py:28-50 | a finished walk only adds to the state, energises its first cell when that is in the grid, and keeps energised cells in the grid |
| BeamTrace.TraceSound | 16.py:21-50 | everything a trace as written energises is reached by the beam |
| BeamTrace.WalkSound | 16.py:28-50 | everything a walk as written energises is reached by the beam |
| BeamTrace.CountAsWrittenSound | 16.py:61-68 | when part 1 as written ends, its count is at most the reached cells and the grid's area |
| BeamTrace.TraceCountSound | 16p2.py:18-21 | a fresh trace's count, when it ends, is at most the reached cells and the grid's area |
| BeamTrace.MaxTracesSound | 16p2.py:67-71 | a finished maximum as written is one start's count, bounds every start's count, and is at most the grid's area |
| BeamTrace.LoopNeverEnds | 16.py:28-50 | a walk on the six-beam loop of the example grid never finishes |
| BeamTrace.AsWrittenLoopNeverEnds | 16.py:21-65 | part 1 as written never finishes on the example grid, for any fuel |
| BeamTrace.AsWrittenEdgeLoopNeverEnds | 16p2.py:23-57 | a trace from the bottom edge as written never finishes on the example grid |
| BeamTrace.LoopGridClear | 16.py:31-48 | no beam is blocked on the example grid, so the remembering trace ends well there |
| Crucible.Heuristic | 17.py:115-121 | the estimate is never negative and is zero exactly at the goal |
| Crucible.HeuristicConsistent | 17.py:115-121 | one step changes the estimate by at most one, in either direction |
| Crucible.Cost | 17.py:109 | reading a heat loss fails exactly on a row shorter than the first, and otherwise is the cell's digit |
| Crucible.ExpandFromSpec | 17.py:84-113 | expanding over a list of headings yields the successor of each allowed heading and nothing else, and fails exactly when an allowed heading enters a cell missing from its row |
| Crucible.ExpandSteps | 17.py:92-112 | a successor is one step away inside the grid, never backwards, never a step past the straight limit; its run is one more going straight on and one after a turn; its weight adds the entered cell; its estimate is the distance left; its parent is the expanded node |
| Crucible.RootMovesFreely | 17.py:55-104 | the root's made-up heading forbids no first move: every heading that stays in the grid is allowed |
| Crucible.TurnsIgnoreLimit | 17.py:93-104 | a turn that is not a reversal is allowed exactly when it stays in the grid, whatever the straight run |
| Crucible.PathTo | 17.py:63-68 | the rebuilt path ends at the popped node and starts at a node without a parent |
| Crucible.DerivedPath | 17.py:61-69 | the path rebuilt from a node built by expansion runs from the root to it, each node an expansion of the one before |
| Crucible.PathCost | 17.py:78-82 | the path cost is defined exactly for a non-empty path |
| Crucible.PathCostIsHeatLoss | 17.py:78-109 | along a path of expansions, the path cost is the root's weight plus the heat lost in every entered cell |
| Crucible.MinIndexLeast | 17.py:36-60 | the popped node has the least weight plus estimate, and strictly less than every node queued before it |
| Crucible.Unvisited | 17.py:73-76 | the pushed successors are exactly those whose coordinates are not visited |
| Crucible.PopKeepsDerived | 17.py:59-76 | one turn of the search keeps every queued node built from the root, and a path it returns runs from the root to the goal |
| Crucible.SearchFindsPaths | 17.py:50-76 | every path the search returns starts at the root, follows expansions and ends at the goal |
| Crucible.SearchTurn | 17.py:59-76 | a turn of the search either ends it with no path or a path from the root to the goal, or goes on from a queue of nodes built from the root, whose found path is the found path from here |
| Crucible.LeastHeatLossIsPathCost | 17.py:135-144 | when the search finds a path from the top left to the bottom right, the answer is the heat lost in the cells it enters |
| Lagoon.DigDirection | 18.py:74-84 | U, D, L and R decode to north, south, west and east; any other letter raises ValueError |
| Lagoon.DigDirectionDecodes | 18.py:74-84 | decoding inverts the plan's lettering and no two letters share a heading |
| Lagoon.Legs | 18.py:175-177 | the decoded plan keeps every distance and decodes every heading, and fails with ValueError exactly when some letter is unknown |
| Lagoon.FindBounds | 18.py:164-190 | the frame holds the start and every corner of the plan, and each of its four sides touches some corner (it is the smallest such frame) |
| Lagoon.PaintsInFrame | 18.py:98-107 | every cell the outline writes lies inside the frame of its corners |
| Lagoon.RepeatedHeadingRaises | 18.py:56-108 | two non-empty legs in a row with the same heading make the outline write a ValueError symbol at the corner between them |
| Lagoon.PaintsArePipes | 18.py:56-101 | every symbol the outline computes is a pipe, and its only failure is ValueError |
| Lagoon.PutSpec | 18.py:101-104 | one write succeeds exactly when its symbol is defined and its cell is blank, raises AssertionError on a filled cell, and changes that cell only |
| Lagoon.DrawSpec | 18.py:97-108 | a sequence of writes succeeds exactly when every symbol is defined, no cell is written twice and every written cell starts blank; each written cell then holds its symbol |
| Lagoon.DrawWrites | 18.py:97-108 | a successful sequence of writes keeps the grid's shape and leaves every unwritten cell unchanged |
| Lagoon.DrawFails | 18.py:101-103 | a failed outline raises AssertionError when every symbol was defined (a cell was written twice), and ValueError when no cell repeats (an undefined symbol) |
| Lagoon.DrawLeg | 18.py:98-107 | walking a leg one cell at a time, with `last_dir` set to the heading after the first cell, performs exactly that leg's writes and ends at the next corner |
| Lagoon.DrawOutline | 18.py:96-108 | the nested loop, with `last_dir` reversed after each leg, performs exactly the outline's writes in order, stopping at the first that fails |
| Lagoon.BuildLoop | 18.py:89-108 | an unknown letter raises ValueError and an empty plan IndexError; otherwise the outline is drawn exactly when its symbols are defined and no cell repeats, and the grid then holds each symbol at its cell and blanks elsewhere |
| Lagoon.OutlineKnown | 18.py:124-153 | a drawn outline holds only pipes and blanks, so the count never raises on it |
| Lagoon.DugArea | 18.py:194-204 | build errors come first; a drawn outline always counts, as its pipe cells plus the enclosed blanks of the ray count |
| Trench.Heading | 18p2.py:79-89 | the colour digits 0-3 and the letters R, D, L, U are the only accepted headings; anything else raises ValueError |
| Trench.HeadingDecodes | 18p2.py:79-89 | each heading's digit and letter both decode to it, every letter part 1 accepts keeps its meaning, and nothing else decodes to that heading |
| Trench.HexValue | 18p2.py:130 | reading the distance in base 16 raises ValueError exactly when the string is empty or holds a non-digit, and a value read from `k` digits is below `16^k` |
| Trench.HexRoundTrip | 18p2.py:130 | writing a number below `16^k` as `k` hex digits and reading it back gives the number |
| Trench.DecodeEdge | 18p2.py:130-131 | an edge decodes exactly when its distance and its heading do, to the leg they name; otherwise ValueError |
| Trench.Decode | 18p2.py:129-131 | the plan decodes exactly when every edge does, to the legs of its edges in order |
| Trench.ReflexIsLeftTurn | 18p2.py:93-97 | a corner is reflex exactly when the walk turns left there; a straight or reversing step never is, and exactly one order of a right angle is |
| Trench.BasicWalkOk | 18p2.py:129-138 | over decodable edges the walk succeeds exactly when no heading repeats the one before it, and otherwise fails the assertion |
| Trench.BasicWalkFails | 18p2.py:129-131 | an undecodable edge anywhere ahead makes the walk fail, and the walk never raises IndexError |
| Trench.BasicPolygonSpec | 18p2.py:125-138 | the basic polygon exists exactly when the plan decodes and its headings pass the assertion, the last heading compared reversed with the first; an empty plan and only an empty plan raises IndexError |
| Trench.BasicPolygonCorners | 18p2.py:125-138 | the basic polygon's corners are the origin followed by the corner after each decoded leg |
| Trench.Grow | 18p2.py:161-188 | the grown polygon is returned exactly when its last corner is back at the origin, with each corner after the growth rule; otherwise AssertionError |
| Trench.GrowthGap | 18p2.py:161-186 | on a right-angled plan, twice the gap between a grown and a basic corner is the weight of the origin's corner less the weight of the current one |
| Trench.CorrectedGrowthCloses | 18p2.py:161-186 | read with the last edge before the first, the grown polygon ends where the centre line does |
| Trench.AsWrittenGrowthGap | 18p2.py:159-186 | read as written, the grown polygon overshoots the centre line's end by one step along the first heading exactly when the origin's corner is reflex |
| Trench.BuildPolygonSteps | 18p2.py:103-159 | basic-polygon errors come first, then a failed ray test raises AttributeError from the None the reversal returned, and only then are the edges grown |
| Trench.BuildPolygonCloses | 18p2.py:103-188 | for a closed, right-angled plan the corrected construction succeeds exactly when the ray test does, and the one as written also raises AssertionError exactly when the origin's corner is reflex |
| Trench.RectangleArea | 18p2.py:222-233 | a rectangular trench of sides `w` and `h` holds `(w + 1) * (h + 1)` cubic metres under both constructions |
| Trench.LShapeAreas | 18p2.py:161-233 | an L-shaped trench dug from its reflex corner fails the closing assertion as written, while the corrected construction gives the `(a + 1) * (3a + 1)` cells it covers |
| Workflows.ComparatorOf | 19.py:26-32 | a comparator symbol is recognised exactly when it is one of `=`, `<`, `>`, and the recognised comparison is equality, less-than or greater-than of the rating against the value respectively |
| Workflows.Rating | 19.py:37-42 | a part has a rating under exactly the letters `x`, `m`, `a`, `s`; any other letter is a missing key |
| Workflows.Test | 19.py:54-55 | a conditional's test succeeds exactly when its property is a rating letter, and then compares that rating of the part with the value using the conditional's comparator |
| Workflows.ProcessMeaning | 19.py:69-73 | a rule sends a part to `d` exactly when `d` is the destination of the first conditional that passes, or the fallback when none passes; it fails exactly when a test fails before any passes |
| Workflows.RouteChooses | 19.py:70-73 | the destination chosen by the conditional loop is that of the first passing conditional, else the fallback, and no other |
| Workflows.RouteFails | 19.py:70-72 | the conditional loop raises exactly when some test raises with every earlier test failing |
| Workflows.TableLookup | 19.py:81-84 | the workflow table has a name exactly when some rule carries it, and then holds the last such rule |
| Workflows.Classify | 19.py:89-97 | a classification that ends successfully ends in an end state, and the only error is a missing workflow key |
| Workflows.ClassifyMeaning | 19.py:94-97 | classification within `fuel` steps ends at `t` exactly when the part's walk reaches `t`, an end state, after at most `fuel` steps without passing through an end state before |
| Workflows.ClassifyMoreFuel | 19.py:94-97 | once the loop ends within a bound, any larger bound gives the same outcome |
| Workflows.Total | 19.py:102 | the sum over no parts is 0, and the only error is a missing workflow key |
| Workflows.TotalAppend | 19.py:102 | the sum over a concatenation of parts is the sum of the sums, an error or non-termination of the second half propagating |
| Workflows.TotalSingle | 19.py:102 | a single part contributes its rated value exactly when its walk reaches `A` within the bound, and 0 otherwise |
| PartRanges.MakePartRange | 19p2.py:155-164 | a part range is built exactly when it has four spans, keeping spans and location; otherwise the length assertion fails |
| PartRanges.PropertyIndex | 19p2.py:26-27 | the index of a letter in `xmas` exists exactly for those four letters and points back at the letter; other letters raise ValueError |
| PartRanges.Update | 19p2.py:29-32 | replacing element `i` of a tuple keeps its length and every other element, and succeeds exactly when `i` is an index; otherwise the slice concatenation is one longer and the assertion fails |
| PartRanges.SplitPartition | 19p2.py:57-105 | each comparator's split puts every part of the box in exactly one piece, and the pieces holding it carry the destination exactly when the comparison holds |
| PartRanges.SplitVolume | 19p2.py:57-105 | the pieces of a forward-running box run forwards and their `combinations` add up to the box's |
| PartRanges.SplitAllPartition | 19p2.py:193-201 | one conditional round sends each part of the current boxes to the yielded side at the destination when its test passes and to the kept side otherwise |
| PartRanges.CascadeRoutes | 19p2.py:192-204 | running all conditionals then the fallback places each part of the boxes once, at the destination `process` gives it |
| PartRanges.MultiProcess | 19p2.py:187-204 | processing a box succeeds exactly when the rule has conditionals (else the loop variable is unbound: NameError), and the pieces are well-formed |
| PartRanges.MultiProcessAgrees | 19p2.py:187-204 | every part of the box lies in exactly one output piece, and that piece sits where `process` sends the part; parts outside the box lie in none |
| PartRanges.MultiProcessVolume | 19p2.py:187-204 | the pieces of a forward-running box hold, by `combinations`, as many parts as the box |
| PartRanges.Load | 19p2.py:209-218 | the table is built exactly when every conditional names a rating letter (else ValueError), and it is part 1's table |
| PartRanges.CombinationsAt | 19p2.py:166-170 | the product of the widths in order equals the width of any one span times the product of the others |
| PartRanges.RoundVolume | 19p2.py:237-243 | popping and processing the last box moves its parts onto the stack and the output without changing their total |
| PartRanges.MultiClassifyStep | 19p2.py:237-243 | one round keeps every part in at most one box of the stack or the output, each such box at a state the part's own walk reaches |
| PartRanges.BoxesAt | 19p2.py:230-243 | yielded boxes that agree with `classify` hold, at an end state `t`, exactly the parts of the starting box whose classification ends at `t`, each once |
| PartRanges.MultiClassify | 19p2.py:230-243 | when the loop ends, every part of the box lies in exactly one yielded box, which sits at an end state that `classify` gives the part; the yielded boxes hold as many parts as the starting one; errors are a missing key or an unbound loop variable |
| PartRanges.Solve | 19p2.py:245-250 | when it ends, the summed boxes hold exactly the parts of the full range that `classify` accepts, each once, and the answer lies between 0 and 4000 to the fourth |
| Pulses.CompareAntisymmetric | 20.py:125 | the code-point order `sorted` uses on names is antisymmetric in sign |
| Pulses.CompareTransitive | 20.py:125 | the same order is transitive |
| Pulses.NamesOrdered | 20.py:125 | on any names the order is a strict total order, so sorting them is well defined |
| Pulses.SortNames | 20.py:79-125 | `sorted` gives the same names in ascending code-point order |
| Pulses.Send | 20.py:50-92 | a module sends one pulse per target, in target order, all at the same level |
| Pulses.Receive | 20.py:46-92 | a flip-flop ignores a high pulse and on a low one toggles and sends its new state; a conjunction asserts it knows the sender, records the level and sends low exactly when all remembered levels are high; the broadcaster forwards the level; the wiring never changes |
| Pulses.FlipFlopParity | 20.py:46-51 | after any sequence of pulses a flip-flop is its start state toggled once per low pulse received, keeping its targets |
| Pulses.ConjunctionRemembers | 20.py:64-70 | after any sequence of pulses from known inputs a conjunction remembers, for each input, the latest level it sent, or its earlier level if it sent none |
| Pulses.ConjunctionSends | 20.py:64-76 | with every input initially low, a conjunction's next output is low exactly when the latest level from every input is high |
| Pulses.MakeModule | 20.py:94-101 | `%` makes an off flip-flop, `&` a conjunction with no inputs, no prefix the broadcaster, asserting the name is `broadcaster`; the targets are kept |
| Pulses.Sources | 20.py:110-114 | the module names in line order |
| Pulses.Build | 20.py:110-114 | building succeeds exactly when names are distinct and every line makes a module; the dict lists the names in line order, each with its module |
| Pulses.LearnsInSteps | 20.py:118-123 | inputs learned in two stretches of the wiring loop add up |
| Pulses.RewiredInSteps | 20.py:118-123 | two stretches of the wiring loop together change only conjunction memories, adding keys |
| Pulses.NotifyOneShape | 20.py:64-123 | one notification keeps the names, kinds and targets, adding only a memory key |
| Pulses.NotifyOneLearns | 20.py:64-123 | one notification teaches the target conjunction the source, and no other conjunction anything |
| Pulses.NotifyTargetsShape | 20.py:119-123 | notifying one module's targets keeps the network's shape |
| Pulses.NotifyTargetsLearns | 20.py:119-123 | a conjunction learns the source exactly when it is among the targets |
| Pulses.ConnectShape | 20.py:118-123 | the whole wiring loop keeps the network's shape |
| Pulses.NotifyTargetsKeeps | 20.py:119-123 | notifying changes no module's targets or kind |
| Pulses.ConnectKeeps | 20.py:118-123 | wiring changes no module's targets or kind |
| Pulses.ConnectLearns | 20.py:118-123 | a conjunction learns exactly the listed modules that target it |
| Pulses.Load | 20.py:106-123 | loading succeeds exactly when building does and a `broadcaster` line exists; the names stay in line order |
| Pulses.LoadModules | 20.py:110-123 | every loaded module keeps the kind and targets its line gave it; flip-flops start off |
| Pulses.BuiltEmpty | 20.py:59-98 | a freshly made conjunction remembers no input |
| Pulses.LoadWiredAt | 20.py:62-123 | a loaded conjunction remembers exactly the modules that target it, each low |
| Pulses.LoadWired | 20.py:106-123 | every loaded conjunction's memory lists exactly its senders, all low |
| Pulses.Deliver | 20.py:163-167 | a pulse to an unknown name is dropped; otherwise the receiver handles it, failing only on a conjunction that does not know the sender, and its pulses come from it to its targets |
| Pulses.Drain | 20.py:153-167 | every pulse taken from the queue is counted, including those to unknown names, so the counts reach the queue's length; a low first pulse is counted low |
| Pulses.CountLevelAppend | 20.py:156-161 | the pulses of a level in two traces add up |
| Pulses.DrainCounts | 20.py:153-167 | a drain that ends counts exactly the low and the high pulses it takes from the queue, and it takes the pulses queued at the start first, in order |
| Pulses.Press | 20.py:149-173 | a press starts from one low button pulse to the broadcaster, so it counts at least one low pulse |
| Pulses.PressCounts | 20.py:149-173 | a press that ends counts exactly the low and the high pulses it handles, the button's pulse first |
| Pulses.DeliverKeeps | 20.py:163-167 | handling a pulse changes no module's kind or targets and keeps every conjunction's memory keys |
| Pulses.DrainSafe | 20.py:153-167 | on a wired network, pulses sent along the wiring never trip the assertion, and the network stays wired |
| Pulses.PressSafe | 20.py:149-173 | a press on a wired network whose broadcaster accepts the button never fails |
| Pulses.Presses | 20.py:139-143 | over `n` presses the low count grows by at least `n` (none for a negative `n`), errors being the conjunction assertion |
| Pulses.PressesCounts | 20.py:139-143 | the totals grow by exactly the low and the high pulses handled over the presses, each press starting on the network the one before left |
| Pulses.Score | 20.py:135-145 | the answer is the number of low pulses handled over all presses times the number of high ones, never negative, and ends exactly when the presses do |
| Pulses.PressesSplit | 20.py:139-143 | `m + n` presses are `m` presses followed by `n` more, the counts adding up |
| Pulses.PressesSafe | 20.py:139-143 | repeated presses on a wired network never fail and keep it wired |
| Pulses.LoadedScoreSafe | 20.py:178-182 | on a loaded network whose broadcaster is not a conjunction, `pulses` never raises |
| Pulses.DistinctPermutation | 20.py:125 | rearranging distinct names keeps them distinct |
| Pulses.AtMostOnce | 20.py:125 | a distinct sequence holds any name at most once |
| Pulses.SortedKeys | 20.py:79-125 | the sorted names hold each key exactly once, in ascending order |
| Pulses.Snapshot | 20.py:128-129 | `state()` holds one entry per module, the i-th being the state of the i-th name in sorted order |
| Pulses.Assign | 20.py:82-83 | a conjunction's load overwrites each name `zip` pairs with its level and leaves other inputs and the key order alone |
| Pulses.LoadState | 20.py:35-83 | loading fails exactly for a state of the wrong kind, keeps the wiring, and sets a flip-flop's switch |
| Pulses.RestoreFrom | 20.py:131-133 | loading keeps the names and keys, failing only with a type error |
| Pulses.RestoreFromFails | 20.py:131-133 | loading fails exactly when one of the paired states does not suit its module |
| Pulses.RestoreFromLoads | 20.py:131-133 | each paired module ends as loading its state made it and every other module is unchanged |
| Pulses.Restore | 20.py:131-133 | `load_state` keeps the names, in their order, and a valid network |
| Pulses.AssignSame | 20.py:82-83 | writing back the levels a memory holds changes nothing |
| Pulses.LoadOwnState | 20.py:53-83 | one module's `load_state(state())` gives it back |
| Pulses.RestoreSame | 20.py:131-133 | loading each module's own state, in any order, changes nothing |
| Pulses.RestoreSnapshot | 20.py:125-133 | `load_state(state())` on the whole document changes no module |
| Pulses.LoadedState | 20.py:53-83 | one module's `state()` after loading a state of the right shape gives that state |
| Pulses.LoadedLevels | 20.py:78-83 | a conjunction's memory after loading one level per input reads back as those levels |
| Pulses.AssignedLevels | 20.py:82-83 | overwriting distinct names with levels and reading them back gives the levels |
| Pulses.ReadBack | 20.py:79 | reading sorted names off a memory holding given levels gives those levels |
| Pulses.SnapshotRestored | 20.py:125-133 | `state()` after `load_state(s)`, with one state of the right shape per module in sorted name order, gives `s` |
| Pulses.RestoreFits | 20.py:131-133 | such a load succeeds, each module taking its paired state |
| PulsesWatch.DrainWatch | 20p2.py:175-188 | as part one's loop, but stops with `Done` once a low pulse to `rx` is sent, which needs some module wired to `rx` |
| PulsesWatch.PressWatch | 20p2.py:168-194 | a press of part two fails only by the conjunction assertion and signals only if a module targets `rx` |
| PulsesWatch.WatchAgrees | 20p2.py:175-188 | unless it signals, part two's loop ends, fails or runs out exactly as part one's, leaving the same network |
| PulsesWatch.PressesUntilRx | 20p2.py:151-164 | the answer counts the presses, the signalling one included, so it exceeds the presses before it and stays within the bound |
| PulsesWatch.PressesNet | 20p2.py:151-164 | the network after repeated presses does not depend on the running totals |
| PulsesWatch.PressedOnce | 20p2.py:151-164 | one press then `k` more is `k + 1` presses |
| PulsesWatch.UntilRxFirst | 20p2.py:151-187 | the answer `n` is the first press that raises `Done`: the `n - 1` presses before it end calmly and leave a network on which the next press signals |
| PulsesWatch.CalmShift | 20p2.py:151-164 | calm presses after a calm first press are calm presses from the start |
| PulsesWatch.UntilRxShift | 20p2.py:151-164 | a first press followed by `n - 1` presses and a signalling one is `n` presses from the start followed by a signalling one |
| PulsesWatch.ColourOf | 20p2.py:43-96 | red exactly for an on flip-flop or a conjunction whose inputs are all high |
| PulsesWatch.ColourSent | 20p2.py:64-96 | a flip-flop sends high exactly when it is now red; a conjunction sends low exactly when it is now red |
| Garden.FindInRow | 21.py:17-25 | the first `S` of a row at or after column `x`, or none when the rest of the row has none |
| Garden.FindStartFrom | 21.py:16-25 | the first `S` in reading order from row `y` on: it is an `S`, and no cell before it in reading order is |
| Garden.FindStart | 21.py:16-26 | the start is the first `S` in reading order; `None` exactly when the map holds no `S`, where the source raises ValueError |
| Garden.Probe | 21.py:44-54 | a neighbour is queued exactly when it is unvisited and may be stepped onto; reading the map can raise only IndexError (or ZeroDivisionError on the repeated map), never on a rectangular map |
| Garden.Expand | 21.py:44-54 | every queued neighbour has one step less, is unvisited and may be stepped onto, and every such neighbour is queued |
| Garden.First | 21.py:34-41 | the budget a cell was first dequeued with is missing exactly when the cell was never dequeued |
| Garden.Step | 21.py:33-54 | one turn dequeues the front entry and fails only with the exceptions a probe raises, never on a rectangular map |
| Garden.Iterate | 21.py:33 | the loop ends only with an empty queue |
| Garden.IterateFails | 21.py:33-54 | a loop fails only with exceptions its turns raise |
| Garden.IterateKeeps | 21.py:33-54 | a property every turn keeps holds when the loop ends |
| Garden.IterateEnds | 21.py:33-54 | a loop whose turns each dequeue one entry, under an invariant that bounds the dequeued and queued entries, ends within that bound |
| Garden.StepTallied | 21.py:39-40 | one turn keeps the counter equal to the number of cells counted |
| Garden.StepOrdered | 21.py:34-54 | one turn keeps the dequeued budgets non-increasing, the start first with the full budget |
| Garden.StepWithin | 21.py:42-54 | one turn keeps every budget within the full budget and, for a non-negative budget, non-negative |
| Garden.StepRecorded | 21.py:36-38 | one turn keeps each visited cell's budget the one it was first dequeued with |
| Garden.StepPlaced | 21.py:46-53 | one turn only visits or queues the start and cells that may be stepped onto |
| Garden.ExploreFails | 21.py:33-54 | the search loop fails only with IndexError (or ZeroDivisionError on the repeated map), and never on a rectangular map |
| Garden.ExploreTallied | 21.py:39-40 | the counter and the counted cells stay in step over the whole loop |
| Garden.ExploreOrdered | 21.py:34-54 | breadth-first order holds over the whole loop |
| Garden.ExploreWithin | 21.py:42-54 | budgets stay within the full budget over the whole loop |
| Garden.ExploreRecorded | 21.py:36-38 | each visited cell keeps its first budget over the whole loop |
| Garden.ExplorePlaced | 21.py:46-53 | the whole loop only visits the start and cells that may be stepped onto |
| Garden.ExploreEnds | 21.py:33-54 | on the bounded map the loop ends within a budget of dequeues fixed by the open cells: each open cell is visited once and queues at most four entries |
| Garden.SearchFails | 21.py:30-54 | the search from a start fails only with IndexError (or ZeroDivisionError on the repeated map), and never on a rectangular map |
| Garden.SearchEnds | 21.py:30-54 | the bounded search always ends |
| Garden.SearchTallied | 21.py:39-40 | the count equals the number of visited cells reached with an even budget |
| Garden.SearchOrdered | 21.py:30-54 | the start is dequeued first with the full budget, and the budgets dequeued never go up |
| Garden.SearchRecorded | 21.py:36-38 | a cell is visited exactly when it was dequeued, and carries the budget it was first dequeued with |
| Garden.SearchWithin | 21.py:42-54 | every visited budget is at most the full budget, and non-negative when the full budget is |
| Garden.SearchPlaced | 21.py:46-53 | every visited cell but the start is in the map and not rock |
| Garden.BoundedCount | 21p2.py:201-231 | the bounded count fails only with IndexError, never on a rectangular map, and is at most the number of open cells and the start |
| Garden.WrapItems | 21p2.py:169-199 | on the repeated map the counted cells fail only with IndexError or ZeroDivisionError, never on a rectangular non-empty map, and every counted cell but the start repeats an open map cell |
| Garden.WrapCount | 21p2.py:139-167 | the counting twin ends, fails and runs out exactly as the collecting one does, and its count is the size of the collected set |
| Garden.Mark | 21.py:41 | the marked map is the map with exactly the counted cells overwritten by `O` |
| Garden.MarkInvisible | 21.py:41-54 | marking cells `O` while searching changes no probe, so marking while searching equals marking afterwards |
| Garden.CountReachablePlots | 21.py:15-56 | ValueError exactly when the map has no `S`; otherwise the count of open cells reached with an even budget, all inside the map and within the budget, with those cells marked `O` |
| GardenBlocks.Triangle | 21p2.py:12-13 | twice the result is n(n+1): the floor division is exact |
| GardenBlocks.TriangleSum | 21p2.py:12-13 | the triangle number is 1 + 2 + ... + n |
| GardenBlocks.TriangleStep | 21p2.py:12-13 | consecutive triangle numbers differ by the larger index |
| GardenBlocks.HalvesSum | 21p2.py:72 | the full copies of the two parities along a ray, `(n+1)//2` and `n//2`, add up to n |
| GardenBlocks.BlockCountsPattern | 21p2.py:106-112 | the closed forms behind the sequence (1,0), (1,2), (4,2), (4,6), ... of the comment: a square of k+1 and twice a triangle |
| GardenBlocks.BlockCountsGrow | 21p2.py:106-112 | one copy deeper adds a diagonal row of n+1 copies, all of the parity of the new depth |
| GardenBlocks.BlockCountsTotal | 21p2.py:104-113 | the two kinds of full copies together fill the triangle of the quadrant's depth |
| GardenBlocks.Split | 21p2.py:51-53 | the distance splits into whole copies and a remainder smaller than the width |
| GardenBlocks.Ray | 21p2.py:47-75 | a ray stands for as many copies as it touches, distance // width + 1, none when unreached, its outer ring budgeted with the remainder |
| GardenBlocks.Diagonal | 21p2.py:85-117 | a quadrant stands for the triangle of copies it touches, triangle(distance // width + 1) |
| GardenBlocks.Plan | 21p2.py:77-121 | the four rays and four quadrants stand for the copies each touches from the cell nearest the start |
| GardenBlocks.Evaluate | 21p2.py:55-113 | the sum of searches times copies succeeds exactly when every search does, and otherwise fails with one of their errors |
| GardenBlocks.EvaluateBound | 21p2.py:55-113 | when no search counts more than `cap` cells, the sum is at most `cap` per copy |
| GardenBlocks.Tiled | 21p2.py:28-136 | an empty map raises IndexError, a missing start ValueError, and a search that counts differently with twenty more steps or a non-square map AssertionError; an answer includes at least the centre's own count |
| GardenBlocks.TiledBound | 21p2.py:28-136 | the answer is at most `cap` cells per copy the plan stands for and the centre |
| GardenBlocks.TiledErrors | 21p2.py:28-136 | with the bounded search the only errors are IndexError, ValueError and AssertionError |
| GardenBlocks.TiledDecided | 21p2.py:28-45 | on a rectangular map with a start there is an answer exactly when the two assertions hold, and otherwise AssertionError |
| GardenBlocks.TiledAtMost | 21p2.py:28-136 | the answer is at most the open cells and one per copy the plan stands for and the centre |
| Bricks.MakeStick | 22.py:29-45 | a stick is built exactly when its ends differ on at most one axis (AssertionError otherwise); its step is -1, 0 or 1 on each axis, along the one axis that differs, and `Length` steps lead from start to end |
| Bricks.AtEnd | 22.py:59-64 | walking a stick reaches its end first after exactly `Length` steps, each step adds the direction, and every cube on the way belongs to the stick |
| Bricks.AllCoordsOccupied | 22.py:59-64 | the cubes listed are exactly the stick's cubes |
| Bricks.WalkCoords | 22.py:59-64 | the generator loop lists the cubes from start to end inclusive, each one step on from the last |
| Bricks.Ends | 22.py:47-57 | the tuple `max` and `min` pick an upright stick's top and bottom cube, and a lying stick is level, so its top and bottom cubes are all its cubes; so the top is never below the bottom, as 22p2.py:49 asserts |
| Bricks.Lower | 22.py:86-88 | both ends go one cube down, x and y unchanged; the lowered stick occupies a cell exactly when the stick occupied the cell above it |
| Bricks.Register | 22.py:66-68 | the cells of the stick name it, and every other cell is unchanged |
| Bricks.Unregister | 22.py:70-72 | the cells of the stick are emptied, and every other cell is unchanged |
| Bricks.CanDropOver | 22.py:111-118 | a stick can drop exactly when none of its bottom cubes is at the floor or above a cell held by a stick outside `ignore` |
| Bricks.Drop | 22.py:74-84 | dropping lowers only the chosen stick, by one cube |
| Bricks.DropConsistent | 22.py:66-84 | after dropping a stick that can drop, the cells naming each stick are exactly its cubes |
| Bricks.UprightGrid | 22.py:75-80 | for an upright stick the drop empties its top cell and names the empty cell under its bottom |
| Bricks.LyingGrid | 22.py:81-84 | for a lying stick the drop empties its old cells and names its lowered ones |
| Bricks.DropStep | 22.py:138-139 | one more drop keeps the document well kept and lowers only the chosen stick, one cube further |
| Bricks.DropAll | 22.py:138-140 | the inner loop lowers only the chosen stick until it can no longer drop, and reports whether it moved |
| Bricks.Pass | 22.py:137-140 | one pass drops every stick but `skip` until it rests, adds the moved ones to `dropped`, and sets `dirty` exactly when the sum of bottom levels went down; a pass that moves nothing leaves every such stick unable to drop |
| Bricks.Settle | 22p2.py:177-189 | settling ends with every stick but `skip` unable to drop, `skip` unmoved, and the count equal to the number of distinct sticks that moved |
| Bricks.MovedChanged | 22p2.py:187 | a stick is counted as moved exactly when it is no longer where it was |
| Bricks.SupportFromHeld | 22.py:120-131 | `supporting` yields each stick once, and exactly the unseen sticks above the top cubes |
| Bricks.Supporting | 22.py:120-131 | every stick listed is one the grid holds |
| Bricks.SupportingRests | 22.py:120-131 | in a well-kept document `supporting` lists exactly the other sticks resting on the stick |
| Bricks.NoneFall | 22.py:144-148 | the `for ... else` yields exactly when no listed stick can drop with the stick ignored |
| Bricks.DisintegratableFromSafe | 22.py:142-148 | a stick is yielded exactly when it is safe to take away |
| Bricks.DisintegratableFromIncreasing | 22.py:142-148 | the sticks are yielded in the document's order, each once |
| Bricks.FreedRests | 22.py:142-148 | a stick that can drop with another one gone, but not before, rests on it |
| Bricks.DisintegratableIsSafe | 22.py:142-148 | after settling, a stick is yielded exactly when taking it away lets no other stick drop |
| Bricks.MakeSticks | 22.py:99-105 | the sticks are built exactly when every line's ends differ on at most one axis, in the order read |
| Bricks.TopLevelFrom | 22.py:102-104 | the running `max_z` is at least every z read and is one of them or the start value |
| Bricks.StickCmpConsistent | 22.py:106 | the key `tuple(bottom_coords())` orders any sticks as a total preorder |
| Bricks.RegisterAllOwned | 22.py:107-109 | after registering every stick each cell names a stick occupying it |
| Bricks.RegisterAllCovered | 22.py:107-109 | sticks that do not overlap are each named on all their cells |
| Bricks.MakeDocument | 22.py:95-109 | the document is built exactly when every stick is, and AssertionError otherwise |
| Bricks.MakeDocumentSorted | 22.py:106 | the document holds the sticks read, sorted by their bottom cubes |
| Bricks.MakeDocumentOwned | 22.py:95-109 | each cell of a new document names a stick occupying it, and every stick is within the grid's levels |
| Bricks.MakeDocumentKept | 22.py:95-109 | non-overlapping sticks on or above the floor make a document whose grid agrees with its sticks both ways |
| Bricks.CountsRemovable | 22.py:156 | after settling, the sticks yielded are as many as the removable ones |
| Bricks.CountDisintegratable | 22.py:150-156 | AssertionError exactly when some line bends; otherwise the count of settled sticks whose removal lets no other stick drop |
| BricksChain.GrowMonotone | 22p2.py:155-162 | taking more sticks away lets no fewer sticks drop |
| BricksChain.ClosureClosed | 22p2.py:195-203 | once the `while dirty` loop stops, no stick outside the dropped set could drop with all of it gone |
| BricksChain.ClosureLeast | 22p2.py:191-204 | the dropped set is the least set holding the start that no further stick could drop out of |
| BricksChain.RemovableIffAlone | 22p2.py:206-212 | a stick is safe to take away, as part one counts it, exactly when taking it away brings down no other stick |
| BricksChain.Sweep | 22p2.py:196-203 | one pass adds only sticks of the closure, including those that drop thanks to sticks added earlier in the pass; it is dirty exactly when it removed something, and a clean pass met no remaining stick that could drop |
| BricksChain.SweepClosed | 22p2.py:195-203 | a pass that drops nothing leaves the dropped set closed |
| BricksChain.FakeDisintegrate | 22p2.py:191-204 | the count is the number of sticks other than the start in the least closed set holding it, whatever order the set of sticks is walked in |
| BricksChain.CheckSanity | 22p2.py:132-153 | an ignored index past the sticks is an IndexError; otherwise the check fails, with AssertionError, exactly when one of its two loops finds a disagreement |
| BricksChain.GridSaneOwned | 22p2.py:134-141 | the first loop passes exactly when every marked cell is a cube of the stick it names and that stick is not ignored |
| BricksChain.SticksSaneCovered | 22p2.py:142-153 | the second loop passes exactly when every cube of every stick but the ignored one names that stick |
| BricksChain.CheckSanityConsistent | 22p2.py:132-153 | for valid sticks the check passes exactly when the ignored index is in range and the grid agrees with every other stick both ways |
| BricksChain.HideKept | 22p2.py:236 | unregistering a stick keeps the sticks and the height, and leaves the grid agreeing with every other stick and naming the unregistered one nowhere |
| BricksChain.UnregisterAll | 22p2.py:219-220 | unregistering every stick only removes cells, and removes every cell of every stick |
| BricksChain.UnregisterAllEmpty | 22p2.py:219-220 | when every cell names a stick occupying it, unregistering all the sticks empties the grid |
| BricksChain.RegisterFromEmpty | 22p2.py:223-224 | registering the sticks in turn onto an empty grid is what the constructor's registration gives |
| BricksChain.Restore | 22p2.py:218-224 | restoring puts back the saved sticks and keeps the grid's height |
| BricksChain.CoveredApart | 22p2.py:142-153 | sticks whose cubes all name them do not overlap |
| BricksChain.SameGrid | 22p2.py:132-153 | a grid agreeing with the sticks both ways is determined by them |
| BricksChain.RegisteredGrid | 22p2.py:122-123 | a grid agreeing both ways with sticks that do not overlap is the one registering them onto an empty grid gives |
| BricksChain.ConsistentRegistered | 22p2.py:122-123 | a well-kept grid is the constructor's registration of its sticks |
| BricksChain.RestoreSaved | 22p2.py:214-224 | after the settle, restoring the saved sticks gives back exactly the saved document, grid included |
| BricksChain.RegisterAgain | 22p2.py:246 | registering cubes that already name the stick changes nothing |
| BricksChain.ChainStep | 22p2.py:235-247 | one round's sanity checks pass; a mismatch of the two counts is an AssertionError; otherwise the round gives the fake count and leaves the document as it was |
| BricksChain.CountedSum | 22p2.py:233-240 | the counts of the first sticks add up to the running total of fake counts |
| BricksChain.ChainLoop | 22p2.py:233-248 | the loop fails only with AssertionError, and otherwise totals every stick's fake count |
| BricksChain.ChainReactions | 22p2.py:226-249 | AssertionError when a line bends or a round's counts disagree; otherwise the settled document is a descent of the one read that agrees with its grid and in which no stick can drop, and the answer sums, over every stick, the number of other sticks its removal brings down |
| Hiking.NextDirectionsAllow | 23.py:11-17 | the table knows exactly the path and the four slopes; a cell allows a unit step exactly when it is a path or the slope pointing that way, and lists no step twice |
| Hiking.FirstGap | 23.py:25 | `index('.')`: the first `.` of the row, or none when the row has no `.` |
| Hiking.GapIn | 23.py:25-27 | a row without a `.` raises ValueError, so the assertion after `index` never fires; otherwise the first gap |
| Hiking.FindStart | 23.py:23-27 | the first `.` of the top row; an empty map raises IndexError |
| Hiking.FindEnd | 23.py:29-33 | the first `.` of the bottom row; an empty map raises IndexError |
| Hiking.Moves | 23.py:47-58 | every queued step stays on the map, off the forest and off the path so far, one longer, its path the current one plus the current cell; only IndexError can be raised |
| Hiking.MovesOk | 23.py:47-58 | on a rectangular map reading the neighbours never fails |
| Hiking.MaxOpt | 23.py:44-45 | the later answer is the longer of two, none only when neither is known |
| Hiking.StepKeepsOrder | 23.py:40-57 | handling the front entry keeps the queue in order of length, and no queued entry shorter than the answer so far |
| Hiking.FrontStep | 23.py:40-58 | replacing the front entry by its moves, and recording it when at the end, leaves the longest answer reachable from the queue unchanged |
| Hiking.ExploreIsLongest | 23.py:35-59 | when the loop ends on a rectangular map it ends without error, with the longer of the answer so far and the longest simple path on from any queued entry: keeping the last length found is keeping the longest |
| Hiking.LongestPathIsLongest | 23.py:35-67 | a missing gap raises ValueError; otherwise the answer is the length of the longest simple downhill-respecting path from the start gap to the end gap, or none |
| Hiking.NeverRevisits | 23.py:42 | the assertion that no queued path stands on a cell it has passed never fires, whatever the map |
| Hiking.LongestAtLeast | 23.py:44-45 | an entry at the end is an answer, and any answer is at least the length already walked |
| HikingGraph.NodeIdentity | 23p2.py:20-30 | node equality is equality of positions: an equivalence that ignores the edges, with equal nodes hashing alike |
| HikingGraph.Connect | 23p2.py:62-63 | the edge is listed under both ends, creating missing lists, and no other node's list changes |
| HikingGraph.ConnectCount | 23p2.py:62-63 | connecting adds exactly one listing at each end and nothing else |
| HikingGraph.ConnectPaired | 23p2.py:62-63 | connecting keeps every edge listed at both ends |
| HikingGraph.PairedClosed | 23p2.py:62-63 | an edge listed at both ends leads to a key |
| HikingGraph.Divert | 23p2.py:79-95 | each open step adds one queue entry ending at the step; only the second step of a cell records an edge, and popping an empty queue raises IndexError |
| HikingGraph.Branch | 23p2.py:69-95 | the inner loop only raises IndexError and never lowers the open-step count |
| HikingGraph.Round | 23p2.py:57-95 | a round fails its assertion exactly when the front entry is not the end and stands on its own path |
| HikingGraph.DivertKeeps | 23p2.py:79-95 | queueing a step keeps the graph paired and no entry on its own path |
| HikingGraph.BranchKeeps | 23p2.py:69-95 | the inner loop keeps the graph paired and no entry on its own path |
| HikingGraph.RoundKeeps | 23p2.py:57-95 | a round keeps the graph paired and no entry on its own path |
| HikingGraph.CompressPaired | 23p2.py:51-95 | the compression pass never fires its assertion and builds a graph that lists every edge at both ends, so every edge leads to a key |
| HikingGraph.IndexOf | 23p2.py:105 | where the edge to a neighbour sits, none exactly when there is no edge to it |
| HikingGraph.MergeMerges | 23p2.py:102-109 | the merged list has one edge per neighbour, the same neighbours, each carrying the largest weight among its duplicates |
| HikingGraph.MergeKeeps | 23p2.py:102-109 | an edge survives the merge exactly when it is the heaviest to its neighbour |
| HikingGraph.MergeAll | 23p2.py:102-109 | the keys and their order are kept, and each node's list is merged |
| HikingGraph.MergeAllClosed | 23p2.py:102-109 | merging keeps every edge leading to a key |
| HikingGraph.MergeAllSymmetric | 23p2.py:102-109 | in a merged paired graph an edge is listed at one end exactly when it is listed at the other with the same weight |
| HikingGraph.Penultimate | 23p2.py:121 | the end's first edge; an end without edges raises IndexError |
| HikingGraph.BitIndex | 23p2.py:125-127 | each key gets its own place in the key order |
| HikingGraph.BitIndexDistinct | 23p2.py:125-127 | distinct keys get distinct bits, and exactly the graph's keys get bits |
| HikingGraph.ClosedIndexed | 23p2.py:125-145 | when every edge leads to a key, every edge leads to a numbered node |
| HikingGraph.Push | 23p2.py:142-145 | every edge to a node off the path becomes an entry carrying the path, and only those; a node without a bit raises KeyError |
| HikingGraph.TopStep | 23p2.py:133-145 | replacing the top entry by its pushes, or recording it at the penultimate node, leaves the best answer reachable from the stack unchanged |
| HikingGraph.SearchIsBest | 23p2.py:129-146 | when the loop ends it ends without error, with the larger of the answer so far and the longest path on from any stacked entry; the order the stack is worked in does not matter |
| HikingGraph.SolveIsBest | 23p2.py:102-146 | an end without edges raises IndexError, a start without edges KeyError; otherwise the answer is the longest simple path from the start to the end's neighbour in the merged graph, plus the last edge |
| HikingGraph.SearchFromStart | 23p2.py:129-146 | the search from the start alone answers the longest path from it |
| HikingGraph.LongestPathCompressedIsBest | 23p2.py:48-167 | the compression never asserts and builds a graph whose edges lead to its keys, and the answer is the search over it |
| SpringsExamples.FourUnknowns | 12.py:131 | the row "????" with groups 2,1 has exactly one arrangement, as the test suite expects |
| SpringsExamples.KnownRow | 12.py:135 | the row "#.#.###" with groups 1,1,3 has exactly one arrangement |
| SpringsExamples.DottedRow | 12.py:136 | the row ".??..??...?##." with groups 1,1,3 has four arrangements |
| SpringsExamples.LongRow | 12.py:140 | the row "?###????????" with groups 3,2,1 has ten arrangements |
| SpringsExamples.UnknownsTwoOne | 12.py:131-134 | on `n` unknowns after an operational spring the solver counts `(n - 2)(n - 3) / 2` ways to place groups 2,1 |
| SpringsExamples.UnknownRowTwoOne | 12.py:131-134 | a row of `n >= 3` unknowns with groups 2,1 has `(n - 2)(n - 3) / 2` arrangements |
| SpringsExamples.UnknownRows | 12.py:132-134 | the rows "?????", "??????" and "???????" with groups 2,1 have 3, 6 and 10 arrangements, as the test suite expects |
| Hashing.StepsJoin | 15.py:33-34 | steps free of commas and line breaks, joined with commas, are split back into exactly those steps |
| LensesExamples.ExampleFocusingPower | 15p2.py:108-112 | the test suite's eleven example steps leave the boxes with focusing power 145 |
| Boulders.TiltIdempotent | 14.py:32-59 | tilting a row that is already tilted changes nothing |
| Boulders.TiltSettled | 14.py:32-59 | after a tilt no empty cell lies directly before a rounded rock, so nothing can roll further |
| Boulders.IteratePeriodic | 14p2.py:125-139 | once a state repeats after `p` cycles, any whole number of further loops of `p` cycles leads back to the same state |

## Left out

- `6.py` (boat races) is not modelled: its answer comes from floating-point square roots, an epsilon and `ceil`.
- Parsing is not modelled. The pyparsing grammars, regular-expression matches and `split`-based readers are left out, and each module takes the records they would produce as datatypes. Character classes the grammars guarantee, such as a comparator in `<>`, a property in `xmas` or five lower-case hex digits, are taken as given.
- The regular-expression searches (`\d+`, `[^.\d]`, and the digit-word lookahead of `1p2.py`) are modelled as direct character scans.
- Input and output are left out: reading stdin or files, `print`, the `d(...)` debug printers, module-level script code, the unittest and parameterized test suites, and the module-level file reads of `21p2.py`. The example of `15p2.py` and seven of the ten test rows of `12.py` are proved as lemmas instead. Three rows are not proved: `?#?#?#?#?#?#?#? 1,3,1,6`, `????.#...#... 4,1,1` and `????.######..#####. 1,6,5` (`12.py:137-139`).
- Memoisation is left out and every cached function is modelled uncached. This covers `functools.cache` and the hand-rolled caches of `12.py`, `8p2.py` and `21p2.py`. The cache on `_pulse` (`20.py:148`) would return a result without updating the modules, so the pulse network is modelled uncached, as `20p2.py` runs it.
- Graph rendering is left out: the pydot drawings (`20p2.py:197-236`, `23p2.py:148-159`), and the hard-coded analysis and loop in the `main` of `20p2.py`. The gcd and lcm of `20p2.py:238-244` are the ones `NumberTheory` models.
- The `heapq` internals of `17.py` are left out: the priority queue is a sequence searched for its least entry. The search is proved to return only genuine paths from the start to the goal. That the path is the cheapest is not proved.
- The half-unit `test_point` and the float-dividing `trace_ray` of `18p2.py` are left out. Which side of the line lies inside is a boolean parameter. The counter-clockwise branch of `18p2.py` is modelled only as the AttributeError its `list.reverse()` result leads to.
- The mutable default argument `spawned=set()` of `16.py` is modelled as a fresh empty set on each top-level trace.
- The identity-based `visited` default of `5.py` (`AlmanacVertex` has no equality) is left out: the search is a plain depth-first walk over the chain of kinds.
- The sharing of `visited` sets between branches in `23.py` is an optimisation: each path carries its own set.
- The billion-iteration driver of `14p2.py` is modelled as a generic cycle search (`Boulders.Spin`) and the skip arithmetic (`Boulders.SkipLoops`), not as a billion steps.
- Seqs.IsDigit: accepts only the ASCII digits `0`-`9`. Python's `str.isdigit` also accepts other Unicode digits, which the puzzle inputs never contain. The digit scans of `Calibration`, `Schematic` and `Lenses.FocalLength` rest on it.
- Sorting.Sort: an insertion sort. Python's `sorted` is Timsort. Both are stable and both ask only whether `cmp(x, y) < 0`, so they give the same order for the comparators these solvers use.
- NumberTheory.Gcd: stated for natural numbers. The solvers only pass it positive step counts.
- Galaxies.Expand: requires a rectangular image. On some ragged images Python raises IndexError (`11.py:15`, `11.py:40`). That error path is not modelled.
- Crucible.MinIndex: breaks ties between equal keys by queue position, taking the earliest. `heapq.heappop` breaks them by heap layout, so on tied keys the model may pop a different node, and return a different path, than `17.py` does.
- PipeLoop.Enclosed: fills in the start with `Pipes.PipeJoining`, the pipe joining the two sides the loop uses. `10p2.py` instead calls `cell_from_direcctions`, which fails for a straight start (see Findings).
- Pulses.LoadState: reports a TypeError when a flip-flop is given a state that is not a boolean. Python would simply store that state. The program never calls `load_state`.
- Hiking.Explore: like `HikingGraph.Round`, reads a negative position as IndexError, where Python would wrap around to the far end of the row. The searches never create a negative position.
- Bricks.CountDisintegratable: requires the input sticks not to overlap (`Bricks.InputApart`). On overlapping input, `Stick.register` (`22.py:66-68`) lets a later stick overwrite the grid cells of an earlier one, and the program carries on with that grid. The model keeps one stick per occupied cell, so that input is not modelled. Puzzle snapshots never overlap.
- BricksChain.ChainReactions: requires the input sticks not to overlap, for the same reason (`22p2.py:70-72`).
- BricksChain.ChainReactions: models the assertion of `22p2.py:244` as an AssertionError result. That it never fires is not proved.
- BricksChain.Ranks: models the iteration order of a Python set as a given permutation of the stick indices.
- The dense 3D grid of `22.py` and `22p2.py` is modelled as a map from occupied cells to stick indices, not as a nested list of stick references. The debug helper `find_coordinates_via_grid` is left out.
- Trench.Area: the shoelace formula. It is proved to give the cell count only for rectangles and L shapes (`Trench.RectangleArea`, `Trench.LShapeAreas`). The general identity is not proved.
- PartRanges.MultiClassify: proved to agree with part-one classification only when the start workflow is not an end state, as in `main`.
- PartRanges.Solve: returns the summed `combinations` of boxes that are proved to hold exactly the accepted parts. That this sum counts the accepted parts is not proved.

Loops that may run forever in the source, and long searches, take an explicit step budget and report `Unfinished` when it runs out. The model says nothing about what happens beyond the budget:

- PipeMaze.Trace: one step per pipe followed.
- PipeLoop.Trace2: one step per pipe followed.
- Almanac.Visit: one level per map followed.
- GhostWalk.WalkOn: one step per instruction.
- GhostWalk.WalkUntil: one step per instruction.
- Network.Walk: gives up after a million steps, as the source does.
- BeamTrace.Walk: one unit per beam step. As written, a beam sent onto a loop of mirrors walks it forever (see Findings).
- Crucible.Search: one unit per node popped.
- Workflows.Classify: one unit per workflow visited, since a cyclic table loops forever.
- PartRanges.MultiClassify: one unit per box handled.
- Pulses.Drain: one unit per pulse handled.
- Pulses.Press: one unit per pulse handled.
- PulsesWatch.PressesUntilRx: bounds the `while True` loop by a number of presses.
- Garden.Iterate: one unit per queue entry.
- Hiking.Explore: one unit per queue entry.
- HikingGraph.Compress: one unit per queue entry.
- HikingGraph.Search: one unit per queue entry.

## Findings

| source | as written | input that shows it | evidently intended | confidence | as-written member | corrected member |
|---|---|---|---|---|---|---|
| 3p2.py:68-76 | for each of the three rows around a number, only the first symbol in the row's window collects the number | the one-row schematic `2*3*4`: the 3 touches the stars at columns 1 and 3, but only the star at column 1 collects it | every touching symbol collects the number, so a star touched by exactly two numbers is a gear (`SchematicGears.CorrectedGearIffTwoTouching`) | not executed | SchematicGears.AsWrittenMissesSecondStar | SchematicGears.AllAdjacentSymbols |
| 10p2.py:110-112 | the start's symbol is looked up from the heading the loop left by and the reverse of the heading it came back with; for a straight start these are opposite, and the lookup raises ValueError | the three rows `F-7`, `S.` followed by a vertical pipe, and `L-J`: the loop leaves the start northward and comes back heading north | the start becomes the pipe joining the two sides the loop uses, here a vertical pipe, and the enclosed count goes ahead | not executed | PipeLoop.AsWrittenStraightStartFails | PipeLoop.CorrectedStraightStartCloses |
| 16.py:21-50 | only the beams a splitter starts are recorded in `spawned`, so a beam that turns onto a loop of mirrors and pass-through splitters walks the loop forever | the rows `.\.`, `/.\` and `\-/` with the beam entering at the top left heading east | the trace remembers every (cell, heading) it covers, always ends, and energises exactly the cells the beam reaches (`Beams.FinishedCovers`) | not executed | BeamTrace.AsWrittenLoopNeverEnds | Beams.Energize |
| 18p2.py:161-165 | at `i = 0`, `clockwise_edges[i - 1]` is the copy of the first edge appended at line 159, so the edge before the first is taken to be the first edge itself and a reflex corner at the origin is never shrunk | the L-shaped plan R 2, D 2, L 4, U 4, R 2, D 2: the grown outline does not close and the closing assertion fails | the edge before the first is the last edge; the outline then closes and the area is 21 (`Trench.LShapeAreas`) | not executed | Trench.AsWrittenGrowthGap | Trench.CorrectedGrowthCloses |

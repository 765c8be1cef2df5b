# Advent of Code 2022, days 1 to 5, in Dafny

A Dafny model of five small puzzle solutions, one module per source file:

- `SupplyStacks` (5.py): the crate-stack drawing parser and the crane that operates over the
  resulting area. The text is split into lines as Python's `str.splitlines` does (every line
  boundary character, `\r\n` counted once). Each line is cut into 4-character groups, and the first
  3 characters of each group form a cell. `"   "` is an empty place and `"[X]"` a crate marked `X`.
  Every other cell is ignored, including the legend row and short last cells.
  - `FromString` is the imperative reading loop. It is proved equal to the specification
    function `Parse`.
  - The stacks are NOT reversed. Index 0 of a stack is the crate from the top-most row, as the
    code does.
  - The guard can add only the stack numbered `len(stacks)`. A crate cell at column `i` with
    `i > len(stacks)` therefore raises the code's `IndexError`. The model returns this as
    `Err(StackIndexOutOfRange(i))`.
  - `Crane` is a class with an optional area. `Execute` fails with the `OperationalError` case
    while the crane is unbound. Otherwise it returns the crane, because in the code `execute`
    ignores its commands and moves nothing.
- `Calories` (1.py): the calorie items are already parsed, as `Amount(n)` or `Separator`.
  - `ReadElf` is the bag-reading loop, proved equal to `Bags`.
  - `Heaviest` returns the largest bag total.
  - `TopThreeHeaviest` is the running top-three loop. It is proved to return the largest sum of
    the totals of three distinct bags.
- `RockPaperScissors` (2.py):
  - the outcome of one match (`PlayMatch`), characterised by the enumeration values modulo 3;
  - `MatchResult.Opposite`;
  - `Game` and `Player` as classes. `Play` appends results to both players in place.
- `Rucksack` (3.py): the overlap of the two compartments of a rucksack.
- `CampCleanup` (4.py): the containment test between two section ranges.

The shared `Option` and `Result` datatypes are in `Wrappers`.

## Model

| member | source | states |
|---|---|---|
| `SupplyStacks.SplitLines` | 5.py:25 | no line it returns contains a line-boundary character |
| `SupplyStacks.SplitTerminated` | 5.py:25 | splitting lines that each end with `\n` gives back exactly those lines |
| `SupplyStacks.Cells` | 5.py:12-17 | a line of length n has (n + 3) / 4 cells, one per 4-character group including a short last one |
| `SupplyStacks.CellAt` | 5.py:12-17 | cell i is `line[4i .. min(4i + 3, len)]`: a group with its separator dropped |
| `SupplyStacks.Classify` | 5.py:27-31 | a cell is an empty place exactly when it is three spaces, and a crate cell is exactly `[`, its mark, `]` |
| `SupplyStacks.CrateDrawingClassified` | 5.py:31 | every drawn crate `[X]` is recognised as the crate marked `X` |
| `SupplyStacks.PlaceCell` | 5.py:27-34 | placing a cell fails exactly for a crate whose column lies beyond the stacks made so far, even after one stack is appended, and the error names that column |
| `SupplyStacks.StacksArea.Len` | 5.py:37-38 | `len(area)`: the number of stacks |
| `SupplyStacks.IndexableExactlyBelowLen` | 5.py:37-41 | indexing succeeds exactly for the indices from `-len(area)` to `len(area) - 1` |
| `SupplyStacks.StacksArea.Get` | 5.py:40-41 | Python tuple indexing: indices from the left, negative indices from the right, anything else the IndexError |
| `SupplyStacks.Parse` | 5.py:19-35 | `from_string` as a function of the text; a failure never names column 0, because a crate in the first column always finds or makes its stack |
| `SupplyStacks.FromString` | 5.py:19-35 | the nested reading loop returns exactly `Parse(input)`, including the IndexError case |
| `SupplyStacks.EmptyDrawing` | 5.py:21-22 | empty text gives an area with no stacks |
| `SupplyStacks.CratesPreserved` | 5.py:31-34 | when the drawing parses, the total number of crates equals the number of `[X]` cells |
| `SupplyStacks.IgnoredRowLeavesStacks` | 5.py:27-34 | a line whose cells are all unrecognised, such as the legend, leaves the stacks unchanged |
| `SupplyStacks.ParseShape` | 5.py:24-35 | if each line's recognised cells come first, parsing succeeds. There is one stack per column up to the widest such run. Stack c holds the crates drawn in column c, top row first, so an all-blank column gives an empty stack |
| `SupplyStacks.CrateAfterIgnoredCellsFails` | 5.py:29-34 | on a line read before any stack exists (e.g. the first), a crate in column i ≥ 1 after only ignored cells raises the IndexError |
| `SupplyStacks.BlankPlaceMakesEmptyStack` | 5.py:49-52 | `"   \n 1 "` gives one empty stack |
| `SupplyStacks.TopRowFirst` | 5.py:60-65 | `"[S]\n[T]\n 1 "` gives the single stack `S`, `T`, with the top row's crate at index 0 |
| `SupplyStacks.Crane.constructor` | 5.py:88-89 | a new crane is unbound |
| `SupplyStacks.Crane.OperateOver` | 5.py:91-94 | binds the crane to the area and returns the crane itself |
| `SupplyStacks.Crane.Execute` | 5.py:96-99 | fails with the OperationalError exactly when unbound, otherwise returns the crane; it changes no state |
| `SupplyStacks.UnboundCraneFails` | 5.py:103-106 | a new crane fails to execute |
| `SupplyStacks.BoundCraneLeavesArea` | 5.py:108-113 | after binding, executing no commands succeeds and leaves the area equal to what it was |
| `Calories.ReadElf` | 1.py:6-13 | the reading loop yields exactly `Bags(items)` |
| `Calories.NoItemsNoBags` | 1.py:17-20 | no items yield no bags |
| `Calories.BagCountIsSeparatorCount` | 1.py:8-11 | one bag is yielded per separator |
| `Calories.TrailingAmountsDropped` | 1.py:8-13 | amounts after the last separator are never yielded |
| `Calories.FirstBag` | 1.py:8-13 | the first bag is the amounts before the first separator, in input order, and the rest come from what follows. Two adjacent separators give an empty bag |
| `Calories.Heaviest` | 1.py:49-50 | the result is the total of some bag, and no bag's total exceeds it |
| `Calories.TopThreeHeaviest` | 1.py:89-103 | the result is the sum of the totals of three distinct bags, and no three distinct bags sum to more |
| `Calories.TopThreeBound` | 1.py:93-102 | if the three tracked bags hold the three largest totals, no three distinct bags beat their sum |
| `Calories.TrackNewFirst` | 1.py:94-97 | a total above the first becomes the first, and the old first and second become second and third |
| `Calories.TrackNewSecond` | 1.py:98-100 | a total between the first and the second becomes the second, and the old second becomes third |
| `Calories.TrackNewThird` | 1.py:101-102 | a total between the second and the third replaces the third |
| `Calories.TrackSmaller` | 1.py:93-102 | a total no larger than the third leaves the tracked three as they are |
| `Calories.TrackedAreTopThree` | 1.py:103 | once every total has been seen, the tracked three sum to the top-three total |
| `Calories.TopThreeTotalUnique` | 1.py:89-103 | that property fixes the result |
| `Calories.TopThreeOfThree` | 1.py:107-114 | with exactly three bags the result is their grand total |
| `RockPaperScissors.MatchResult.Opposite` | 2.py:17-23 | the opposite outcome scores 6 minus the outcome's score: WIN and LOSS swap, DRAW stays |
| `RockPaperScissors.OppositeInvolution` | 2.py:17-23 | taking the opposite twice gives the original outcome |
| `RockPaperScissors.PlayMatch` | 2.py:40-51 | the table is total. The first player wins iff its value minus the other's is 1 mod 3, loses iff it is 2 mod 3, and draws iff the choices are equal |
| `RockPaperScissors.PlayMatchAntisymmetric` | 2.py:44-51 | the outcome for one side is the opposite of the outcome for the other |
| `RockPaperScissors.OutcomesSwap` | 2.py:62-65 | the second player's appended results are what it would get as the first player of the same matches |
| `RockPaperScissors.Player.constructor` | 2.py:26-29 | a player starts with its moves and no results |
| `RockPaperScissors.Game.constructor` | 2.py:33-34 | a new game has no players |
| `RockPaperScissors.Game.HasEnoughPlayers` | 2.py:36-38 | a game is ready exactly when it has two players |
| `RockPaperScissors.Game.EnoughPlayersNumbered` | 2.py:36-38 | a game is ready exactly when player numbers 1 and 2 exist and number 3 does not |
| `RockPaperScissors.Game.AddPlayer` | 2.py:69-71 | appends a new player with no results and returns the new player count |
| `RockPaperScissors.Game.GetPlayer` | 2.py:73-74 | player `no` is the one added `no`-th, counting from 1. 0 and negative numbers count back from the last, as Python indexing does |
| `RockPaperScissors.Game.Play` | 2.py:53-67 | without exactly two players, fails and changes nothing. Otherwise it appends each pair's outcome to player 1 and the opposite to player 2, and returns player 1's accumulated result count. Move lists of unequal length are an error, raised after the common prefix has been recorded |
| `RockPaperScissors.OnePlayerCannotPlay` | 2.py:106-111 | the first player added is number 1, and one player cannot play |
| `RockPaperScissors.TwoMatches` | 2.py:130-135 | two moves each give two matches: win then draw for player 1, loss then draw for player 2 |
| `Rucksack.Middle` | 3.py:5 | the second compartment is as long as the first or one longer |
| `Rucksack.CharSet` | 3.py:6 | `set(s)` holds exactly the characters of s, and has no more elements than s has characters |
| `Rucksack.CompartmentOverlap` | 3.py:4-7 | c is in the result iff c occurs both before and at-or-after the middle. The result lies within the first compartment, so it has at most `len // 2` elements |
| `Rucksack.EmptyBagHasNoOverlap` | 3.py:11-12 | an empty rucksack has no overlap |
| `Rucksack.SingleItemHasNoOverlap` | 3.py:14-15 | one item has no overlap, because the first compartment is empty |
| `Rucksack.MiddleItemInSecondCompartment` | 3.py:17-21 | `"121"` gives `{'1'}` and `"123"` gives nothing: the middle item belongs to the second compartment |
| `Rucksack.RepeatsCollapse` | 3.py:22 | `"1231"` gives `{'1'}` once |
| `CampCleanup.SectionRange.Contains` | 4.py:10-12 | a contained range is no longer than the range containing it, and a contained non-empty range has both ends among the container's sections |
| `CampCleanup.ContainsIffCovers` | 4.py:10-12 | for a range covering at least one section, containment is exactly inclusion of the covered sections |
| `CampCleanup.ContainsReflexive` | 4.py:46-50 | every range contains itself |
| `CampCleanup.ContainsTransitive` | 4.py:10-12 | containment chains |
| `CampCleanup.ContainsAntisymmetric` | 4.py:10-12 | ranges that contain each other are equal |
| `CampCleanup.ContainsNotSymmetric` | 4.py:28-44 | 1-2 is in 1-3, but 1-3 is not in 1-2 |
| `CampCleanup.DisjointNotContained` | 4.py:16-20 | a range lying wholly before another is not in it |
| `CampCleanup.OverlapNotContained` | 4.py:22-26 | a range overlapping another but starting before it is not in it |

## Left out

- File reading, the newline stripping it does, and the `__main__` drivers (1.py:70-72, 1.py:147-149): these are I/O.
- Python's `int()` parsing of calorie lines (1.py:13): items are given already parsed.
- Generator laziness (1.py:6-13, 5.py:12-17): bags and cells are finite sequences.
- `Calories.Heaviest`: the ValueError that `max` raises when there are no bags is a precondition, not an error result.
- `Calories.TopThreeHeaviest`: the StopIteration that the priming `next` calls raise with fewer than three bags is a precondition, not an error result.
- Moving crates: `execute` ignores its commands (5.py:96-99), so no move is modelled.
- Rejecting malformed cells: the code silently ignores them, and so does the model.
- `StacksArea` is a value. The deques are never changed once parsed, so their in-place mutability is not modelled.
- The `len(self._area)` call in `operate_over` can fail only for an object without a length, and the types rule that out.
- `RockPaperScissors.Player.constructor`: a player's moves are fixed when the player is added. In the code the player keeps a reference to the caller's list (2.py:70), so changing that list afterwards changes what `play` pairs up (2.py:62). The model does not capture that aliasing.
- Dataclass, `slots`, `deepcopy` and `IntEnum` machinery: the enumerations are datatypes with their integer values.
- A range whose start exceeds its stop covers no section. `Contains` may still reject it, so `CampCleanup.ContainsIffCovers` is stated only for ranges covering at least one section.

/**
 * Supply stacks: the drawing of crate stacks, read row by row into one
 * sequence of crate marks per column, and the crane that is bound to the
 * resulting area before it may execute commands.
 *
 * A stack keeps its crates in the order the drawing shows them from top to
 * bottom: index 0 holds the crate of the top-most row that has one.
 */
module SupplyStacks {
  import opened Wrappers

  function Min(a: int, b: int): int { if a <= b then a else b }
  function Max(a: int, b: int): int { if a >= b then a else b }

  // ---------------------------------------------------------------------
  // Splitting the drawing into lines, as Python's str.splitlines does
  // ---------------------------------------------------------------------

  /** The characters Python's `str.splitlines` treats as line boundaries. */
  predicate IsLineBreak(c: char) {
    c == '\n' || c == '\r' || c == '\U{000B}' || c == '\U{000C}' || c == '\U{001C}' ||
    c == '\U{001D}' || c == '\U{001E}' || c == '\U{0085}' || c == '\U{2028}' || c == '\U{2029}'
  }

  /** Position of the first line boundary of `s`, or `|s|` when there is none. */
  function LineEnd(s: string): (k: nat)
    ensures k <= |s| && (k < |s| ==> IsLineBreak(s[k]))
    ensures forall j :: 0 <= j < k ==> !IsLineBreak(s[j])
  {
    if s == [] || IsLineBreak(s[0]) then 0 else 1 + LineEnd(s[1..])
  }

  /**
   * The lines of `s` without their boundaries; `\r\n` counts as one boundary
   * and a boundary at the very end opens no further line.
   */
  function SplitLines(s: string): (lines: seq<string>)
    ensures forall l, j :: 0 <= l < |lines| && 0 <= j < |lines[l]| ==> !IsLineBreak(lines[l][j])
    decreases |s|
  {
    if s == [] then []
    else
      var k := LineEnd(s);
      if k == |s| then [s]
      else
        var width := if s[k] == '\r' && k + 1 < |s| && s[k + 1] == '\n' then 2 else 1;
        [s[..k]] + SplitLines(s[k + width..])
  }

  predicate NoLineBreak(line: string) {
    forall j :: 0 <= j < |line| ==> !IsLineBreak(line[j])
  }

  /** The lines written out one after the other, each ended by `\n`. */
  function Terminated(lines: seq<string>): string {
    if lines == [] then [] else lines[0] + "\n" + Terminated(lines[1..])
  }

  /** Splitting lines that were each ended by `\n` gives the lines back. */
  lemma {:induction false} SplitTerminated(lines: seq<string>)
    requires forall l :: 0 <= l < |lines| ==> NoLineBreak(lines[l])
    ensures SplitLines(Terminated(lines)) == lines
  {
    if lines != [] {
      var s := Terminated(lines);
      var line := lines[0];
      assert s == line + ("\n" + Terminated(lines[1..]));
      LineEndOf(line, "\n" + Terminated(lines[1..]));
      assert s[..|line|] == line;
      assert s[|line| + 1..] == Terminated(lines[1..]);
      SplitTerminated(lines[1..]);
    }
  }

  lemma {:induction false} LineEndOf(line: string, rest: string)
    requires NoLineBreak(line) && rest != [] && IsLineBreak(rest[0])
    ensures LineEnd(line + rest) == |line|
  {
    if line != [] {
      assert (line + rest)[1..] == line[1..] + rest;
      LineEndOf(line[1..], rest);
    }
  }

  // ---------------------------------------------------------------------
  // Cutting a line into cells
  // ---------------------------------------------------------------------

  /**
   * The cells of one line: the line is read in groups of four characters (a
   * cell and the space after it) and the first three of each group are kept,
   * so a short last group gives a short cell.
   */
  function Cells(line: string): (cells: seq<string>)
    ensures |cells| == (|line| + 3) / 4
    decreases |line|
  {
    if line == [] then [] else [line[..Min(3, |line|)]] + Cells(line[Min(4, |line|)..])
  }

  /** Cell `i` is the line from position `4 * i`, three characters long or up to the end. */
  lemma {:induction false} CellAt(line: string, i: nat)
    requires i < |Cells(line)|
    ensures Cells(line)[i] == line[4 * i .. Min(4 * i + 3, |line|)]
    decreases |line|
  {
    if i > 0 {
      assert |line| > 4 && Min(4, |line|) == 4;
      var rest := line[4..];
      CellAt(rest, i - 1);
      var lo, hi := 4 * (i - 1), Min(4 * (i - 1) + 3, |rest|);
      assert lo + 4 == 4 * i && hi + 4 == Min(4 * i + 3, |line|);
      SliceOfSuffix(line, 4, lo, hi);
    }
  }

  /** A slice of `s[d..]` is the slice of `s` shifted by `d`. */
  lemma SliceOfSuffix(s: string, d: nat, lo: nat, hi: nat)
    requires d <= |s| && lo <= hi <= |s| - d
    ensures s[d..][lo..hi] == s[d + lo .. d + hi]
  {
    forall k | 0 <= k < hi - lo
      ensures s[d..][lo..hi][k] == s[d + lo .. d + hi][k]
    {
      assert s[d..][lo..hi][k] == s[d..][lo + k] == s[d + lo + k];
    }
  }

  /** What a cell of the drawing shows. */
  datatype Cell = Blank | Crate(mark: char) | Unrecognised

  /** `"   "` is an empty place, `"[X]"` a crate marked X; anything else is ignored. */
  function Classify(cell: string): (r: Cell)
    ensures r == Blank <==> cell == "   "
    ensures r.Crate? ==> cell == ['[', r.mark, ']']
  {
    if cell == "   " then Blank
    else if |cell| == 3 && cell[0] == '[' && cell[2] == ']' then Crate(cell[1])
    else Unrecognised
  }

  /** A drawn crate `[X]` is recognised as the crate marked `X`. */
  lemma CrateDrawingClassified(mark: char)
    ensures Classify(['[', mark, ']']) == Crate(mark)
  {
  }

  // ---------------------------------------------------------------------
  // The stacks area
  // ---------------------------------------------------------------------

  /** The stacks, left to right; each stack lists its crates from the top row down. */
  datatype StacksArea = StacksArea(stacks: seq<seq<char>>) {

    /** `len(area)`: the number of stacks. */
    function Len(): nat {
      |stacks|
    }

    /**
     * `area[index]`: the stack at `index` in Python's tuple indexing, where a
     * negative index counts from the right; `None` stands for the IndexError.
     */
    function Get(index: int): (s: Option<seq<char>>)
      ensures 0 <= index < Len() ==> s == Some(stacks[index])
      ensures index < 0 <= Len() + index ==> s == Some(stacks[Len() + index])
      ensures s.None? <==> index >= Len() || Len() + index < 0
    {
      if 0 <= index < |stacks| then Some(stacks[index])
      else if index < 0 <= |stacks| + index then Some(stacks[|stacks| + index])
      else None
    }
  }

  /** `area[i]` succeeds exactly for the indices from `-len(area)` up to `len(area) - 1`. */
  lemma IndexableExactlyBelowLen(area: StacksArea, index: int)
    ensures area.Get(index).Some? <==> 0 <= area.Len() + index && index < area.Len()
  {
  }

  /** The IndexError of `stacks[i]` when a crate lies beyond the stacks made so far. */
  datatype ParseError = StackIndexOutOfRange(column: nat)

  /**
   * The effect of the cell at column `i` on the stacks made so far: an empty
   * place or a crate first makes sure a stack exists for it, by appending one
   * empty stack when there are at most `i`; a crate is then appended to stack
   * `i`, which fails if even that stack is missing.
   */
  function PlaceCell(stacks: seq<seq<char>>, i: nat, cell: Cell): (r: Result<seq<seq<char>>, ParseError>)
    ensures r.Err? <==> cell.Crate? && i > |stacks|
    ensures r.Err? ==> r.error == StackIndexOutOfRange(i)
  {
    match cell
    case Blank => Ok(if |stacks| <= i then stacks + [[]] else stacks)
    case Crate(mark) =>
      var grown := if |stacks| <= i then stacks + [[]] else stacks;
      if i < |grown| then Ok(grown[i := grown[i] + [mark]]) else Err(StackIndexOutOfRange(i))
    case Unrecognised => Ok(stacks)
  }

  /** The cells `cells[i..]` of one line, in order, with column numbers from `i`. */
  function PlaceCells(stacks: seq<seq<char>>, cells: seq<string>, i: nat): (r: Result<seq<seq<char>>, ParseError>)
    ensures r.Err? ==> r.error.column >= 1
    decreases |cells| - i
  {
    if i >= |cells| then Ok(stacks)
    else
      match PlaceCell(stacks, i, Classify(cells[i]))
      case Err(e) => Err(e)
      case Ok(next) => PlaceCells(next, cells, i + 1)
  }

  /** The lines in order, top row first. */
  function PlaceLines(stacks: seq<seq<char>>, lines: seq<string>): (r: Result<seq<seq<char>>, ParseError>)
    ensures r.Err? ==> r.error.column >= 1
    decreases |lines|
  {
    if lines == [] then Ok(stacks)
    else
      match PlaceCells(stacks, Cells(lines[0]), 0)
      case Err(e) => Err(e)
      case Ok(next) => PlaceLines(next, lines[1..])
  }

  /** `from_string`, as a function of the text: empty text gives no stacks. */
  function Parse(input: string): (r: Result<StacksArea, ParseError>)
    ensures r.Err? ==> r.error.column >= 1
  {
    if input == [] then Ok(StacksArea([]))
    else
      match PlaceLines([], SplitLines(input))
      case Err(e) => Err(e)
      case Ok(stacks) => Ok(StacksArea(stacks))
  }

  /** Continues from the stacks a line ended with, or passes its error on. */
  function Resume(r: Result<seq<seq<char>>, ParseError>, lines: seq<string>): Result<seq<seq<char>>, ParseError> {
    match r
    case Err(e) => Err(e)
    case Ok(stacks) => PlaceLines(stacks, lines)
  }

  /**
   * `StacksArea.from_string`: reads the drawing line by line and cell by cell,
   * growing the list of stacks and appending crates in place.
   */
  method FromString(input: string) returns (r: Result<StacksArea, ParseError>)
    ensures r == Parse(input)
  {
    if input == [] {
      return Ok(StacksArea([]));
    }
    var stacks: seq<seq<char>> := [];
    var lines := SplitLines(input);
    var l := 0;
    while l < |lines|
      invariant 0 <= l <= |lines|
      invariant PlaceLines(stacks, lines[l..]) == PlaceLines([], lines)
    {
      assert lines[l..][1..] == lines[l + 1..];
      var cells := Cells(lines[l]);
      var i := 0;
      while i < |cells|
        invariant 0 <= i <= |cells|
        invariant Resume(PlaceCells(stacks, cells, i), lines[l + 1..]) == PlaceLines([], lines)
      {
        match Classify(cells[i]) {
          case Blank =>
            if |stacks| <= i {
              stacks := stacks + [[]];
            }
          case Crate(mark) =>
            if |stacks| <= i {
              stacks := stacks + [[]];
            }
            if |stacks| <= i {
              return Err(StackIndexOutOfRange(i));
            }
            stacks := stacks[i := stacks[i] + [mark]];
          case Unrecognised =>
        }
        i := i + 1;
      }
      l := l + 1;
    }
    return Ok(StacksArea(stacks));
  }

  // ---------------------------------------------------------------------
  // Every crate cell becomes exactly one crate
  // ---------------------------------------------------------------------

  /** The number of crates over all stacks. */
  function TotalCrates(stacks: seq<seq<char>>): nat {
    if stacks == [] then 0 else TotalCrates(stacks[..|stacks| - 1]) + |stacks[|stacks| - 1]|
  }

  /** The number of crate cells among `cells[i..]`. */
  function CrateCells(cells: seq<string>, i: nat): nat
    decreases |cells| - i
  {
    if i >= |cells| then 0
    else (if Classify(cells[i]).Crate? then 1 else 0) + CrateCells(cells, i + 1)
  }

  /** The number of crate cells in all the lines. */
  function CrateCellsIn(lines: seq<string>): nat {
    if lines == [] then 0 else CrateCells(Cells(lines[0]), 0) + CrateCellsIn(lines[1..])
  }

  lemma {:induction false} TotalCratesPush(stacks: seq<seq<char>>, i: nat, mark: char)
    requires i < |stacks|
    ensures TotalCrates(stacks[i := stacks[i] + [mark]]) == TotalCrates(stacks) + 1
  {
    var pushed := stacks[i := stacks[i] + [mark]];
    var n := |stacks|;
    assert pushed[..n - 1] == if i == n - 1 then stacks[..n - 1] else stacks[..n - 1][i := stacks[i] + [mark]];
    if i < n - 1 {
      TotalCratesPush(stacks[..n - 1], i, mark);
    }
  }

  lemma {:induction false} PlaceCellsCount(stacks: seq<seq<char>>, cells: seq<string>, i: nat)
    ensures PlaceCells(stacks, cells, i).Ok? ==>
      TotalCrates(PlaceCells(stacks, cells, i).value) == TotalCrates(stacks) + CrateCells(cells, i)
    decreases |cells| - i
  {
    if i < |cells| {
      var placed := PlaceCell(stacks, i, Classify(cells[i]));
      if placed.Ok? {
        match Classify(cells[i]) {
          case Blank =>
            assert (stacks + [[]])[..|stacks|] == stacks;
          case Crate(mark) =>
            var grown := if |stacks| <= i then stacks + [[]] else stacks;
            assert grown[..|stacks|] == stacks;
            TotalCratesPush(grown, i, mark);
          case Unrecognised =>
        }
        PlaceCellsCount(placed.value, cells, i + 1);
      }
    }
  }

  lemma {:induction false} PlaceLinesCount(stacks: seq<seq<char>>, lines: seq<string>)
    ensures PlaceLines(stacks, lines).Ok? ==>
      TotalCrates(PlaceLines(stacks, lines).value) == TotalCrates(stacks) + CrateCellsIn(lines)
    decreases |lines|
  {
    if lines != [] {
      PlaceCellsCount(stacks, Cells(lines[0]), 0);
      var placed := PlaceCells(stacks, Cells(lines[0]), 0);
      if placed.Ok? {
        PlaceLinesCount(placed.value, lines[1..]);
      }
    }
  }

  /** A drawing that parses holds exactly one crate per crate cell. */
  lemma CratesPreserved(input: string)
    requires Parse(input).Ok?
    ensures TotalCrates(Parse(input).value.stacks) == CrateCellsIn(SplitLines(input))
  {
    PlaceLinesCount([], SplitLines(input));
  }

  // ---------------------------------------------------------------------
  // Which cells are ignored
  // ---------------------------------------------------------------------

  predicate Recognised(cell: string) {
    Classify(cell) != Unrecognised
  }

  /**
   * A line whose cells are all ignored, such as the legend ` 1   2   3 `,
   * leaves the stacks as they were.
   */
  lemma {:induction false} IgnoredRowLeavesStacks(stacks: seq<seq<char>>, cells: seq<string>, i: nat)
    requires forall j :: i <= j < |cells| ==> !Recognised(cells[j])
    ensures PlaceCells(stacks, cells, i) == Ok(stacks)
    decreases |cells| - i
  {
    if i < |cells| {
      IgnoredRowLeavesStacks(stacks, cells, i + 1);
    }
  }

  // ---------------------------------------------------------------------
  // The stacks of a drawing whose lines start with their recognised cells
  // ---------------------------------------------------------------------

  /** The number of recognised cells at the start of a line. */
  function LeadingRecognised(cells: seq<string>): (w: nat)
    ensures w <= |cells|
    ensures forall j :: 0 <= j < w ==> Recognised(cells[j])
    ensures w < |cells| ==> !Recognised(cells[w])
  {
    if cells == [] || !Recognised(cells[0]) then 0 else 1 + LeadingRecognised(cells[1..])
  }

  /** No recognised cell follows an ignored one on this line. */
  ghost predicate WellFormedRow(cells: seq<string>) {
    forall j :: LeadingRecognised(cells) <= j < |cells| ==> !Recognised(cells[j])
  }

  ghost predicate WellFormed(lines: seq<string>) {
    forall l :: 0 <= l < |lines| ==> WellFormedRow(Cells(lines[l]))
  }

  /** The crate a cell shows, if any. */
  function CellMarks(cell: string): seq<char> {
    match Classify(cell)
    case Crate(mark) => [mark]
    case _ => []
  }

  /** The crate a line shows in column `c`, if any. */
  function ColumnMark(cells: seq<string>, c: nat): seq<char> {
    if c < |cells| then CellMarks(cells[c]) else []
  }

  /** The crates the drawing shows in column `c`, top row first. */
  function Column(lines: seq<string>, c: nat): seq<char> {
    if lines == [] then [] else ColumnMark(Cells(lines[0]), c) + Column(lines[1..], c)
  }

  /** The widest run of recognised cells over all lines. */
  function MaxWidth(lines: seq<string>): nat {
    if lines == [] then 0 else Max(LeadingRecognised(Cells(lines[0])), MaxWidth(lines[1..]))
  }

  function StackOrEmpty(stacks: seq<seq<char>>, c: nat): seq<char> {
    if c < |stacks| then stacks[c] else []
  }

  /** The stacks after the cells from column `i` of a well-formed line. */
  ghost function RowApplied(stacks: seq<seq<char>>, cells: seq<string>, i: nat): seq<seq<char>> {
    var w := LeadingRecognised(cells);
    seq(Max(|stacks|, w), c requires 0 <= c =>
      StackOrEmpty(stacks, c) + (if i <= c < w then CellMarks(cells[c]) else []))
  }

  /** The stacks after all of the lines of a well-formed drawing. */
  ghost function LinesApplied(stacks: seq<seq<char>>, lines: seq<string>): seq<seq<char>> {
    seq(Max(|stacks|, MaxWidth(lines)), c requires 0 <= c => StackOrEmpty(stacks, c) + Column(lines, c))
  }

  /** Past the recognised cells a line changes nothing. */
  lemma SkippedRowApplied(stacks: seq<seq<char>>, cells: seq<string>, i: nat)
    requires LeadingRecognised(cells) <= i && LeadingRecognised(cells) <= |stacks|
    ensures RowApplied(stacks, cells, i) == stacks
  {
    var r := RowApplied(stacks, cells, i);
    forall c | 0 <= c < |stacks|
      ensures r[c] == stacks[c]
    {
      assert r[c] == stacks[c] + [];
    }
  }

  /** Beyond its recognised cells a well-formed line shows no crate. */
  lemma ColumnMarkPastWidth(cells: seq<string>, c: nat)
    requires WellFormedRow(cells) && LeadingRecognised(cells) <= c
    ensures ColumnMark(cells, c) == []
  {
  }

  lemma {:induction false} PlaceCellsShape(stacks: seq<seq<char>>, cells: seq<string>, i: nat)
    requires WellFormedRow(cells) && i <= |cells|
    requires |stacks| >= Min(i, LeadingRecognised(cells))
    ensures PlaceCells(stacks, cells, i) == Ok(RowApplied(stacks, cells, i))
    decreases |cells| - i
  {
    var w := LeadingRecognised(cells);
    if i == |cells| {
      SkippedRowApplied(stacks, cells, i);
    } else if w <= i {
      assert !Recognised(cells[i]);
      assert PlaceCells(stacks, cells, i) == PlaceCells(stacks, cells, i + 1);
      PlaceCellsShape(stacks, cells, i + 1);
      SkippedRowApplied(stacks, cells, i);
      SkippedRowApplied(stacks, cells, i + 1);
    } else {
      PlaceRecognisedCell(stacks, i, cells[i]);
      var next := PlaceCell(stacks, i, Classify(cells[i])).value;
      assert PlaceCells(stacks, cells, i) == PlaceCells(next, cells, i + 1);
      PlaceCellsShape(next, cells, i + 1);
      RowAppliedStep(stacks, next, cells, i);
    }
  }

  /** A recognised cell in column `i` makes stack `i` exist and adds its crate, if any, to it. */
  lemma PlaceRecognisedCell(stacks: seq<seq<char>>, i: nat, cell: string)
    requires Recognised(cell) && i <= |stacks|
    ensures PlaceCell(stacks, i, Classify(cell)).Ok?
    ensures var next := PlaceCell(stacks, i, Classify(cell)).value;
      && |next| == Max(|stacks|, i + 1)
      && forall c :: 0 <= c < |next| ==>
           next[c] == StackOrEmpty(stacks, c) + (if c == i then CellMarks(cell) else [])
  {
    var next := PlaceCell(stacks, i, Classify(cell)).value;
    forall c | 0 <= c < |next|
      ensures next[c] == StackOrEmpty(stacks, c) + (if c == i then CellMarks(cell) else [])
    {
      if c != i {
        assert next[c] == StackOrEmpty(stacks, c) + [];
      } else if Classify(cell) == Blank {
        assert next[c] == StackOrEmpty(stacks, c) + [];
      }
    }
  }

  lemma RowAppliedStep(stacks: seq<seq<char>>, next: seq<seq<char>>, cells: seq<string>, i: nat)
    requires i < LeadingRecognised(cells)
    requires |next| == Max(|stacks|, i + 1)
    requires forall c :: 0 <= c < |next| ==>
      next[c] == StackOrEmpty(stacks, c) + (if c == i then CellMarks(cells[i]) else [])
    ensures RowApplied(next, cells, i + 1) == RowApplied(stacks, cells, i)
  {
    var w := LeadingRecognised(cells);
    var after := RowApplied(next, cells, i + 1);
    var before := RowApplied(stacks, cells, i);
    assert |after| == |before|;
    forall c | 0 <= c < |after|
      ensures after[c] == before[c]
    {
      if c < |next| {
        assert StackOrEmpty(next, c) == next[c];
      }
      if c == i {
        assert after[c] == StackOrEmpty(stacks, c) + CellMarks(cells[c]) + [];
      }
    }
  }

  /** A line followed by more lines: the line's effect, then the rest's. */
  lemma LinesAppliedStep(stacks: seq<seq<char>>, lines: seq<string>)
    requires lines != [] && WellFormedRow(Cells(lines[0]))
    ensures LinesApplied(RowApplied(stacks, Cells(lines[0]), 0), lines[1..]) == LinesApplied(stacks, lines)
  {
    var next := RowApplied(stacks, Cells(lines[0]), 0);
    var whole := LinesApplied(stacks, lines);
    var split := LinesApplied(next, lines[1..]);
    assert |split| == |whole|;
    forall c | 0 <= c < |whole|
      ensures split[c] == whole[c]
    {
      LinesAppliedStepAt(stacks, lines, c);
    }
  }

  lemma LinesAppliedStepAt(stacks: seq<seq<char>>, lines: seq<string>, c: nat)
    requires lines != [] && WellFormedRow(Cells(lines[0]))
    ensures StackOrEmpty(RowApplied(stacks, Cells(lines[0]), 0), c) + Column(lines[1..], c)
         == StackOrEmpty(stacks, c) + Column(lines, c)
  {
    var cells := Cells(lines[0]);
    RowAppliedAt(stacks, cells, c);
    ConcatAssociative(StackOrEmpty(stacks, c), ColumnMark(cells, c), Column(lines[1..], c));
  }

  /** Regroups a three-part concatenation, as a step of its own for `LinesAppliedStepAt`. */
  lemma ConcatAssociative(a: seq<char>, b: seq<char>, c: seq<char>)
    ensures (a + b) + c == a + (b + c)
  {
  }

  /** Column `c` after a whole well-formed line: what it held, then the line's crate there. */
  lemma RowAppliedAt(stacks: seq<seq<char>>, cells: seq<string>, c: nat)
    requires WellFormedRow(cells)
    ensures StackOrEmpty(RowApplied(stacks, cells, 0), c) == StackOrEmpty(stacks, c) + ColumnMark(cells, c)
  {
    var w := LeadingRecognised(cells);
    if c >= w {
      ColumnMarkPastWidth(cells, c);
      if c >= |stacks| {
        assert StackOrEmpty(stacks, c) + ColumnMark(cells, c) == [];
      }
    }
  }

  lemma {:induction false} PlaceLinesShape(stacks: seq<seq<char>>, lines: seq<string>)
    requires WellFormed(lines)
    ensures PlaceLines(stacks, lines) == Ok(LinesApplied(stacks, lines))
    decreases |lines|
  {
    if lines == [] {
      var r := LinesApplied(stacks, lines);
      forall c | 0 <= c < |stacks|
        ensures r[c] == stacks[c]
      {
        assert r[c] == stacks[c] + [];
      }
      assert r == stacks;
    } else {
      var cells := Cells(lines[0]);
      assert WellFormedRow(cells);
      PlaceCellsShape(stacks, cells, 0);
      assert WellFormed(lines[1..]) by {
        forall l | 0 <= l < |lines[1..]|
          ensures WellFormedRow(Cells(lines[1..][l]))
        {
          assert lines[1..][l] == lines[l + 1];
        }
      }
      PlaceLinesShape(RowApplied(stacks, cells, 0), lines[1..]);
      LinesAppliedStep(stacks, lines);
    }
  }

  /**
   * When every line starts with its recognised cells, the drawing parses
   * without error into one stack per column up to the widest line, and the
   * stack of column `c` holds the crates drawn in that column, top row first.
   * A column that is blank on every line thus gets an empty stack.
   */
  lemma ParseShape(input: string)
    requires WellFormed(SplitLines(input))
    ensures Parse(input).Ok?
    ensures |Parse(input).value.stacks| == MaxWidth(SplitLines(input))
    ensures forall c :: 0 <= c < |Parse(input).value.stacks| ==>
      Parse(input).value.stacks[c] == Column(SplitLines(input), c)
  {
    PlaceLinesShape([], SplitLines(input));
  }

  // ---------------------------------------------------------------------
  // Drawings from the program's unit tests
  // ---------------------------------------------------------------------

  /** Empty text gives an area without stacks. */
  lemma EmptyDrawing()
    ensures Parse("") == Ok(StacksArea([]))
  {
  }

  /** A line without boundaries, then `\n`, then more text: the line, then the lines of the rest. */
  lemma SplitLinesCons(line: string, rest: string)
    requires NoLineBreak(line)
    ensures SplitLines(line + "\n" + rest) == [line] + SplitLines(rest)
  {
    var s := line + "\n" + rest;
    assert s == line + ("\n" + rest);
    LineEndOf(line, "\n" + rest);
    assert s[..|line|] == line;
    assert s[|line| + 1..] == rest;
  }

  /** A non-empty text without boundaries is one line. */
  lemma {:induction false} SplitLinesSingle(line: string)
    requires NoLineBreak(line) && line != []
    ensures SplitLines(line) == [line]
  {
    LineEndWhole(line);
  }

  lemma {:induction false} LineEndWhole(line: string)
    requires NoLineBreak(line)
    ensures LineEnd(line) == |line|
  {
    if line != [] {
      LineEndWhole(line[1..]);
    }
  }

  /** A line of one cell and no separator. */
  lemma OneCellRow(line: string)
    requires |line| == 3
    ensures Cells(line) == [line]
  {
    assert line[..3] == line && line[3..] == [];
  }

  /** A line of a single cell is that cell's effect. */
  lemma SingleCellRow(stacks: seq<seq<char>>, cell: string)
    ensures PlaceCells(stacks, [cell], 0) == PlaceCell(stacks, 0, Classify(cell))
  {
    match PlaceCell(stacks, 0, Classify(cell)) {
      case Err(e) =>
      case Ok(next) => assert PlaceCells(next, [cell], 1) == Ok(next);
    }
  }

  /** The first line's effect, then the rest's. */
  lemma PlaceLinesCons(stacks: seq<seq<char>>, line: string, rest: seq<string>)
    ensures PlaceLines(stacks, [line] + rest) == Resume(PlaceCells(stacks, Cells(line), 0), rest)
  {
    assert ([line] + rest)[0] == line && ([line] + rest)[1..] == rest;
  }

  /** A line of one cell placed on the stacks: the cell's effect, then the remaining lines. */
  lemma OneCellLine(stacks: seq<seq<char>>, line: string, rest: seq<string>)
    requires |line| == 3
    ensures PlaceLines(stacks, [line] + rest) == Resume(PlaceCell(stacks, 0, Classify(line)), rest)
  {
    PlaceLinesCons(stacks, line, rest);
    OneCellRow(line);
    SingleCellRow(stacks, line);
  }

  /** One blank place above the legend gives one empty stack. */
  lemma BlankPlaceMakesEmptyStack()
    ensures Parse("   \n 1 ") == Ok(StacksArea([[]]))
  {
    var input := "   \n 1 ";
    assert input == "   " + "\n" + " 1 ";
    SplitLinesCons("   ", " 1 ");
    SplitLinesSingle(" 1 ");
    assert SplitLines(input) == ["   ", " 1 "];
    BlankPlaceLines();
  }

  lemma BlankPlaceLines()
    ensures PlaceLines([], ["   ", " 1 "]) == Ok([[]])
  {
    assert Classify("   ") == Blank;
    OneCellLine([], "   ", [" 1 "]);
    var none: seq<seq<char>> := [];
    assert none + [[]] == [[]];
    assert PlaceCell([], 0, Blank) == Ok([[]]);
    assert ["   ", " 1 "] == ["   "] + [" 1 "];
    LegendLine([[]]);
  }

  /** The legend line ` 1 ` leaves any stacks as they are. */
  lemma LegendLine(stacks: seq<seq<char>>)
    ensures PlaceLines(stacks, [" 1 "]) == Ok(stacks)
  {
    assert Classify(" 1 ") == Unrecognised;
    OneCellLine(stacks, " 1 ", []);
    assert [" 1 "] == [" 1 "] + [];
  }

  /** Crates keep the order of the rows: the top row's crate comes first. */
  lemma TopRowFirst()
    ensures Parse("[S]\n[T]\n 1 ") == Ok(StacksArea(["ST"]))
  {
    var input := "[S]\n[T]\n 1 ";
    assert input == "[S]" + "\n" + "[T]" + "\n" + " 1 ";
    ThreeLines("[S]", "[T]", " 1 ");
    assert PlaceLines([], SplitLines(input)) == Ok(["ST"]) by {
      FirstCrateLine();
      SecondCrateLine();
      LegendLine(["ST"]);
    }
  }

  lemma ThreeLines(a: string, b: string, c: string)
    requires NoLineBreak(a) && NoLineBreak(b) && NoLineBreak(c) && c != []
    ensures SplitLines(a + "\n" + b + "\n" + c) == [a, b, c]
  {
    assert a + "\n" + b + "\n" + c == a + "\n" + (b + "\n" + c);
    SplitLinesCons(a, b + "\n" + c);
    SplitLinesCons(b, c);
    SplitLinesSingle(c);
  }

  lemma FirstCrateLine()
    ensures PlaceLines([], ["[S]", "[T]", " 1 "]) == PlaceLines(["S"], ["[T]", " 1 "])
  {
    assert Classify("[S]") == Crate('S');
    OneCellLine([], "[S]", ["[T]", " 1 "]);
    assert ["[S]", "[T]", " 1 "] == ["[S]"] + ["[T]", " 1 "];
    var none: seq<seq<char>> := [];
    var grown := none + [[]];
    assert grown == [[]] && grown[0] + ['S'] == "S";
    assert grown[0 := "S"] == ["S"];
  }

  lemma SecondCrateLine()
    ensures PlaceLines(["S"], ["[T]", " 1 "]) == PlaceLines(["ST"], [" 1 "])
  {
    assert Classify("[T]") == Crate('T');
    OneCellLine(["S"], "[T]", [" 1 "]);
    assert ["[T]", " 1 "] == ["[T]"] + [" 1 "];
    var before: seq<seq<char>> := ["S"];
    assert before[0] + ['T'] == "ST";
    assert before[0 := "ST"] == ["ST"];
  }

  /**
   * Why the shape theorem asks for well-formed lines: a crate cell in column
   * `i >= 1` of the first line, after cells that are all ignored, finds at
   * most one stack made for it and fails.
   */
  lemma {:induction false} CrateAfterIgnoredCellsFails(cells: seq<string>, i: nat, j: nat)
    requires 1 <= i < |cells| && Classify(cells[i]).Crate?
    requires forall k :: 0 <= k < i ==> !Recognised(cells[k])
    requires j <= i
    ensures PlaceCells([], cells, j) == Err(StackIndexOutOfRange(i))
    decreases i - j
  {
    if j < i {
      CrateAfterIgnoredCellsFails(cells, i, j + 1);
    }
  }

  // ---------------------------------------------------------------------
  // The crane
  // ---------------------------------------------------------------------

  /** The OperationalError of a crane that has no area to work on. */
  datatype CraneError = NoAreaToOperate

  /** A crane, unbound until it is told which area to operate over. */
  class Crane {
    var area: Option<StacksArea>

    constructor ()
      ensures area == None
    {
      area := None;
    }

    /** Binds the crane to `a` and returns the crane itself, for chaining. */
    method OperateOver(a: StacksArea) returns (self: Crane)
      modifies this
      ensures area == Some(a) && self == this
    {
      area := Some(a);
      self := this;
    }

    /**
     * Fails while the crane is unbound; otherwise returns the crane itself.
     * The commands are not looked at, and neither the crane nor the area
     * changes.
     */
    method Execute<Command>(commands: seq<Command>) returns (r: Result<Crane, CraneError>)
      ensures area.None? <==> r == Err(NoAreaToOperate)
      ensures area.Some? <==> r == Ok(this)
    {
      if area.None? {
        return Err(NoAreaToOperate);
      }
      return Ok(this);
    }
  }

  /** A fresh crane cannot execute, whatever the commands. */
  method UnboundCraneFails<Command>(commands: seq<Command>) returns (r: Result<Crane, CraneError>)
    ensures r == Err(NoAreaToOperate)
  {
    var crane := new Crane();
    r := crane.Execute(commands);
  }

  /**
   * Binding a crane to an area and executing no commands succeeds with the
   * same crane and leaves the area as it was.
   */
  method BoundCraneLeavesArea(a: StacksArea) returns (after: StacksArea, r: Result<Crane, CraneError>)
    ensures after == a && r.Ok?
  {
    var crane := new Crane();
    var bound := crane.OperateOver(a);
    r := bound.Execute<nat>([]);
    after := crane.area.value;
  }
}

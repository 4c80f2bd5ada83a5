/** Day 6: a square grid of lights switched rectangle by rectangle. */
module FireHazard {
  import opened Wrappers
  import opened Text

  /** The side of the grid the puzzle uses; the processing methods take the side as a parameter. */
  const PuzzleSize: nat := 1000

  datatype Operation = TurnOn | TurnOff | Toggle

  /** An operation on the cells from corner (x0, y0) to corner (x1, y1), both included. */
  datatype Instruction = Instruction(op: Operation, x0: nat, y0: nat, x1: nat, y1: nat)

  datatype GridError =
    | InvalidInstruction(instruction: string) // the line does not start with an instruction
    | IndexOutOfRange                         // a non-empty rectangle reaches past the grid

  // ---------------------------------------------------------------------------
  // parse_instruction: `(turn on|turn off|toggle) (\d+),(\d+) through (\d+),(\d+)` at the start

  /** The words of each operation, with the space that follows them. */
  function OpText(op: Operation): string {
    match op
    case TurnOn => "turn on "
    case TurnOff => "turn off "
    case Toggle => "toggle "
  }

  /** The alternatives of the pattern's first group, in the order they are tried. */
  const Operations: seq<Operation> := [TurnOn, TurnOff, Toggle]

  /** What separates the four numbers. */
  const Separators: seq<string> := [",", " through ", ","]

  /** The first of `ops` whose words start `t`, and the text after them. */
  function Phrase(t: string, ops: seq<Operation>): (r: Option<(Operation, string)>)
    ensures r.Some? ==> r.value.0 in ops && t == OpText(r.value.0) + r.value.1
  {
    if ops == [] then None
    else if OpText(ops[0]) <= t then
      assert t == OpText(ops[0]) + t[|OpText(ops[0])|..];
      Some((ops[0], t[|OpText(ops[0])|..]))
    else Phrase(t, ops[1..])
  }

  /** The length of the run of decimal digits `s` starts with. */
  function LeadingDigits(s: string): (k: nat)
    ensures k <= |s| && AllDigits(s[..k])
    ensures k < |s| ==> !IsDigit(s[k])
  {
    if s == [] || !IsDigit(s[0]) then 0
    else
      var k := LeadingDigits(s[1..]);
      assert s[..k + 1] == [s[0]] + s[1..][..k];
      k + 1
  }

  /**
   * `(\d+)`, then each of `seps` followed by `(\d+)`: the values of the
   * longest runs of digits, in order. Whatever follows the last number is
   * ignored, since the match is anchored at the start only.
   */
  function Numbers(t: string, seps: seq<string>): (r: Option<seq<nat>>)
    ensures r.Some? ==> |r.value| == |seps| + 1
  {
    var k := LeadingDigits(t);
    if k == 0 then None
    else if seps == [] then Some([DigitsValue(t[..k])])
    else if seps[0] <= t[k..] then
      var rest :- Numbers(t[k..][|seps[0]|..], seps[1..]);
      Some([DigitsValue(t[..k])] + rest)
    else None
  }

  /** The instruction at the start of `t`. */
  function Fields(t: string): Option<Instruction> {
    var p :- Phrase(t, Operations);
    var ns :- Numbers(p.1, Separators);
    Some(Instruction(p.0, ns[0], ns[1], ns[2], ns[3]))
  }

  /** `parse_instruction`: the instruction the stripped line starts with; the error names the line as given. */
  function ParseInstruction(line: string): Result<Instruction, GridError> {
    match Fields(Strip(line))
    case None => Err(InvalidInstruction(line))
    case Some(i) => Ok(i)
  }

  /** Text that cannot continue a number. */
  predicate EndsNumber(s: string) {
    s == [] || !IsDigit(s[0])
  }

  /** Separators that end the number before them. */
  predicate SeparatorsEndNumbers(seps: seq<string>) {
    forall i :: 0 <= i < |seps| ==> |seps[i]| > 0 && EndsNumber(seps[i])
  }

  predicate AllNumbers(ds: seq<string>) {
    forall i :: 0 <= i < |ds| ==> IsDigits(ds[i])
  }

  /** The values of a sequence of digit strings. */
  function Values(ds: seq<string>): (vs: seq<nat>)
    requires AllNumbers(ds)
    ensures |vs| == |ds|
  {
    if ds == [] then [] else [DigitsValue(ds[0])] + Values(ds[1..])
  }

  /** `ds[0] + seps[0] + ds[1] + … + seps[|seps| - 1] + ds[|seps|] + tail`. */
  function Interleave(ds: seq<string>, seps: seq<string>, tail: string): string
    requires |ds| == |seps| + 1
  {
    if seps == [] then ds[0] + tail else ds[0] + (seps[0] + Interleave(ds[1..], seps[1..], tail))
  }

  /** The text of an instruction whose numbers are written as the digit strings `ds`, followed by `tail`. */
  function Spelled(op: Operation, ds: seq<string>, tail: string): string
    requires |ds| == 4
  {
    OpText(op) + Interleave(ds, Separators, tail)
  }

  lemma {:induction false} LeadingDigitsOf(d: string, rest: string)
    requires AllDigits(d) && EndsNumber(rest)
    ensures LeadingDigits(d + rest) == |d|
  {
    if d != [] {
      assert (d + rest)[1..] == d[1..] + rest;
      LeadingDigitsOf(d[1..], rest);
    } else {
      assert d + rest == rest;
    }
  }

  /** Numbers and separators written out are read back. */
  lemma {:induction false} NumbersOfInterleave(ds: seq<string>, seps: seq<string>, tail: string)
    requires |ds| == |seps| + 1 && AllNumbers(ds) && SeparatorsEndNumbers(seps) && EndsNumber(tail)
    ensures Numbers(Interleave(ds, seps, tail), seps) == Some(Values(ds))
    decreases |seps|
  {
    var t := Interleave(ds, seps, tail);
    var after := if seps == [] then tail else seps[0] + Interleave(ds[1..], seps[1..], tail);
    assert t == ds[0] + after;
    assert EndsNumber(after);
    LeadingDigitsOf(ds[0], after);
    assert t[..|ds[0]|] == ds[0];
    assert t[|ds[0]|..] == after;
    assert Values(ds) == [DigitsValue(ds[0])] + Values(ds[1..]);
    if seps == [] {
      assert ds[1..] == [];
      assert Values(ds[1..]) == [];
      assert Values(ds) == [DigitsValue(ds[0])];
    } else {
      var more := Interleave(ds[1..], seps[1..], tail);
      assert after[..|seps[0]|] == seps[0];
      assert after[|seps[0]|..] == more;
      NumbersOfInterleave(ds[1..], seps[1..], tail);
    }
  }

  /** Conversely, what the numbers are read from is numbers and separators written out, then a tail that is not a digit. */
  lemma {:induction false} InterleaveOfNumbers(t: string, seps: seq<string>) returns (ds: seq<string>, tail: string)
    requires Numbers(t, seps).Some?
    ensures |ds| == |seps| + 1 && AllNumbers(ds) && EndsNumber(tail)
    ensures t == Interleave(ds, seps, tail) && Numbers(t, seps).value == Values(ds)
    decreases |seps|
  {
    var k := LeadingDigits(t);
    var d := t[..k];
    assert IsDigits(d);
    assert t == d + t[k..];
    if seps == [] {
      ds, tail := [d], t[k..];
      assert Values(ds) == [DigitsValue(d)];
    } else {
      var after := t[k..];
      var more := after[|seps[0]|..];
      assert after == seps[0] + more;
      var rest, tl := InterleaveOfNumbers(more, seps[1..]);
      ds, tail := [d] + rest, tl;
      assert ds[0] == d && ds[1..] == rest;
      assert Interleave(ds, seps, tail) == d + (seps[0] + Interleave(rest, seps[1..], tl));
      assert Numbers(t, seps).value == [DigitsValue(d)] + Numbers(more, seps[1..]).value;
    }
  }

  lemma PhraseOf(op: Operation, rest: string)
    ensures Phrase(OpText(op) + rest, Operations) == Some((op, rest))
  {
    var t := OpText(op) + rest;
    assert t[..|OpText(op)|] == OpText(op);
    assert t[|OpText(op)|..] == rest;
    var others := Operations[1..];
    assert others == [TurnOff, Toggle] && others[1..] == [Toggle];
    match op
    case TurnOn =>
    case TurnOff =>
      assert t[6] != OpText(TurnOn)[6];
      assert Phrase(t, Operations) == Phrase(t, others);
    case Toggle =>
      assert t[1] != OpText(TurnOn)[1];
      assert Phrase(t, Operations) == Phrase(t, others);
      assert t[1] != OpText(TurnOff)[1];
      assert Phrase(t, others) == Phrase(t, others[1..]);
  }

  /** Every text that spells an instruction is read as that instruction, whatever non-digit text follows. */
  lemma FieldsOfSpelled(op: Operation, ds: seq<string>, tail: string)
    requires |ds| == 4 && AllNumbers(ds) && EndsNumber(tail)
    ensures Fields(Spelled(op, ds, tail)) ==
      Some(Instruction(op, DigitsValue(ds[0]), DigitsValue(ds[1]), DigitsValue(ds[2]), DigitsValue(ds[3])))
  {
    PhraseOf(op, Interleave(ds, Separators, tail));
    NumbersOfInterleave(ds, Separators, tail);
    ValuesOfFour(ds);
  }

  lemma ValuesOfFour(ds: seq<string>)
    requires |ds| == 4 && AllNumbers(ds)
    ensures Values(ds) == [DigitsValue(ds[0]), DigitsValue(ds[1]), DigitsValue(ds[2]), DigitsValue(ds[3])]
  {
    assert Values(ds)[1..] == Values(ds[1..]);
    assert Values(ds[1..])[1..] == Values(ds[2..]);
    assert Values(ds[2..])[1..] == Values(ds[3..]);
  }

  /** Conversely, every text read as an instruction spells it, followed by text that is not a digit. */
  lemma SpelledOfFields(t: string) returns (ds: seq<string>, tail: string)
    requires Fields(t).Some?
    ensures |ds| == 4 && AllNumbers(ds) && EndsNumber(tail)
    ensures var i := Fields(t).value;
      && t == Spelled(i.op, ds, tail)
      && i == Instruction(i.op, DigitsValue(ds[0]), DigitsValue(ds[1]), DigitsValue(ds[2]), DigitsValue(ds[3]))
  {
    var p := Phrase(t, Operations).value;
    ds, tail := InterleaveOfNumbers(p.1, Separators);
    ValuesOfFour(ds);
  }

  /** A line that spells an instruction, with no whitespace at its end, parses to that instruction. */
  lemma ParseSpelled(op: Operation, ds: seq<string>, tail: string)
    requires |ds| == 4 && AllNumbers(ds) && EndsNumber(tail)
    requires tail == [] || !IsSpace(tail[|tail| - 1])
    ensures ParseInstruction(Spelled(op, ds, tail)) ==
      Ok(Instruction(op, DigitsValue(ds[0]), DigitsValue(ds[1]), DigitsValue(ds[2]), DigitsValue(ds[3])))
  {
    SpelledStripped(op, ds, tail);
    FieldsOfSpelled(op, ds, tail);
  }

  /** Any line whose stripped text spells an instruction, whatever non-digit text follows, parses to that instruction. */
  lemma ParseLine(line: string, op: Operation, ds: seq<string>, tail: string)
    requires |ds| == 4 && AllNumbers(ds) && EndsNumber(tail)
    requires Strip(line) == Spelled(op, ds, tail)
    ensures ParseInstruction(line) ==
      Ok(Instruction(op, DigitsValue(ds[0]), DigitsValue(ds[1]), DigitsValue(ds[2]), DigitsValue(ds[3])))
  {
    FieldsOfSpelled(op, ds, tail);
  }

  /** Conversely, the stripped text of every accepted line spells its instruction, followed by text that is not a digit. */
  lemma ParseAccepted(line: string) returns (ds: seq<string>, tail: string)
    requires ParseInstruction(line).Ok?
    ensures |ds| == 4 && AllNumbers(ds) && EndsNumber(tail)
    ensures var i := ParseInstruction(line).value;
      && Strip(line) == Spelled(i.op, ds, tail)
      && i == Instruction(i.op, DigitsValue(ds[0]), DigitsValue(ds[1]), DigitsValue(ds[2]), DigitsValue(ds[3]))
  {
    ds, tail := SpelledOfFields(Strip(line));
  }

  /** A spelled instruction has no whitespace to strip. */
  lemma SpelledStripped(op: Operation, ds: seq<string>, tail: string)
    requires |ds| == 4 && AllNumbers(ds)
    requires tail == [] || !IsSpace(tail[|tail| - 1])
    ensures Strip(Spelled(op, ds, tail)) == Spelled(op, ds, tail)
  {
    var s := Spelled(op, ds, tail);
    SpelledEnds(ds, Separators, tail);
    assert s[0] == OpText(op)[0];
    assert s[|s| - 1] == Interleave(ds, Separators, tail)[|Interleave(ds, Separators, tail)| - 1];
    StrippedFixed(s);
  }

  lemma {:induction false} SpelledEnds(ds: seq<string>, seps: seq<string>, tail: string)
    requires |ds| == |seps| + 1 && AllNumbers(ds)
    requires tail == [] || !IsSpace(tail[|tail| - 1])
    ensures var t := Interleave(ds, seps, tail); |t| > 0 && !IsSpace(t[|t| - 1])
    decreases |seps|
  {
    var t := Interleave(ds, seps, tail);
    if seps == [] {
      if tail == [] {
        assert t[|t| - 1] == ds[0][|ds[0]| - 1];
        assert IsDigit(ds[0][|ds[0]| - 1]);
      } else {
        assert t[|t| - 1] == tail[|tail| - 1];
      }
    } else {
      var more := Interleave(ds[1..], seps[1..], tail);
      SpelledEnds(ds[1..], seps[1..], tail);
      assert t == (ds[0] + seps[0]) + more;
      assert t[|t| - 1] == more[|more| - 1];
    }
  }

  /** A line whose stripped text starts with none of the three operations is rejected, naming the line. */
  lemma ParseRejects(line: string)
    requires forall op :: !(OpText(op) <= Strip(line))
    ensures ParseInstruction(line) == Err(InvalidInstruction(line))
  {
  }

  // ---------------------------------------------------------------------------
  // What each cell holds after a sequence of instructions

  predicate InRect(i: Instruction, x: nat, y: nat) {
    i.x0 <= x <= i.x1 && i.y0 <= y <= i.y1
  }

  predicate EmptyRect(i: Instruction) {
    i.x0 > i.x1 || i.y0 > i.y1
  }

  /**
   * Indexing the grid's lists past their end raises `IndexError`; that
   * happens exactly when the rectangle has a cell and reaches past the grid.
   */
  predicate OutOfGrid(i: Instruction, size: nat) {
    !EmptyRect(i) && (i.x1 >= size || i.y1 >= size)
  }

  /** The instructions of all lines, or the first line's error: a parse error or an index error. */
  function Program(lines: seq<string>, size: nat): Result<seq<Instruction>, GridError> {
    if lines == [] then Ok([]) else Step(Program(lines[..|lines| - 1], size), lines[|lines| - 1], size)
  }

  /** One more line: its instruction, unless an earlier line or this one fails. */
  function Step(sofar: Result<seq<Instruction>, GridError>, line: string, size: nat): Result<seq<Instruction>, GridError> {
    var done :- sofar;
    var i :- ParseInstruction(line);
    if OutOfGrid(i, size) then Err(IndexOutOfRange) else Ok(done + [i])
  }

  lemma ProgramSnoc(lines: seq<string>, k: nat, size: nat)
    requires k < |lines|
    ensures Program(lines[..k + 1], size) == Step(Program(lines[..k], size), lines[k], size)
  {
    assert lines[..k + 1][..k] == lines[..k];
  }

  lemma {:induction false} ProgramErrorStays(lines: seq<string>, k: nat, size: nat)
    requires k <= |lines| && Program(lines[..k], size).Err?
    ensures Program(lines, size) == Program(lines[..k], size)
    decreases |lines| - k
  {
    if k < |lines| {
      ProgramSnoc(lines, k, size);
      ProgramErrorStays(lines, k + 1, size);
    } else {
      assert lines[..k] == lines;
    }
  }

  /** Every accepted instruction fits the grid. */
  lemma {:induction false} ProgramFits(lines: seq<string>, size: nat)
    requires Program(lines, size).Ok?
    ensures forall k :: 0 <= k < |Program(lines, size).value| ==> !OutOfGrid(Program(lines, size).value[k], size)
  {
    if lines != [] {
      var front := lines[..|lines| - 1];
      ProgramFits(front, size);
      assert Program(lines, size).value == Program(front, size).value + [ParseInstruction(lines[|lines| - 1]).value];
    }
  }

  /** Part one: turn on sets, turn off clears, toggle flips. */
  function Switch(op: Operation, on: bool): bool {
    match op
    case TurnOn => true
    case TurnOff => false
    case Toggle => !on
  }

  /** Whether light (x, y) is on after `instrs`, all lights starting off. */
  function Light(instrs: seq<Instruction>, x: nat, y: nat): bool {
    if instrs == [] then false
    else
      var last := instrs[|instrs| - 1];
      var on := Light(instrs[..|instrs| - 1], x, y);
      if InRect(last, x, y) then Switch(last.op, on) else on
  }

  /** Part two: turn on adds 1, turn off takes 1 away but not below 0, toggle adds 2. */
  function Adjust(op: Operation, b: int): int {
    match op
    case TurnOn => b + 1
    case TurnOff => if b - 1 < 0 then 0 else b - 1
    case Toggle => b + 2
  }

  /** The brightness of light (x, y) after `instrs`, all lights starting at 0. */
  function Brightness(instrs: seq<Instruction>, x: nat, y: nat): int {
    if instrs == [] then 0
    else
      var last := instrs[|instrs| - 1];
      var b := Brightness(instrs[..|instrs| - 1], x, y);
      if InRect(last, x, y) then Adjust(last.op, b) else b
  }

  /** The lights on among (x, 0) … (x, cols - 1). */
  function LitInRow(instrs: seq<Instruction>, x: nat, cols: nat): nat {
    if cols == 0 then 0 else LitInRow(instrs, x, cols - 1) + (if Light(instrs, x, cols - 1) then 1 else 0)
  }

  /** The lights on among the first `rows` rows of `cols` lights. */
  function LitCount(instrs: seq<Instruction>, rows: nat, cols: nat): nat {
    if rows == 0 then 0 else LitCount(instrs, rows - 1, cols) + LitInRow(instrs, rows - 1, cols)
  }

  function RowBrightness(instrs: seq<Instruction>, x: nat, cols: nat): int {
    if cols == 0 then 0 else RowBrightness(instrs, x, cols - 1) + Brightness(instrs, x, cols - 1)
  }

  function TotalBrightness(instrs: seq<Instruction>, rows: nat, cols: nat): int {
    if rows == 0 then 0 else TotalBrightness(instrs, rows - 1, cols) + RowBrightness(instrs, rows - 1, cols)
  }

  /** `process_instructions_part1`: the number of lights on. */
  function Part1(lines: seq<string>, size: nat): Result<nat, GridError> {
    var instrs :- Program(lines, size);
    Ok(LitCount(instrs, size, size))
  }

  /** `process_instructions_part2`: the total brightness. */
  function Part2(lines: seq<string>, size: nat): Result<int, GridError> {
    var instrs :- Program(lines, size);
    Ok(TotalBrightness(instrs, size, size))
  }

  // ---------------------------------------------------------------------------
  // Properties of the two rules

  /** The same toggle twice leaves every light as it was. */
  lemma ToggleTwice(instrs: seq<Instruction>, t: Instruction, x: nat, y: nat)
    requires t.op == Toggle
    ensures Light(instrs + [t, t], x, y) == Light(instrs, x, y)
  {
    assert (instrs + [t, t])[..|instrs| + 1] == instrs + [t];
    assert (instrs + [t])[..|instrs|] == instrs;
  }

  /** Turning on or off twice is turning on or off once. */
  lemma SwitchTwice(instrs: seq<Instruction>, i: Instruction, x: nat, y: nat)
    requires i.op != Toggle
    ensures Light(instrs + [i, i], x, y) == Light(instrs + [i], x, y)
  {
    assert (instrs + [i, i])[..|instrs| + 1] == instrs + [i];
  }

  /** A light no instruction covers is off and at brightness 0, as the grids start. */
  lemma {:induction false} Untouched(instrs: seq<Instruction>, x: nat, y: nat)
    requires forall k :: 0 <= k < |instrs| ==> !InRect(instrs[k], x, y)
    ensures !Light(instrs, x, y) && Brightness(instrs, x, y) == 0
  {
    if instrs != [] {
      Untouched(instrs[..|instrs| - 1], x, y);
    }
  }

  /** An instruction with an empty rectangle changes nothing. */
  lemma EmptyRectNoop(instrs: seq<Instruction>, i: Instruction, x: nat, y: nat)
    requires EmptyRect(i)
    ensures Light(instrs + [i], x, y) == Light(instrs, x, y)
    ensures Brightness(instrs + [i], x, y) == Brightness(instrs, x, y)
  {
    assert (instrs + [i])[..|instrs|] == instrs;
  }

  /** Brightness never drops below 0. */
  lemma {:induction false} BrightnessNonNegative(instrs: seq<Instruction>, x: nat, y: nat)
    ensures Brightness(instrs, x, y) >= 0
  {
    if instrs != [] {
      BrightnessNonNegative(instrs[..|instrs| - 1], x, y);
    }
  }

  /** A light that part one leaves on has brightness at least 1 under part two's rules. */
  lemma {:induction false} LitIsBright(instrs: seq<Instruction>, x: nat, y: nat)
    ensures Light(instrs, x, y) ==> Brightness(instrs, x, y) >= 1
  {
    if instrs != [] {
      LitIsBright(instrs[..|instrs| - 1], x, y);
      BrightnessNonNegative(instrs[..|instrs| - 1], x, y);
    }
  }

  /** At most every light is on. */
  lemma {:induction false} LitCountBound(instrs: seq<Instruction>, rows: nat, cols: nat)
    ensures LitCount(instrs, rows, cols) <= rows * cols
  {
    if rows > 0 {
      LitCountBound(instrs, rows - 1, cols);
      LitInRowBound(instrs, rows - 1, cols);
      assert (rows - 1) * cols + cols == rows * cols;
    }
  }

  lemma {:induction false} LitInRowBound(instrs: seq<Instruction>, x: nat, cols: nat)
    ensures LitInRow(instrs, x, cols) <= cols
  {
    if cols > 0 {
      LitInRowBound(instrs, x, cols - 1);
    }
  }

  /** Part one's count never exceeds part two's total brightness for the same instructions. */
  lemma {:induction false} LitCountAtMostBrightness(instrs: seq<Instruction>, rows: nat, cols: nat)
    ensures LitCount(instrs, rows, cols) <= TotalBrightness(instrs, rows, cols)
  {
    if rows > 0 {
      LitCountAtMostBrightness(instrs, rows - 1, cols);
      LitInRowAtMostBrightness(instrs, rows - 1, cols);
    }
  }

  lemma {:induction false} LitInRowAtMostBrightness(instrs: seq<Instruction>, x: nat, cols: nat)
    ensures LitInRow(instrs, x, cols) <= RowBrightness(instrs, x, cols)
  {
    if cols > 0 {
      LitInRowAtMostBrightness(instrs, x, cols - 1);
      LitIsBright(instrs, x, cols - 1);
      BrightnessNonNegative(instrs, x, cols - 1);
    }
  }

  /** Both answers lie between 0 and what the grid can hold. */
  lemma PartsInRange(lines: seq<string>, size: nat)
    requires Program(lines, size).Ok?
    ensures Part1(lines, size).value <= size * size
    ensures 0 <= Part1(lines, size).value <= Part2(lines, size).value
  {
    var instrs := Program(lines, size).value;
    LitCountBound(instrs, size, size);
    LitCountAtMostBrightness(instrs, size, size);
  }

  /** On the puzzle's grid of a million lights, part one is at most a million and at most part two. */
  lemma PuzzleRange(lines: seq<string>)
    requires Program(lines, PuzzleSize).Ok?
    ensures Part1(lines, PuzzleSize).value <= 1000000
    ensures Part1(lines, PuzzleSize).value <= Part2(lines, PuzzleSize).value
  {
    PartsInRange(lines, PuzzleSize);
  }

  // ---------------------------------------------------------------------------
  // The grids

  /** The two nested loops of part one over one instruction's rectangle. */
  method SwitchLights(grid: array2<bool>, instr: Instruction)
    requires EmptyRect(instr) || (instr.x1 < grid.Length0 && instr.y1 < grid.Length1)
    modifies grid
    ensures forall x: nat, y: nat :: x < grid.Length0 && y < grid.Length1 ==>
      grid[x, y] == if InRect(instr, x, y) then Switch(instr.op, old(grid[x, y])) else old(grid[x, y])
  {
    if EmptyRect(instr) {
      return;
    }
    for x := instr.x0 to instr.x1 + 1
      invariant forall i: nat, j: nat :: i < grid.Length0 && j < grid.Length1 ==>
        grid[i, j] == if instr.x0 <= i < x && instr.y0 <= j <= instr.y1 then Switch(instr.op, old(grid[i, j])) else old(grid[i, j])
    {
      for y := instr.y0 to instr.y1 + 1
        invariant forall i: nat, j: nat :: i < grid.Length0 && j < grid.Length1 ==>
          grid[i, j] ==
            if (instr.x0 <= i < x && instr.y0 <= j <= instr.y1) || (i == x && instr.y0 <= j < y)
            then Switch(instr.op, old(grid[i, j])) else old(grid[i, j])
      {
        match instr.op
        case TurnOn => grid[x, y] := true;
        case TurnOff => grid[x, y] := false;
        case Toggle => grid[x, y] := !grid[x, y];
      }
    }
  }

  /** The two nested loops of part two over one instruction's rectangle. */
  method AdjustLights(grid: array2<int>, instr: Instruction)
    requires EmptyRect(instr) || (instr.x1 < grid.Length0 && instr.y1 < grid.Length1)
    modifies grid
    ensures forall x: nat, y: nat :: x < grid.Length0 && y < grid.Length1 ==>
      grid[x, y] == if InRect(instr, x, y) then Adjust(instr.op, old(grid[x, y])) else old(grid[x, y])
  {
    if EmptyRect(instr) {
      return;
    }
    for x := instr.x0 to instr.x1 + 1
      invariant forall i: nat, j: nat :: i < grid.Length0 && j < grid.Length1 ==>
        grid[i, j] == if instr.x0 <= i < x && instr.y0 <= j <= instr.y1 then Adjust(instr.op, old(grid[i, j])) else old(grid[i, j])
    {
      for y := instr.y0 to instr.y1 + 1
        invariant forall i: nat, j: nat :: i < grid.Length0 && j < grid.Length1 ==>
          grid[i, j] ==
            if (instr.x0 <= i < x && instr.y0 <= j <= instr.y1) || (i == x && instr.y0 <= j < y)
            then Adjust(instr.op, old(grid[i, j])) else old(grid[i, j])
      {
        match instr.op
        case TurnOn => grid[x, y] := grid[x, y] + 1;
        case TurnOff => grid[x, y] := if grid[x, y] - 1 < 0 then 0 else grid[x, y] - 1;
        case Toggle => grid[x, y] := grid[x, y] + 2;
      }
    }
  }

  /** One pass of the outer loop of part 1: read the line, then go over its rectangle. */
  method SwitchLine(grid: array2<bool>, line: string, ghost done: seq<Instruction>) returns (r: Result<Instruction, GridError>)
    requires grid.Length0 == grid.Length1
    requires forall x: nat, y: nat :: x < grid.Length0 && y < grid.Length1 ==> grid[x, y] == Light(done, x, y)
    modifies grid
    ensures Step(Ok(done), line, grid.Length0) == if r.Ok? then Ok(done + [r.value]) else Err(r.error)
    ensures r.Ok? ==> forall x: nat, y: nat :: x < grid.Length0 && y < grid.Length1 ==> grid[x, y] == Light(done + [r.value], x, y)
  {
    var parsed := ParseInstruction(line);
    if parsed.Err? {
      return Err(parsed.error);
    }
    var instr := parsed.value;
    if OutOfGrid(instr, grid.Length0) {
      return Err(IndexOutOfRange);
    }
    SwitchLights(grid, instr);
    assert (done + [instr])[..|done|] == done;
    r := Ok(instr);
  }

  /** `process_instructions_part1` on a `size` × `size` grid. */
  method ProcessInstructionsPart1(lines: seq<string>, size: nat) returns (r: Result<nat, GridError>)
    ensures r == Part1(lines, size)
  {
    var grid := new bool[size, size]((x, y) => false);
    ghost var done: seq<Instruction> := [];
    for k := 0 to |lines|
      invariant Program(lines[..k], size) == Ok(done)
      invariant forall x: nat, y: nat :: x < size && y < size ==> grid[x, y] == Light(done, x, y)
    {
      ProgramSnoc(lines, k, size);
      var read := SwitchLine(grid, lines[k], done);
      if read.Err? {
        ProgramErrorStays(lines, k + 1, size);
        return Err(read.error);
      }
      done := done + [read.value];
    }
    assert lines[..|lines|] == lines;
    var count := CountLit(grid, done);
    r := Ok(count);
  }

  /** `sum(sum(row) for row in grid)` in part one: the number of lights on. */
  method CountLit(grid: array2<bool>, ghost instrs: seq<Instruction>) returns (count: nat)
    requires forall x: nat, y: nat :: x < grid.Length0 && y < grid.Length1 ==> grid[x, y] == Light(instrs, x, y)
    ensures count == LitCount(instrs, grid.Length0, grid.Length1)
  {
    count := 0;
    for x := 0 to grid.Length0
      invariant count == LitCount(instrs, x, grid.Length1)
    {
      for y := 0 to grid.Length1
        invariant count == LitCount(instrs, x, grid.Length1) + LitInRow(instrs, x, y)
      {
        if grid[x, y] {
          count := count + 1;
        }
      }
    }
  }

  /** One pass of the outer loop of part 2: read the line, then go over its rectangle. */
  method AdjustLine(grid: array2<int>, line: string, ghost done: seq<Instruction>) returns (r: Result<Instruction, GridError>)
    requires grid.Length0 == grid.Length1
    requires forall x: nat, y: nat :: x < grid.Length0 && y < grid.Length1 ==> grid[x, y] == Brightness(done, x, y)
    modifies grid
    ensures Step(Ok(done), line, grid.Length0) == if r.Ok? then Ok(done + [r.value]) else Err(r.error)
    ensures r.Ok? ==> forall x: nat, y: nat :: x < grid.Length0 && y < grid.Length1 ==> grid[x, y] == Brightness(done + [r.value], x, y)
  {
    var parsed := ParseInstruction(line);
    if parsed.Err? {
      return Err(parsed.error);
    }
    var instr := parsed.value;
    if OutOfGrid(instr, grid.Length0) {
      return Err(IndexOutOfRange);
    }
    AdjustLights(grid, instr);
    assert (done + [instr])[..|done|] == done;
    r := Ok(instr);
  }

  /** `process_instructions_part2` on a `size` × `size` grid. */
  method ProcessInstructionsPart2(lines: seq<string>, size: nat) returns (r: Result<int, GridError>)
    ensures r == Part2(lines, size)
  {
    var grid := new int[size, size]((x, y) => 0);
    ghost var done: seq<Instruction> := [];
    for k := 0 to |lines|
      invariant Program(lines[..k], size) == Ok(done)
      invariant forall x: nat, y: nat :: x < size && y < size ==> grid[x, y] == Brightness(done, x, y)
    {
      ProgramSnoc(lines, k, size);
      var read := AdjustLine(grid, lines[k], done);
      if read.Err? {
        ProgramErrorStays(lines, k + 1, size);
        return Err(read.error);
      }
      done := done + [read.value];
    }
    assert lines[..|lines|] == lines;
    var total := SumBrightness(grid, done);
    r := Ok(total);
  }

  /** `sum(sum(row) for row in grid)` in part two: the total brightness. */
  method SumBrightness(grid: array2<int>, ghost instrs: seq<Instruction>) returns (total: int)
    requires forall x: nat, y: nat :: x < grid.Length0 && y < grid.Length1 ==> grid[x, y] == Brightness(instrs, x, y)
    ensures total == TotalBrightness(instrs, grid.Length0, grid.Length1)
  {
    total := 0;
    for x := 0 to grid.Length0
      invariant total == TotalBrightness(instrs, x, grid.Length1)
    {
      for y := 0 to grid.Length1
        invariant total == TotalBrightness(instrs, x, grid.Length1) + RowBrightness(instrs, x, y)
      {
        total := total + grid[x, y];
      }
    }
  }
}

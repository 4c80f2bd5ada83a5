# Advent of Code 2015, days 1–10, in Dafny

This project models the puzzle solvers of a Python Advent of Code 2015
repository and proves properties of them. There is one module per day, plus
two shared modules:

- `Wrappers` holds `Option` and `Result`.
- `Text` writes out the Python string built-ins the scripts use over
  `seq<char>`: `isspace`, `isdigit`, `int`, `str`, `split()`, `strip()` and
  `split(sep)`.

Each module follows its script. Where the script changes state step by step,
the model does the same with methods, loops and their invariants:

- the counters of days 1 and 3;
- the circuit object of day 7;
- the index-walking scanner of day 8;
- the parse loop and permutation searches of day 9;
- the grid of day 6;
- the look-and-say loop of day 10.

Each such method is proved equal to a recursive specification function, and
the puzzle's promises are proved as lemmas about that function. Days 2 and 5
are pure, so they are functions and lemmas only.

- **Day 1 (`NotQuiteLisp`).** The final floor is the number of `(` minus the
  number of `)`, moves add up over concatenation, and the floor is bounded by
  the length.
- **Day 2 (`NoMath`).** Paper is the surface area plus the smallest face.
  Ribbon is the smallest perimeter plus the volume. Both are
  permutation-invariant.
- **Day 3 (`Delivery`).** Santa takes the even moves and Robo-Santa the odd
  ones. The answer is the size of the visited set, which is between 1 and
  `len + 1`.
- **Day 5 (`NiceList`).** Each rule is a recursive predicate, proved
  equivalent to its position-by-position definition.
- **Day 6 (`FireHazard`).** A hand-written parser for the instruction pattern
  is proved to accept exactly the spelled-out instructions. The grid size is a
  parameter; the puzzle uses 1000 (`PuzzleSize`). The two grid simulations
  run on `array2` and are proved equal to per-light specifications.
- **Day 7 (`Assembly`).**
  - A `Circuit` class holds the instruction map and the value cache.
  - Resolution is proved equal to a state-passing function `Resolve`.
  - `Resolve` is proved sound and complete against a cache-free reference
    meaning `Denotes` of every wire: it returns a value exactly when the wire
    has that meaning, so each part's answer is the meaning of `a`.
  - Every value is 16-bit when every literal in the program is.
- **Day 8 (`Matchsticks`).** The scanner is proved equal to a tokenizer. The
  tokenizer and the spelling of tokens are inverse to each other. The
  encoded length has a closed form, and decoding an encoding gives the
  string back.
- **Day 9 (`SingleNight`).** The parsed distance map is symmetric.
  - A route length is the sum of its legs; it is infinite exactly when a leg
    is missing.
  - The shortest and longest searches return the minimum and maximum over
    every ordering of the cities.
- **Day 10 (`LookAndSay`).** The step is the concatenation, over the maximal
  runs of the input, of the run length and its digit. The run decomposition
  is unique.

## Model

| member | source | states |
|---|---|---|
| NotQuiteLisp.ComputeFinalFloor | day1_not_quite_lisp/not_quite-lisp.py:3-20 | the loop's floor is the specification floor, equals count of `(` minus count of `)` (0 for the empty string), and lies within ±len |
| NotQuiteLisp.FloorIsCountDifference | day1_not_quite_lisp/not_quite-lisp.py:13-20 | the floor is the number of `(` minus the number of `)`; every other character is ignored |
| NotQuiteLisp.FloorConcat | day1_not_quite_lisp/not_quite-lisp.py:14-19 | the floor of `a + b` is the floor of `a` plus the floor of `b` |
| NotQuiteLisp.FloorBound | day1_not_quite_lisp/not_quite-lisp.py:14-19 | each character moves at most one floor, so the floor lies in [-len, len] |
| NoMath.Min3 | day2_I_was_told_no_math/no_math.py:22 | `min` is at most each argument and equal to one of them |
| NoMath.Sort3 | day2_I_was_told_no_math/no_math.py:39 | `sorted` of three values is in non-decreasing order |
| NoMath.Sort3IsPermutation | day2_I_was_told_no_math/no_math.py:39 | `sorted` keeps the same multiset of dimensions |
| NoMath.WrappingPaper | day2_I_was_told_no_math/no_math.py:16-24 | paper minus the surface area is the area of a face no larger than any other face |
| NoMath.PaperPermutationInvariant | day2_I_was_told_no_math/no_math.py:16-24 | paper is the same for all six orderings of (l, w, h) |
| NoMath.PaperCoversSurface | day2_I_was_told_no_math/no_math.py:19-24 | for non-negative dimensions, paper is at least the surface area |
| NoMath.Ribbon | day2_I_was_told_no_math/no_math.py:39-45 | ribbon minus the volume is a face perimeter no larger than any face's perimeter `2(x+y)` |
| NoMath.RibbonUsesTwoSmallest | day2_I_was_told_no_math/no_math.py:39-45 | ribbon is `2(a+b) + lwh`, where a ≤ b are the two smallest dimensions, whatever the input order |
| NoMath.Sort3PermutationInvariant | day2_I_was_told_no_math/no_math.py:39 | sorting gives the same triple for every ordering of the input |
| NoMath.RibbonPermutationInvariant | day2_I_was_told_no_math/no_math.py:39-45 | ribbon is the same for all six orderings of (l, w, h) |
| NoMath.VolumeSymmetric | day2_I_was_told_no_math/no_math.py:43 | the volume does not depend on the order of the dimensions |
| Delivery.CountUniqueHouses | day3_present_delivery/delivery.py:3-43 | the answer is the number of houses in {(0,0)} ∪ {house after each move}, and lies in [1, len + 1] |
| Delivery.WalkClosedForm | day3_present_delivery/delivery.py:20-41 | Santa's position counts only the arrows at even indices and Robo-Santa's only those at odd indices |
| Delivery.ReachedStep | day3_present_delivery/delivery.py:31 | each move adds exactly the mover's new house to the houses reached |
| NiceList.VowelCountIsPositions | day5_nice_list/nice_list.py:14-15 | the vowel count is the number of positions holding one of `aeiou` |
| NiceList.HasThreeVowelsIff | day5_nice_list/nice_list.py:14-16 | `has_three_vowels` holds iff at least three positions hold a vowel |
| NiceList.HasDoubleLetter | day5_nice_list/nice_list.py:28-31 | holds iff some i has `s[i] == s[i+1]`, so it is false for strings shorter than 2 |
| NiceList.ContainsPair | day5_nice_list/nice_list.py:45 | `pair in s` holds iff the pair occurs at some position |
| NiceList.HasNoForbiddenSubstrings | day5_nice_list/nice_list.py:43-47 | holds iff no position starts `ab`, `cd`, `pq` or `xy` |
| NiceList.HasRepeatingPair | day5_nice_list/nice_list.py:76-81 | holds iff some pair at i occurs again at some j ≥ i + 2 |
| NiceList.HasRepeatingLetterWithGap | day5_nice_list/nice_list.py:94-97 | holds iff some i has `s[i] == s[i+2]` |
| NiceList.IsNiceIff | day5_nice_list/nice_list.py:59-63 | `is_nice` holds iff three vowel positions, a doubled letter and no forbidden pair |
| NiceList.IsNicePart2 | day5_nice_list/nice_list.py:109-112 | `is_nice_part2` holds iff some pair recurs without overlap and some letter recurs two positions on |
| NiceList.OverlappingPairsDoNotRepeat | day5_nice_list/nice_list.py:76-81 | overlapping copies do not count: `aaa` has no repeating pair, `aaaa` has one |
| FireHazard.Phrase | day6_probably_a_fire_hazard/fire_hazard.py:17 | a matched operation is one of the alternatives and its words start the text |
| FireHazard.LeadingDigits | day6_probably_a_fire_hazard/fire_hazard.py:17 | `\d+` takes the longest run of digits: all digits, followed by a non-digit or the end |
| FireHazard.Numbers | day6_probably_a_fire_hazard/fire_hazard.py:17 | a successful match of numbers around n separators yields n + 1 numbers |
| FireHazard.NumbersOfInterleave | day6_probably_a_fire_hazard/fire_hazard.py:17-25 | digit strings written between the separators are read back as their values |
| FireHazard.InterleaveOfNumbers | day6_probably_a_fire_hazard/fire_hazard.py:17-25 | whatever the number reader accepts is digit strings between the separators, followed by text not starting with a digit |
| FireHazard.FieldsOfSpelled | day6_probably_a_fire_hazard/fire_hazard.py:17-27 | the pattern reads an operation, four digit strings and the separators, followed by any text not starting with a digit, as that instruction; the trailing text is ignored |
| FireHazard.ParseSpelled | day6_probably_a_fire_hazard/fire_hazard.py:17-27 | such a text with no whitespace at its end, as a line, parses to that instruction |
| FireHazard.ParseLine | day6_probably_a_fire_hazard/fire_hazard.py:17-27 | any line whose stripped text has that shape parses to that instruction |
| FireHazard.SpelledOfFields | day6_probably_a_fire_hazard/fire_hazard.py:17-27 | conversely, every text the pattern reads has exactly that shape |
| FireHazard.ParseAccepted | day6_probably_a_fire_hazard/fire_hazard.py:17-27 | conversely, the stripped text of every accepted line has that shape, spelling the instruction returned |
| FireHazard.SpelledStripped | day6_probably_a_fire_hazard/fire_hazard.py:18 | such an instruction text is unchanged by `strip()` |
| FireHazard.ParseRejects | day6_probably_a_fire_hazard/fire_hazard.py:18-21 | a line whose stripped text starts with no operation is rejected with the line itself |
| FireHazard.ProgramErrorStays | day6_probably_a_fire_hazard/fire_hazard.py:42-71 | once a line fails, the run reports that line's error whatever follows |
| FireHazard.ProgramFits | day6_probably_a_fire_hazard/fire_hazard.py:45-74 | every instruction of a successful run lies inside the grid or has an empty rectangle |
| FireHazard.Untouched | day6_probably_a_fire_hazard/fire_hazard.py:40-68 | a light no rectangle covers stays as the grids start: off and at brightness 0 |
| FireHazard.EmptyRectNoop | day6_probably_a_fire_hazard/fire_hazard.py:45-74 | a rectangle with start > end on either axis changes no light |
| FireHazard.ToggleTwice | day6_probably_a_fire_hazard/fire_hazard.py:51-52 | the same toggle twice restores every light |
| FireHazard.SwitchTwice | day6_probably_a_fire_hazard/fire_hazard.py:47-50 | turning on (or off) twice equals doing it once |
| FireHazard.BrightnessNonNegative | day6_probably_a_fire_hazard/fire_hazard.py:75-80 | brightness is never negative |
| FireHazard.LitIsBright | day6_probably_a_fire_hazard/fire_hazard.py:47-80 | a light that part one leaves on has brightness at least 1 under part two |
| FireHazard.LitCountBound | day6_probably_a_fire_hazard/fire_hazard.py:55 | the number of lit lights is at most rows × cols |
| FireHazard.LitInRowBound | day6_probably_a_fire_hazard/fire_hazard.py:55 | a row has at most cols lit lights |
| FireHazard.LitCountAtMostBrightness | day6_probably_a_fire_hazard/fire_hazard.py:55-83 | the lit count never exceeds the total brightness |
| FireHazard.LitInRowAtMostBrightness | day6_probably_a_fire_hazard/fire_hazard.py:55-83 | per row, the lit count never exceeds the row's brightness |
| FireHazard.PartsInRange | day6_probably_a_fire_hazard/fire_hazard.py:55-83 | for a successful run, 0 ≤ part one ≤ size², and part one ≤ part two |
| FireHazard.PuzzleRange | day6_probably_a_fire_hazard/fire_hazard.py:40-83 | on the script's 1000 × 1000 grid, part one is at most a million and at most part two |
| FireHazard.SwitchLights | day6_probably_a_fire_hazard/fire_hazard.py:45-52 | the nested loops change exactly the cells of the rectangle: on sets, off clears, toggle flips |
| FireHazard.AdjustLights | day6_probably_a_fire_hazard/fire_hazard.py:73-80 | the nested loops change exactly the cells of the rectangle: on +1, off max(0, b−1), toggle +2 |
| FireHazard.SwitchLine | day6_probably_a_fire_hazard/fire_hazard.py:43-52 | one line of part one: parse it, reject a rectangle past the grid, then the grid holds each light's state after one more instruction |
| FireHazard.AdjustLine | day6_probably_a_fire_hazard/fire_hazard.py:71-80 | the same for part two's brightness |
| FireHazard.CountLit | day6_probably_a_fire_hazard/fire_hazard.py:55 | the sum over the rows is the number of lights on |
| FireHazard.SumBrightness | day6_probably_a_fire_hazard/fire_hazard.py:83 | the sum over the rows is the total brightness |
| FireHazard.ProcessInstructionsPart1 | day6_probably_a_fire_hazard/fire_hazard.py:29-55 | the result is the number of lights on after all instructions, all lights starting off, or the first line's error |
| FireHazard.ProcessInstructionsPart2 | day6_probably_a_fire_hazard/fire_hazard.py:57-83 | the result is the total brightness after all instructions, all starting at 0, or the first line's error |
| Assembly.BitAndBits | day7_some_assembly_required/assembly.py:78-79 | bit k of `a & b` is set iff it is set in both |
| Assembly.BitOrBits | day7_some_assembly_required/assembly.py:80-81 | bit k of the bitwise or is set iff it is set in either operand |
| Assembly.ShiftRightBits | day7_some_assembly_required/assembly.py:84-85 | bit k of `a >> s` is bit k + s of a (a logical shift) |
| Assembly.ComplementOf16Bit | day7_some_assembly_required/assembly.py:70 | `~x & 0xFFFF` is `65535 - x` for a 16-bit x |
| Assembly.BitAndAtMost | day7_some_assembly_required/assembly.py:78-79 | `a & b` is at most a |
| Assembly.BitOrBelow | day7_some_assembly_required/assembly.py:80-81 | the bitwise or of two n-bit values is an n-bit value |
| Assembly.ShiftRightAtMost | day7_some_assembly_required/assembly.py:84-85 | `a >> s` is at most a |
| Assembly.ApplyInRange | day7_some_assembly_required/assembly.py:78-85 | every gate maps 16-bit operands to a 16-bit value |
| Assembly.AddInstructionShape | day7_some_assembly_required/assembly.py:18-25 | a line is accepted iff it splits into exactly two pieces around ` -> `; the target then maps to the expression, replacing any earlier one; otherwise the error names the line |
| Assembly.ParsedErrorStays | day7_some_assembly_required/assembly.py:12-13 | once a line is rejected, reading the lines reports that line's error |
| Assembly.Resolve | day7_some_assembly_required/assembly.py:27-55 | resolution never removes or changes a cached value, and a resolved wire is cached with the value returned |
| Assembly.Evaluate | day7_some_assembly_required/assembly.py:57-90 | evaluating an expression never removes or changes a cached value |
| Assembly.ResolveCached | day7_some_assembly_required/assembly.py:34-35 | a cached wire returns its stored value and leaves the cache as it is |
| Assembly.ResolveNumber | day7_some_assembly_required/assembly.py:38-41 | an uncached all-digit wire returns its decimal value, which is then cached |
| Assembly.ResolveUndefined | day7_some_assembly_required/assembly.py:44-45 | an uncached non-number with no instruction fails with "undefined wire" |
| Assembly.EvaluateRejects | day7_some_assembly_required/assembly.py:65-90 | two words not starting with `NOT`, or a word count outside 1..3, are rejected without touching the cache |
| Assembly.EvaluateUnknownGate | day7_some_assembly_required/assembly.py:74-87 | a gate other than AND/OR/LSHIFT/RSHIFT fails, with "unknown operation" once both operands resolve |
| Assembly.ResolveInRange | day7_some_assembly_required/assembly.py:38-85 | with all literals below 65536 and a 16-bit cache, every resolved value and every cached value is 16-bit |
| Assembly.EvaluateInRange | day7_some_assembly_required/assembly.py:57-90 | the same for an expression whose literals are all below 65536 |
| Assembly.DenoteMore | day7_some_assembly_required/assembly.py:27-90 | the reference meaning does not depend on how much fuel is used once it is defined |
| Assembly.DenotesUnique | day7_some_assembly_required/assembly.py:27-90 | a wire has at most one reference meaning |
| Assembly.ResolveSound | day7_some_assembly_required/assembly.py:27-55 | with a cache consistent with the reference meaning, a resolved value is the wire's meaning and the cache stays consistent |
| Assembly.EvaluateSound | day7_some_assembly_required/assembly.py:57-90 | the same for an expression |
| Assembly.ResolveComplete | day7_some_assembly_required/assembly.py:27-55 | with a consistent cache, a wire that has a meaning within k steps resolves to that meaning whenever no wire under evaluation has one within k steps; so the cycle check never stops a wire that has a meaning |
| Assembly.EvaluateComplete | day7_some_assembly_required/assembly.py:57-90 | the same for an expression |
| Assembly.ResolveMeaning | day7_some_assembly_required/assembly.py:27-90 | with a consistent cache and nothing under evaluation, a wire resolves to v if and only if v is its meaning |
| Assembly.Circuit.constructor | day7_some_assembly_required/assembly.py:8-9 | a new circuit has no instructions and no cached values |
| Assembly.Circuit.Create | day7_some_assembly_required/assembly.py:7-13 | the circuit reads every stripped line in order and holds exactly the instructions read, with an empty cache, or reports the first bad line |
| Assembly.Circuit.ParseInstruction | day7_some_assembly_required/assembly.py:15-25 | an accepted line records expression for target; a rejected line changes nothing; the cache is untouched |
| Assembly.Circuit.GetWireValue | day7_some_assembly_required/assembly.py:27-55 | the value and the new cache are those of `Resolve` on the old cache; the instructions are unchanged |
| Assembly.Circuit.EvaluateExpression | day7_some_assembly_required/assembly.py:57-90 | the value and the new cache are those of `Evaluate` on the old cache; the instructions are unchanged |
| Assembly.Circuit.Reset | day7_some_assembly_required/assembly.py:92-95 | the cache is empty and the instructions are kept |
| Assembly.SolvePart1 | day7_some_assembly_required/assembly.py:97-100 | the result is wire `a` resolved from an empty cache in the circuit read from the lines |
| Assembly.SolvePart2 | day7_some_assembly_required/assembly.py:102-117 | the result is `a` resolved again after a reset with `b` forced to part one's value |
| Assembly.Part1Meaning | day7_some_assembly_required/assembly.py:97-100 | part one's answer is the reference meaning of `a` |
| Assembly.Part2Meaning | day7_some_assembly_required/assembly.py:107-117 | after forcing, `b` resolves to the forced value, and `a` is its meaning with `b` fixed to that value instead of b's instruction |
| Assembly.Part1Exact | day7_some_assembly_required/assembly.py:97-100 | part one's answer is v if and only if v is the meaning of `a` in the circuit read from the lines |
| Assembly.Part2Exact | day7_some_assembly_required/assembly.py:102-117 | part two's answer is u if and only if u is the meaning of `a` with `b` fixed to part one's answer |
| Assembly.PartsInRange | day7_some_assembly_required/assembly.py:70-117 | with all literals below 65536, both answers are 16-bit values |
| Matchsticks.Unquote | day8_matchsticks/matchsticks.py:29-32 | a string not both starting and ending with `"` is rejected; otherwise the content is what lies between the quotes |
| Matchsticks.RejectsUnquoted | day8_matchsticks/matchsticks.py:29-32 | the memory length of an unquoted string is an error |
| Matchsticks.TokenizeSpelled | day8_matchsticks/matchsticks.py:35-58 | the tokens read from a content spell that content back |
| Matchsticks.SpellTokenized | day8_matchsticks/matchsticks.py:35-58 | a sequence of well-formed tokens, spelled out, reads back as itself |
| Matchsticks.TokenizeToken | day8_matchsticks/matchsticks.py:39-58 | one spelled token at the front is read as that token |
| Matchsticks.SpellLength | day8_matchsticks/matchsticks.py:43-50 | a plain character takes one input character, `\\` and `\"` take two, `\xHH` takes four |
| Matchsticks.RejectsTrailingBackslash | day8_matchsticks/matchsticks.py:53-54 | a backslash at the end of the content is rejected |
| Matchsticks.RejectsBadEscape | day8_matchsticks/matchsticks.py:47-52 | any other escape, or `\x` with fewer than two characters after it, is rejected naming the escape character |
| Matchsticks.LiteralMinusMemory | day8_matchsticks/matchsticks.py:15-58 | for an accepted string, literal minus memory is 2 plus the escapes' overhead, so memory ≤ len − 2 |
| Matchsticks.CalculateMemoryLength | day8_matchsticks/matchsticks.py:17-60 | the scanning loop returns the number of tokens of the content, or the error the tokenizer reports |
| Matchsticks.EncodedLength | day8_matchsticks/matchsticks.py:62-82 | the encoded length is len + backslashes + quotes + 2 |
| Matchsticks.EncodeIsSpelled | day8_matchsticks/matchsticks.py:73-80 | the two `replace` calls and the added quotes spell the string with every `\` and `"` escaped |
| Matchsticks.OverheadOfLiteral | day8_matchsticks/matchsticks.py:74-77 | escaping adds exactly one character per backslash and per quote |
| Matchsticks.DecodeEncode | day8_matchsticks/matchsticks.py:29-82 | decoding an encoded string gives one token per original character, so its memory length is the original length |
| Matchsticks.Part1Bound | day8_matchsticks/matchsticks.py:94-104 | part one is at least the number of lines, and at least twice that when no line is a lone quote |
| Matchsticks.Part1LinesAccepted | day8_matchsticks/matchsticks.py:97-99 | a successful part one accepted every line |
| Matchsticks.Part1ErrorStays | day8_matchsticks/matchsticks.py:97-99 | once a line fails, part one reports that line's error |
| Matchsticks.Part1Fails | day8_matchsticks/matchsticks.py:99 | one unacceptable line anywhere makes part one fail |
| Matchsticks.Part2Total | day8_matchsticks/matchsticks.py:117-128 | part two is 2 per line plus the number of backslashes and quotes in all lines |
| Matchsticks.SolvePart1 | day8_matchsticks/matchsticks.py:84-104 | the loop's result is the sum over the lines of literal minus memory length, or the first line's error |
| Matchsticks.SolvePart2 | day8_matchsticks/matchsticks.py:106-128 | the loop's result is the sum over the lines of encoded minus literal length |
| SingleNight.PutLookup | day9_all_in_a_single_night/single_night.py:27-28 | setting one distance changes only that ordered pair |
| SingleNight.AddLineSets | day9_all_in_a_single_night/single_night.py:23-28 | an accepted line sets the distance in both directions, overwriting any earlier one, and nothing else |
| SingleNight.AddLineSkips | day9_all_in_a_single_night/single_night.py:19-21 | a line without 5 words, `to` second and `=` fourth is skipped |
| SingleNight.AddLineRejects | day9_all_in_a_single_night/single_night.py:24 | a well-shaped line whose distance is not an integer fails |
| SingleNight.ParsedSymmetric | day9_all_in_a_single_night/single_night.py:16-30 | the parsed map is symmetric |
| SingleNight.ParsedErrorStays | day9_all_in_a_single_night/single_night.py:18-24 | once a line fails, parsing reports that line's error |
| SingleNight.ParseDistances | day9_all_in_a_single_night/single_night.py:6-30 | the loop's map is the specification map, and it is symmetric |
| SingleNight.ShortRoute | day9_all_in_a_single_night/single_night.py:43-51 | a route of fewer than two cities has length 0 |
| SingleNight.FiniteIffComplete | day9_all_in_a_single_night/single_night.py:45-48 | a route's length is finite iff every leg has a distance |
| SingleNight.LengthNonNegative | day9_all_in_a_single_night/single_night.py:43-51 | with non-negative distances every route length is at least 0 |
| SingleNight.RouteDistance | day9_all_in_a_single_night/single_night.py:32-51 | the loop's result is the sum of the legs, or infinity at the first missing leg |
| SingleNight.ToursCharacterised | day9_all_in_a_single_night/single_night.py:71-96 | the routes tried are exactly the sequences listing every city once |
| SingleNight.SomeTour | day9_all_in_a_single_night/single_night.py:71-96 | there is always at least one ordering of the cities |
| SingleNight.FindShortestRoute | day9_all_in_a_single_night/single_night.py:53-76 | no cities gives 0; otherwise the result is at most every tour's length and equals one of them |
| SingleNight.FindLongestRoute | day9_all_in_a_single_night/single_night.py:78-101 | no cities gives 0; the result is at least every tour's length and 0, and is 0 or one of them |
| SingleNight.LongestIsATour | day9_all_in_a_single_night/single_night.py:93-101 | with cities and non-negative distances, the longest equals some tour's length |
| SingleNight.LongestInfinite | day9_all_in_a_single_night/single_night.py:96-99 | one tour with a missing leg makes the longest infinite |
| LookAndSay.RunsCorrect | day10_elves_look_elves_say/look_and_say.py:17-36 | the runs found are maximal (neighbours differ), spell the input back, and end with its last character |
| LookAndSay.RunsOfExpand | day10_elves_look_elves_say/look_and_say.py:17-36 | maximal runs are unique: the runs of a spelled-out sequence of maximal runs are that sequence |
| LookAndSay.RunCountsSumToLength | day10_elves_look_elves_say/look_and_say.py:22-36 | the run counts sum to the input length |
| LookAndSay.NextEmpty | day10_elves_look_elves_say/look_and_say.py:14-15 | the empty string gives the empty string |
| LookAndSay.NextEndsWithLast | day10_elves_look_elves_say/look_and_say.py:35-38 | a non-empty input gives output ending with its last character |
| LookAndSay.SayLengthShortRuns | day10_elves_look_elves_say/look_and_say.py:27-36 | when every run is shorter than 10, the output has exactly 2 characters per run |
| LookAndSay.NextDigits | day10_elves_look_elves_say/look_and_say.py:27-38 | a string of digits steps to a string of digits |
| LookAndSay.IterateDigits | day10_elves_look_elves_say/look_and_say.py:51-53 | so does any number of steps |
| LookAndSay.LookAndSayStep | day10_elves_look_elves_say/look_and_say.py:4-38 | the loop's result is the count and character of each maximal run, in order |
| LookAndSay.SolvePart1 | day10_elves_look_elves_say/look_and_say.py:40-54 | the result is the length after applying the step `iterations` times, 40 by default (none when negative) |
| LookAndSay.SolvePart2 | day10_elves_look_elves_say/look_and_say.py:56-66 | the result is part one with 50 iterations |
| Text.ParseIntToString | day10_elves_look_elves_say/look_and_say.py:27 | `int` reads back what `str` writes, for every integer |
| Text.NatToString | day10_elves_look_elves_say/look_and_say.py:27 | `str(n)` is a digit string whose value is n, one character exactly when n < 10 |
| Text.JoinSplitOn | day7_some_assembly_required/assembly.py:18 | joining the pieces of `split(sep)` with sep gives the string back |
| Text.SplitOn | day7_some_assembly_required/assembly.py:18 | `split(sep)` gives at least one piece and no piece contains the separator |
| Text.Find | day7_some_assembly_required/assembly.py:18 | the separator is found at the leftmost place it occurs |
| Text.WordsOfJoin | day9_all_in_a_single_night/single_night.py:19 | `split()` of words joined by single spaces gives those words back |
| Text.StripSurrounded | day6_probably_a_fire_hazard/fire_hazard.py:18 | `strip()` removes exactly the surrounding whitespace |
| Text.CountConcat | day8_matchsticks/matchsticks.py:74-77 | counts of a character add up over concatenation |

## Left out

- Day 4 is not part of this model. Its only logic is a brute-force search over `hashlib.md5`, a foreign library.
- Every `main()` is left out: argument parsing, `aocd` fetching over the network, file reading, printing, and the line loops that feed the solvers (such as day 2's). The solvers take the lines, or the string, as parameters.
- Day 7's `functools.lru_cache` and its `cache_clear` calls are left out. The decorator caches only what `wire_values` already caches; both are cleared together.
- Assembly.Resolve: on a circuit where a wire depends on itself, the script recurses until Python raises `RecursionError`. The model carries the set of wires under evaluation and reports `Cycle(wire)` instead. This keeps resolution total without demanding acyclicity of the caller. `ResolveMeaning` shows that an error, `Cycle` included, is reported only for a wire that has no meaning, where the script fails as well. `Circuit.GetWireValue` and `EvaluateExpression` take that set as an extra argument, and the parts pass the empty set.
- Unicode digits are left out. `isdigit`, `int` and the pattern's `\d` also accept non-ASCII digits, and `int` accepts `_` between digits. The model takes ASCII digits only, with an optional sign for `int`.
- The regular-expression engine of day 6 is left out. It is replaced by a hand-written parser of the same pattern. `ParseLine` and `ParseAccepted` prove that it accepts exactly the lines whose stripped text is an operation, four digit strings and the separators, followed by text not starting with a digit, and returns the instruction they spell.
- Day 6 index errors: a non-empty rectangle that reaches past the grid raises `IndexError` in the script partway through updating the grid. The model checks this before touching the grid and reports `IndexOutOfRange`. The partly updated grid is lost with the exception either way.
- The day 6 grid size is a parameter; the script fixes it at 1000 (`PuzzleSize`).
- Day 9 reads `distances[city1]` from a `defaultdict`, which inserts an empty entry for a city it has not seen. The model does not insert it. The searches only route through known cities, so this cannot change their result.
- Day 9's `float('inf')` is the `Dist` datatype (`Fin(n) | Inf`), and comparisons with it are written out.
- Day 9's `itertools.permutations` is the set `Tours` of all orderings of the cities. The searches visit it in an unspecified order. Only the minimum and maximum are stated, and those do not depend on the order.
- Matchsticks.Unquote: the script's check `startswith('"') and endswith('"')` also accepts the one-character string `"`, with empty content. The model keeps that, so literal minus memory is 1, not 2, for that line. `Part1Bound` states the bound of 2 only for the other lines.
- Day 10 builds a list of pieces and joins it at the end. The model appends to a string directly, which gives the same text.
- Python integers are unbounded, so the model uses `int` and `nat`. The 16-bit masks of day 7 are written out as `% 65536`.

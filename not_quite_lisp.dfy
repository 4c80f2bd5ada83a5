/** Day 1: Santa follows parentheses up and down the floors of a building. */
module NotQuiteLisp {
  import opened Text

  /** What one character does to the floor: `(` goes up, `)` goes down, anything else is ignored. */
  function Step(c: char): int {
    if c == '(' then 1 else if c == ')' then -1 else 0
  }

  /** The floor reached by following `s` from floor 0, one character at a time. */
  function Floor(s: string): int {
    if s == [] then 0 else Floor(s[..|s| - 1]) + Step(s[|s| - 1])
  }

  /** The final floor is the number of `(` minus the number of `)`. */
  lemma {:induction false} FloorIsCountDifference(s: string)
    ensures Floor(s) == Count(s, '(') - Count(s, ')')
  {
    if s != [] {
      FloorIsCountDifference(s[..|s| - 1]);
    }
  }

  /** Following `a` and then `b` moves by the sum of the two moves. */
  lemma {:induction false} FloorConcat(a: string, b: string)
    ensures Floor(a + b) == Floor(a) + Floor(b)
    decreases |b|
  {
    if b == [] {
      assert a + b == a;
    } else {
      var b' := b[..|b| - 1];
      assert (a + b)[..|a + b| - 1] == a + b';
      FloorConcat(a, b');
    }
  }

  /** Each character moves at most one floor. */
  lemma {:induction false} FloorBound(s: string)
    ensures -|s| <= Floor(s) <= |s|
  {
    if s != [] {
      FloorBound(s[..|s| - 1]);
    }
  }

  /** `compute_final_floor`: the loop over the instructions, counting up and down. */
  method ComputeFinalFloor(instructions: string) returns (floor: int)
    ensures floor == Floor(instructions)
    ensures floor == Count(instructions, '(') - Count(instructions, ')')
    ensures -|instructions| <= floor <= |instructions|
  {
    floor := 0;
    for i := 0 to |instructions|
      invariant floor == Floor(instructions[..i])
    {
      assert instructions[..i + 1][..i] == instructions[..i];
      var c := instructions[i];
      if c == '(' {
        floor := floor + 1;
      } else if c == ')' {
        floor := floor - 1;
      }
    }
    assert instructions[..|instructions|] == instructions;
    FloorIsCountDifference(instructions);
    FloorBound(instructions);
  }
}

/** Day 10: the look-and-say sequence. */
module LookAndSay {
  import opened Text

  /** A run of `count` copies of the character `ch`. */
  datatype Run = Run(count: nat, ch: char)

  /** `n` copies of `c`. */
  function Repeat(c: char, n: nat): string {
    if n == 0 then "" else Repeat(c, n - 1) + [c]
  }

  /** The string a sequence of runs stands for. */
  function Expand(rs: seq<Run>): string {
    if rs == [] then "" else Expand(rs[..|rs| - 1]) + Repeat(rs[|rs| - 1].ch, rs[|rs| - 1].count)
  }

  /** Runs are maximal: none is empty and neighbouring runs hold different characters. */
  predicate Maximal(rs: seq<Run>) {
    && (forall k :: 0 <= k < |rs| ==> rs[k].count > 0)
    && (forall k :: 0 < k < |rs| ==> rs[k - 1].ch != rs[k].ch)
  }

  /** The runs after one more character `c`: the last run grows if it holds `c`, otherwise a new run starts. */
  function Extend(rs: seq<Run>, c: char): seq<Run> {
    if |rs| > 0 && rs[|rs| - 1].ch == c then rs[..|rs| - 1] + [Run(rs[|rs| - 1].count + 1, c)]
    else rs + [Run(1, c)]
  }

  /** The maximal runs of equal characters of `s`, left to right. */
  function Runs(s: string): seq<Run> {
    if s == [] then [] else Extend(Runs(s[..|s| - 1]), s[|s| - 1])
  }

  /** What look-and-say reads out for a sequence of runs: each count in decimal, then its character. */
  function Say(rs: seq<Run>): string {
    if rs == [] then "" else Say(rs[..|rs| - 1]) + NatToString(rs[|rs| - 1].count) + [rs[|rs| - 1].ch]
  }

  /** One step of the sequence. */
  function Next(s: string): string {
    Say(Runs(s))
  }

  /** The sequence after `n` steps from `s`. */
  function Iterate(s: string, n: nat): string {
    if n == 0 then s else Next(Iterate(s, n - 1))
  }

  // ---------------------------------------------------------------------------
  // The runs of a string

  lemma {:induction false} ExpandAppend(rs: seq<Run>, r: Run)
    ensures Expand(rs + [r]) == Expand(rs) + Repeat(r.ch, r.count)
  {
    assert (rs + [r])[..|rs|] == rs;
  }

  lemma RepeatSucc(c: char, n: nat)
    ensures Repeat(c, n + 1) == Repeat(c, n) + [c]
  {
  }

  /** The runs of `s` are maximal, and the last one holds the last character of `s`. */
  lemma {:induction false} RunsMaximal(s: string)
    ensures Maximal(Runs(s))
    ensures s != [] ==> |Runs(s)| > 0 && Runs(s)[|Runs(s)| - 1].ch == s[|s| - 1]
  {
    if s != [] {
      RunsMaximal(s[..|s| - 1]);
      ExtendMaximal(Runs(s[..|s| - 1]), s[|s| - 1]);
    }
  }

  /** One more character keeps the runs maximal and ends them with that character. */
  lemma ExtendMaximal(rs: seq<Run>, c: char)
    requires Maximal(rs)
    ensures Maximal(Extend(rs, c)) && |Extend(rs, c)| > 0 && Extend(rs, c)[|Extend(rs, c)| - 1].ch == c
  {
    var e := Extend(rs, c);
    if |rs| > 0 && rs[|rs| - 1].ch == c {
      assert forall k :: 0 <= k < |rs| - 1 ==> e[k] == rs[k];
    } else {
      assert forall k :: 0 <= k < |rs| ==> e[k] == rs[k];
    }
  }

  /** Expanding the runs of `s` gives `s` back. */
  lemma {:induction false} ExpandRuns(s: string)
    ensures Expand(Runs(s)) == s
  {
    if s != [] {
      var t, c := s[..|s| - 1], s[|s| - 1];
      ExpandRuns(t);
      var rs := Runs(t);
      assert s == t + [c];
      if |rs| > 0 && rs[|rs| - 1].ch == c {
        var front, last := rs[..|rs| - 1], rs[|rs| - 1];
        assert Runs(s) == front + [Run(last.count + 1, c)];
        assert rs == front + [last];
        ExpandExtendLast(front, last);
      } else {
        assert Runs(s) == rs + [Run(1, c)];
        ExpandAppend(rs, Run(1, c));
        assert Repeat(c, 1) == [c];
      }
    }
  }

  lemma ExpandExtendLast(front: seq<Run>, last: Run)
    ensures Expand(front + [Run(last.count + 1, last.ch)]) == Expand(front + [last]) + [last.ch]
  {
    ExpandAppend(front, last);
    ExpandAppend(front, Run(last.count + 1, last.ch));
    RepeatSucc(last.ch, last.count);
  }

  /** The runs of `s` are maximal, and expanding them gives `s` back. */
  lemma RunsCorrect(s: string)
    ensures Maximal(Runs(s)) && Expand(Runs(s)) == s
    ensures s != [] ==> |Runs(s)| > 0 && Runs(s)[|Runs(s)| - 1].ch == s[|s| - 1]
  {
    RunsMaximal(s);
    ExpandRuns(s);
  }

  lemma RunsSnoc(u: string, c: char)
    ensures Runs(u + [c]) == Extend(Runs(u), c)
  {
    assert (u + [c])[..|u|] == u;
  }

  lemma ExtendSame(rs: seq<Run>, r: Run)
    ensures Extend(rs + [r], r.ch) == rs + [Run(r.count + 1, r.ch)]
  {
    assert (rs + [r])[..|rs|] == rs;
  }

  lemma AppendRepeatSucc(t: string, c: char, n: nat)
    ensures t + Repeat(c, n + 1) == (t + Repeat(c, n)) + [c]
  {
    RepeatSucc(c, n);
    var x := Repeat(c, n);
    assert t + (x + [c]) == (t + x) + [c];
  }

  lemma RunsAppendNew(t: string, c: char)
    requires t == [] || t[|t| - 1] != c
    ensures Runs(t + [c]) == Runs(t) + [Run(1, c)]
  {
    RunsSnoc(t, c);
    RunsMaximal(t);
  }

  lemma {:induction false} RunsAppendRepeat(t: string, c: char, n: nat)
    requires n > 0
    requires t == [] || t[|t| - 1] != c
    ensures Runs(t + Repeat(c, n)) == Runs(t) + [Run(n, c)]
  {
    if n == 1 {
      assert Repeat(c, 1) == [c];
      RunsAppendNew(t, c);
    } else {
      var u := t + Repeat(c, n - 1);
      RunsAppendRepeat(t, c, n - 1);
      RunsSnoc(u, c);
      ExtendSame(Runs(t), Run(n - 1, c));
      AppendRepeatSucc(t, c, n - 1);
    }
  }

  /** Maximal runs are determined by their string: reading off the runs of their expansion gives them back. */
  lemma {:induction false} RunsOfExpand(rs: seq<Run>)
    requires Maximal(rs)
    ensures Runs(Expand(rs)) == rs
  {
    if rs != [] {
      var front, last := rs[..|rs| - 1], rs[|rs| - 1];
      assert front + [last] == rs;
      assert Maximal(front);
      RunsOfExpand(front);
      var t := Expand(front);
      if t != [] {
        RunsMaximal(t);
        assert t[|t| - 1] == front[|front| - 1].ch;
      }
      ExpandAppend(front, last);
      RunsAppendRepeat(t, last.ch, last.count);
    }
  }

  /** The run lengths add up to the length of the input. */
  lemma {:induction false} ExpandLength(rs: seq<Run>)
    ensures |Expand(rs)| == SumCounts(rs)
  {
    if rs != [] {
      ExpandLength(rs[..|rs| - 1]);
      RepeatLength(rs[|rs| - 1].ch, rs[|rs| - 1].count);
    }
  }

  lemma {:induction false} RepeatLength(c: char, n: nat)
    ensures |Repeat(c, n)| == n
  {
    if n > 0 {
      RepeatLength(c, n - 1);
    }
  }

  function SumCounts(rs: seq<Run>): nat {
    if rs == [] then 0 else SumCounts(rs[..|rs| - 1]) + rs[|rs| - 1].count
  }

  /** The counts that look-and-say reads out add up to the length of the input. */
  lemma RunCountsSumToLength(s: string)
    ensures SumCounts(Runs(s)) == |s|
  {
    RunsCorrect(s);
    ExpandLength(Runs(s));
  }

  // ---------------------------------------------------------------------------
  // What is read out

  /** The empty string reads out as the empty string. */
  lemma NextEmpty()
    ensures Next("") == ""
  {
  }

  /** A non-empty input reads out to a string that ends with the input's last character. */
  lemma NextEndsWithLast(s: string)
    requires s != []
    ensures |Next(s)| > 0 && Next(s)[|Next(s)| - 1] == s[|s| - 1]
  {
    RunsCorrect(s);
  }

  /** When every run is shorter than ten, each run reads out as exactly two characters. */
  lemma {:induction false} SayLengthShortRuns(rs: seq<Run>)
    requires forall k :: 0 <= k < |rs| ==> rs[k].count < 10
    ensures |Say(rs)| == 2 * |rs|
  {
    if rs != [] {
      SayLengthShortRuns(rs[..|rs| - 1]);
    }
  }

  /** Reading out digits gives digits again, so every term of the sequence is a digit string. */
  lemma {:induction false} SayDigits(rs: seq<Run>)
    requires forall k :: 0 <= k < |rs| ==> IsDigit(rs[k].ch)
    ensures AllDigits(Say(rs))
  {
    if rs != [] {
      SayDigits(rs[..|rs| - 1]);
    }
  }

  lemma NextDigits(t: string)
    requires AllDigits(t)
    ensures AllDigits(Next(t))
  {
    RunsCorrect(t);
    var rs := Runs(t);
    forall k | 0 <= k < |rs| ensures IsDigit(rs[k].ch) {
      RunCharIn(rs, k);
    }
    SayDigits(rs);
  }

  lemma {:induction false} IterateDigits(s: string, n: nat)
    requires AllDigits(s)
    ensures AllDigits(Iterate(s, n))
  {
    if n > 0 {
      IterateDigits(s, n - 1);
      NextDigits(Iterate(s, n - 1));
    }
  }

  /** Every character of a run occurs in the expansion. */
  lemma {:induction false} RunCharIn(rs: seq<Run>, k: nat)
    requires k < |rs| && Maximal(rs)
    ensures rs[k].ch in Expand(rs)
  {
    var front, last := rs[..|rs| - 1], rs[|rs| - 1];
    RepeatLength(last.ch, last.count);
    if k == |rs| - 1 {
      assert Repeat(last.ch, last.count)[last.count - 1] == last.ch by {
        RepeatSucc(last.ch, last.count - 1);
      }
      assert Expand(rs)[|Expand(front)| + last.count - 1] == last.ch;
    } else {
      assert Maximal(front);
      RunCharIn(front, k);
      var i :| 0 <= i < |Expand(front)| && Expand(front)[i] == rs[k].ch;
      assert Expand(rs)[i] == rs[k].ch;
    }
  }

  // ---------------------------------------------------------------------------
  // The script

  /**
   * `look_and_say`: one pass over the input keeping the current character and
   * how often it has been seen so far, emitting `str(count)` and the character
   * whenever the run ends. The list of pieces that the source joins at the end
   * is kept here as the string it joins to.
   */
  method LookAndSayStep(sequence: string) returns (r: string)
    ensures r == Next(sequence)
  {
    if sequence == [] {
      return "";
    }
    var result := "";
    var currentDigit := sequence[0];
    var count := 1;
    ghost var done: seq<Run> := [];
    assert sequence[..1][..0] == [];
    for i := 1 to |sequence|
      invariant count >= 1
      invariant Runs(sequence[..i]) == done + [Run(count, currentDigit)]
      invariant result == Say(done)
    {
      assert sequence[..i + 1][..i] == sequence[..i];
      assert (done + [Run(count, currentDigit)])[..|done|] == done;
      if sequence[i] == currentDigit {
        count := count + 1;
      } else {
        result := result + NatToString(count) + [currentDigit];
        assert (done + [Run(count, currentDigit)])[..|done| + 1 - 1] == done;
        done := done + [Run(count, currentDigit)];
        currentDigit := sequence[i];
        count := 1;
      }
    }
    assert sequence[..|sequence|] == sequence;
    assert (done + [Run(count, currentDigit)])[..|done|] == done;
    result := result + NatToString(count) + [currentDigit];
    r := result;
  }

  /** `solve_part1`: the length after `iterations` steps, 40 unless given; a negative count makes no steps, as `range` does. */
  method SolvePart1(initialSequence: string, iterations: int := 40) returns (n: nat)
    ensures n == |Iterate(initialSequence, if iterations < 0 then 0 else iterations)|
  {
    var steps: nat := if iterations < 0 then 0 else iterations;
    var sequence := initialSequence;
    for k := 0 to steps
      invariant sequence == Iterate(initialSequence, k)
    {
      sequence := LookAndSayStep(sequence);
    }
    n := |sequence|;
  }

  /** `solve_part2`: part one with fifty steps. */
  method SolvePart2(initialSequence: string) returns (n: nat)
    ensures n == |Iterate(initialSequence, 50)|
  {
    n := SolvePart1(initialSequence, 50);
  }
}

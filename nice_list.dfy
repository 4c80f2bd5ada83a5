/** Day 5: the two rule sets that tell naughty strings from nice ones. */
module NiceList {

  predicate IsVowel(c: char) {
    c == 'a' || c == 'e' || c == 'i' || c == 'o' || c == 'u'
  }

  /** The number of vowels in `s` (`sum(1 for char in s if char in vowels)`). */
  function VowelCount(s: string): nat {
    if s == [] then 0 else VowelCount(s[..|s| - 1]) + (if IsVowel(s[|s| - 1]) then 1 else 0)
  }

  /** The positions of `s` that hold a vowel. */
  function VowelPositions(s: string): set<nat> {
    set i: nat | i < |s| && IsVowel(s[i])
  }

  /** The count is the number of vowel positions. */
  lemma {:induction false} VowelCountIsPositions(s: string)
    ensures VowelCount(s) == |VowelPositions(s)|
  {
    if s != [] {
      var t := s[..|s| - 1];
      VowelCountIsPositions(t);
      if IsVowel(s[|s| - 1]) {
        assert VowelPositions(s) == VowelPositions(t) + {|s| - 1};
      } else {
        assert VowelPositions(s) == VowelPositions(t);
      }
    }
  }

  /** `has_three_vowels`. */
  predicate HasThreeVowels(s: string) {
    VowelCount(s) >= 3
  }

  /** `has_three_vowels` holds exactly when at least three positions of `s` hold a vowel. */
  lemma HasThreeVowelsIff(s: string)
    ensures HasThreeVowels(s) <==> |VowelPositions(s)| >= 3
  {
    VowelCountIsPositions(s);
  }

  /** `has_double_letter`: the scan for two equal neighbours. */
  predicate HasDoubleLetter(s: string)
    ensures HasDoubleLetter(s) <==> exists i :: 0 <= i < |s| - 1 && s[i] == s[i + 1]
  {
    |s| >= 2 && (s[0] == s[1] || HasDoubleLetter(s[1..]))
  }

  /** `pair in s` for the two-character string `pair == [a, b]`. */
  predicate ContainsPair(s: string, a: char, b: char)
    ensures ContainsPair(s, a, b) <==> exists i :: 0 <= i < |s| - 1 && s[i] == a && s[i + 1] == b
  {
    |s| >= 2 && ((s[0] == a && s[1] == b) || ContainsPair(s[1..], a, b))
  }

  /** The four pairs a nice string must not contain. */
  predicate IsForbidden(a: char, b: char) {
    (a, b) == ('a', 'b') || (a, b) == ('c', 'd') || (a, b) == ('p', 'q') || (a, b) == ('x', 'y')
  }

  /** `has_no_forbidden_substrings`: none of `ab`, `cd`, `pq`, `xy` occurs. */
  predicate HasNoForbiddenSubstrings(s: string)
    ensures HasNoForbiddenSubstrings(s) <==> forall i :: 0 <= i < |s| - 1 ==> !IsForbidden(s[i], s[i + 1])
  {
    !ContainsPair(s, 'a', 'b') && !ContainsPair(s, 'c', 'd') && !ContainsPair(s, 'p', 'q') && !ContainsPair(s, 'x', 'y')
  }

  /** `is_nice`: the three part-one rules together. */
  predicate IsNice(s: string) {
    HasThreeVowels(s) && HasDoubleLetter(s) && HasNoForbiddenSubstrings(s)
  }

  /**
   * `has_repeating_pair`: some pair of neighbouring letters occurs again
   * later, starting at least two positions further on (so the two copies do
   * not overlap).
   */
  predicate HasRepeatingPair(s: string)
    ensures HasRepeatingPair(s) <==>
      exists i, j :: 0 <= i && i + 2 <= j < |s| - 1 && s[i] == s[j] && s[i + 1] == s[j + 1]
  {
    if |s| < 2 then false
    else
      ContainsPair(s[2..], s[0], s[1]) || HasRepeatingPair(s[1..])
  }

  /** `has_repeating_letter_with_gap`: some letter recurs with exactly one letter between. */
  predicate HasRepeatingLetterWithGap(s: string)
    ensures HasRepeatingLetterWithGap(s) <==> exists i :: 0 <= i < |s| - 2 && s[i] == s[i + 2]
  {
    |s| >= 3 && (s[0] == s[2] || HasRepeatingLetterWithGap(s[1..]))
  }

  /** `is_nice_part2`: the two part-two rules together. */
  predicate IsNicePart2(s: string)
    ensures IsNicePart2(s) <==>
      (exists i, j :: 0 <= i && i + 2 <= j < |s| - 1 && s[i] == s[j] && s[i + 1] == s[j + 1])
      && (exists i :: 0 <= i < |s| - 2 && s[i] == s[i + 2])
  {
    HasRepeatingPair(s) && HasRepeatingLetterWithGap(s)
  }

  /** A nice string, stated position by position: three vowels, a doubled letter and no forbidden pair. */
  lemma IsNiceIff(s: string)
    ensures IsNice(s) <==>
      |VowelPositions(s)| >= 3
      && (exists i :: 0 <= i < |s| - 1 && s[i] == s[i + 1])
      && (forall i :: 0 <= i < |s| - 1 ==> !IsForbidden(s[i], s[i + 1]))
  {
    HasThreeVowelsIff(s);
  }

  /** Overlapping copies do not count: `aaa` has no repeating pair, `aaaa` has one. */
  lemma OverlappingPairsDoNotRepeat()
    ensures !HasRepeatingPair("aaa")
    ensures HasRepeatingPair("aaaa")
  {
    assert "aaaa"[0] == "aaaa"[2] && "aaaa"[1] == "aaaa"[3];
  }
}

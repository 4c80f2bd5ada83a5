/** Day 8: string literals, their length in memory, and their re-encoding. */
module Matchsticks {
  import opened Wrappers
  import opened Text

  /** Why a line is not an acceptable string literal. */
  datatype LiteralError =
    | NotQuoted                 // the line does not both start and end with `"`
    | InvalidEscape(next: char) // a backslash followed by something other than `\`, `"` or a complete `\x..`
    | TrailingBackslash         // a backslash is the last character inside the quotes

  /**
   * One character in memory together with how it is written between the
   * quotes: as itself, as `\\`, as `\"`, or as `\x` followed by two
   * characters (which are not checked to be hexadecimal digits).
   */
  datatype Token = Char(c: char) | Backslash | Quote | Hex(hi: char, lo: char)

  /** How a token is written. */
  function SpellToken(t: Token): string {
    match t
    case Char(c) => [c]
    case Backslash => ['\\', '\\']
    case Quote => ['\\', '"']
    case Hex(hi, lo) => ['\\', 'x', hi, lo]
  }

  /** How a sequence of tokens is written, one after the other. */
  function Spell(ts: seq<Token>): string {
    if ts == [] then "" else SpellToken(ts[0]) + Spell(ts[1..])
  }

  /** A token that reads back as itself: a plain character is never a backslash. */
  predicate Readable(t: Token) {
    t.Char? ==> t.c != '\\'
  }

  /** How many characters a token writes beyond the one it stands for. */
  function Overhead(t: Token): nat {
    match t
    case Char(_) => 0
    case Backslash => 1
    case Quote => 1
    case Hex(_, _) => 3
  }

  function TotalOverhead(ts: seq<Token>): nat {
    if ts == [] then 0 else Overhead(ts[0]) + TotalOverhead(ts[1..])
  }

  /** `done` followed by the tokens of `r`, or the error of `r`. */
  function Prepend(done: seq<Token>, r: Result<seq<Token>, LiteralError>): Result<seq<Token>, LiteralError> {
    if r.Ok? then Ok(done + r.value) else r
  }

  /**
   * The characters between the quotes read left to right: a backslash starts
   * an escape, everything else stands for itself. The first bad escape is
   * the error.
   */
  function Tokenize(content: string): Result<seq<Token>, LiteralError>
    decreases |content|
  {
    if content == [] then Ok([])
    else if content[0] != '\\' then Prepend([Char(content[0])], Tokenize(content[1..]))
    else if |content| < 2 then Err(TrailingBackslash)
    else if content[1] == '\\' then Prepend([Backslash], Tokenize(content[2..]))
    else if content[1] == '"' then Prepend([Quote], Tokenize(content[2..]))
    else if content[1] == 'x' && 3 < |content| then Prepend([Hex(content[2], content[3])], Tokenize(content[4..]))
    else Err(InvalidEscape(content[1]))
  }

  /**
   * What is between the surrounding quotes. A single `"` both starts and
   * ends with a quote and encloses nothing.
   */
  function Unquote(s: string): (r: Result<string, LiteralError>)
    ensures r.Err? <==> !(|s| > 0 && s[0] == '"' && s[|s| - 1] == '"')
    ensures r.Err? ==> r.error == NotQuoted
    ensures r.Ok? && |s| >= 2 ==> s == ['"'] + r.value + ['"']
    ensures r.Ok? && |s| < 2 ==> s == ['"'] && r.value == []
  {
    if |s| > 0 && s[0] == '"' && s[|s| - 1] == '"' then
      Ok(if |s| >= 2 then s[1..|s| - 1] else [])
    else
      Err(NotQuoted)
  }

  /** The tokens of a line: its contents between the quotes, read as escapes. */
  function Decode(s: string): Result<seq<Token>, LiteralError> {
    var content :- Unquote(s);
    Tokenize(content)
  }

  /** `calculate_literal_length`: the number of characters as written. */
  function LiteralLength(s: string): nat {
    |s|
  }

  /** The number of characters a line stands for in memory, or why it is not a literal. */
  function MemoryLength(s: string): Result<nat, LiteralError> {
    var ts :- Decode(s);
    Ok(|ts|)
  }

  // ---------------------------------------------------------------------------
  // Reading and writing tokens are inverse

  lemma {:induction false} TokenizeSpelled(content: string, ts: seq<Token>)
    requires Tokenize(content) == Ok(ts)
    ensures Spell(ts) == content
    decreases |content|
  {
    if content != [] {
      var k := if content[0] != '\\' then 1 else if content[1] == 'x' then 4 else 2;
      var rest := Tokenize(content[k..]);
      assert rest.Ok? && ts == [ts[0]] + rest.value;
      TokenizeSpelled(content[k..], rest.value);
      assert ts[1..] == rest.value;
      assert content == content[..k] + content[k..];
    }
  }

  lemma {:induction false} SpellLength(ts: seq<Token>)
    ensures |Spell(ts)| == |ts| + TotalOverhead(ts)
  {
    if ts != [] {
      SpellLength(ts[1..]);
    }
  }

  /**
   * Every accepted line takes its two quotes plus the overhead of its escapes
   * more characters to write than it stands for in memory.
   */
  lemma LiteralMinusMemory(s: string, m: nat)
    requires MemoryLength(s) == Ok(m)
    ensures |s| >= 2 ==> LiteralLength(s) - m == 2 + TotalOverhead(Decode(s).value)
    ensures |s| >= 2 ==> m <= LiteralLength(s) - 2
    ensures |s| < 2 ==> s == ['"'] && m == 0
  {
    var content := Unquote(s).value;
    var ts := Decode(s).value;
    TokenizeSpelled(content, ts);
    SpellLength(ts);
  }

  lemma PrependEmpty(r: Result<seq<Token>, LiteralError>)
    ensures Prepend([], r) == r
  {
    if r.Ok? {
      assert [] + r.value == r.value;
    }
  }

  lemma PrependPrepend(a: seq<Token>, b: seq<Token>, r: Result<seq<Token>, LiteralError>)
    ensures Prepend(a, Prepend(b, r)) == Prepend(a + b, r)
  {
    if r.Ok? {
      assert a + (b + r.value) == (a + b) + r.value;
    }
  }

  /** Reading a well-written token goes on with what follows it. */
  lemma TokenizeToken(t: Token, tail: string)
    requires Readable(t)
    ensures Tokenize(SpellToken(t) + tail) == Prepend([t], Tokenize(tail))
  {
    var w := SpellToken(t);
    assert (w + tail)[|w|..] == tail;
  }

  /** Reading goes past well-written tokens to whatever follows them. */
  lemma {:induction false} TokenizeSuffix(ts: seq<Token>, tail: string)
    requires forall k :: 0 <= k < |ts| ==> Readable(ts[k])
    ensures Tokenize(Spell(ts) + tail) == Prepend(ts, Tokenize(tail))
  {
    if ts == [] {
      assert Spell(ts) + tail == tail;
      PrependEmpty(Tokenize(tail));
    } else {
      var w := SpellToken(ts[0]);
      TokenizeSuffix(ts[1..], tail);
      assert Spell(ts) + tail == w + (Spell(ts[1..]) + tail);
      TokenizeToken(ts[0], Spell(ts[1..]) + tail);
      PrependPrepend([ts[0]], ts[1..], Tokenize(tail));
      assert [ts[0]] + ts[1..] == ts;
    }
  }

  /** Writing readable tokens and reading them back gives the same tokens. */
  lemma SpellTokenized(ts: seq<Token>)
    requires forall k :: 0 <= k < |ts| ==> Readable(ts[k])
    ensures Tokenize(Spell(ts)) == Ok(ts)
  {
    TokenizeSuffix(ts, []);
    assert Spell(ts) + [] == Spell(ts);
    assert ts + [] == ts;
  }

  /** The lines the scanner rejects: a backslash at the end, and any other escape than the three. */
  lemma RejectsTrailingBackslash(ts: seq<Token>)
    requires forall k :: 0 <= k < |ts| ==> Readable(ts[k])
    ensures Tokenize(Spell(ts) + ['\\']) == Err(TrailingBackslash)
  {
    TokenizeSuffix(ts, ['\\']);
  }

  lemma RejectsBadEscape(ts: seq<Token>, next: char, rest: string)
    requires forall k :: 0 <= k < |ts| ==> Readable(ts[k])
    requires next != '\\' && next != '"' && (next == 'x' ==> |rest| < 2)
    ensures Tokenize(Spell(ts) + (['\\', next] + rest)) == Err(InvalidEscape(next))
  {
    TokenizeSuffix(ts, ['\\', next] + rest);
  }

  /** A line not both starting and ending with a quote is rejected before anything else. */
  lemma RejectsUnquoted(s: string)
    requires !(|s| > 0 && s[0] == '"' && s[|s| - 1] == '"')
    ensures MemoryLength(s) == Err(NotQuoted)
  {
  }

  // ---------------------------------------------------------------------------
  // The scanner

  /** Reading one more token from position `i` of `content`. */
  lemma TokenizeAt(content: string, i: nat, t: Token, k: nat)
    requires i + k <= |content|
    requires content[i..i + k] == SpellToken(t) && Readable(t)
    ensures Tokenize(content[i..]) == Prepend([t], Tokenize(content[i + k..]))
  {
    assert content[i..] == content[i..i + k] + content[i + k..];
    TokenizeToken(t, content[i + k..]);
  }

  /** The scan reads a plain character at `i`. */
  lemma ReadChar(content: string, i: nat, done: seq<Token>)
    requires i < |content| && content[i] != '\\'
    requires Tokenize(content) == Prepend(done, Tokenize(content[i..]))
    ensures Tokenize(content) == Prepend(done + [Char(content[i])], Tokenize(content[i + 1..]))
  {
    assert content[i..i + 1] == SpellToken(Char(content[i]));
    TokenizeAt(content, i, Char(content[i]), 1);
    PrependPrepend(done, [Char(content[i])], Tokenize(content[i + 1..]));
  }

  /** The scan reads `\\` or `\"` at `i`. */
  lemma ReadEscape(content: string, i: nat, done: seq<Token>)
    requires i + 1 < |content| && content[i] == '\\' && (content[i + 1] == '\\' || content[i + 1] == '"')
    requires Tokenize(content) == Prepend(done, Tokenize(content[i..]))
    ensures var t := if content[i + 1] == '\\' then Backslash else Quote;
      Tokenize(content) == Prepend(done + [t], Tokenize(content[i + 2..]))
  {
    var t := if content[i + 1] == '\\' then Backslash else Quote;
    assert content[i..i + 2] == SpellToken(t);
    TokenizeAt(content, i, t, 2);
    PrependPrepend(done, [t], Tokenize(content[i + 2..]));
  }

  /** The scan reads `\x` and the two characters after it at `i`. */
  lemma ReadHex(content: string, i: nat, done: seq<Token>)
    requires i + 3 < |content| && content[i] == '\\' && content[i + 1] == 'x'
    requires Tokenize(content) == Prepend(done, Tokenize(content[i..]))
    ensures Tokenize(content) == Prepend(done + [Hex(content[i + 2], content[i + 3])], Tokenize(content[i + 4..]))
  {
    var t := Hex(content[i + 2], content[i + 3]);
    assert content[i..i + 4] == SpellToken(t);
    TokenizeAt(content, i, t, 4);
    PrependPrepend(done, [t], Tokenize(content[i + 4..]));
  }

  /**
   * `calculate_memory_length`: strips the quotes, then walks the contents
   * with an index, counting one character per plain character or escape.
   */
  method CalculateMemoryLength(s: string) returns (r: Result<nat, LiteralError>)
    ensures r == MemoryLength(s)
  {
    if !(|s| > 0 && s[0] == '"' && s[|s| - 1] == '"') {
      return Err(NotQuoted);
    }
    var content := if |s| >= 2 then s[1..|s| - 1] else [];
    assert content == Unquote(s).value;
    var i := 0;
    var memoryLength := 0;
    ghost var done: seq<Token> := [];
    assert content[0..] == content;
    PrependEmpty(Tokenize(content));
    while i < |content|
      invariant i <= |content|
      invariant memoryLength == |done|
      invariant Tokenize(content) == Prepend(done, Tokenize(content[i..]))
      decreases |content| - i
    {
      if content[i] == '\\' {
        if i + 1 < |content| {
          var next := content[i + 1];
          if next == '\\' || next == '"' {
            ghost var t := if next == '\\' then Backslash else Quote;
            ReadEscape(content, i, done);
            done := done + [t];
            memoryLength := memoryLength + 1;
            i := i + 2;
          } else if next == 'x' && i + 3 < |content| {
            ReadHex(content, i, done);
            done := done + [Hex(content[i + 2], content[i + 3])];
            memoryLength := memoryLength + 1;
            i := i + 4;
          } else {
            return Err(InvalidEscape(next));
          }
        } else {
          return Err(TrailingBackslash);
        }
      } else {
        ReadChar(content, i, done);
        done := done + [Char(content[i])];
        memoryLength := memoryLength + 1;
        i := i + 1;
      }
    }
    assert content[i..] == [];
    assert done + [] == done;
    r := Ok(memoryLength);
  }

  // ---------------------------------------------------------------------------
  // Re-encoding

  /** `str.replace` for a one-character pattern: every `c` in `s` becomes `r`. */
  function ReplaceChar(s: string, c: char, r: string): string {
    if s == [] then "" else (if s[0] == c then r else [s[0]]) + ReplaceChar(s[1..], c, r)
  }

  /** `calculate_encoded_length`'s string: backslashes doubled, then quotes escaped, then quoted. */
  function Encode(s: string): string {
    var escaped := ReplaceChar(ReplaceChar(s, '\\', ['\\', '\\']), '"', ['\\', '"']);
    ['"'] + escaped + ['"']
  }

  /** `calculate_encoded_length`: two quotes more, and one more character per backslash and per quote. */
  function EncodedLength(s: string): (n: nat)
    ensures n == |s| + Count(s, '\\') + Count(s, '"') + 2
  {
    EncodeIsSpelled(s);
    SpellLength(Literal(s));
    OverheadOfLiteral(s);
    |Encode(s)|
  }

  /** The token that writes the character `c` in a literal. */
  function Escaped(c: char): (t: Token)
    ensures Readable(t)
  {
    if c == '\\' then Backslash else if c == '"' then Quote else Char(c)
  }

  /** The tokens that write `s` in a literal, one per character. */
  function Literal(s: string): (ts: seq<Token>)
    ensures |ts| == |s|
    ensures forall k :: 0 <= k < |ts| ==> ts[k] == Escaped(s[k])
  {
    if s == [] then [] else [Escaped(s[0])] + Literal(s[1..])
  }

  lemma {:induction false} ReplaceAppend(a: string, b: string, c: char, r: string)
    ensures ReplaceChar(a + b, c, r) == ReplaceChar(a, c, r) + ReplaceChar(b, c, r)
  {
    if a == [] {
      assert a + b == b;
    } else {
      assert (a + b)[1..] == a[1..] + b;
      ReplaceAppend(a[1..], b, c, r);
    }
  }

  /** The two replacements together escape each character on its own. */
  lemma {:induction false} EncodeIsSpelled(s: string)
    ensures Encode(s) == ['"'] + Spell(Literal(s)) + ['"']
  {
    EscapeIsSpelled(s);
  }

  lemma {:induction false} EscapeIsSpelled(s: string)
    ensures ReplaceChar(ReplaceChar(s, '\\', ['\\', '\\']), '"', ['\\', '"']) == Spell(Literal(s))
  {
    if s != [] {
      EscapeIsSpelled(s[1..]);
      var once := if s[0] == '\\' then ['\\', '\\'] else [s[0]];
      assert ReplaceChar(s, '\\', ['\\', '\\']) == once + ReplaceChar(s[1..], '\\', ['\\', '\\']);
      ReplaceAppend(once, ReplaceChar(s[1..], '\\', ['\\', '\\']), '"', ['\\', '"']);
      assert Literal(s)[1..] == Literal(s[1..]);
    }
  }

  lemma {:induction false} OverheadOfLiteral(s: string)
    ensures TotalOverhead(Literal(s)) == Count(s, '\\') + Count(s, '"')
  {
    if s != [] {
      OverheadOfLiteral(s[1..]);
      assert s == [s[0]] + s[1..];
      CountConcat([s[0]], s[1..], '\\');
      CountConcat([s[0]], s[1..], '"');
      assert [s[0]][..0] == [];
      assert Literal(s)[1..] == Literal(s[1..]);
    }
  }

  /**
   * Re-encoding is undone by the scanner: the encoded line is accepted, reads
   * back as one token per original character, and so stands for exactly the
   * characters of the original line.
   */
  lemma DecodeEncode(s: string)
    ensures Decode(Encode(s)) == Ok(Literal(s))
    ensures MemoryLength(Encode(s)) == Ok(LiteralLength(s))
  {
    EncodeIsSpelled(s);
    var e := Encode(s);
    assert Unquote(e).value == Spell(Literal(s));
    SpellTokenized(Literal(s));
  }

  // ---------------------------------------------------------------------------
  // The two parts

  /** The part-one total over `strings`, or the first line's error. */
  function Part1(strings: seq<string>): Result<int, LiteralError> {
    if strings == [] then Ok(0)
    else
      var total :- Part1(strings[..|strings| - 1]);
      var m :- MemoryLength(strings[|strings| - 1]);
      Ok(total + LiteralLength(strings[|strings| - 1]) - m)
  }

  /** The part-two total over `strings`. */
  function Part2(strings: seq<string>): int {
    if strings == [] then 0
    else Part2(strings[..|strings| - 1]) + EncodedLength(strings[|strings| - 1]) - LiteralLength(strings[|strings| - 1])
  }

  /** Each accepted line adds at least 1 to part one, and at least 2 unless it is a lone quote. */
  lemma {:induction false} Part1Bound(strings: seq<string>)
    requires Part1(strings).Ok?
    ensures Part1(strings).value >= |strings|
    ensures (forall k :: 0 <= k < |strings| ==> |strings[k]| >= 2) ==> Part1(strings).value >= 2 * |strings|
  {
    if strings != [] {
      var front, last := strings[..|strings| - 1], strings[|strings| - 1];
      var m := MemoryLength(last).value;
      assert Part1(strings).value == Part1(front).value + LiteralLength(last) - m;
      Part1Bound(front);
      LiteralMinusMemory(last, m);
      assert forall k :: 0 <= k < |front| ==> front[k] == strings[k];
    }
  }

  /** Part one succeeds only when every line is an acceptable literal. */
  lemma {:induction false} Part1LinesAccepted(strings: seq<string>)
    requires Part1(strings).Ok?
    ensures forall k :: 0 <= k < |strings| ==> MemoryLength(strings[k]).Ok?
  {
    if strings != [] {
      var front := strings[..|strings| - 1];
      Part1LinesAccepted(front);
      assert forall k :: 0 <= k < |front| ==> front[k] == strings[k];
    }
  }

  /** Once a line fails, part one reports that line's error whatever follows. */
  lemma {:induction false} Part1ErrorStays(strings: seq<string>, i: nat)
    requires i <= |strings| && Part1(strings[..i]).Err?
    ensures Part1(strings) == Part1(strings[..i])
    decreases |strings| - i
  {
    if i < |strings| {
      assert strings[..i + 1][..i] == strings[..i];
      Part1ErrorStays(strings, i + 1);
    } else {
      assert strings[..i] == strings;
    }
  }

  /** A line that is not an acceptable literal makes part one fail, wherever it stands. */
  lemma {:induction false} Part1Fails(strings: seq<string>, k: nat)
    requires k < |strings| && MemoryLength(strings[k]).Err?
    ensures Part1(strings).Err?
  {
    if Part1(strings).Ok? {
      Part1LinesAccepted(strings);
    }
  }

  /** Each line adds two for its new quotes plus one per backslash and per quote. */
  lemma {:induction false} Part2Total(strings: seq<string>)
    ensures Part2(strings) == 2 * |strings| + CountAll(strings)
  {
    if strings != [] {
      Part2Total(strings[..|strings| - 1]);
    }
  }

  /** The backslashes and quotes over all lines. */
  function CountAll(strings: seq<string>): nat {
    if strings == [] then 0
    else CountAll(strings[..|strings| - 1]) + Count(strings[|strings| - 1], '\\') + Count(strings[|strings| - 1], '"')
  }

  /** `solve_part1`: totals the literal and the memory lengths; a bad line raises. */
  method SolvePart1(strings: seq<string>) returns (r: Result<int, LiteralError>)
    ensures r == Part1(strings)
  {
    var totalLiteral: int := 0;
    var totalMemory: int := 0;
    for i := 0 to |strings|
      invariant Part1(strings[..i]) == Ok(totalLiteral - totalMemory)
    {
      assert strings[..i + 1][..i] == strings[..i];
      var literalLen := LiteralLength(strings[i]);
      var memoryLen := CalculateMemoryLength(strings[i]);
      if memoryLen.Err? {
        Part1ErrorStays(strings, i + 1);
        return Err(memoryLen.error);
      }
      totalLiteral := totalLiteral + literalLen;
      totalMemory := totalMemory + memoryLen.value;
    }
    assert strings[..|strings|] == strings;
    r := Ok(totalLiteral - totalMemory);
  }

  /** `solve_part2`: totals the encoded and the literal lengths. */
  method SolvePart2(strings: seq<string>) returns (r: int)
    ensures r == Part2(strings)
  {
    var totalEncoded: int := 0;
    var totalLiteral: int := 0;
    for i := 0 to |strings|
      invariant Part2(strings[..i]) == totalEncoded - totalLiteral
    {
      assert strings[..i + 1][..i] == strings[..i];
      totalLiteral := totalLiteral + LiteralLength(strings[i]);
      totalEncoded := totalEncoded + EncodedLength(strings[i]);
    }
    assert strings[..|strings|] == strings;
    r := totalEncoded - totalLiteral;
  }
}

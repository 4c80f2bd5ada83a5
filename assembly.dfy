/** Day 7: a circuit of wires and 16-bit gates, evaluated on demand with a cache of wire values. */
module Assembly {
  import opened Wrappers
  import opened Text

  /** What separates an expression from its target wire in an instruction. */
  const Arrow: string := " -> "

  /** Values are masked to 16 bits by `& 0xFFFF`, that is, taken modulo 2^16. */
  const Modulus: nat := 0x1_0000

  /** The errors the circuit raises. */
  datatype CircuitError =
    | InvalidInstruction(instruction: string) // not exactly one ` -> `
    | UndefinedWire(wire: string)             // neither cached, nor digits, nor the target of an instruction
    | InvalidUnary(expression: string)        // two words, the first of which is not `NOT`
    | UnknownOperation(op: string)            // three words with an unknown gate in the middle
    | InvalidExpression(expression: string)   // no words, or more than three
    | Cycle(wire: string)                     // a wire that needs its own value, where Python recurses without end

  /** The expression text for each target wire. */
  type Instructions = map<string, string>

  /** The cache of computed wire values. */
  type Values = map<string, nat>

  // ---------------------------------------------------------------------------
  // Gates on Python's unbounded non-negative integers

  function Pow2(n: nat): (p: nat)
    ensures p > 0
  {
    if n == 0 then 1 else 2 * Pow2(n - 1)
  }

  /** Bit `k` of `x`. */
  predicate Bit(x: nat, k: nat) {
    if k == 0 then x % 2 == 1 else Bit(x / 2, k - 1)
  }

  /** `a & b`. */
  function BitAnd(a: nat, b: nat): nat
    decreases a
  {
    if a == 0 || b == 0 then 0 else 2 * BitAnd(a / 2, b / 2) + (if a % 2 == 1 && b % 2 == 1 then 1 else 0)
  }

  /** `a | b`. */
  function BitOr(a: nat, b: nat): nat
    decreases a + b
  {
    if a == 0 then b
    else if b == 0 then a
    else 2 * BitOr(a / 2, b / 2) + (if a % 2 == 1 || b % 2 == 1 then 1 else 0)
  }

  /** `~x & 0xFFFF`: Python's `~x` is `-x - 1`, and `& 0xFFFF` keeps that modulo 2^16. */
  function Complement(x: nat): nat {
    (-(x as int) - 1) % Modulus
  }

  /** `(a << s) & 0xFFFF`. */
  function ShiftLeft(a: nat, s: nat): nat {
    (a * Pow2(s)) % Modulus
  }

  /** `a >> s`: `s` halvings, rounding down. */
  function ShiftRight(a: nat, s: nat): nat {
    if s == 0 then a else ShiftRight(a / 2, s - 1)
  }

  /** The gate named by the middle word of a three-word expression, if it is one of the four. */
  function Apply(op: string, a: nat, b: nat): Option<nat> {
    if op == "AND" then Some(BitAnd(a, b))
    else if op == "OR" then Some(BitOr(a, b))
    else if op == "LSHIFT" then Some(ShiftLeft(a, b))
    else if op == "RSHIFT" then Some(ShiftRight(a, b))
    else None
  }

  lemma {:induction false} BitOfZero(k: nat)
    ensures !Bit(0, k)
  {
    if k > 0 {
      BitOfZero(k - 1);
    }
  }

  /** AND sets exactly the bits set in both operands. */
  lemma {:induction false} BitAndBits(a: nat, b: nat, k: nat)
    ensures Bit(BitAnd(a, b), k) <==> Bit(a, k) && Bit(b, k)
    decreases a
  {
    if a == 0 || b == 0 {
      BitOfZero(k);
    } else {
      var r := BitAnd(a / 2, b / 2);
      assert BitAnd(a, b) / 2 == r;
      if k > 0 {
        BitAndBits(a / 2, b / 2, k - 1);
      }
    }
  }

  /** OR sets exactly the bits set in either operand. */
  lemma {:induction false} BitOrBits(a: nat, b: nat, k: nat)
    ensures Bit(BitOr(a, b), k) <==> Bit(a, k) || Bit(b, k)
    decreases a + b
  {
    if a == 0 {
      BitOfZero(k);
    } else if b == 0 {
      BitOfZero(k);
    } else {
      var r := BitOr(a / 2, b / 2);
      assert BitOr(a, b) / 2 == r;
      if k > 0 {
        BitOrBits(a / 2, b / 2, k - 1);
      }
    }
  }

  /** A right shift by `s` moves bit `k + s` to bit `k`: a logical shift. */
  lemma {:induction false} ShiftRightBits(a: nat, s: nat, k: nat)
    ensures Bit(ShiftRight(a, s), k) <==> Bit(a, k + s)
  {
    if s > 0 {
      ShiftRightBits(a / 2, s - 1, k);
    }
  }

  /** For a 16-bit value, NOT is subtraction from 65535. */
  lemma ComplementOf16Bit(x: nat)
    requires x < Modulus
    ensures Complement(x) == 65535 - x
  {
  }

  lemma {:induction false} BitAndAtMost(a: nat, b: nat)
    ensures BitAnd(a, b) <= a
    decreases a
  {
    if a != 0 && b != 0 {
      BitAndAtMost(a / 2, b / 2);
    }
  }

  lemma {:induction false} BitOrBelow(a: nat, b: nat, n: nat)
    requires a < Pow2(n) && b < Pow2(n)
    ensures BitOr(a, b) < Pow2(n)
    decreases a + b
  {
    if a != 0 && b != 0 {
      assert n > 0;
      BitOrBelow(a / 2, b / 2, n - 1);
    }
  }

  lemma {:induction false} ShiftRightAtMost(a: nat, s: nat)
    ensures ShiftRight(a, s) <= a
  {
    if s > 0 {
      ShiftRightAtMost(a / 2, s - 1);
    }
  }

  lemma Pow2Of16()
    ensures Pow2(16) == Modulus
  {
    assert Pow2(2) == 4;
    assert Pow2(4) == 16;
    assert Pow2(6) == 64;
    assert Pow2(8) == 256;
    assert Pow2(10) == 1024;
    assert Pow2(12) == 4096;
    assert Pow2(14) == 16384;
  }

  /** Every gate keeps 16-bit operands within 16 bits. */
  lemma ApplyInRange(op: string, a: nat, b: nat)
    requires a < Modulus && b < Modulus && Apply(op, a, b).Some?
    ensures Apply(op, a, b).value < Modulus
  {
    BitAndAtMost(a, b);
    Pow2Of16();
    BitOrBelow(a, b, 16);
    ShiftRightAtMost(a, b);
  }

  // ---------------------------------------------------------------------------
  // Reading the instructions

  /**
   * `_parse_instruction` on the stripped line: exactly two pieces around
   * ` -> ` give the expression and the target; a later instruction for the
   * same target replaces an earlier one.
   */
  function AddInstruction(instrs: Instructions, instruction: string): Result<Instructions, CircuitError> {
    var parts := SplitOn(instruction, Arrow);
    if |parts| != 2 then Err(InvalidInstruction(instruction)) else Ok(instrs[parts[1] := parts[0]])
  }

  /** The instructions read from all lines, each stripped first, or the first line's error. */
  function Parsed(lines: seq<string>): Result<Instructions, CircuitError> {
    if lines == [] then Ok(map[])
    else
      var instrs :- Parsed(lines[..|lines| - 1]);
      AddInstruction(instrs, Strip(lines[|lines| - 1]))
  }

  /** Reading one more line. */
  lemma ParsedSnoc(lines: seq<string>, i: nat)
    requires i < |lines| && Parsed(lines[..i]).Ok?
    ensures Parsed(lines[..i + 1]) == AddInstruction(Parsed(lines[..i]).value, Strip(lines[i]))
  {
    assert lines[..i + 1][..i] == lines[..i];
  }

  /**
   * An accepted instruction is an expression, the arrow and a target, neither
   * containing the arrow; it maps the target to the expression.
   */
  lemma AddInstructionShape(instrs: Instructions, instruction: string)
    ensures AddInstruction(instrs, instruction).Ok? <==> |SplitOn(instruction, Arrow)| == 2
    ensures AddInstruction(instrs, instruction).Err? ==> AddInstruction(instrs, instruction).error == InvalidInstruction(instruction)
    ensures AddInstruction(instrs, instruction).Ok? ==>
      var parts := SplitOn(instruction, Arrow);
      && instruction == parts[0] + Arrow + parts[1]
      && !Contains(parts[0], Arrow) && !Contains(parts[1], Arrow)
      && AddInstruction(instrs, instruction).value == instrs[parts[1] := parts[0]]
  {
    var parts := SplitOn(instruction, Arrow);
    JoinSplitOn(instruction, Arrow);
    if |parts| == 2 {
      assert parts[1..] == [parts[1]];
    }
  }

  /** Once a line fails, reading reports that line's error whatever follows. */
  lemma {:induction false} ParsedErrorStays(lines: seq<string>, i: nat)
    requires i <= |lines| && Parsed(lines[..i]).Err?
    ensures Parsed(lines) == Parsed(lines[..i])
    decreases |lines| - i
  {
    if i < |lines| {
      assert lines[..i + 1][..i] == lines[..i];
      ParsedErrorStays(lines, i + 1);
    } else {
      assert lines[..i] == lines;
    }
  }

  // ---------------------------------------------------------------------------
  // Evaluating with the cache

  /** The outcome of resolving a wire, and the cache afterwards (kept also on an error). */
  datatype Outcome = Outcome(result: Result<nat, CircuitError>, cache: Values)

  /** `after` keeps every entry of `before`. */
  predicate Extends(before: Values, after: Values) {
    forall w :: w in before ==> w in after && after[w] == before[w]
  }

  lemma Unvisited(keys: set<string>, active: set<string>, w: string)
    requires w in keys && w !in active
    ensures |keys - (active + {w})| < |keys - active|
  {
    assert keys - (active + {w}) == (keys - active) - {w};
  }

  /**
   * `get_wire_value`: a cached value first, then a number, then the wire's
   * instruction; the value found is cached. `active` holds the wires whose
   * evaluation is in progress, so that a wire depending on itself is an
   * error rather than a recursion without end.
   */
  function Resolve(instrs: Instructions, cache: Values, wire: string, active: set<string>): (o: Outcome)
    ensures Extends(cache, o.cache)
    ensures o.result.Ok? ==> wire in o.cache && o.cache[wire] == o.result.value
    decreases |instrs.Keys - active|, 0
  {
    if wire in cache then Outcome(Ok(cache[wire]), cache)
    else if IsDigits(wire) then Outcome(Ok(DigitsValue(wire)), cache[wire := DigitsValue(wire)])
    else if wire !in instrs then Outcome(Err(UndefinedWire(wire)), cache)
    else if wire in active then Outcome(Err(Cycle(wire)), cache)
    else
      Unvisited(instrs.Keys, active, wire);
      var o := Evaluate(instrs, cache, instrs[wire], active + {wire});
      if o.result.Ok? then Outcome(o.result, o.cache[wire := o.result.value]) else o
  }

  /**
   * `_evaluate_expression`: one word is a wire or a number, two words are
   * `NOT` and an operand, three words are two operands around a gate, both
   * operands resolved, left first, before the gate is looked at.
   */
  function Evaluate(instrs: Instructions, cache: Values, expression: string, active: set<string>): (o: Outcome)
    ensures Extends(cache, o.cache)
    decreases |instrs.Keys - active|, 1
  {
    var tokens := Words(expression);
    if |tokens| == 1 then Resolve(instrs, cache, tokens[0], active)
    else if |tokens| == 2 then
      if tokens[0] != "NOT" then Outcome(Err(InvalidUnary(expression)), cache)
      else
        var x := Resolve(instrs, cache, tokens[1], active);
        if x.result.Err? then x else Outcome(Ok(Complement(x.result.value)), x.cache)
    else if |tokens| == 3 then
      var left := Resolve(instrs, cache, tokens[0], active);
      if left.result.Err? then left
      else
        var right := Resolve(instrs, left.cache, tokens[2], active);
        if right.result.Err? then right
        else
          match Apply(tokens[1], left.result.value, right.result.value)
          case None => Outcome(Err(UnknownOperation(tokens[1])), right.cache)
          case Some(v) => Outcome(Ok(v), right.cache)
    else Outcome(Err(InvalidExpression(expression)), cache)
  }

  /** A cached wire gives its cached value and changes nothing. */
  lemma ResolveCached(instrs: Instructions, cache: Values, wire: string, active: set<string>)
    requires wire in cache
    ensures Resolve(instrs, cache, wire, active) == Outcome(Ok(cache[wire]), cache)
  {
  }

  /** An uncached all-digit wire is a number: its decimal value, which is then cached. */
  lemma ResolveNumber(instrs: Instructions, cache: Values, wire: string, active: set<string>)
    requires wire !in cache && IsDigits(wire)
    ensures Resolve(instrs, cache, wire, active) == Outcome(Ok(DigitsValue(wire)), cache[wire := DigitsValue(wire)])
  {
  }

  /** An uncached name without an instruction is undefined. */
  lemma ResolveUndefined(instrs: Instructions, cache: Values, wire: string, active: set<string>)
    requires wire !in cache && !IsDigits(wire) && wire !in instrs
    ensures Resolve(instrs, cache, wire, active).result == Err(UndefinedWire(wire))
  {
  }

  /** The malformed expressions: a two-word one not starting with `NOT`, and one of no or more than three words. */
  lemma EvaluateRejects(instrs: Instructions, cache: Values, expression: string, active: set<string>)
    ensures |Words(expression)| == 2 && Words(expression)[0] != "NOT" ==>
      Evaluate(instrs, cache, expression, active) == Outcome(Err(InvalidUnary(expression)), cache)
    ensures !(1 <= |Words(expression)| <= 3) ==>
      Evaluate(instrs, cache, expression, active) == Outcome(Err(InvalidExpression(expression)), cache)
  {
  }

  /** A three-word expression with an unknown gate fails once both operands have been resolved. */
  lemma EvaluateUnknownGate(instrs: Instructions, cache: Values, expression: string, active: set<string>)
    requires |Words(expression)| == 3
    requires Words(expression)[1] !in {"AND", "OR", "LSHIFT", "RSHIFT"}
    ensures var o := Evaluate(instrs, cache, expression, active);
      o.result.Err? && (Resolve(instrs, cache, Words(expression)[0], active).result.Ok? ==>
        Resolve(instrs, Resolve(instrs, cache, Words(expression)[0], active).cache, Words(expression)[2], active).result.Ok? ==>
          o.result == Err(UnknownOperation(Words(expression)[1])))
  {
  }

  // ---------------------------------------------------------------------------
  // Values stay within 16 bits

  /** No cached value exceeds 16 bits. */
  predicate Bounded(cache: Values) {
    forall w :: w in cache ==> cache[w] < Modulus
  }

  /** A number written in an expression fits in 16 bits. */
  predicate LiteralsInRange(expression: string) {
    forall k :: 0 <= k < |Words(expression)| && IsDigits(Words(expression)[k]) ==> DigitsValue(Words(expression)[k]) < Modulus
  }

  predicate ProgramInRange(instrs: Instructions) {
    forall w :: w in instrs ==> LiteralsInRange(instrs[w])
  }

  lemma BoundedUpdate(cache: Values, wire: string, v: nat)
    requires Bounded(cache) && v < Modulus
    ensures Bounded(cache[wire := v])
  {
  }

  /** With 16-bit numbers in the program and the cache, every resolved value is a 16-bit value. */
  lemma ResolveInRange(instrs: Instructions, cache: Values, wire: string, active: set<string>)
    requires ProgramInRange(instrs) && Bounded(cache)
    requires IsDigits(wire) ==> DigitsValue(wire) < Modulus
    ensures var o := Resolve(instrs, cache, wire, active);
      Bounded(o.cache) && (o.result.Ok? ==> o.result.value < Modulus)
    decreases |instrs.Keys - active|, 0
  {
    if wire in cache {
    } else if IsDigits(wire) {
      BoundedUpdate(cache, wire, DigitsValue(wire));
    } else if wire in instrs && wire !in active {
      Unvisited(instrs.Keys, active, wire);
      EvaluateInRange(instrs, cache, instrs[wire], active + {wire});
      var o := Evaluate(instrs, cache, instrs[wire], active + {wire});
      if o.result.Ok? {
        BoundedUpdate(o.cache, wire, o.result.value);
      }
    }
  }

  lemma EvaluateInRange(instrs: Instructions, cache: Values, expression: string, active: set<string>)
    requires ProgramInRange(instrs) && Bounded(cache) && LiteralsInRange(expression)
    ensures var o := Evaluate(instrs, cache, expression, active);
      Bounded(o.cache) && (o.result.Ok? ==> o.result.value < Modulus)
    decreases |instrs.Keys - active|, 1
  {
    var tokens := Words(expression);
    if |tokens| == 1 {
      ResolveInRange(instrs, cache, tokens[0], active);
    } else if |tokens| == 2 && tokens[0] == "NOT" {
      ResolveInRange(instrs, cache, tokens[1], active);
    } else if |tokens| == 3 {
      ResolveInRange(instrs, cache, tokens[0], active);
      var left := Resolve(instrs, cache, tokens[0], active);
      if left.result.Ok? {
        ResolveInRange(instrs, left.cache, tokens[2], active);
        var right := Resolve(instrs, left.cache, tokens[2], active);
        if right.result.Ok? && Apply(tokens[1], left.result.value, right.result.value).Some? {
          ApplyInRange(tokens[1], left.result.value, right.result.value);
        }
      }
    }
  }

  // ---------------------------------------------------------------------------
  // What a wire means, without a cache

  /**
   * The value of `wire` when every wire in `base` is fixed to its value,
   * computed without a cache within `fuel` nested steps; `None` when the
   * steps do not suffice or the wire has no value.
   */
  function DenoteN(instrs: Instructions, base: Values, wire: string, fuel: nat): Option<nat>
    decreases fuel, 0
  {
    if fuel == 0 then None
    else if wire in base then Some(base[wire])
    else if IsDigits(wire) then Some(DigitsValue(wire))
    else if wire !in instrs then None
    else DenoteExprN(instrs, base, instrs[wire], fuel - 1)
  }

  function DenoteExprN(instrs: Instructions, base: Values, expression: string, fuel: nat): Option<nat>
    decreases fuel, 1
  {
    var tokens := Words(expression);
    if |tokens| == 1 then DenoteN(instrs, base, tokens[0], fuel)
    else if |tokens| == 2 then
      if tokens[0] != "NOT" then None
      else
        match DenoteN(instrs, base, tokens[1], fuel)
        case None => None
        case Some(x) => Some(Complement(x))
    else if |tokens| == 3 then
      match (DenoteN(instrs, base, tokens[0], fuel), DenoteN(instrs, base, tokens[2], fuel))
      case (Some(a), Some(b)) => Apply(tokens[1], a, b)
      case _ => None
    else None
  }

  /** `wire` has the value `v` once enough steps are allowed. */
  ghost predicate Denotes(instrs: Instructions, base: Values, wire: string, v: nat) {
    exists fuel :: DenoteN(instrs, base, wire, fuel) == Some(v)
  }

  ghost predicate DenotesExpr(instrs: Instructions, base: Values, expression: string, v: nat) {
    exists fuel :: DenoteExprN(instrs, base, expression, fuel) == Some(v)
  }

  /** Every cached value is what its wire means. */
  ghost predicate Consistent(instrs: Instructions, base: Values, cache: Values) {
    forall w :: w in cache ==> Denotes(instrs, base, w, cache[w])
  }

  /** More steps never change a value already found. */
  lemma DenoteMore(instrs: Instructions, base: Values, wire: string, n: nat, m: nat)
    requires n <= m && DenoteN(instrs, base, wire, n).Some?
    ensures DenoteN(instrs, base, wire, m) == DenoteN(instrs, base, wire, n)
    decreases n, 0
  {
    if wire !in base && !IsDigits(wire) && wire in instrs {
      DenoteExprMore(instrs, base, instrs[wire], n - 1, m - 1);
    }
  }

  lemma DenoteExprMore(instrs: Instructions, base: Values, expression: string, n: nat, m: nat)
    requires n <= m && DenoteExprN(instrs, base, expression, n).Some?
    ensures DenoteExprN(instrs, base, expression, m) == DenoteExprN(instrs, base, expression, n)
    decreases n, 1
  {
    var tokens := Words(expression);
    if |tokens| == 1 {
      DenoteMore(instrs, base, tokens[0], n, m);
    } else if |tokens| == 2 {
      DenoteMore(instrs, base, tokens[1], n, m);
    } else if |tokens| == 3 {
      DenoteMore(instrs, base, tokens[0], n, m);
      DenoteMore(instrs, base, tokens[2], n, m);
    }
  }

  /** A wire has at most one meaning. */
  lemma DenotesUnique(instrs: Instructions, base: Values, wire: string, v: nat, u: nat)
    requires Denotes(instrs, base, wire, v) && Denotes(instrs, base, wire, u)
    ensures v == u
  {
    var n: nat :| DenoteN(instrs, base, wire, n) == Some(v);
    var m: nat :| DenoteN(instrs, base, wire, m) == Some(u);
    if n <= m {
      DenoteMore(instrs, base, wire, n, m);
    } else {
      DenoteMore(instrs, base, wire, m, n);
    }
  }

  /**
   * The cache is sound: starting from a cache that holds the fixed wires and
   * otherwise only values the wires mean, every value found is the meaning
   * of its wire, and so is everything cached on the way.
   */
  lemma ResolveSound(instrs: Instructions, base: Values, cache: Values, wire: string, active: set<string>)
    requires Extends(base, cache) && Consistent(instrs, base, cache)
    ensures var o := Resolve(instrs, cache, wire, active);
      Consistent(instrs, base, o.cache) && (o.result.Ok? ==> Denotes(instrs, base, wire, o.result.value))
    decreases |instrs.Keys - active|, 0
  {
    if wire in cache {
    } else if IsDigits(wire) {
      var v := DigitsValue(wire);
      assert DenoteN(instrs, base, wire, 1) == Some(v);
      ExtendConsistent(instrs, base, cache, wire, v);
    } else if wire in instrs && wire !in active {
      Unvisited(instrs.Keys, active, wire);
      var o := Evaluate(instrs, cache, instrs[wire], active + {wire});
      EvaluateSound(instrs, base, cache, instrs[wire], active + {wire});
      if o.result.Ok? {
        var v := o.result.value;
        var n: nat :| DenoteExprN(instrs, base, instrs[wire], n) == Some(v);
        assert DenoteN(instrs, base, wire, n + 1) == Some(v);
        ExtendConsistent(instrs, base, o.cache, wire, v);
      }
    }
  }

  lemma ExtendConsistent(instrs: Instructions, base: Values, cache: Values, wire: string, v: nat)
    requires Consistent(instrs, base, cache) && Denotes(instrs, base, wire, v)
    ensures Consistent(instrs, base, cache[wire := v])
  {
  }

  lemma EvaluateSound(instrs: Instructions, base: Values, cache: Values, expression: string, active: set<string>)
    requires Extends(base, cache) && Consistent(instrs, base, cache)
    ensures var o := Evaluate(instrs, cache, expression, active);
      Consistent(instrs, base, o.cache) && (o.result.Ok? ==> DenotesExpr(instrs, base, expression, o.result.value))
    decreases |instrs.Keys - active|, 1
  {
    var tokens := Words(expression);
    if |tokens| == 1 {
      ResolveSound(instrs, base, cache, tokens[0], active);
      var o := Resolve(instrs, cache, tokens[0], active);
      if o.result.Ok? {
        DenotesWord(instrs, base, expression, o.result.value);
      }
    } else if |tokens| == 2 && tokens[0] == "NOT" {
      ResolveSound(instrs, base, cache, tokens[1], active);
      var o := Resolve(instrs, cache, tokens[1], active);
      if o.result.Ok? {
        DenotesNot(instrs, base, expression, o.result.value);
      }
    } else if |tokens| == 3 {
      ResolveSound(instrs, base, cache, tokens[0], active);
      var left := Resolve(instrs, cache, tokens[0], active);
      if left.result.Ok? {
        ExtendsTrans(base, cache, left.cache);
        ResolveSound(instrs, base, left.cache, tokens[2], active);
        var right := Resolve(instrs, left.cache, tokens[2], active);
        if right.result.Ok? && Apply(tokens[1], left.result.value, right.result.value).Some? {
          DenotesGate(instrs, base, expression, left.result.value, right.result.value);
        }
      }
    }
  }

  /** A one-word expression means what its word means. */
  lemma DenotesWord(instrs: Instructions, base: Values, expression: string, v: nat)
    requires |Words(expression)| == 1 && Denotes(instrs, base, Words(expression)[0], v)
    ensures DenotesExpr(instrs, base, expression, v)
  {
    var n: nat :| DenoteN(instrs, base, Words(expression)[0], n) == Some(v);
    assert DenoteExprN(instrs, base, expression, n) == Some(v);
  }

  /** `NOT x` means the complement of what `x` means. */
  lemma DenotesNot(instrs: Instructions, base: Values, expression: string, v: nat)
    requires |Words(expression)| == 2 && Words(expression)[0] == "NOT"
    requires Denotes(instrs, base, Words(expression)[1], v)
    ensures DenotesExpr(instrs, base, expression, Complement(v))
  {
    var n: nat :| DenoteN(instrs, base, Words(expression)[1], n) == Some(v);
    assert DenoteExprN(instrs, base, expression, n) == Some(Complement(v));
  }

  /** `x OP y` means the gate applied to what `x` and `y` mean. */
  lemma DenotesGate(instrs: Instructions, base: Values, expression: string, a: nat, b: nat)
    requires |Words(expression)| == 3
    requires Denotes(instrs, base, Words(expression)[0], a) && Denotes(instrs, base, Words(expression)[2], b)
    requires Apply(Words(expression)[1], a, b).Some?
    ensures DenotesExpr(instrs, base, expression, Apply(Words(expression)[1], a, b).value)
  {
    var tokens := Words(expression);
    var n: nat :| DenoteN(instrs, base, tokens[0], n) == Some(a);
    var m: nat :| DenoteN(instrs, base, tokens[2], m) == Some(b);
    var k := if n <= m then m else n;
    DenoteMore(instrs, base, tokens[0], n, k);
    DenoteMore(instrs, base, tokens[2], m, k);
    assert DenoteExprN(instrs, base, expression, k) == Apply(tokens[1], a, b);
  }

  lemma ExtendsTrans(a: Values, b: Values, c: Values)
    requires Extends(a, b) && Extends(b, c)
    ensures Extends(a, c)
  {
  }

  /** The fewest steps in which a wire gets its value. */
  lemma {:induction false} LeastFuel(instrs: Instructions, base: Values, wire: string, k: nat) returns (m: nat)
    requires DenoteN(instrs, base, wire, k).Some?
    ensures 0 < m <= k && DenoteN(instrs, base, wire, m) == DenoteN(instrs, base, wire, k)
    ensures DenoteN(instrs, base, wire, m - 1).None?
  {
    if DenoteN(instrs, base, wire, k - 1).Some? {
      DenoteMore(instrs, base, wire, k - 1, k);
      m := LeastFuel(instrs, base, wire, k - 1);
    } else {
      m := k;
    }
  }

  /** A wire that has no value within `k` steps has none within fewer. */
  lemma FewerSteps(instrs: Instructions, base: Values, active: set<string>, k: nat, j: nat)
    requires j <= k
    requires forall a :: a in active ==> DenoteN(instrs, base, a, k).None?
    ensures forall a :: a in active ==> DenoteN(instrs, base, a, j).None?
  {
    forall a | a in active
      ensures DenoteN(instrs, base, a, j).None?
    {
      if DenoteN(instrs, base, a, j).Some? {
        DenoteMore(instrs, base, a, j, k);
      }
    }
  }

  /**
   * The wires under evaluation once `wire` joins them, and the number of
   * steps `j` below `k` in which its instruction gives its value while none
   * of them has a value yet.
   */
  lemma ActiveStep(instrs: Instructions, base: Values, wire: string, active: set<string>, k: nat) returns (j: nat, active': set<string>)
    requires wire !in base && !IsDigits(wire) && wire in instrs
    requires DenoteN(instrs, base, wire, k).Some?
    requires forall a :: a in active ==> DenoteN(instrs, base, a, k).None?
    ensures j < k && wire !in active && active' == active + {wire}
    ensures DenoteExprN(instrs, base, instrs[wire], j) == DenoteN(instrs, base, wire, k)
    ensures forall a :: a in active' ==> DenoteN(instrs, base, a, j).None?
  {
    var m := LeastFuel(instrs, base, wire, k);
    FewerSteps(instrs, base, active, k, m);
    FewerSteps(instrs, base, active, k, m - 1);
    j, active' := m - 1, active + {wire};
  }

  /** Resolving an uncached wire that has an instruction and is not under evaluation. */
  lemma ResolveUnfold(instrs: Instructions, cache: Values, wire: string, active: set<string>)
    requires wire !in cache && !IsDigits(wire) && wire in instrs && wire !in active
    ensures var o := Evaluate(instrs, cache, instrs[wire], active + {wire});
      Resolve(instrs, cache, wire, active) == if o.result.Ok? then Outcome(o.result, o.cache[wire := o.result.value]) else o
  {
  }

  /**
   * The cache is complete: a wire that has a value within `k` steps resolves
   * to it, as long as no wire under evaluation has a value within `k` steps.
   * So the cycle check never stops a wire that has a meaning.
   */
  lemma {:induction false} ResolveComplete(instrs: Instructions, base: Values, cache: Values, wire: string, active: set<string>, k: nat)
    requires Extends(base, cache) && Consistent(instrs, base, cache)
    requires DenoteN(instrs, base, wire, k).Some?
    requires forall a :: a in active ==> DenoteN(instrs, base, a, k).None?
    ensures Resolve(instrs, cache, wire, active).result == Ok(DenoteN(instrs, base, wire, k).value)
    decreases k, 1
  {
    if wire in cache {
      DenotesUnique(instrs, base, wire, cache[wire], DenoteN(instrs, base, wire, k).value);
    } else if !IsDigits(wire) {
      ResolveInstruction(instrs, base, cache, wire, active, k);
    }
  }

  /** The case of `ResolveComplete` where the wire is computed by its instruction. */
  lemma {:induction false} ResolveInstruction(instrs: Instructions, base: Values, cache: Values, wire: string, active: set<string>, k: nat)
    requires Extends(base, cache) && Consistent(instrs, base, cache)
    requires wire !in cache && !IsDigits(wire)
    requires DenoteN(instrs, base, wire, k).Some?
    requires forall a :: a in active ==> DenoteN(instrs, base, a, k).None?
    ensures Resolve(instrs, cache, wire, active).result == Ok(DenoteN(instrs, base, wire, k).value)
    decreases k, 0
  {
    assert wire !in base && wire in instrs;
    var j, active' := ActiveStep(instrs, base, wire, active, k);
    Unvisited(instrs.Keys, active, wire);
    EvaluateComplete(instrs, base, cache, instrs[wire], active', j);
    var o := Evaluate(instrs, cache, instrs[wire], active');
    assert o.result == Ok(DenoteN(instrs, base, wire, k).value);
    ResolveUnfold(instrs, cache, wire, active);
    assert Resolve(instrs, cache, wire, active).result == o.result;
  }

  lemma {:induction false} EvaluateComplete(instrs: Instructions, base: Values, cache: Values, expression: string, active: set<string>, k: nat)
    requires Extends(base, cache) && Consistent(instrs, base, cache)
    requires DenoteExprN(instrs, base, expression, k).Some?
    requires forall a :: a in active ==> DenoteN(instrs, base, a, k).None?
    ensures Evaluate(instrs, cache, expression, active).result == Ok(DenoteExprN(instrs, base, expression, k).value)
    decreases k, 2
  {
    var tokens := Words(expression);
    if |tokens| == 1 {
      ResolveComplete(instrs, base, cache, tokens[0], active, k);
    } else if |tokens| == 2 {
      ResolveComplete(instrs, base, cache, tokens[1], active, k);
    } else {
      ResolveComplete(instrs, base, cache, tokens[0], active, k);
      ResolveSound(instrs, base, cache, tokens[0], active);
      var left := Resolve(instrs, cache, tokens[0], active);
      ExtendsTrans(base, cache, left.cache);
      ResolveComplete(instrs, base, left.cache, tokens[2], active, k);
    }
  }

  /** Resolving from a cache that holds only fixed wires and meanings gives every wire with a meaning its meaning. */
  lemma ResolveMeaning(instrs: Instructions, base: Values, cache: Values, wire: string, v: nat)
    requires Extends(base, cache) && Consistent(instrs, base, cache)
    ensures Resolve(instrs, cache, wire, {}).result == Ok(v) <==> Denotes(instrs, base, wire, v)
  {
    ResolveSound(instrs, base, cache, wire, {});
    if Denotes(instrs, base, wire, v) {
      var k: nat :| DenoteN(instrs, base, wire, k) == Some(v);
      ResolveComplete(instrs, base, cache, wire, {}, k);
    }
  }

  // ---------------------------------------------------------------------------
  // The circuit object

  class Circuit {
    /** `self.instructions`: the expression text for each target wire. */
    var instructions: Instructions
    /** `self.wire_values`: the cache of computed values. */
    var wireValues: Values

    constructor ()
      ensures instructions == map[] && wireValues == map[]
    {
      instructions := map[];
      wireValues := map[];
    }

    /** `Circuit(instructions)`: an empty circuit reading every line, stripped, in order. */
    static method Create(lines: seq<string>) returns (r: Result<Circuit, CircuitError>)
      ensures r.Ok? <==> Parsed(lines).Ok?
      ensures r.Ok? ==> fresh(r.value) && r.value.instructions == Parsed(lines).value && r.value.wireValues == map[]
      ensures r.Err? ==> r.error == Parsed(lines).error
    {
      var c := new Circuit();
      for i := 0 to |lines|
        invariant Parsed(lines[..i]) == Ok(c.instructions)
        invariant c.wireValues == map[]
      {
        ParsedSnoc(lines, i);
        var parsed := c.ParseInstruction(Strip(lines[i]));
        if parsed.Err? {
          ParsedErrorStays(lines, i + 1);
          return Err(parsed.error);
        }
      }
      assert lines[..|lines|] == lines;
      r := Ok(c);
    }

    /** `_parse_instruction`: records the expression for the target wire, or rejects the line. */
    method ParseInstruction(instruction: string) returns (r: Result<(), CircuitError>)
      modifies this
      ensures wireValues == old(wireValues)
      ensures r.Ok? <==> AddInstruction(old(instructions), instruction).Ok?
      ensures r.Ok? ==> instructions == AddInstruction(old(instructions), instruction).value
      ensures r.Err? ==> r.error == AddInstruction(old(instructions), instruction).error && instructions == old(instructions)
    {
      var parts := SplitOn(instruction, Arrow);
      if |parts| != 2 {
        return Err(InvalidInstruction(instruction));
      }
      var expression, targetWire := parts[0], parts[1];
      instructions := instructions[targetWire := expression];
      r := Ok(());
    }

    /** `get_wire_value`, with the wires whose evaluation is in progress passed along. */
    method GetWireValue(wire: string, active: set<string>) returns (r: Result<nat, CircuitError>)
      modifies this
      ensures instructions == old(instructions)
      ensures Outcome(r, wireValues) == Resolve(instructions, old(wireValues), wire, active)
      decreases |instructions.Keys - active|, 0
    {
      if wire in wireValues {
        return Ok(wireValues[wire]);
      }
      if IsDigits(wire) {
        var value := DigitsValue(wire);
        wireValues := wireValues[wire := value];
        return Ok(value);
      }
      if wire !in instructions {
        return Err(UndefinedWire(wire));
      }
      if wire in active {
        return Err(Cycle(wire));
      }
      var expression := instructions[wire];
      Unvisited(instructions.Keys, active, wire);
      r := EvaluateExpression(expression, active + {wire});
      if r.Ok? {
        wireValues := wireValues[wire := r.value];
      }
    }

    /** `_evaluate_expression`. */
    method EvaluateExpression(expression: string, active: set<string>) returns (r: Result<nat, CircuitError>)
      modifies this
      ensures instructions == old(instructions)
      ensures Outcome(r, wireValues) == Evaluate(instructions, old(wireValues), expression, active)
      decreases |instructions.Keys - active|, 1
    {
      var tokens := Words(expression);
      if |tokens| == 1 {
        r := GetWireValue(tokens[0], active);
      } else if |tokens| == 2 {
        if tokens[0] != "NOT" {
          return Err(InvalidUnary(expression));
        }
        var operand := GetWireValue(tokens[1], active);
        if operand.Err? {
          return operand;
        }
        r := Ok(Complement(operand.value));
      } else if |tokens| == 3 {
        var left := GetWireValue(tokens[0], active);
        if left.Err? {
          return left;
        }
        var op := tokens[1];
        var right := GetWireValue(tokens[2], active);
        if right.Err? {
          return right;
        }
        if op == "AND" {
          r := Ok(BitAnd(left.value, right.value));
        } else if op == "OR" {
          r := Ok(BitOr(left.value, right.value));
        } else if op == "LSHIFT" {
          r := Ok(ShiftLeft(left.value, right.value));
        } else if op == "RSHIFT" {
          r := Ok(ShiftRight(left.value, right.value));
        } else {
          r := Err(UnknownOperation(op));
        }
      } else {
        r := Err(InvalidExpression(expression));
      }
    }

    /** `reset`: forgets every computed value and keeps the instructions. */
    method Reset()
      modifies this
      ensures wireValues == map[] && instructions == old(instructions)
    {
      wireValues := map[];
    }
  }

  // ---------------------------------------------------------------------------
  // The two parts

  /** Part one: the value of wire `a`. */
  function Part1(lines: seq<string>): Result<nat, CircuitError> {
    var instrs :- Parsed(lines);
    Resolve(instrs, map[], "a", {}).result
  }

  /** Part two: the value of `a` again, from an empty cache except that `b` holds part one's value. */
  function Part2(lines: seq<string>): Result<nat, CircuitError> {
    var instrs :- Parsed(lines);
    var a :- Resolve(instrs, map[], "a", {}).result;
    Resolve(instrs, map["b" := a], "a", {}).result
  }

  /** `solve_part1`. */
  method SolvePart1(lines: seq<string>) returns (r: Result<nat, CircuitError>)
    ensures r == Part1(lines)
  {
    var created := Circuit.Create(lines);
    if created.Err? {
      return Err(created.error);
    }
    var circuit := created.value;
    r := circuit.GetWireValue("a", {});
  }

  /** `solve_part2`: part one, a reset, the value forced onto `b`, and `a` once more. */
  method SolvePart2(lines: seq<string>) returns (r: Result<nat, CircuitError>)
    ensures r == Part2(lines)
  {
    var created := Circuit.Create(lines);
    if created.Err? {
      return Err(created.error);
    }
    var circuit := created.value;
    var valueA := circuit.GetWireValue("a", {});
    if valueA.Err? {
      return valueA;
    }
    circuit.Reset();
    circuit.wireValues := circuit.wireValues["b" := valueA.value];
    r := circuit.GetWireValue("a", {});
  }

  /** Part one's value is what `a` means in the circuit as written. */
  lemma Part1Meaning(lines: seq<string>)
    requires Part1(lines).Ok?
    ensures Denotes(Parsed(lines).value, map[], "a", Part1(lines).value)
  {
    ResolveSound(Parsed(lines).value, map[], map[], "a", {});
  }

  /**
   * In part two, `b` resolves to the forced value, and `a` is what it means
   * with `b` fixed to that value instead of computed from its instruction.
   */
  lemma Part2Meaning(lines: seq<string>)
    requires Part1(lines).Ok?
    ensures var instrs, v := Parsed(lines).value, Part1(lines).value;
      && Resolve(instrs, map["b" := v], "b", {}).result == Ok(v)
      && (Part2(lines).Ok? ==> Denotes(instrs, map["b" := v], "a", Part2(lines).value))
  {
    var instrs, v := Parsed(lines).value, Part1(lines).value;
    var base := map["b" := v];
    assert DenoteN(instrs, base, "b", 1) == Some(v);
    ResolveSound(instrs, base, base, "a", {});
  }

  /** Part one gives a value exactly when `a` has that value in the circuit as written. */
  lemma Part1Exact(lines: seq<string>, v: nat)
    requires Parsed(lines).Ok?
    ensures Part1(lines) == Ok(v) <==> Denotes(Parsed(lines).value, map[], "a", v)
  {
    ResolveMeaning(Parsed(lines).value, map[], map[], "a", v);
  }

  /**
   * Part two gives a value exactly when `a` has that value once `b` is fixed
   * to part one's value.
   */
  lemma Part2Exact(lines: seq<string>, u: nat)
    requires Part1(lines).Ok?
    ensures Part2(lines) == Ok(u) <==> Denotes(Parsed(lines).value, map["b" := Part1(lines).value], "a", u)
  {
    var instrs, v := Parsed(lines).value, Part1(lines).value;
    var base := map["b" := v];
    assert DenoteN(instrs, base, "b", 1) == Some(v);
    ResolveMeaning(instrs, base, base, "a", u);
  }

  /** With only 16-bit numbers in the program, both answers are 16-bit values. */
  lemma PartsInRange(lines: seq<string>)
    requires Parsed(lines).Ok? && ProgramInRange(Parsed(lines).value)
    ensures Part1(lines).Ok? ==> Part1(lines).value < Modulus
    ensures Part2(lines).Ok? ==> Part2(lines).value < Modulus
  {
    var instrs := Parsed(lines).value;
    ResolveInRange(instrs, map[], "a", {});
    if Part1(lines).Ok? {
      ResolveInRange(instrs, map["b" := Part1(lines).value], "a", {});
    }
  }
}

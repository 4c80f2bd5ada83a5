/** Day 3: Santa and Robo-Santa take turns following one list of moves. */
module Delivery {

  /** A house, by its grid coordinates (x, y). */
  type House = (int, int)

  /** Where the two couriers stand. */
  datatype Couriers = Couriers(santa: House, robo: House)

  /** One move of one courier: `^` is y + 1, `v` is y - 1, `>` is x + 1, `<` is x - 1; any other character stays put. */
  function Move(p: House, c: char): House {
    if c == '^' then (p.0, p.1 + 1)
    else if c == 'v' then (p.0, p.1 - 1)
    else if c == '>' then (p.0 + 1, p.1)
    else if c == '<' then (p.0 - 1, p.1)
    else p
  }

  /**
   * Where the couriers stand after the moves `s`, both starting at (0, 0):
   * Santa makes the moves at even positions, Robo-Santa those at odd positions.
   */
  function Walk(s: string): Couriers {
    if s == [] then Couriers((0, 0), (0, 0))
    else
      var k := |s| - 1;
      var c := Walk(s[..k]);
      if k % 2 == 0 then c.(santa := Move(c.santa, s[k])) else c.(robo := Move(c.robo, s[k]))
  }

  /** Where the courier who makes move `i` stands just after making it. */
  function After(s: string, i: nat): House
    requires i < |s|
  {
    var c := Walk(s[..i + 1]);
    if i % 2 == 0 then c.santa else c.robo
  }

  /** The houses reached by the first `i` moves. */
  function Reached(s: string, i: nat): set<House>
    requires i <= |s|
  {
    set j | 0 <= j < i :: After(s, j)
  }

  /** The houses that get a present: the start, and the house reached by every move. */
  function Visited(s: string): set<House> {
    {(0, 0)} + Reached(s, |s|)
  }

  /** Number of positions with the given parity at which `s` holds `c`. */
  function CountAt(s: string, c: char, parity: nat): nat {
    if s == [] then 0
    else CountAt(s[..|s| - 1], c, parity) + (if (|s| - 1) % 2 == parity && s[|s| - 1] == c then 1 else 0)
  }

  /**
   * Santa's position counts only the arrows at even positions and Robo-Santa's
   * only those at odd positions; every other character moves neither.
   */
  lemma {:induction false} WalkClosedForm(s: string)
    ensures Walk(s).santa == (CountAt(s, '>', 0) - CountAt(s, '<', 0), CountAt(s, '^', 0) - CountAt(s, 'v', 0))
    ensures Walk(s).robo == (CountAt(s, '>', 1) - CountAt(s, '<', 1), CountAt(s, '^', 1) - CountAt(s, 'v', 1))
  {
    if s != [] {
      WalkClosedForm(s[..|s| - 1]);
    }
  }

  lemma WalkStep(s: string, i: nat)
    requires i < |s|
    ensures Walk(s[..i + 1]) == var c := Walk(s[..i]);
      if i % 2 == 0 then c.(santa := Move(c.santa, s[i])) else c.(robo := Move(c.robo, s[i]))
  {
    assert s[..i + 1][..i] == s[..i];
  }

  lemma ReachedStep(s: string, i: nat)
    requires i < |s|
    ensures Reached(s, i + 1) == Reached(s, i) + {After(s, i)}
  {
  }

  lemma AddOneHouse(visited: set<House>, h: House)
    ensures |visited + {h}| <= |visited| + 1
  {
    if h in visited {
      assert visited + {h} == visited;
    }
  }

  /** The `if`/`elif` chain on the move character, which the source writes out once per courier. */
  method MoveCourier(x: int, y: int, move: char) returns (x': int, y': int)
    ensures (x', y') == Move((x, y), move)
  {
    x', y' := x, y;
    if move == '^' {
      y' := y + 1;
    } else if move == 'v' {
      y' := y - 1;
    } else if move == '>' {
      x' := x + 1;
    } else if move == '<' {
      x' := x - 1;
    }
  }

  /**
   * `count_unique_houses_with_robo_santa`: the walk, recording each house
   * reached in a set; the answer is the size of that set.
   */
  method CountUniqueHouses(directions: string) returns (n: nat)
    ensures n == |Visited(directions)|
    ensures 1 <= n <= |directions| + 1
  {
    var santaX, santaY := 0, 0;
    var roboX, roboY := 0, 0;
    var visited: set<House> := {(0, 0)};
    for i := 0 to |directions|
      invariant Walk(directions[..i]) == Couriers((santaX, santaY), (roboX, roboY))
      invariant visited == {(0, 0)} + Reached(directions, i)
      invariant 1 <= |visited| <= i + 1
    {
      var move := directions[i];
      WalkStep(directions, i);
      ReachedStep(directions, i);
      if i % 2 == 0 {
        santaX, santaY := MoveCourier(santaX, santaY, move);
        AddOneHouse(visited, (santaX, santaY));
        visited := visited + {(santaX, santaY)};
      } else {
        roboX, roboY := MoveCourier(roboX, roboY, move);
        AddOneHouse(visited, (roboX, roboY));
        visited := visited + {(roboX, roboY)};
      }
    }
    n := |visited|;
  }
}

/** Day 9: the shortest and the longest route through every city exactly once. */
module SingleNight {
  import opened Wrappers
  import opened Text

  /** Distances by city and then by neighbouring city, as the script's dictionary of dictionaries. */
  type Distances = map<string, map<string, int>>

  /** A line whose distance is not an integer, as `int()` raises on it. */
  datatype ParseError = BadDistance(token: string)

  /** A route length: a whole number, or infinite for a route with a missing leg. */
  datatype Dist = Fin(n: int) | Inf

  // ---------------------------------------------------------------------------
  // Parsing

  /** `A to B = n`, told apart by its five words alone. */
  predicate IsDistanceLine(parts: seq<string>) {
    |parts| == 5 && parts[1] == "to" && parts[3] == "="
  }

  /** `d[a][b] = v` on a dictionary whose missing inner entries start empty. */
  function Put(d: Distances, a: string, b: string, v: int): Distances {
    d[a := (if a in d then d[a] else map[])[b := v]]
  }

  /** The distances after one more line: skipped unless it is a distance line; both directions set. */
  function AddLine(d: Distances, line: string): Result<Distances, ParseError> {
    var parts := Words(line);
    if !IsDistanceLine(parts) then Ok(d)
    else
      match ParseInt(parts[4])
      case None => Err(BadDistance(parts[4]))
      case Some(v) => Ok(Put(Put(d, parts[0], parts[2], v), parts[2], parts[0], v))
  }

  /** The distances after all lines, or the first line's error. */
  function Parsed(lines: seq<string>): Result<Distances, ParseError> {
    if lines == [] then Ok(map[])
    else
      var d :- Parsed(lines[..|lines| - 1]);
      AddLine(d, lines[|lines| - 1])
  }

  /** Every known leg is known in both directions with the same length. */
  predicate Symmetric(d: Distances) {
    forall a, b :: a in d && b in d[a] ==> b in d && a in d[b] && d[b][a] == d[a][b]
  }

  /** The length of the leg from `a` to `b`, or nothing. */
  function Lookup(d: Distances, a: string, b: string): Option<int> {
    if a in d && b in d[a] then Some(d[a][b]) else None
  }

  lemma PutLookup(d: Distances, a: string, b: string, v: int, x: string, y: string)
    ensures Lookup(Put(d, a, b, v), x, y) == if x == a && y == b then Some(v) else Lookup(d, x, y)
  {
  }

  /**
   * A distance line sets the leg in both directions and leaves every other
   * leg as it was; a later line for the same pair overrides an earlier one.
   */
  lemma AddLineSets(d: Distances, line: string, x: string, y: string)
    requires IsDistanceLine(Words(line)) && ParseInt(Words(line)[4]).Some?
    ensures AddLine(d, line).Ok?
    ensures
      var parts, v := Words(line), ParseInt(Words(line)[4]).value;
      Lookup(AddLine(d, line).value, x, y) ==
        if (x == parts[0] && y == parts[2]) || (x == parts[2] && y == parts[0]) then Some(v)
        else Lookup(d, x, y)
  {
    var parts, v := Words(line), ParseInt(Words(line)[4]).value;
    var d1 := Put(d, parts[0], parts[2], v);
    PutLookup(d, parts[0], parts[2], v, x, y);
    PutLookup(d1, parts[2], parts[0], v, x, y);
  }

  /** A line that is not a distance line changes nothing. */
  lemma AddLineSkips(d: Distances, line: string)
    requires !IsDistanceLine(Words(line))
    ensures AddLine(d, line) == Ok(d)
  {
  }

  /** A distance line whose last word is not an integer is an error. */
  lemma AddLineRejects(d: Distances, line: string)
    requires IsDistanceLine(Words(line)) && ParseInt(Words(line)[4]).None?
    ensures AddLine(d, line) == Err(BadDistance(Words(line)[4]))
  {
  }

  lemma AddLineSymmetric(d: Distances, line: string)
    requires Symmetric(d) && AddLine(d, line).Ok?
    ensures Symmetric(AddLine(d, line).value)
  {
    var parts := Words(line);
    if IsDistanceLine(parts) {
      var d' := AddLine(d, line).value;
      forall a, b | a in d' && b in d'[a]
        ensures b in d' && a in d'[b] && d'[b][a] == d'[a][b]
      {
        AddLineSets(d, line, a, b);
        AddLineSets(d, line, b, a);
      }
    }
  }

  /** The parsed distances are symmetric. */
  lemma {:induction false} ParsedSymmetric(lines: seq<string>)
    requires Parsed(lines).Ok?
    ensures Symmetric(Parsed(lines).value)
  {
    if lines != [] {
      ParsedSymmetric(lines[..|lines| - 1]);
      AddLineSymmetric(Parsed(lines[..|lines| - 1]).value, lines[|lines| - 1]);
    }
  }

  /** `parse_distances`: one pass over the lines, filling the dictionary in both directions. */
  method ParseDistances(lines: seq<string>) returns (r: Result<Distances, ParseError>)
    ensures r == Parsed(lines)
    ensures r.Ok? ==> Symmetric(r.value)
  {
    var distances: Distances := map[];
    for i := 0 to |lines|
      invariant Parsed(lines[..i]) == Ok(distances)
    {
      assert lines[..i + 1][..i] == lines[..i];
      var parts := Words(lines[i]);
      if |parts| != 5 || parts[1] != "to" || parts[3] != "=" {
        continue;
      }
      var city1, city2 := parts[0], parts[2];
      var distance := ParseInt(parts[4]);
      if distance.None? {
        ParsedErrorStays(lines, i + 1);
        return Err(BadDistance(parts[4]));
      }
      distances := Put(distances, city1, city2, distance.value);
      distances := Put(distances, city2, city1, distance.value);
    }
    assert lines[..|lines|] == lines;
    r := Ok(distances);
    ParsedSymmetric(lines);
  }

  /** Once a line fails, parsing reports that line's error whatever follows. */
  lemma {:induction false} ParsedErrorStays(lines: seq<string>, i: nat)
    requires i <= |lines| && Parsed(lines[..i]).Err?
    ensures Parsed(lines) == Parsed(lines[..i])
    decreases |lines| - i
  {
    if i < |lines| {
      assert lines[..i + 1][..i] == lines[..i];
      ParsedErrorStays(lines, i + 1);
    } else {
      assert lines[..i] == lines;
    }
  }

  // ---------------------------------------------------------------------------
  // Route lengths

  function Add(a: Dist, b: Dist): Dist {
    match (a, b)
    case (Fin(x), Fin(y)) => Fin(x + y)
    case _ => Inf
  }

  /** `a < b` with integers against infinity, as Python compares an `int` with `float('inf')`. */
  predicate Less(a: Dist, b: Dist) {
    match (a, b)
    case (Fin(x), Fin(y)) => x < y
    case (Fin(_), Inf) => true
    case (Inf, _) => false
  }

  predicate AtMost(a: Dist, b: Dist) {
    !Less(b, a)
  }

  /** The length of one leg: infinite when the dictionary has no such leg. */
  function Leg(d: Distances, a: string, b: string): Dist {
    match Lookup(d, a, b)
    case Some(v) => Fin(v)
    case None => Inf
  }

  /** The sum of the legs of the route from its `i`-th city on. */
  function LengthFrom(d: Distances, route: seq<string>, i: nat): Dist
    decreases |route| - i
  {
    if i + 1 >= |route| then Fin(0) else Add(Leg(d, route[i], route[i + 1]), LengthFrom(d, route, i + 1))
  }

  /** The sum of the legs between consecutive cities of the route. */
  function Length(d: Distances, route: seq<string>): Dist {
    LengthFrom(d, route, 0)
  }

  /** Every leg of the route from its `i`-th city on is known. */
  predicate CompleteFrom(d: Distances, route: seq<string>, i: nat) {
    forall k :: i <= k < |route| - 1 ==> Lookup(d, route[k], route[k + 1]).Some?
  }

  /** Every leg of the route is known. */
  predicate Complete(d: Distances, route: seq<string>) {
    CompleteFrom(d, route, 0)
  }

  /** A route of fewer than two cities has length 0. */
  lemma ShortRoute(d: Distances, route: seq<string>)
    requires |route| < 2
    ensures Length(d, route) == Fin(0)
  {
  }

  lemma {:induction false} FiniteIffCompleteFrom(d: Distances, route: seq<string>, i: nat)
    ensures LengthFrom(d, route, i).Fin? <==> CompleteFrom(d, route, i)
    decreases |route| - i
  {
    if i + 1 < |route| {
      FiniteIffCompleteFrom(d, route, i + 1);
    }
  }

  /** A route is finite exactly when every leg of it is known. */
  lemma FiniteIffComplete(d: Distances, route: seq<string>)
    ensures Length(d, route).Fin? <==> Complete(d, route)
  {
    FiniteIffCompleteFrom(d, route, 0);
  }

  lemma {:induction false} NonNegativeFrom(d: Distances, route: seq<string>, i: nat)
    requires forall a, b :: a in d && b in d[a] ==> d[a][b] >= 0
    ensures AtMost(Fin(0), LengthFrom(d, route, i))
    decreases |route| - i
  {
    if i + 1 < |route| {
      NonNegativeFrom(d, route, i + 1);
    }
  }

  /** With no negative distance no route is shorter than 0. */
  lemma LengthNonNegative(d: Distances, route: seq<string>)
    requires forall a, b :: a in d && b in d[a] ==> d[a][b] >= 0
    ensures AtMost(Fin(0), Length(d, route))
  {
    NonNegativeFrom(d, route, 0);
  }

  /** `calculate_route_distance`: adds the legs left to right and gives up at the first missing one. */
  method RouteDistance(route: seq<string>, distances: Distances) returns (r: Dist)
    ensures r == Length(distances, route)
  {
    var totalDistance := 0;
    var i := 0;
    while i < |route| - 1
      invariant 0 <= i <= |route|
      invariant Length(distances, route) == Add(Fin(totalDistance), LengthFrom(distances, route, i))
      decreases |route| - i
    {
      var city1, city2 := route[i], route[i + 1];
      if !(city1 in distances && city2 in distances[city1]) {
        return Inf;
      }
      totalDistance := totalDistance + distances[city1][city2];
      i := i + 1;
    }
    r := Fin(totalDistance);
  }

  // ---------------------------------------------------------------------------
  // Routes through every city

  /** The distinct elements of a route. */
  function Cities(route: seq<string>): set<string> {
    set i | 0 <= i < |route| :: route[i]
  }

  predicate Distinct(route: seq<string>) {
    forall i, j :: 0 <= i < j < |route| ==> route[i] != route[j]
  }

  /** A route visits every one of `cities` exactly once. */
  predicate IsTour(route: seq<string>, cities: set<string>) {
    Distinct(route) && Cities(route) == cities
  }

  /** Every order of `cities`, as `itertools.permutations` yields them. */
  function Tours(cities: set<string>): set<seq<string>>
    decreases cities
  {
    if cities == {} then {[]}
    else set c, rest | c in cities && rest in Tours(cities - {c}) :: [c] + rest
  }

  lemma CitiesCons(c: string, rest: seq<string>)
    ensures Cities([c] + rest) == {c} + Cities(rest)
  {
    var route := [c] + rest;
    forall x | x in Cities(route) ensures x in {c} + Cities(rest) {
      var i :| 0 <= i < |route| && route[i] == x;
      if i > 0 {
        assert rest[i - 1] == x;
      }
    }
    forall x | x in {c} + Cities(rest) ensures x in Cities(route) {
      if x == c {
        assert route[0] == x;
      } else {
        var i :| 0 <= i < |rest| && rest[i] == x;
        assert route[i + 1] == x;
      }
    }
  }

  lemma {:induction false} ToursAreTours(cities: set<string>, route: seq<string>)
    requires route in Tours(cities)
    ensures IsTour(route, cities)
    decreases cities
  {
    if cities != {} {
      var c, rest :| c in cities && rest in Tours(cities - {c}) && route == [c] + rest;
      ToursAreTours(cities - {c}, rest);
      CitiesCons(c, rest);
    }
  }

  lemma {:induction false} AllToursListed(cities: set<string>, route: seq<string>)
    requires IsTour(route, cities)
    ensures route in Tours(cities)
    decreases cities
  {
    if route == [] {
      assert cities == {};
    } else {
      var c, rest := route[0], route[1..];
      assert route == [c] + rest;
      CitiesCons(c, rest);
      assert c !in Cities(rest);
      assert c in cities;
      AllToursListed(cities - {c}, rest);
      assert route == [c] + rest;
    }
  }

  /** The tours of `cities` are exactly the orders visiting each once. */
  lemma ToursCharacterised(cities: set<string>, route: seq<string>)
    ensures route in Tours(cities) <==> IsTour(route, cities)
  {
    if route in Tours(cities) {
      ToursAreTours(cities, route);
    }
    if IsTour(route, cities) {
      AllToursListed(cities, route);
    }
  }

  /** Every set of cities has a tour. */
  lemma {:induction false} SomeTour(cities: set<string>)
    ensures Tours(cities) != {}
    decreases cities
  {
    if cities != {} {
      var c :| c in cities;
      SomeTour(cities - {c});
      var rest :| rest in Tours(cities - {c});
      assert [c] + rest in Tours(cities);
    }
  }

  /** `x` is no longer than any route of `routes`. */
  predicate LowerBound(d: Distances, x: Dist, routes: set<seq<string>>) {
    forall t :: t in routes ==> AtMost(x, Length(d, t))
  }

  /** `x` is no shorter than any route of `routes`. */
  predicate UpperBound(d: Distances, x: Dist, routes: set<seq<string>>) {
    forall t :: t in routes ==> AtMost(Length(d, t), x)
  }

  /** `x` is the length of one of `routes`. */
  predicate Attained(d: Distances, x: Dist, routes: set<seq<string>>) {
    exists t :: t in routes && x == Length(d, t)
  }

  lemma ShortestStep(d: Distances, x: Dist, tried: set<seq<string>>, route: seq<string>)
    requires LowerBound(d, x, tried) && (x == Inf || Attained(d, x, tried))
    ensures var y := if Less(Length(d, route), x) then Length(d, route) else x;
      LowerBound(d, y, tried + {route}) && (y == Inf || Attained(d, y, tried + {route}))
  {
    var y := if Less(Length(d, route), x) then Length(d, route) else x;
    if y != Inf {
      if y == Length(d, route) {
        assert route in tried + {route};
      } else {
        var t :| t in tried && x == Length(d, t);
        assert t in tried + {route};
      }
    }
  }

  lemma LongestStep(d: Distances, x: Dist, tried: set<seq<string>>, route: seq<string>)
    requires UpperBound(d, x, tried) && (x == Fin(0) || Attained(d, x, tried))
    ensures var y := if Less(x, Length(d, route)) then Length(d, route) else x;
      UpperBound(d, y, tried + {route}) && (y == Fin(0) || Attained(d, y, tried + {route}))
      && (AtMost(Fin(0), x) ==> AtMost(Fin(0), y))
  {
    var y := if Less(x, Length(d, route)) then Length(d, route) else x;
    if y != Fin(0) {
      if y == Length(d, route) {
        assert route in tried + {route};
      } else {
        var t :| t in tried && x == Length(d, t);
        assert t in tried + {route};
      }
    }
  }

  lemma MoveOne(routes: set<seq<string>>, tried: set<seq<string>>, route: seq<string>)
    requires route in routes && routes !! tried
    ensures (routes - {route}) + (tried + {route}) == routes + tried
    ensures (routes - {route}) !! (tried + {route})
  {
  }

  /**
   * `find_shortest_route`: no cities gives 0; otherwise the least length
   * over all tours, starting from infinity.
   */
  method FindShortestRoute(distances: Distances) returns (r: Dist)
    ensures distances == map[] ==> r == Fin(0)
    ensures distances != map[] ==> LowerBound(distances, r, Tours(distances.Keys))
    ensures distances != map[] ==> Attained(distances, r, Tours(distances.Keys))
  {
    var cities := distances.Keys;
    if cities == {} {
      assert distances == map[];
      return Fin(0);
    }
    var shortestDistance := Inf;
    var routes := Tours(cities);
    ghost var all := routes;
    ghost var tried: set<seq<string>> := {};
    while routes != {}
      invariant routes + tried == all && routes !! tried
      invariant LowerBound(distances, shortestDistance, tried)
      invariant shortestDistance == Inf || Attained(distances, shortestDistance, tried)
      decreases |routes|
    {
      var route :| route in routes;
      var distance := RouteDistance(route, distances);
      ShortestStep(distances, shortestDistance, tried, route);
      if Less(distance, shortestDistance) {
        shortestDistance := distance;
      }
      MoveOne(routes, tried, route);
      routes := routes - {route};
      tried := tried + {route};
    }
    SomeTour(cities);
    var t :| t in Tours(cities);
    assert AtMost(shortestDistance, Length(distances, t));
    r := shortestDistance;
  }

  /**
   * `find_longest_route`: no cities gives 0; otherwise the greatest length
   * over all tours, starting from 0, so the result is never below 0 and any
   * tour with a missing leg makes it infinite.
   */
  method FindLongestRoute(distances: Distances) returns (r: Dist)
    ensures distances == map[] ==> r == Fin(0)
    ensures UpperBound(distances, r, Tours(distances.Keys))
    ensures AtMost(Fin(0), r)
    ensures r == Fin(0) || Attained(distances, r, Tours(distances.Keys))
  {
    var cities := distances.Keys;
    if cities == {} {
      assert distances == map[];
      assert Tours(cities) == {[]};
      return Fin(0);
    }
    var longestDistance := Fin(0);
    var routes := Tours(cities);
    ghost var all := routes;
    ghost var tried: set<seq<string>> := {};
    while routes != {}
      invariant routes + tried == all && routes !! tried
      invariant UpperBound(distances, longestDistance, tried)
      invariant AtMost(Fin(0), longestDistance)
      invariant longestDistance == Fin(0) || Attained(distances, longestDistance, tried)
      decreases |routes|
    {
      var route :| route in routes;
      var distance := RouteDistance(route, distances);
      LongestStep(distances, longestDistance, tried, route);
      if Less(longestDistance, distance) {
        longestDistance := distance;
      }
      MoveOne(routes, tried, route);
      routes := routes - {route};
      tried := tried + {route};
    }
    r := longestDistance;
  }

  /** When no distance is negative, the longest route is the length of some tour. */
  lemma LongestIsATour(distances: Distances, r: Dist)
    requires distances != map[]
    requires forall a, b :: a in distances && b in distances[a] ==> distances[a][b] >= 0
    requires UpperBound(distances, r, Tours(distances.Keys))
    requires r == Fin(0) || Attained(distances, r, Tours(distances.Keys))
    ensures Attained(distances, r, Tours(distances.Keys))
  {
    if r == Fin(0) {
      SomeTour(distances.Keys);
      var t :| t in Tours(distances.Keys);
      LengthNonNegative(distances, t);
    }
  }

  /** A tour with a missing leg makes the longest route infinite. */
  lemma LongestInfinite(distances: Distances, r: Dist, t: seq<string>)
    requires UpperBound(distances, r, Tours(distances.Keys))
    requires t in Tours(distances.Keys) && !Complete(distances, t)
    ensures r == Inf
  {
    FiniteIffComplete(distances, t);
  }
}

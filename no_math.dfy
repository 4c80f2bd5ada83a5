/** Day 2: wrapping paper and ribbon for a box of dimensions l x w x h. */
module NoMath {

  /** `min(a, b, c)`. */
  function Min3(a: int, b: int, c: int): (m: int)
    ensures m <= a && m <= b && m <= c
    ensures m == a || m == b || m == c
  {
    if a <= b && a <= c then a else if b <= c then b else c
  }

  /** `sorted([a, b, c])`, as a triple. */
  function Sort3(a: int, b: int, c: int): (r: (int, int, int))
    ensures r.0 <= r.1 <= r.2
  {
    if a <= b then
      if b <= c then (a, b, c) else if a <= c then (a, c, b) else (c, a, b)
    else
      if a <= c then (b, a, c) else if b <= c then (b, c, a) else (c, b, a)
  }

  /** `sorted` only reorders: the sorted triple holds the same values as the input. */
  lemma Sort3IsPermutation(a: int, b: int, c: int)
    ensures var r := Sort3(a, b, c); multiset{r.0, r.1, r.2} == multiset{a, b, c}
  {
  }

  /** Area of all six faces of the box. */
  function SurfaceArea(l: int, w: int, h: int): int {
    2 * l * w + 2 * w * h + 2 * h * l
  }

  /** `compute_wrapping_paper`: the surface area plus the area of the smallest face as slack. */
  function WrappingPaper(l: int, w: int, h: int): (r: int)
    ensures var slack := r - SurfaceArea(l, w, h);
      slack <= l * w && slack <= w * h && slack <= h * l
    ensures var slack := r - SurfaceArea(l, w, h);
      slack == l * w || slack == w * h || slack == h * l
  {
    var side1, side2, side3 := l * w, w * h, h * l;
    var surfaceArea := 2 * side1 + 2 * side2 + 2 * side3;
    surfaceArea + Min3(side1, side2, side3)
  }

  /** The paper depends only on the box, not on the order its dimensions are listed in. */
  lemma PaperPermutationInvariant(l: int, w: int, h: int)
    ensures WrappingPaper(l, w, h) == WrappingPaper(w, l, h) == WrappingPaper(l, h, w)
    ensures WrappingPaper(l, w, h) == WrappingPaper(h, w, l) == WrappingPaper(w, h, l) == WrappingPaper(h, l, w)
  {
    assert l * w == w * l && w * h == h * w && h * l == l * h;
  }

  /** For a real box the slack is never negative, so the paper covers at least the surface. */
  lemma PaperCoversSurface(l: nat, w: nat, h: nat)
    ensures WrappingPaper(l, w, h) >= SurfaceArea(l, w, h)
  {
    assert l * w >= 0 && w * h >= 0 && h * l >= 0;
  }

  /** `compute_ribbon`: the smallest perimeter of any face, plus the volume for the bow. */
  function Ribbon(l: int, w: int, h: int): (r: int)
    ensures var perimeter := r - l * w * h;
      perimeter <= 2 * (l + w) && perimeter <= 2 * (w + h) && perimeter <= 2 * (l + h)
    ensures var perimeter := r - l * w * h;
      perimeter == 2 * (l + w) || perimeter == 2 * (w + h) || perimeter == 2 * (l + h)
  {
    var sides := Sort3(l, w, h);
    Sort3IsPermutation(l, w, h);
    assert sides.0 in multiset{l, w, h} && sides.1 in multiset{l, w, h} && sides.2 in multiset{l, w, h};
    var smallestPerimeter := 2 * (sides.0 + sides.1);
    var volume := l * w * h;
    smallestPerimeter + volume
  }

  /** The ribbon uses the two smallest dimensions, whatever their order in the input. */
  lemma RibbonUsesTwoSmallest(l: int, w: int, h: int, a: int, b: int, c: int)
    requires a <= b <= c && multiset{a, b, c} == multiset{l, w, h}
    ensures Ribbon(l, w, h) == 2 * (a + b) + l * w * h
  {
    var s := Sort3(l, w, h);
    Sort3IsPermutation(l, w, h);
    assert multiset{s.0, s.1, s.2} == multiset{a, b, c};
    assert a in multiset{s.0, s.1, s.2} && b in multiset{s.0, s.1, s.2} && c in multiset{s.0, s.1, s.2};
    assert s.0 in multiset{a, b, c} && s.1 in multiset{a, b, c} && s.2 in multiset{a, b, c};
  }

  /** Sorting three numbers does not depend on the order they come in. */
  lemma Sort3PermutationInvariant(l: int, w: int, h: int)
    ensures Sort3(l, w, h) == Sort3(w, l, h) == Sort3(l, h, w)
    ensures Sort3(l, w, h) == Sort3(h, w, l) == Sort3(w, h, l) == Sort3(h, l, w)
  {
  }

  /** The ribbon, too, depends only on the box. */
  lemma RibbonPermutationInvariant(l: int, w: int, h: int)
    ensures Ribbon(l, w, h) == Ribbon(w, l, h) == Ribbon(l, h, w)
    ensures Ribbon(l, w, h) == Ribbon(h, w, l) == Ribbon(w, h, l) == Ribbon(h, l, w)
  {
    Sort3PermutationInvariant(l, w, h);
    VolumeSymmetric(l, w, h);
  }

  /** The volume does not depend on the order of the dimensions either. */
  lemma VolumeSymmetric(l: int, w: int, h: int)
    ensures l * w * h == w * l * h == l * h * w == h * w * l == w * h * l == h * l * w
  {
    var v := l * w * h;
    assert w * l * h == v;
    assert l * h * w == l * (h * w) == v;
    assert h * w * l == (h * w) * l == v;
    assert w * h * l == (w * h) * l == v;
    assert h * l * w == (h * l) * w == (l * h) * w == v;
  }
}

/**
 * The grid in which the brightest stars of every cell are chosen.  Corners
 * are angles in radians; right ascension runs from `raStart` down to
 * `raEnd` (it increases eastwards), declination from `decStart` up to
 * `decEnd`.  Every `Descend` halves the cells in both directions.
 */
module Grids {
  import opened Wrappers
  import Utils

  /** is_rad: an angle in the closed range [0, 2 pi]. */
  predicate IsRad(x: real)
  {
    0.0 <= x <= 2.0 * Utils.Pi
  }

  /**
   * The attributes of a grid.  The cell widths `ra_width` and `dec_width`,
   * which Grid.__init__ and Grid.descend recompute from the corners and the
   * counts, are the functions RaWidth and DecWidth of those attributes.
   */
  datatype Grid = Grid(
    raStart: real, decStart: real, raEnd: real, decEnd: real,
    nRa: int, nDec: int, nBrgh: int, depth: int)

  /** The assertion of Grid.__init__ that fails first, or the division by a zero cell count. */
  datatype GridError =
    | RaStartNotRad | DecStartNotRad | RaEndNotRad | DecEndNotRad
    | RaNotDecreasing | DecNotIncreasing
    | ZeroRaCells | ZeroDecCells

  /** What every grid built by NewGrid and then descended satisfies. */
  predicate Valid(g: Grid)
  {
    && IsRad(g.raStart) && IsRad(g.decStart) && IsRad(g.raEnd) && IsRad(g.decEnd)
    && g.raStart > g.raEnd && g.decStart < g.decEnd
    && g.nRa != 0 && g.nDec != 0
  }

  /**
   * ra_width: the extent in ra divided by the number of ra cells (negative:
   * ra decreases).  A grid without cells, which NewGrid refuses, gets 0.
   */
  function RaWidth(g: Grid): real
  {
    if g.nRa == 0 then 0.0 else (g.raEnd - g.raStart) / (g.nRa as real)
  }

  /** dec_width: the extent in dec divided by the number of dec cells. */
  function DecWidth(g: Grid): real
  {
    if g.nDec == 0 then 0.0 else (g.decEnd - g.decStart) / (g.nDec as real)
  }

  /** Grid.__init__: the six assertions in order, then the two width divisions. */
  function NewGrid(raStart: real, decStart: real, raEnd: real, decEnd: real,
                   nRa: int, nDec: int, nBrgh: int, depth: int): (r: Result<Grid, GridError>)
    ensures r.Success? <==>
      && IsRad(raStart) && IsRad(decStart) && IsRad(raEnd) && IsRad(decEnd)
      && raStart > raEnd && decStart < decEnd && nRa != 0 && nDec != 0
    ensures r.Success? ==> Valid(r.value)
    ensures r.Success? ==> var g := r.value;
      && g.raStart == raStart && g.decStart == decStart && g.raEnd == raEnd && g.decEnd == decEnd
      && g.nRa == nRa && g.nDec == nDec && g.nBrgh == nBrgh && g.depth == depth
    ensures r == Failure(RaNotDecreasing) <==>
      IsRad(raStart) && IsRad(decStart) && IsRad(raEnd) && IsRad(decEnd) && raStart <= raEnd
  {
    if !IsRad(raStart) then Failure(RaStartNotRad)
    else if !IsRad(decStart) then Failure(DecStartNotRad)
    else if !IsRad(raEnd) then Failure(RaEndNotRad)
    else if !IsRad(decEnd) then Failure(DecEndNotRad)
    else if !(raStart > raEnd) then Failure(RaNotDecreasing)
    else if !(decStart < decEnd) then Failure(DecNotIncreasing)
    else if nRa == 0 then Failure(ZeroRaCells)
    else if nDec == 0 then Failure(ZeroDecCells)
    else
      Success(Grid(raStart, decStart, raEnd, decEnd, nRa, nDec, nBrgh, depth))
  }

  /** The cells are as wide as the grid divided by their number, with the sign of its direction. */
  lemma Widths(g: Grid)
    requires Valid(g)
    ensures (g.nRa as real) * RaWidth(g) == g.raEnd - g.raStart
    ensures (g.nDec as real) * DecWidth(g) == g.decEnd - g.decStart
    ensures g.nRa > 0 ==> RaWidth(g) < 0.0
    ensures g.nDec > 0 ==> DecWidth(g) > 0.0
  {
    var n, m := g.nRa as real, g.nDec as real;
    assert n * ((g.raEnd - g.raStart) / n) == g.raEnd - g.raStart;
    assert m * ((g.decEnd - g.decStart) / m) == g.decEnd - g.decStart;
    if g.nRa > 0 {
      QuotientNegative(g.raEnd - g.raStart, n);
    }
    if g.nDec > 0 {
      QuotientPositive(g.decEnd - g.decStart, m);
    }
  }

  lemma QuotientNegative(x: real, n: real)
    requires x < 0.0 && n > 0.0
    ensures x / n < 0.0
  {
    assert (x / n) * n == x;
    if x / n >= 0.0 {
      ProductNonneg(x / n, n);
      assert false;
    }
  }

  lemma QuotientPositive(x: real, n: real)
    requires x > 0.0 && n > 0.0
    ensures x / n > 0.0
  {
    QuotientNegative(-x, n);
    assert (-x) / n == -(x / n);
  }

  lemma ProductNonneg(a: real, b: real)
    requires a >= 0.0 && b >= 0.0
    ensures a * b >= 0.0
  {
  }

  /**
   * Grid.descend: a copy with twice the cells in each direction; the
   * widths follow from the unchanged corners and the new counts.
   */
  function Descend(g: Grid): (d: Grid)
    requires g.nRa != 0 && g.nDec != 0
    ensures d.nRa != 0 && d.nDec != 0
    ensures Valid(g) ==> Valid(d)
    ensures d.nRa == 2 * g.nRa && d.nDec == 2 * g.nDec
    ensures d.raStart == g.raStart && d.decStart == g.decStart && d.raEnd == g.raEnd && d.decEnd == g.decEnd
    ensures d.nBrgh == g.nBrgh && d.depth == g.depth
  {
    g.(nRa := g.nRa * 2, nDec := g.nDec * 2)
  }

  /** Descending halves both cell widths. */
  lemma DescendHalves(g: Grid)
    requires Valid(g)
    ensures 2.0 * RaWidth(Descend(g)) == RaWidth(g)
    ensures 2.0 * DecWidth(Descend(g)) == DecWidth(g)
  {
    HalfQuotient(g.raEnd - g.raStart, g.nRa as real);
    HalfQuotient(g.decEnd - g.decStart, g.nDec as real);
  }

  lemma HalfQuotient(x: real, n: real)
    requires n != 0.0
    ensures 2.0 * (x / (2.0 * n)) == x / n
  {
  }

  function Pow2(k: nat): (r: int)
    ensures r >= 1
  {
    if k == 0 then 1 else 2 * Pow2(k - 1)
  }

  /** The grid after k calls of descend. */
  function DescendN(g: Grid, k: nat): (d: Grid)
    requires Valid(g)
    ensures Valid(d) && d.nBrgh == g.nBrgh
  {
    if k == 0 then g else Descend(DescendN(g, k - 1))
  }

  /** k descents multiply the cell counts by 2^k and keep corners, n_brgh and depth. */
  lemma {:induction false} DescendNShape(g: Grid, k: nat)
    requires Valid(g)
    ensures var d := DescendN(g, k);
      && d.nRa == g.nRa * Pow2(k) && d.nDec == g.nDec * Pow2(k)
      && d.raStart == g.raStart && d.decStart == g.decStart && d.raEnd == g.raEnd && d.decEnd == g.decEnd
      && d.nBrgh == g.nBrgh && d.depth == g.depth
  {
    if k > 0 {
      DescendNShape(g, k - 1);
      DoubleTimes(g.nRa, Pow2(k - 1));
      DoubleTimes(g.nDec, Pow2(k - 1));
    }
  }

  lemma DoubleTimes(a: int, b: int)
    ensures 2 * (a * b) == a * (2 * b)
  {
  }
}

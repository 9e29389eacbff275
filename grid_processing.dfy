/**
 * Building the reference hash table from a star catalog.  At every depth
 * level the catalog is bucketed into the cells of the grid (the first
 * n_brgh catalog entries of each cell are kept), every 2x2 block of adjacent
 * cells contributes one record per choice of a star from each of its four
 * cells, and the tables of all blocks and levels are appended in the order
 * level, then ra cell, then dec cell.
 */
module GridProcessing {
  import opened Wrappers
  import opened Hashing
  import opened Grids
  import opened CellTables
  import opened HashTables

  // ---------------------------------------------------------------------------
  // The catalog and the cells of a grid
  // ---------------------------------------------------------------------------

  /** The catalog: parallel columns of right ascension, declination (radians) and magnitude. */
  datatype StarChart = StarChart(ra: seq<real>, dec: seq<real>, mag: seq<real>)

  predicate WellFormed(sc: StarChart)
  {
    |sc.dec| == |sc.ra| && |sc.mag| == |sc.ra|
  }

  /** The catalog as it is loaded: sorted ascending by magnitude, so brightest first. */
  predicate SortedByMagnitude(sc: StarChart)
    requires WellFormed(sc)
  {
    forall s, s' :: 0 <= s < s' < |sc.ra| ==> sc.mag[s] <= sc.mag[s']
  }

  /** grid_ra[k]: the k-th ra boundary, decreasing in k. */
  function GridRa(g: Grid, k: int): real
  {
    g.raStart + (k as real) * RaWidth(g)
  }

  /** grid_dec[k]: the k-th dec boundary, increasing in k. */
  function GridDec(g: Grid, k: int): real
  {
    g.decStart + (k as real) * DecWidth(g)
  }

  /** The half-open membership test of cell (i, j): open at the lower ra and the upper dec boundary. */
  predicate InCell(g: Grid, ra: real, dec: real, i: int, j: int)
  {
    GridRa(g, i + 1) < ra <= GridRa(g, i) && GridDec(g, j) <= dec < GridDec(g, j + 1)
  }

  /** The catalog indices below n of the stars in cell (i, j), ascending: `np.argwhere(...)`. */
  function Matches(sc: StarChart, g: Grid, i: int, j: int, n: nat): (m: seq<nat>)
    requires WellFormed(sc) && n <= |sc.ra|
    ensures forall s :: s in m <==> 0 <= s < n && InCell(g, sc.ra[s], sc.dec[s], i, j)
    ensures forall a, b :: 0 <= a < b < |m| ==> m[a] < m[b]
  {
    if n == 0 then []
    else
      var m' := Matches(sc, g, i, j, n - 1);
      assert forall a :: 0 <= a < |m'| ==> m'[a] in m';
      assert forall a :: 0 <= a < |m'| ==> m'[a] < n - 1;
      m' + (if InCell(g, sc.ra[n - 1], sc.dec[n - 1], i, j) then [n - 1] else [])
  }

  /** All catalog stars of cell (i, j), in catalog order. */
  function CellMatches(sc: StarChart, g: Grid, i: int, j: int): (m: seq<nat>)
    requires WellFormed(sc)
  {
    Matches(sc, g, i, j, |sc.ra|)
  }

  /**
   * Slot (i, j, r) as _stars_in_subgrid leaves it: the r-th star of the cell
   * in catalog order, or the sentinel -1 when the cell has at most r stars.
   */
  function Slot(sc: StarChart, g: Grid, i: int, j: int, r: nat): (s: int)
    requires WellFormed(sc)
    ensures s == -1 || (0 <= s < |sc.ra| && InCell(g, sc.ra[s], sc.dec[s], i, j))
  {
    var m := CellMatches(sc, g, i, j);
    if r < |m| then assert m[r] in m; m[r] else -1
  }

  /** The n_brgh slots of cell (i, j) in rank order. */
  function CellSlots(sc: StarChart, g: Grid, i: int, j: int): (slots: seq<int>)
    requires WellFormed(sc) && g.nBrgh >= 0
    ensures |slots| == g.nBrgh
  {
    seq(g.nBrgh, r requires 0 <= r < g.nBrgh => Slot(sc, g, i, j, r))
  }

  /** What get_cell_stars returns for cell (i, j) of the table built by _stars_in_subgrid. */
  function CellStars(sc: StarChart, g: Grid, i: int, j: int): (stars: seq<int>)
    requires WellFormed(sc) && g.nBrgh >= 0
    ensures |stars| <= g.nBrgh
    ensures forall s :: s in stars ==> 0 < s < |sc.ra| && InCell(g, sc.ra[s], sc.dec[s], i, j)
  {
    Positives(CellSlots(sc, g, i, j))
  }

  // ---------------------------------------------------------------------------
  // _stars_in_subgrid
  // ---------------------------------------------------------------------------

  /**
   * _stars_in_subgrid: a fresh table in which rank r of cell (i, j) holds the
   * r-th catalog star of that cell, for r below both n_brgh and the number of
   * stars in the cell; the other slots keep the sentinel -1.  numpy refuses a
   * negative shape, so the counts are not negative.
   */
  method StarsInSubgrid(sc: StarChart, g: Grid) returns (t: CellTable)
    requires WellFormed(sc) && g.nRa >= 0 && g.nDec >= 0 && g.nBrgh >= 0
    ensures fresh(t) && fresh(t.starId) && t.Valid() && t.grid == g
    ensures forall i, j, r :: 0 <= i < g.nRa && 0 <= j < g.nDec && 0 <= r < g.nBrgh ==>
      t.starId[i, j, r] == Slot(sc, g, i, j, r)
  {
    t := new CellTable(g);
    var i := 0;
    while i < g.nRa
      invariant 0 <= i <= g.nRa
      invariant fresh(t) && fresh(t.starId) && t.Valid() && t.grid == g
      invariant forall i', j', r' :: 0 <= i' < g.nRa && 0 <= j' < g.nDec && 0 <= r' < g.nBrgh ==>
        t.starId[i', j', r'] == if i' < i then Slot(sc, g, i', j', r') else -1
    {
      var j := 0;
      while j < g.nDec
        invariant 0 <= j <= g.nDec
        invariant fresh(t) && fresh(t.starId) && t.Valid() && t.grid == g
        invariant forall i', j', r' :: 0 <= i' < g.nRa && 0 <= j' < g.nDec && 0 <= r' < g.nBrgh ==>
          t.starId[i', j', r'] == if i' < i || (i' == i && j' < j) then Slot(sc, g, i', j', r') else -1
      {
        var inGrid := CellMatches(sc, g, i, j);
        var count := if g.nBrgh < |inGrid| then g.nBrgh else |inGrid|;
        var r := 0;
        while r < count
          invariant 0 <= r <= count
          invariant fresh(t) && fresh(t.starId) && t.Valid() && t.grid == g
          invariant forall i', j', r' :: 0 <= i' < g.nRa && 0 <= j' < g.nDec && 0 <= r' < g.nBrgh ==>
            t.starId[i', j', r'] ==
              if i' < i || (i' == i && j' < j) || (i' == i && j' == j && r' < r) then Slot(sc, g, i', j', r') else -1
        {
          t.AddStar(i, j, r, inGrid[r]);
          r := r + 1;
        }
        j := j + 1;
      }
      i := i + 1;
    }
  }

  /** A boundary further along ra lies further west: the ra boundaries decrease. */
  lemma GridRaDecreasing(g: Grid, k: int, k': int)
    requires RaWidth(g) < 0.0 && k <= k'
    ensures GridRa(g, k') <= GridRa(g, k)
  {
    var d := (k' - k) as real;
    assert GridRa(g, k') == GridRa(g, k) + d * RaWidth(g);
    assert d * RaWidth(g) <= 0.0 by {
      ProductNonneg(d, -RaWidth(g));
    }
  }

  /** The dec boundaries increase. */
  lemma GridDecIncreasing(g: Grid, k: int, k': int)
    requires DecWidth(g) > 0.0 && k <= k'
    ensures GridDec(g, k) <= GridDec(g, k')
  {
    var d := (k' - k) as real;
    assert GridDec(g, k') == GridDec(g, k) + d * DecWidth(g);
    ProductNonneg(d, DecWidth(g));
  }

  /** The cells of one level do not overlap: a position lies in at most one of them. */
  lemma {:induction false} CellsDisjoint(g: Grid, ra: real, dec: real, i: int, j: int, i': int, j': int)
    requires Valid(g) && g.nRa > 0 && g.nDec > 0
    requires InCell(g, ra, dec, i, j) && InCell(g, ra, dec, i', j')
    ensures i == i' && j == j'
  {
    Widths(g);
    if i < i' {
      GridRaDecreasing(g, i + 1, i');
    } else if i' < i {
      GridRaDecreasing(g, i' + 1, i);
    }
    if j < j' {
      GridDecIncreasing(g, j + 1, j');
    } else if j' < j {
      GridDecIncreasing(g, j' + 1, j);
    }
  }

  /**
   * A catalog star is recorded in at most one slot per level: one cell,
   * because the cells are disjoint, and one rank, because a cell's matches
   * are distinct.
   */
  lemma RecordedOnce(sc: StarChart, g: Grid, i: int, j: int, r: nat, i': int, j': int, r': nat)
    requires WellFormed(sc) && Valid(g) && g.nRa > 0 && g.nDec > 0
    requires Slot(sc, g, i, j, r) != -1 && Slot(sc, g, i, j, r) == Slot(sc, g, i', j', r')
    ensures i == i' && j == j' && r == r'
  {
    var s := Slot(sc, g, i, j, r);
    CellsDisjoint(g, sc.ra[s], sc.dec[s], i, j, i', j');
    var m := CellMatches(sc, g, i, j);
    assert r < |m| && r' < |m|;
  }

  /**
   * With the catalog sorted by magnitude the recorded stars are the
   * brightest of their cell: a star of the cell that was not recorded is
   * no brighter than any recorded one.
   */
  lemma RecordedAreBrightest(sc: StarChart, g: Grid, i: int, j: int, r: nat, s: nat)
    requires WellFormed(sc) && SortedByMagnitude(sc) && g.nBrgh >= 0
    requires r < g.nBrgh && Slot(sc, g, i, j, r) != -1
    requires s < |sc.ra| && InCell(g, sc.ra[s], sc.dec[s], i, j)
    requires forall r' :: 0 <= r' < g.nBrgh ==> Slot(sc, g, i, j, r') != s
    ensures sc.mag[Slot(sc, g, i, j, r)] <= sc.mag[s]
  {
    var m := CellMatches(sc, g, i, j);
    assert s in m;
    var k :| 0 <= k < |m| && m[k] == s;
    var atK := Slot(sc, g, i, j, k);
    assert m[r] < m[k];
  }

  /** A cell with fewer than n_brgh stars holds all of them, and sentinels after them. */
  lemma SmallCellComplete(sc: StarChart, g: Grid, i: int, j: int)
    requires WellFormed(sc) && g.nBrgh >= 0 && |CellMatches(sc, g, i, j)| <= g.nBrgh
    ensures var m: seq<int> := CellMatches(sc, g, i, j);
      CellSlots(sc, g, i, j) == m + seq(g.nBrgh - |m|, _ => -1)
  {
  }

  // ---------------------------------------------------------------------------
  // permute_and_hash
  // ---------------------------------------------------------------------------

  /** The star ids of a quad all index the catalog. */
  predicate InCatalog(sc: StarChart, q: Quad)
  {
    0 <= q.a < |sc.ra| && 0 <= q.b < |sc.ra| && 0 <= q.c < |sc.ra| && 0 <= q.d < |sc.ra|
  }

  /** `pos`: the (ra, dec) positions of the four stars of a quad. */
  function Positions(sc: StarChart, q: Quad): (p: seq<Point>)
    requires WellFormed(sc) && InCatalog(sc, q)
    ensures |p| == 4
  {
    [Point(sc.ra[q.a], sc.dec[q.a]), Point(sc.ra[q.b], sc.dec[q.b]),
     Point(sc.ra[q.c], sc.dec[q.c]), Point(sc.ra[q.d], sc.dec[q.d])]
  }

  /** The record of one quad: its geometry from the encoder and its star ids. */
  function QuadRow(sc: StarChart, q: Quad, encode: Encoder): (r: Result<Row, EncodeError>)
    requires WellFormed(sc) && InCatalog(sc, q)
    ensures r.Success? <==> encode(Positions(sc, q)).Success?
    ensures r.Success? ==> r.value.idc == q && r.value.code == encode(Positions(sc, q)).value.code
  {
    match encode(Positions(sc, q))
    case Success(gm) => Success(Row(gm.code, gm.origin, gm.alpha, gm.scale, q))
    case Failure(e) => Failure(e)
  }

  /** Every quad of a run indexes the catalog. */
  predicate CatalogQuads(sc: StarChart, qs: seq<Quad>)
  {
    forall k :: 0 <= k < |qs| ==> InCatalog(sc, qs[k])
  }

  /** Every quad of a run encodes without error. */
  predicate AllEncode(sc: StarChart, qs: seq<Quad>, encode: Encoder)
    requires WellFormed(sc) && CatalogQuads(sc, qs)
  {
    forall k :: 0 <= k < |qs| ==> QuadRow(sc, qs[k], encode).Success?
  }

  /** The records of a run of quads that all encode, in order. */
  function EncodeRows(sc: StarChart, qs: seq<Quad>, encode: Encoder): (rows: seq<Row>)
    requires WellFormed(sc) && CatalogQuads(sc, qs) && AllEncode(sc, qs, encode)
    ensures |rows| == |qs|
    ensures forall k :: 0 <= k < |qs| ==> rows[k].idc == qs[k]
  {
    seq(|qs|, k requires 0 <= k < |qs| => QuadRow(sc, qs[k], encode).value)
  }

  /**
   * The quad at position k is the first of the run the encoder rejects, and
   * it rejects it with e: the error a loop over the run lets propagate.
   */
  predicate FirstFailure(sc: StarChart, qs: seq<Quad>, encode: Encoder, k: nat, e: EncodeError)
    requires WellFormed(sc) && CatalogQuads(sc, qs)
  {
    && k < |qs| && QuadRow(sc, qs[k], encode) == Failure(e)
    && forall k' :: 0 <= k' < k ==> QuadRow(sc, qs[k'], encode).Success?
  }

  /** The star ids of a quad in loop order: a, b, c, d. */
  function Ids(q: Quad): (s: seq<int>)
    ensures |s| == 4 && s[0] == q.a && s[1] == q.b && s[2] == q.c && s[3] == q.d
  {
    [q.a, q.b, q.c, q.d]
  }

  /**
   * The four nested loops of permute_and_hash over the candidate lists
   * `ls` (a, b, c, d).  The loop at depth |pre| runs over ls[|pre|], the
   * stars `pre` having been chosen by the enclosing loops; iteration k
   * chooses the k-th star of its list and runs the next loop in full, or,
   * at depth 3, yields one quad.
   */
  function Run(ls: seq<seq<int>>, pre: seq<int>, k: nat): seq<Quad>
    requires |ls| == 4 && |pre| < 4 && k < |ls[|pre|]|
    decreases 4 - |pre|, k
  {
    var x := ls[|pre|][k];
    if |pre| == 3 then [Quad(pre[0], pre[1], pre[2], x)]
    else Loop(ls, pre + [x], |ls[|pre| + 1]|)
  }

  /** The quads of the first n iterations of the loop at depth |pre|. */
  function Loop(ls: seq<seq<int>>, pre: seq<int>, n: nat): seq<Quad>
    requires |ls| == 4 && |pre| < 4 && n <= |ls[|pre|]|
    decreases 4 - |pre|, n
  {
    if n == 0 then [] else Loop(ls, pre, n - 1) + Run(ls, pre, n - 1)
  }

  /**
   * The Cartesian product of the four candidate lists in the order of
   * permute_and_hash's nested loops: a slowest, d fastest.
   */
  function Quads(la: seq<int>, lb: seq<int>, lc: seq<int>, ld: seq<int>): seq<Quad>
  {
    Loop([la, lb, lc, ld], [], |la|)
  }

  /** The number of quads one iteration of the loop at depth `depth` - 1 yields. */
  function Width(ls: seq<seq<int>>, depth: nat): nat
    requires |ls| == 4 && depth <= 4
    decreases 4 - depth
  {
    if depth == 4 then 1 else |ls[depth]| * Width(ls, depth + 1)
  }

  lemma MulSucc(n: int, p: int)
    ensures n * p + p == (n + 1) * p
  {
  }

  /** Every iteration of a loop yields the same number of quads. */
  lemma {:induction false} LoopLength(ls: seq<seq<int>>, pre: seq<int>, n: nat)
    requires |ls| == 4 && |pre| < 4 && n <= |ls[|pre|]|
    ensures |Loop(ls, pre, n)| == n * Width(ls, |pre| + 1)
    decreases 4 - |pre|, n
  {
    if n > 0 {
      LoopLength(ls, pre, n - 1);
      if |pre| < 3 {
        LoopLength(ls, pre + [ls[|pre|][n - 1]], |ls[|pre| + 1]|);
      }
      assert |Loop(ls, pre, n)| == |Loop(ls, pre, n - 1)| + |Run(ls, pre, n - 1)|;
      MulSucc(n - 1, Width(ls, |pre| + 1));
    }
  }

  lemma MulAssoc(x: int, y: int, z: int)
    ensures x * (y * z) == x * y * z
  {
  }

  /** There is one quad per choice of four stars: the product of the four list lengths. */
  lemma QuadsLength(la: seq<int>, lb: seq<int>, lc: seq<int>, ld: seq<int>)
    ensures |Quads(la, lb, lc, ld)| == |la| * |lb| * |lc| * |ld|
  {
    var ls := [la, lb, lc, ld];
    LoopLength(ls, [], |la|);
    assert Width(ls, 3) == |ld|;
    assert Width(ls, 1) == |lb| * (|lc| * |ld|);
    MulAssoc(|la|, |lb|, |lc| * |ld|);
    MulAssoc(|lb|, |lc|, |ld|);
    MulAssoc(|la| * |lb|, |lc|, |ld|);
  }

  /**
   * How many quads the first n iterations of the loop at depth `depth`
   * yield: Loop's length, counted without building the quads.
   */
  function Count(ls: seq<seq<int>>, depth: nat, n: nat): nat
    requires |ls| == 4 && depth < 4 && n <= |ls[depth]|
    decreases 4 - depth, n
  {
    if n == 0 then 0
    else Count(ls, depth, n - 1) + (if depth == 3 then 1 else Count(ls, depth + 1, |ls[depth + 1]|))
  }

  lemma {:induction false} LoopCount(ls: seq<seq<int>>, pre: seq<int>, n: nat)
    requires |ls| == 4 && |pre| < 4 && n <= |ls[|pre|]|
    ensures |Loop(ls, pre, n)| == Count(ls, |pre|, n)
    decreases 4 - |pre|, n
  {
    if n > 0 {
      LoopCount(ls, pre, n - 1);
      if |pre| < 3 {
        LoopCount(ls, pre + [ls[|pre|][n - 1]], |ls[|pre| + 1]|);
      }
    }
  }

  /** Running a loop further never yields fewer quads. */
  lemma {:induction false} CountGrows(ls: seq<seq<int>>, depth: nat, k: nat, n: nat)
    requires |ls| == 4 && depth < 4 && k <= n <= |ls[depth]|
    ensures Count(ls, depth, k) <= Count(ls, depth, n)
    decreases n
  {
    if k < n {
      CountGrows(ls, depth, k, n - 1);
    }
  }

  /**
   * The ids of q start with `pre`, its next id is among the first n stars
   * of the list at depth |pre|, and each later id is in its own list.
   */
  predicate Chosen(ls: seq<seq<int>>, pre: seq<int>, n: nat, q: Quad)
    requires |ls| == 4 && |pre| < 4 && n <= |ls[|pre|]|
  {
    && Ids(q)[..|pre|] == pre
    && Ids(q)[|pre|] in ls[|pre|][..n]
    && forall k :: |pre| < k < 4 ==> Ids(q)[k] in ls[k]
  }

  /** A loop yields exactly the quads that complete its prefix from its own and the inner lists. */
  lemma {:induction false} LoopMembers(ls: seq<seq<int>>, pre: seq<int>, n: nat, q: Quad)
    requires |ls| == 4 && |pre| < 4 && n <= |ls[|pre|]|
    ensures q in Loop(ls, pre, n) <==> Chosen(ls, pre, n, q)
    decreases 4 - |pre|, n
  {
    if n > 0 {
      LoopMembers(ls, pre, n - 1, q);
      var x := ls[|pre|][n - 1];
      assert ls[|pre|][..n] == ls[|pre|][..n - 1] + [x];
      if |pre| < 3 {
        var pre' := pre + [x];
        LoopMembers(ls, pre', |ls[|pre'|]|, q);
        assert ls[|pre'|][..|ls[|pre'|]|] == ls[|pre'|];
        assert Ids(q)[..|pre'|] == pre' <==> Ids(q)[..|pre|] == pre && Ids(q)[|pre|] == x;
      } else {
        assert q == Quad(pre[0], pre[1], pre[2], x) <==> Ids(q)[..3] == pre && Ids(q)[3] == x;
      }
    }
  }

  /** A quad is produced exactly when each of its stars comes from its own cell's list. */
  lemma QuadsMembers(la: seq<int>, lb: seq<int>, lc: seq<int>, ld: seq<int>, q: Quad)
    ensures q in Quads(la, lb, lc, ld) <==> q.a in la && q.b in lb && q.c in lc && q.d in ld
  {
    var ls := [la, lb, lc, ld];
    LoopMembers(ls, [], |la|, q);
    assert la[..|la|] == la;
    assert Chosen(ls, [], |la|, q) <==> Ids(q)[0] in ls[0] && Ids(q)[1] in ls[1] && Ids(q)[2] in ls[2] && Ids(q)[3] in ls[3];
  }

  /** An empty candidate list leaves the block without any quad. */
  lemma EmptyListNoQuads(la: seq<int>, lb: seq<int>, lc: seq<int>, ld: seq<int>)
    requires la == [] || lb == [] || lc == [] || ld == []
    ensures Quads(la, lb, lc, ld) == []
  {
    QuadsLength(la, lb, lc, ld);
    assert |la| * |lb| == 0 || |lc| == 0 || |ld| == 0;
  }

  /** The quads of one iteration are among those of any run of the loop that includes it. */
  lemma {:induction false} RunIncluded(ls: seq<seq<int>>, pre: seq<int>, n: nat, k: nat, q: Quad)
    requires |ls| == 4 && |pre| < 4 && k < n <= |ls[|pre|]| && q in Run(ls, pre, k)
    ensures q in Loop(ls, pre, n)
    decreases n
  {
    if k < n - 1 {
      RunIncluded(ls, pre, n - 1, k, q);
    }
  }

  /** Runs of catalog quads joined are catalog quads. */
  lemma CatalogConcat(sc: StarChart, qs: seq<Quad>, qs': seq<Quad>)
    requires CatalogQuads(sc, qs) && CatalogQuads(sc, qs')
    ensures CatalogQuads(sc, qs + qs')
  {
    assert forall k :: |qs| <= k < |qs| + |qs'| ==> (qs + qs')[k] == qs'[k - |qs|];
  }

  /** The records of two runs of quads, one after the other, are the records of the joined run. */
  lemma EncodeConcat(sc: StarChart, pre: seq<Row>, qs: seq<Quad>, qs': seq<Quad>, encode: Encoder)
    requires WellFormed(sc) && CatalogQuads(sc, qs) && CatalogQuads(sc, qs')
    requires AllEncode(sc, qs, encode) && AllEncode(sc, qs', encode)
    ensures CatalogQuads(sc, qs + qs') && AllEncode(sc, qs + qs', encode)
    ensures EncodeRows(sc, qs + qs', encode) == EncodeRows(sc, qs, encode) + EncodeRows(sc, qs', encode)
    ensures pre + EncodeRows(sc, qs + qs', encode) == pre + EncodeRows(sc, qs, encode) + EncodeRows(sc, qs', encode)
  {
    CatalogConcat(sc, qs, qs');
    assert forall k :: |qs| <= k < |qs| + |qs'| ==> (qs + qs')[k] == qs'[k - |qs|];
    assert EncodeRows(sc, qs + qs', encode) == EncodeRows(sc, qs, encode) + EncodeRows(sc, qs', encode);
  }

  /** A first failure stays the first failure when more quads follow. */
  lemma FailurePrefix(sc: StarChart, qs: seq<Quad>, qs': seq<Quad>, encode: Encoder, k: nat, e: EncodeError)
    requires WellFormed(sc) && CatalogQuads(sc, qs) && CatalogQuads(sc, qs') && FirstFailure(sc, qs, encode, k, e)
    ensures CatalogQuads(sc, qs + qs') && FirstFailure(sc, qs + qs', encode, k, e)
  {
    CatalogConcat(sc, qs, qs');
  }

  /** After a run that encodes, the first failure of the next run is the first of both. */
  lemma FailureShift(sc: StarChart, qs: seq<Quad>, qs': seq<Quad>, encode: Encoder, k: nat, e: EncodeError)
    requires WellFormed(sc) && CatalogQuads(sc, qs) && CatalogQuads(sc, qs')
    requires AllEncode(sc, qs, encode) && FirstFailure(sc, qs', encode, k, e)
    ensures CatalogQuads(sc, qs + qs') && FirstFailure(sc, qs + qs', encode, |qs| + k, e)
  {
    CatalogConcat(sc, qs, qs');
    assert forall k' :: |qs| <= k' < |qs| + |qs'| ==> (qs + qs')[k'] == qs'[k' - |qs|];
  }

  /** Every id of a candidate list indexes the catalog. */
  predicate IdsIn(sc: StarChart, l: seq<int>)
  {
    forall k :: 0 <= k < |l| ==> 0 <= l[k] < |sc.ra|
  }

  /** Four candidate lists whose ids index the catalog, and chosen stars that do too. */
  predicate ListsIn(sc: StarChart, ls: seq<seq<int>>, pre: seq<int>)
  {
    && |ls| == 4 && |pre| < 4
    && IdsIn(sc, ls[0]) && IdsIn(sc, ls[1]) && IdsIn(sc, ls[2]) && IdsIn(sc, ls[3])
    && IdsIn(sc, pre)
  }

  /** The quads of a loop over catalog ids index the catalog. */
  lemma LoopInCatalog(sc: StarChart, ls: seq<seq<int>>, pre: seq<int>, n: nat)
    requires ListsIn(sc, ls, pre) && n <= |ls[|pre|]|
    ensures CatalogQuads(sc, Loop(ls, pre, n))
  {
    var qs := Loop(ls, pre, n);
    forall k | 0 <= k < |qs|
      ensures InCatalog(sc, qs[k])
    {
      var q := qs[k];
      LoopMembers(ls, pre, n, q);
      var ids := Ids(q);
      forall t | 0 <= t < 4
        ensures 0 <= ids[t] < |sc.ra|
      {
        if t < |pre| {
          assert ids[t] == ids[..|pre|][t] == pre[t];
        } else if t == |pre| {
          assert ids[t] in ls[t][..n];
          assert ids[t] in ls[t];
        } else {
          assert ids[t] in ls[t];
        }
      }
    }
  }

  /** The quads of one iteration of a loop over catalog ids index the catalog. */
  lemma RunInCatalog(sc: StarChart, ls: seq<seq<int>>, pre: seq<int>, k: nat)
    requires ListsIn(sc, ls, pre) && k < |ls[|pre|]|
    ensures CatalogQuads(sc, Run(ls, pre, k))
  {
    if |pre| < 3 {
      ListsExtend(sc, ls, pre, k);
      LoopInCatalog(sc, ls, pre + [ls[|pre|][k]], |ls[|pre| + 1]|);
    }
  }

  /** Choosing one more star of the current list keeps every chosen id in the catalog. */
  lemma ListsExtend(sc: StarChart, ls: seq<seq<int>>, pre: seq<int>, k: nat)
    requires ListsIn(sc, ls, pre) && |pre| < 3 && k < |ls[|pre|]|
    ensures ListsIn(sc, ls, pre + [ls[|pre|][k]])
  {
    var x := ls[|pre|][k];
    forall m | 0 <= m < |pre + [x]|
      ensures 0 <= (pre + [x])[m] < |sc.ra|
    {
      if m < |pre| {
        assert (pre + [x])[m] == pre[m];
      }
    }
  }

  /**
   * What iteration k of the loop at depth |pre| appends to the table: the
   * records of its quads, or the error with which the encoder stops it.
   */
  function RunRows(sc: StarChart, ls: seq<seq<int>>, pre: seq<int>, k: nat, encode: Encoder): (r: Result<seq<Row>, EncodeError>)
    requires WellFormed(sc) && ListsIn(sc, ls, pre) && k < |ls[|pre|]|
    ensures r.Success? ==> |r.value| == if |pre| == 3 then 1 else Count(ls, |pre| + 1, |ls[|pre| + 1]|)
    decreases 4 - |pre|, k
  {
    var x := ls[|pre|][k];
    if |pre| == 3 then
      match QuadRow(sc, Quad(pre[0], pre[1], pre[2], x), encode)
      case Success(row) => Success([row])
      case Failure(e) => Failure(e)
    else
      ListsExtend(sc, ls, pre, k);
      LoopRows(sc, ls, pre + [x], |ls[|pre| + 1]|, encode)
  }

  /** What the first n iterations of the loop at depth |pre| append, or the error that stops them. */
  function LoopRows(sc: StarChart, ls: seq<seq<int>>, pre: seq<int>, n: nat, encode: Encoder): (r: Result<seq<Row>, EncodeError>)
    requires WellFormed(sc) && ListsIn(sc, ls, pre) && n <= |ls[|pre|]|
    ensures r.Success? ==> |r.value| == Count(ls, |pre|, n)
    decreases 4 - |pre|, n
  {
    if n == 0 then Success([])
    else
      match LoopRows(sc, ls, pre, n - 1, encode)
      case Failure(e) => Failure(e)
      case Success(rows) =>
        match RunRows(sc, ls, pre, n - 1, encode)
        case Failure(e) => Failure(e)
        case Success(more) => Success(rows + more)
  }

  /**
   * An iteration appends the records of all its quads exactly when they all
   * encode; otherwise it stops with the error of its first rejected quad.
   */
  lemma {:induction false} RunRowsMeaning(sc: StarChart, ls: seq<seq<int>>, pre: seq<int>, k: nat, encode: Encoder)
    requires WellFormed(sc) && ListsIn(sc, ls, pre) && k < |ls[|pre|]|
    ensures CatalogQuads(sc, Run(ls, pre, k))
    ensures RunRows(sc, ls, pre, k, encode).Success? ==>
      AllEncode(sc, Run(ls, pre, k), encode) && RunRows(sc, ls, pre, k, encode).value == EncodeRows(sc, Run(ls, pre, k), encode)
    ensures RunRows(sc, ls, pre, k, encode).Failure? ==>
      exists at :: FirstFailure(sc, Run(ls, pre, k), encode, at, RunRows(sc, ls, pre, k, encode).error)
    decreases 4 - |pre|, k, 0
  {
    RunInCatalog(sc, ls, pre, k);
    var x := ls[|pre|][k];
    if |pre| == 3 {
      var q := Quad(pre[0], pre[1], pre[2], x);
      assert Run(ls, pre, k) == [q];
      if RunRows(sc, ls, pre, k, encode).Failure? {
        assert FirstFailure(sc, Run(ls, pre, k), encode, 0, RunRows(sc, ls, pre, k, encode).error);
      }
    } else {
      ListsExtend(sc, ls, pre, k);
      LoopRowsMeaning(sc, ls, pre + [x], |ls[|pre| + 1]|, encode);
    }
  }

  /** The same for the first n iterations of a loop: the loop of permute_and_hash is all-or-first-error. */
  lemma {:induction false} LoopRowsMeaning(sc: StarChart, ls: seq<seq<int>>, pre: seq<int>, n: nat, encode: Encoder)
    requires WellFormed(sc) && ListsIn(sc, ls, pre) && n <= |ls[|pre|]|
    ensures CatalogQuads(sc, Loop(ls, pre, n))
    ensures LoopRows(sc, ls, pre, n, encode).Success? ==>
      AllEncode(sc, Loop(ls, pre, n), encode) && LoopRows(sc, ls, pre, n, encode).value == EncodeRows(sc, Loop(ls, pre, n), encode)
    ensures LoopRows(sc, ls, pre, n, encode).Failure? ==>
      exists at :: FirstFailure(sc, Loop(ls, pre, n), encode, at, LoopRows(sc, ls, pre, n, encode).error)
    decreases 4 - |pre|, n, 1
  {
    LoopInCatalog(sc, ls, pre, n);
    if n > 0 {
      var init, last := Loop(ls, pre, n - 1), Run(ls, pre, n - 1);
      RunInCatalog(sc, ls, pre, n - 1);
      LoopRowsMeaning(sc, ls, pre, n - 1, encode);
      var r := LoopRows(sc, ls, pre, n - 1, encode);
      if r.Failure? {
        var at :| FirstFailure(sc, init, encode, at, r.error);
        FailurePrefix(sc, init, last, encode, at, r.error);
      } else {
        RunRowsMeaning(sc, ls, pre, n - 1, encode);
        var r' := RunRows(sc, ls, pre, n - 1, encode);
        if r'.Failure? {
          var at :| FirstFailure(sc, last, encode, at, r'.error);
          FailureShift(sc, init, last, encode, at, r'.error);
        } else {
          EncodeConcat(sc, [], init, last, encode);
        }
      }
    }
  }

  /** Every id in the table indexes the catalog (the sentinel -1 included). */
  predicate IdsBelow(t: CellTable, n: nat)
    reads t, t.starId
    requires t.Valid()
  {
    forall i, j, r :: 0 <= i < t.grid.nRa && 0 <= j < t.grid.nDec && 0 <= r < t.grid.nBrgh ==> t.starId[i, j, r] < n
  }

  /** The stars a cell yields index the catalog when the whole table does. */
  lemma CellStarsIn(sc: StarChart, t: CellTable, i: nat, j: nat)
    requires t.Valid() && i < t.grid.nRa && j < t.grid.nDec && IdsBelow(t, |sc.ra|)
    ensures IdsIn(sc, t.GetCellStars(i, j))
  {
    var l := t.GetCellStars(i, j);
    forall k | 0 <= k < |l|
      ensures 0 <= l[k] < |sc.ra|
    {
      assert l[k] in l;
    }
  }

  /** Once an iteration of a loop fails, the loop stops with that error. */
  lemma {:induction false} LoopRowsStays(sc: StarChart, ls: seq<seq<int>>, pre: seq<int>, k: nat, n: nat, encode: Encoder)
    requires WellFormed(sc) && ListsIn(sc, ls, pre) && k <= n <= |ls[|pre|]|
    requires LoopRows(sc, ls, pre, k, encode).Failure?
    ensures LoopRows(sc, ls, pre, n, encode) == LoopRows(sc, ls, pre, k, encode)
    decreases n
  {
    if k < n {
      LoopRowsStays(sc, ls, pre, k, n - 1, encode);
    }
  }

  /**
   * Iteration k of a loop above the innermost one, in terms of the loop it
   * runs: the next loop's records follow those of the first k iterations,
   * or its error stops the loop.
   */
  lemma LoopStep(sc: StarChart, ls: seq<seq<int>>, pre: seq<int>, k: nat, encode: Encoder)
    requires WellFormed(sc) && ListsIn(sc, ls, pre) && |pre| < 3 && k < |ls[|pre|]|
    requires LoopRows(sc, ls, pre, k, encode).Success?
    ensures ListsIn(sc, ls, pre + [ls[|pre|][k]])
    ensures Count(ls, |pre|, k) + Count(ls, |pre| + 1, |ls[|pre| + 1]|) <= Count(ls, |pre|, |ls[|pre|]|)
    ensures var inner := LoopRows(sc, ls, pre + [ls[|pre|][k]], |ls[|pre| + 1]|, encode);
      && (inner.Success? ==> LoopRows(sc, ls, pre, k + 1, encode) == Success(LoopRows(sc, ls, pre, k, encode).value + inner.value))
      && (inner.Failure? ==> LoopRows(sc, ls, pre, |ls[|pre|]|, encode) == inner)
  {
    ListsExtend(sc, ls, pre, k);
    CountGrows(ls, |pre|, k + 1, |ls[|pre|]|);
    assert RunRows(sc, ls, pre, k, encode) == LoopRows(sc, ls, pre + [ls[|pre|][k]], |ls[|pre| + 1]|, encode);
    if LoopRows(sc, ls, pre, k + 1, encode).Failure? {
      LoopRowsStays(sc, ls, pre, k + 1, |ls[|pre|]|, encode);
    }
  }

  /**
   * Iteration id of the innermost loop: the record of the quad with the
   * chosen a, b and c and the id-th d follows those before it, or the
   * encoder's error ends the loop.
   */
  method NextD(sc: StarChart, sub: HashTable, ls: seq<seq<int>>, pre: seq<int>, id: nat, encode: Encoder, ghost start: seq<Row>)
    returns (err: Option<EncodeError>)
    requires WellFormed(sc) && sub.Valid() && ListsIn(sc, ls, pre) && |pre| == 3 && id < |ls[3]|
    requires |start| + Count(ls, 3, |ls[3]|) <= sub.Capacity()
    requires LoopRows(sc, ls, pre, id, encode).Success?
    requires sub.Contents() == start + LoopRows(sc, ls, pre, id, encode).value
    modifies sub`ptr, sub.codes, sub.origin, sub.alpha, sub.scale, sub.idc
    ensures sub.Valid()
    ensures err.None? ==> && LoopRows(sc, ls, pre, id + 1, encode).Success?
                          && sub.Contents() == start + LoopRows(sc, ls, pre, id + 1, encode).value
    ensures err.Some? ==> LoopRows(sc, ls, pre, |ls[3]|, encode) == Failure(err.value)
  {
    CountGrows(ls, 3, id + 1, |ls[3]|);
    match QuadRow(sc, Quad(pre[0], pre[1], pre[2], ls[3][id]), encode)
    case Failure(e) =>
      LoopRowsStays(sc, ls, pre, id + 1, |ls[3]|, encode);
      err := Some(e);
    case Success(row) =>
      sub.AddRow(row.code, row.origin, row.alpha, row.scale, row.idc);
      err := None;
  }

  /**
   * The innermost loop of permute_and_hash, over the stars d of the fourth
   * cell for the chosen a, b and c (`pre`): one record each, appended to
   * `sub`, until the encoder fails.
   */
  method HashD(sc: StarChart, sub: HashTable, ls: seq<seq<int>>, pre: seq<int>, encode: Encoder)
    returns (err: Option<EncodeError>)
    requires WellFormed(sc) && sub.Valid() && ListsIn(sc, ls, pre) && |pre| == 3
    requires sub.ptr + Count(ls, 3, |ls[3]|) <= sub.Capacity()
    modifies sub`ptr, sub.codes, sub.origin, sub.alpha, sub.scale, sub.idc
    ensures sub.Valid()
    ensures var r := LoopRows(sc, ls, pre, |ls[3]|, encode);
      && (err.None? <==> r.Success?)
      && (err.Some? ==> r.error == err.value)
      && (err.None? ==> sub.Contents() == old(sub.Contents()) + r.value)
  {
    ghost var start := sub.Contents();
    var id := 0;
    while id < |ls[3]|
      invariant 0 <= id <= |ls[3]| && sub.Valid()
      invariant LoopRows(sc, ls, pre, id, encode).Success?
      invariant sub.Contents() == start + LoopRows(sc, ls, pre, id, encode).value
    {
      err := NextD(sc, sub, ls, pre, id, encode, start);
      if err.Some? {
        return;
      }
      id := id + 1;
    }
    return None;
  }

  /** Iteration ic of the loop over c: the loop over d for the chosen a, b and c. */
  method NextC(sc: StarChart, sub: HashTable, ls: seq<seq<int>>, pre: seq<int>, ic: nat, encode: Encoder, ghost start: seq<Row>)
    returns (err: Option<EncodeError>)
    requires WellFormed(sc) && sub.Valid() && ListsIn(sc, ls, pre) && |pre| == 2 && ic < |ls[2]|
    requires |start| + Count(ls, 2, |ls[2]|) <= sub.Capacity()
    requires LoopRows(sc, ls, pre, ic, encode).Success?
    requires sub.Contents() == start + LoopRows(sc, ls, pre, ic, encode).value
    modifies sub`ptr, sub.codes, sub.origin, sub.alpha, sub.scale, sub.idc
    ensures sub.Valid()
    ensures err.None? ==> && LoopRows(sc, ls, pre, ic + 1, encode).Success?
                          && sub.Contents() == start + LoopRows(sc, ls, pre, ic + 1, encode).value
    ensures err.Some? ==> LoopRows(sc, ls, pre, |ls[2]|, encode) == Failure(err.value)
  {
    LoopStep(sc, ls, pre, ic, encode);
    err := HashD(sc, sub, ls, pre + [ls[2][ic]], encode);
  }

  /** Iteration ib of the loop over b: the loop over c for the chosen a and b. */
  method NextB(sc: StarChart, sub: HashTable, ls: seq<seq<int>>, pre: seq<int>, ib: nat, encode: Encoder, ghost start: seq<Row>)
    returns (err: Option<EncodeError>)
    requires WellFormed(sc) && sub.Valid() && ListsIn(sc, ls, pre) && |pre| == 1 && ib < |ls[1]|
    requires |start| + Count(ls, 1, |ls[1]|) <= sub.Capacity()
    requires LoopRows(sc, ls, pre, ib, encode).Success?
    requires sub.Contents() == start + LoopRows(sc, ls, pre, ib, encode).value
    modifies sub`ptr, sub.codes, sub.origin, sub.alpha, sub.scale, sub.idc
    ensures sub.Valid()
    ensures err.None? ==> && LoopRows(sc, ls, pre, ib + 1, encode).Success?
                          && sub.Contents() == start + LoopRows(sc, ls, pre, ib + 1, encode).value
    ensures err.Some? ==> LoopRows(sc, ls, pre, |ls[1]|, encode) == Failure(err.value)
  {
    LoopStep(sc, ls, pre, ib, encode);
    err := HashCD(sc, sub, ls, pre + [ls[1][ib]], encode);
  }

  /** The loop over the stars c of the third cell, for the chosen a and b (`pre`). */
  method HashCD(sc: StarChart, sub: HashTable, ls: seq<seq<int>>, pre: seq<int>, encode: Encoder)
    returns (err: Option<EncodeError>)
    requires WellFormed(sc) && sub.Valid() && ListsIn(sc, ls, pre) && |pre| == 2
    requires sub.ptr + Count(ls, 2, |ls[2]|) <= sub.Capacity()
    modifies sub`ptr, sub.codes, sub.origin, sub.alpha, sub.scale, sub.idc
    ensures sub.Valid()
    ensures var r := LoopRows(sc, ls, pre, |ls[2]|, encode);
      && (err.None? <==> r.Success?)
      && (err.Some? ==> r.error == err.value)
      && (err.None? ==> sub.Contents() == old(sub.Contents()) + r.value)
  {
    ghost var start := sub.Contents();
    var ic := 0;
    while ic < |ls[2]|
      invariant 0 <= ic <= |ls[2]| && sub.Valid()
      invariant LoopRows(sc, ls, pre, ic, encode).Success?
      invariant sub.Contents() == start + LoopRows(sc, ls, pre, ic, encode).value
    {
      err := NextC(sc, sub, ls, pre, ic, encode, start);
      if err.Some? {
        return;
      }
      ic := ic + 1;
    }
    return None;
  }

  /** The loop over the stars b of the second cell, for the chosen a (`pre`). */
  method HashBCD(sc: StarChart, sub: HashTable, ls: seq<seq<int>>, pre: seq<int>, encode: Encoder)
    returns (err: Option<EncodeError>)
    requires WellFormed(sc) && sub.Valid() && ListsIn(sc, ls, pre) && |pre| == 1
    requires sub.ptr + Count(ls, 1, |ls[1]|) <= sub.Capacity()
    modifies sub`ptr, sub.codes, sub.origin, sub.alpha, sub.scale, sub.idc
    ensures sub.Valid()
    ensures var r := LoopRows(sc, ls, pre, |ls[1]|, encode);
      && (err.None? <==> r.Success?)
      && (err.Some? ==> r.error == err.value)
      && (err.None? ==> sub.Contents() == old(sub.Contents()) + r.value)
  {
    ghost var start := sub.Contents();
    var ib := 0;
    while ib < |ls[1]|
      invariant 0 <= ib <= |ls[1]| && sub.Valid()
      invariant LoopRows(sc, ls, pre, ib, encode).Success?
      invariant sub.Contents() == start + LoopRows(sc, ls, pre, ib, encode).value
    {
      err := NextB(sc, sub, ls, pre, ib, encode, start);
      if err.Some? {
        return;
      }
      ib := ib + 1;
    }
    return None;
  }

  /** Iteration ia of the loop over a: the loop over b for the chosen a. */
  method NextA(sc: StarChart, sub: HashTable, ls: seq<seq<int>>, ia: nat, encode: Encoder)
    returns (err: Option<EncodeError>)
    requires WellFormed(sc) && sub.Valid() && ListsIn(sc, ls, []) && ia < |ls[0]|
    requires Count(ls, 0, |ls[0]|) <= sub.Capacity()
    requires LoopRows(sc, ls, [], ia, encode).Success?
    requires sub.Contents() == LoopRows(sc, ls, [], ia, encode).value
    modifies sub`ptr, sub.codes, sub.origin, sub.alpha, sub.scale, sub.idc
    ensures sub.Valid()
    ensures err.None? ==> && LoopRows(sc, ls, [], ia + 1, encode).Success?
                          && sub.Contents() == LoopRows(sc, ls, [], ia + 1, encode).value
    ensures err.Some? ==> LoopRows(sc, ls, [], |ls[0]|, encode) == Failure(err.value)
  {
    LoopStep(sc, ls, [], ia, encode);
    err := HashBCD(sc, sub, ls, [] + [ls[0][ia]], encode);
  }

  /** `HashTable(len(a) * len(b) * len(c) * len(d))`: an empty table with room for every quad. */
  method NewQuadTable(la: seq<int>, lb: seq<int>, lc: seq<int>, ld: seq<int>) returns (sub: HashTable)
    ensures fresh(sub) && fresh(sub.codes) && fresh(sub.origin) && fresh(sub.alpha) && fresh(sub.scale) && fresh(sub.idc)
    ensures sub.Valid() && sub.ptr == 0 && sub.Contents() == []
    ensures sub.Capacity() == |Quads(la, lb, lc, ld)| == Count([la, lb, lc, ld], 0, |la|)
  {
    sub := new HashTable(|la| * |lb| * |lc| * |ld|);
    QuadsLength(la, lb, lc, ld);
    LoopCount([la, lb, lc, ld], [], |la|);
  }

  /**
   * The outer loop of permute_and_hash, over the stars a of the first cell:
   * a table sized for the whole product, filled quad by quad.
   */
  method HashABCD(sc: StarChart, la: seq<int>, lb: seq<int>, lc: seq<int>, ld: seq<int>, encode: Encoder)
    returns (r: Result<HashTable, EncodeError>)
    requires WellFormed(sc) && ListsIn(sc, [la, lb, lc, ld], [])
    ensures var rows := LoopRows(sc, [la, lb, lc, ld], [], |la|, encode);
      && (r.Success? <==> rows.Success?)
      && (r.Failure? ==> r.error == rows.error)
      && (r.Success? ==> && fresh(r.value) && r.value.Valid()
                         && r.value.Contents() == rows.value
                         && r.value.Capacity() == Count([la, lb, lc, ld], 0, |la|))
  {
    var ls := [la, lb, lc, ld];
    var sub := NewQuadTable(la, lb, lc, ld);
    var ia := 0;
    while ia < |la|
      invariant 0 <= ia <= |la|
      invariant fresh(sub) && fresh(sub.codes) && fresh(sub.origin) && fresh(sub.alpha) && fresh(sub.scale) && fresh(sub.idc)
      invariant sub.Valid() && sub.Capacity() == Count(ls, 0, |la|)
      invariant LoopRows(sc, ls, [], ia, encode).Success?
      invariant sub.Contents() == LoopRows(sc, ls, [], ia, encode).value
    {
      var err := NextA(sc, sub, ls, ia, encode);
      if err.Some? {
        return Failure(err.value);
      }
      ia := ia + 1;
    }
    return Success(sub);
  }

  /**
   * permute_and_hash: one record per quad of the block (i, j), (i+1, j),
   * (i, j+1), (i+1, j+1), in nested loop order, in a table whose capacity
   * is exactly the number of quads.  The guard on line 82 parses as a
   * chained comparison that holds only when all four lists are empty; any
   * empty list gives zero quads anyway.  The first error of the encoder
   * propagates.
   */
  method PermuteAndHash(sc: StarChart, t: CellTable, i: nat, j: nat, encode: Encoder)
    returns (r: Result<HashTable, EncodeError>)
    requires WellFormed(sc) && t.Valid() && i + 1 < t.grid.nRa && j + 1 < t.grid.nDec
    requires IdsBelow(t, |sc.ra|)
    ensures var qs := old(Quads(t.GetCellStars(i, j), t.GetCellStars(i + 1, j),
                                t.GetCellStars(i, j + 1), t.GetCellStars(i + 1, j + 1)));
      && CatalogQuads(sc, qs)
      && (r.Success? <==> AllEncode(sc, qs, encode))
      && (r.Failure? ==> exists at :: FirstFailure(sc, qs, encode, at, r.error))
      && (r.Success? ==> && fresh(r.value) && r.value.Valid()
                         && r.value.Contents() == EncodeRows(sc, qs, encode)
                         && r.value.Capacity() == |qs|)
  {
    var la, lb := t.GetCellStars(i, j), t.GetCellStars(i + 1, j);
    var lc, ld := t.GetCellStars(i, j + 1), t.GetCellStars(i + 1, j + 1);
    CellStarsIn(sc, t, i, j);
    CellStarsIn(sc, t, i + 1, j);
    CellStarsIn(sc, t, i, j + 1);
    CellStarsIn(sc, t, i + 1, j + 1);
    ghost var ls := [la, lb, lc, ld];
    assert ListsIn(sc, ls, []);
    LoopRowsMeaning(sc, ls, [], |la|, encode);
    LoopCount(ls, [], |la|);
    if |la| == |lb| && |lb| == |lc| && |lc| == |ld| && |ld| == 0 {
      var empty := new HashTable(0);
      return Success(empty);
    }
    r := HashABCD(sc, la, lb, lc, ld, encode);
  }

  // ---------------------------------------------------------------------------
  // build_hashtable
  // ---------------------------------------------------------------------------

  /** The keyword arguments of the depth-0 grid. */
  datatype GridSpec = GridSpec(raStart: real, decStart: real, raEnd: real, decEnd: real,
                               nRa: int, nDec: int, nBrgh: int, depth: int)

  /** Grid.__init__ failing, or the RuntimeError of an empty table. */
  datatype BuildError = BadGrid(error: GridError) | NegativeShape | NoHashcodes

  /** The quads of block (i, j) at level g: stars of (i, j), (i+1, j), (i, j+1) and (i+1, j+1). */
  function BlockQuads(sc: StarChart, g: Grid, i: int, j: int): seq<Quad>
    requires WellFormed(sc) && g.nBrgh >= 0
  {
    Quads(CellStars(sc, g, i, j), CellStars(sc, g, i + 1, j),
          CellStars(sc, g, i, j + 1), CellStars(sc, g, i + 1, j + 1))
  }

  /** Some cell of block (i, j) contributes no star. */
  predicate BlockEmpty(sc: StarChart, g: Grid, i: int, j: int)
    requires WellFormed(sc) && g.nBrgh >= 0
  {
    || CellStars(sc, g, i, j) == [] || CellStars(sc, g, i + 1, j) == []
    || CellStars(sc, g, i, j + 1) == [] || CellStars(sc, g, i + 1, j + 1) == []
  }

  /**
   * `blocks` gives the quads of every block of every level grid of the
   * catalog.  The functions that follow take the blocks as such a function,
   * which keeps their definitions apart from the catalog.
   */
  ghost predicate BlocksOf(sc: StarChart, blocks: (Grid, int, int) -> seq<Quad>)
    requires WellFormed(sc)
  {
    forall g: Grid, i: int, j: int {:trigger BlockQuads(sc, g, i, j)} ::
      g.nBrgh >= 0 ==> blocks(g, i, j) == BlockQuads(sc, g, i, j)
  }

  /** The quads of the blocks of the catalog, as one function. */
  function CatalogBlocks(sc: StarChart): (Grid, int, int) -> seq<Quad>
    requires WellFormed(sc)
  {
    (g: Grid, i: int, j: int) => if g.nBrgh >= 0 then BlockQuads(sc, g, i, j) else []
  }

  /** CatalogBlocks gives the quads of every block. */
  lemma CatalogBlocksOf(sc: StarChart)
    requires WellFormed(sc)
    ensures BlocksOf(sc, CatalogBlocks(sc))
  {
  }

  /** The quads of blocks (i, 0), ..., (i, n - 1) of level g: the dec loop for one ra index. */
  function DecLoopQuads(blocks: (Grid, int, int) -> seq<Quad>, g: Grid, i: int, n: int): seq<Quad>
    decreases n
  {
    if n <= 0 then [] else DecLoopQuads(blocks, g, i, n - 1) + blocks(g, i, n - 1)
  }

  /** The quads of the ra indices 0, ..., n - 1, each followed by its dec loop up to m. */
  function RaLoopQuads(blocks: (Grid, int, int) -> seq<Quad>, g: Grid, n: int, m: int): seq<Quad>
    decreases n
  {
    if n <= 0 then [] else RaLoopQuads(blocks, g, n - 1, m) + DecLoopQuads(blocks, g, n - 1, m)
  }

  /** The quads of one level: ra index 0 .. n_ra - 2, dec index 0 .. n_dec - 2. */
  function LevelQuads(blocks: (Grid, int, int) -> seq<Quad>, g: Grid): seq<Quad>
  {
    RaLoopQuads(blocks, g, g.nRa - 1, g.nDec - 1)
  }

  /** The quads of levels 0, ..., k - 1, level l on the grid descended l times. */
  function TableQuads(blocks: (Grid, int, int) -> seq<Quad>, g: Grid, k: nat): seq<Quad>
    requires Valid(g)
  {
    if k == 0 then [] else TableQuads(blocks, g, k - 1) + LevelQuads(blocks, DescendN(g, k - 1))
  }

  /** The positions of two stars that lie in different cells of one level differ. */
  lemma SeparateCells(g: Grid, ra: real, dec: real, i: int, j: int, ra': real, dec': real, i': int, j': int)
    requires Valid(g) && g.nRa > 0 && g.nDec > 0
    requires InCell(g, ra, dec, i, j) && InCell(g, ra', dec', i', j') && (i, j) != (i', j')
    ensures Point(ra, dec) != Point(ra', dec')
  {
    if ra == ra' && dec == dec' {
      CellsDisjoint(g, ra, dec, i, j, i', j');
    }
  }

  /**
   * The four stars of a block quad lie in four different cells, so their
   * positions are pairwise distinct (and so are the star ids).
   */
  lemma BlockQuadSeparated(sc: StarChart, g: Grid, i: int, j: int, q: Quad)
    requires WellFormed(sc) && Valid(g) && g.nRa > 0 && g.nDec > 0 && g.nBrgh >= 0
    requires q in BlockQuads(sc, g, i, j)
    ensures InCatalog(sc, q)
    ensures var p := Positions(sc, q);
      p[0] != p[1] && p[0] != p[2] && p[0] != p[3] && p[1] != p[2] && p[1] != p[3] && p[2] != p[3]
  {
    QuadsMembers(CellStars(sc, g, i, j), CellStars(sc, g, i + 1, j),
                 CellStars(sc, g, i, j + 1), CellStars(sc, g, i + 1, j + 1), q);
    SeparateCells(g, sc.ra[q.a], sc.dec[q.a], i, j, sc.ra[q.b], sc.dec[q.b], i + 1, j);
    SeparateCells(g, sc.ra[q.a], sc.dec[q.a], i, j, sc.ra[q.c], sc.dec[q.c], i, j + 1);
    SeparateCells(g, sc.ra[q.a], sc.dec[q.a], i, j, sc.ra[q.d], sc.dec[q.d], i + 1, j + 1);
    SeparateCells(g, sc.ra[q.b], sc.dec[q.b], i + 1, j, sc.ra[q.c], sc.dec[q.c], i, j + 1);
    SeparateCells(g, sc.ra[q.b], sc.dec[q.b], i + 1, j, sc.ra[q.d], sc.dec[q.d], i + 1, j + 1);
    SeparateCells(g, sc.ra[q.c], sc.dec[q.c], i, j + 1, sc.ra[q.d], sc.dec[q.d], i + 1, j + 1);
  }

  /** Every quad of a block encodes: its four positions are not all equal. */
  lemma BlockEncodes(sc: StarChart, g: Grid, i: int, j: int, encode: Encoder)
    requires WellFormed(sc) && Valid(g) && g.nRa > 0 && g.nDec > 0 && g.nBrgh >= 0 && IsQuadEncoder(encode)
    ensures CatalogQuads(sc, BlockQuads(sc, g, i, j)) && AllEncode(sc, BlockQuads(sc, g, i, j), encode)
  {
    var qs := BlockQuads(sc, g, i, j);
    forall k | 0 <= k < |qs|
      ensures InCatalog(sc, qs[k]) && QuadRow(sc, qs[k], encode).Success?
    {
      var q := qs[k];
      BlockQuadSeparated(sc, g, i, j, q);
      var p := Positions(sc, q);
      assert !AllEqual(p);
      assert GenerateQuadCode(p).Success?;
    }
  }

  /** A block yields no quad exactly when one of its four cells yields no star. */
  lemma BlockQuadsEmpty(sc: StarChart, g: Grid, i: int, j: int)
    requires WellFormed(sc) && g.nBrgh >= 0
    ensures BlockQuads(sc, g, i, j) == [] <==> BlockEmpty(sc, g, i, j)
  {
    var la, lb := CellStars(sc, g, i, j), CellStars(sc, g, i + 1, j);
    var lc, ld := CellStars(sc, g, i, j + 1), CellStars(sc, g, i + 1, j + 1);
    if BlockEmpty(sc, g, i, j) {
      EmptyListNoQuads(la, lb, lc, ld);
    } else {
      QuadsMembers(la, lb, lc, ld, Quad(la[0], lb[0], lc[0], ld[0]));
    }
  }

  /** An empty dec loop yields nothing. */
  lemma DecLoopNone(blocks: (Grid, int, int) -> seq<Quad>, g: Grid, i: int, n: int)
    requires n <= 0
    ensures DecLoopQuads(blocks, g, i, n) == []
  {
  }

  /** An empty ra loop yields nothing. */
  lemma RaLoopNone(blocks: (Grid, int, int) -> seq<Quad>, g: Grid, n: int, m: int)
    requires n <= 0
    ensures RaLoopQuads(blocks, g, n, m) == []
  {
  }

  /** An ra loop whose dec loops are all empty yields nothing. */
  lemma {:induction false} RaLoopNoDec(blocks: (Grid, int, int) -> seq<Quad>, g: Grid, n: int, m: int)
    requires m <= 0
    ensures RaLoopQuads(blocks, g, n, m) == []
    decreases n
  {
    if n > 0 {
      RaLoopNoDec(blocks, g, n - 1, m);
      DecLoopNone(blocks, g, n - 1, m);
    }
  }

  /** A level without block (0, 0) has no blocks at all and yields nothing. */
  lemma LevelNone(blocks: (Grid, int, int) -> seq<Quad>, g: Grid)
    requires !IsBlock(g, 0, 0)
    ensures LevelQuads(blocks, g) == []
  {
    if g.nRa - 1 <= 0 {
      RaLoopNone(blocks, g, g.nRa - 1, g.nDec - 1);
    } else {
      RaLoopNoDec(blocks, g, g.nRa - 1, g.nDec - 1);
    }
  }

  /** The dec loop yields the quads of its blocks and nothing else. */
  lemma {:induction false} DecLoopMembers(blocks: (Grid, int, int) -> seq<Quad>, g: Grid, i: int, n: int, q: Quad)
    ensures q in DecLoopQuads(blocks, g, i, n) <==> exists j :: 0 <= j < n && q in blocks(g, i, j)
    decreases n
  {
    if n > 0 {
      DecLoopMembers(blocks, g, i, n - 1, q);
    }
  }

  /** The ra loop yields the quads of the blocks (i, j), i < n and j < m, and nothing else. */
  lemma {:induction false} RaLoopMembers(blocks: (Grid, int, int) -> seq<Quad>, g: Grid, n: int, m: int, q: Quad)
    ensures q in RaLoopQuads(blocks, g, n, m) <==>
      exists i, j :: 0 <= i < n && 0 <= j < m && q in blocks(g, i, j)
    decreases n
  {
    if n > 0 {
      RaLoopMembers(blocks, g, n - 1, m, q);
      DecLoopMembers(blocks, g, n - 1, m, q);
    }
  }

  /** A block of a level: (i, j) with 0 <= i < n_ra - 1 and 0 <= j < n_dec - 1. */
  predicate IsBlock(g: Grid, i: int, j: int)
  {
    0 <= i < g.nRa - 1 && 0 <= j < g.nDec - 1
  }

  /** Some block of level d holds q. */
  ghost predicate InLevel(blocks: (Grid, int, int) -> seq<Quad>, d: Grid, q: Quad)
  {
    exists i, j :: IsBlock(d, i, j) && q in blocks(d, i, j)
  }

  /** Some block of some level l < k, level l being g descended l times, holds q. */
  ghost predicate InLevels(blocks: (Grid, int, int) -> seq<Quad>, g: Grid, k: nat, q: Quad)
    requires Valid(g)
  {
    exists l: nat :: l < k && InLevel(blocks, DescendN(g, l), q)
  }

  /** The quads of one level are exactly the quads of its blocks. */
  lemma LevelMembers(blocks: (Grid, int, int) -> seq<Quad>, d: Grid, q: Quad)
    ensures q in LevelQuads(blocks, d) <==> InLevel(blocks, d, q)
  {
    RaLoopMembers(blocks, d, d.nRa - 1, d.nDec - 1, q);
    if q in LevelQuads(blocks, d) {
      var i, j :| 0 <= i < d.nRa - 1 && 0 <= j < d.nDec - 1 && q in blocks(d, i, j);
      assert IsBlock(d, i, j);
    }
  }

  /** The levels below k + 1 are the levels below k and level k. */
  lemma LevelsStep(blocks: (Grid, int, int) -> seq<Quad>, g: Grid, k: nat, q: Quad)
    requires Valid(g)
    ensures InLevels(blocks, g, k + 1, q) <==> InLevels(blocks, g, k, q) || InLevel(blocks, DescendN(g, k), q)
  {
    if InLevels(blocks, g, k + 1, q) {
      var l: nat :| l < k + 1 && InLevel(blocks, DescendN(g, l), q);
      if l < k {
        assert InLevels(blocks, g, k, q);
      }
    }
    if InLevel(blocks, DescendN(g, k), q) {
      assert k < k + 1;
    }
  }

  /**
   * The table built over k levels holds exactly the quads of the blocks
   * (i, j), 0 <= i < n_ra - 1 and 0 <= j < n_dec - 1, of the levels l < k,
   * level l being the grid descended l times.
   */
  lemma {:induction false} LevelsMembers(blocks: (Grid, int, int) -> seq<Quad>, g: Grid, k: nat, q: Quad)
    requires Valid(g)
    ensures q in TableQuads(blocks, g, k) <==>
      exists l: nat, i, j :: l < k && IsBlock(DescendN(g, l), i, j) && q in blocks(DescendN(g, l), i, j)
  {
    LevelsIn(blocks, g, k, q);
    LevelsBlocks(blocks, g, k, q);
  }

  /** The inductive core of LevelsMembers, with the levels folded into InLevels. */
  lemma {:induction false} LevelsIn(blocks: (Grid, int, int) -> seq<Quad>, g: Grid, k: nat, q: Quad)
    requires Valid(g)
    ensures q in TableQuads(blocks, g, k) <==> InLevels(blocks, g, k, q)
  {
    if k > 0 {
      var d := DescendN(g, k - 1);
      assert TableQuads(blocks, g, k) == TableQuads(blocks, g, k - 1) + LevelQuads(blocks, d);
      LevelsIn(blocks, g, k - 1, q);
      LevelMembers(blocks, d, q);
      LevelsStep(blocks, g, k - 1, q);
    }
  }

  /** InLevels unfolded into its level and block. */
  lemma LevelsBlocks(blocks: (Grid, int, int) -> seq<Quad>, g: Grid, k: nat, q: Quad)
    requires Valid(g)
    ensures InLevels(blocks, g, k, q) <==>
      exists l: nat, i, j :: l < k && IsBlock(DescendN(g, l), i, j) && q in blocks(DescendN(g, l), i, j)
  {
    if InLevels(blocks, g, k, q) {
      var l: nat :| l < k && InLevel(blocks, DescendN(g, l), q);
      var i, j :| IsBlock(DescendN(g, l), i, j) && q in blocks(DescendN(g, l), i, j);
      assert exists l: nat, i, j :: l < k && IsBlock(DescendN(g, l), i, j) && q in blocks(DescendN(g, l), i, j);
    }
    if exists l: nat, i, j :: l < k && IsBlock(DescendN(g, l), i, j) && q in blocks(DescendN(g, l), i, j) {
      var l: nat, i, j :| l < k && IsBlock(DescendN(g, l), i, j) && q in blocks(DescendN(g, l), i, j);
      assert InLevel(blocks, DescendN(g, l), q);
      assert InLevels(blocks, g, k, q);
    }
  }

  /** The same, with the blocks of the catalog. */
  lemma TableMembers(sc: StarChart, blocks: (Grid, int, int) -> seq<Quad>, g: Grid, k: nat, q: Quad)
    requires WellFormed(sc) && BlocksOf(sc, blocks) && Valid(g) && g.nBrgh >= 0
    ensures q in TableQuads(blocks, g, k) <==>
      exists l: nat, i, j :: l < k && IsBlock(DescendN(g, l), i, j) && q in BlockQuads(sc, DescendN(g, l), i, j)
  {
    LevelsMembers(blocks, g, k, q);
    if q in TableQuads(blocks, g, k) {
      var l: nat, i, j :| l < k && IsBlock(DescendN(g, l), i, j) && q in blocks(DescendN(g, l), i, j);
      assert q in BlockQuads(sc, DescendN(g, l), i, j);
    }
    if exists l: nat, i, j :: l < k && IsBlock(DescendN(g, l), i, j) && q in BlockQuads(sc, DescendN(g, l), i, j) {
      var l: nat, i, j :| l < k && IsBlock(DescendN(g, l), i, j) && q in BlockQuads(sc, DescendN(g, l), i, j);
      assert q in blocks(DescendN(g, l), i, j);
    }
  }

  /** The table over k levels is empty exactly when every block it visits yields no quad. */
  lemma TableEmpty(blocks: (Grid, int, int) -> seq<Quad>, g: Grid, k: nat)
    requires Valid(g)
    ensures TableQuads(blocks, g, k) == [] <==>
      forall l: nat, i, j :: l < k && IsBlock(DescendN(g, l), i, j) ==> blocks(DescendN(g, l), i, j) == []
  {
    var qs := TableQuads(blocks, g, k);
    if qs != [] {
      LevelsMembers(blocks, g, k, qs[0]);
    } else {
      forall l: nat, i, j | l < k && IsBlock(DescendN(g, l), i, j)
        ensures blocks(DescendN(g, l), i, j) == []
      {
        var b := blocks(DescendN(g, l), i, j);
        if b != [] {
          LevelsMembers(blocks, g, k, b[0]);
        }
      }
    }
  }

  /** With the blocks of the catalog, a visited block yields no quad exactly when it is BlockEmpty. */
  lemma CatalogBlocksEmpty(sc: StarChart, blocks: (Grid, int, int) -> seq<Quad>, g: Grid, k: nat)
    requires WellFormed(sc) && BlocksOf(sc, blocks) && Valid(g) && g.nBrgh >= 0
    ensures (forall l: nat, i, j :: l < k && IsBlock(DescendN(g, l), i, j) ==> blocks(DescendN(g, l), i, j) == []) <==>
      forall l: nat, i, j :: l < k && IsBlock(DescendN(g, l), i, j) ==> BlockEmpty(sc, DescendN(g, l), i, j)
  {
    forall l: nat, i, j | l < k && IsBlock(DescendN(g, l), i, j)
      ensures blocks(DescendN(g, l), i, j) == [] <==> BlockEmpty(sc, DescendN(g, l), i, j)
    {
      BlockQuadsEmpty(sc, DescendN(g, l), i, j);
    }
  }

  /**
   * build_hashtable raises "No hashcodes" exactly when, at every level, every
   * visited block has a cell without stars.
   */
  lemma NoHashcodesIff(sc: StarChart, blocks: (Grid, int, int) -> seq<Quad>, g: Grid, k: nat)
    requires WellFormed(sc) && BlocksOf(sc, blocks) && Valid(g) && g.nBrgh >= 0
    ensures TableQuads(blocks, g, k) == [] <==>
      forall l: nat, i, j :: l < k && IsBlock(DescendN(g, l), i, j) ==> BlockEmpty(sc, DescendN(g, l), i, j)
  {
    TableEmpty(blocks, g, k);
    CatalogBlocksEmpty(sc, blocks, g, k);
  }

  /** Cell (i, j) of the table _stars_in_subgrid builds yields CellStars. */
  lemma SubgridCell(sc: StarChart, g: Grid, t: CellTable, i: nat, j: nat)
    requires WellFormed(sc) && t.Valid() && t.grid == g && i < g.nRa && j < g.nDec
    requires forall i', j', r' :: 0 <= i' < g.nRa && 0 <= j' < g.nDec && 0 <= r' < g.nBrgh ==>
      t.starId[i', j', r'] == Slot(sc, g, i', j', r')
    ensures t.GetCellStars(i, j) == CellStars(sc, g, i, j)
  {
    assert t.Cell(i, j) == CellSlots(sc, g, i, j);
  }

  /**
   * The _stars_in_subgrid table of a level, seen from block (i, j): its ids
   * index the catalog, and its four cells yield the quads of the block.
   */
  method BlockTable(sc: StarChart, g: Grid, i: nat, j: nat) returns (t: CellTable)
    requires WellFormed(sc) && g.nBrgh >= 0 && i + 1 < g.nRa && j + 1 < g.nDec
    ensures fresh(t) && t.Valid() && t.grid == g && IdsBelow(t, |sc.ra|)
    ensures Quads(t.GetCellStars(i, j), t.GetCellStars(i + 1, j), t.GetCellStars(i, j + 1), t.GetCellStars(i + 1, j + 1))
      == BlockQuads(sc, g, i, j)
  {
    t := StarsInSubgrid(sc, g);
    SubgridCell(sc, g, t, i, j);
    SubgridCell(sc, g, t, i + 1, j);
    SubgridCell(sc, g, t, i, j + 1);
    SubgridCell(sc, g, t, i + 1, j + 1);
  }

  /**
   * The body of the dec loop for block (i, j): a fresh _stars_in_subgrid
   * table of the level and permute_and_hash on it, which cannot fail.
   */
  method HashBlock(sc: StarChart, g: Grid, i: nat, j: nat, encode: Encoder,
                   ghost blocks: (Grid, int, int) -> seq<Quad>) returns (sub: HashTable)
    requires WellFormed(sc) && BlocksOf(sc, blocks) && Valid(g) && g.nBrgh >= 0 && i + 1 < g.nRa && j + 1 < g.nDec
    requires IsQuadEncoder(encode)
    ensures fresh(sub) && sub.Valid()
    ensures var qs := blocks(g, i, j);
      && CatalogQuads(sc, qs) && AllEncode(sc, qs, encode) && sub.Contents() == EncodeRows(sc, qs, encode)
  {
    var t := BlockTable(sc, g, i, j);
    BlockEncodes(sc, g, i, j, encode);
    var r := PermuteAndHash(sc, t, i, j, encode);
    sub := r.value;
    assert blocks(g, i, j) == BlockQuads(sc, g, i, j);
  }

  /** One iteration of the dec loop: the records of block (i, j) appended to the table. */
  method AppendBlock(sc: StarChart, g: Grid, i: nat, j: nat, htable: HashTable, encode: Encoder,
                     ghost blocks: (Grid, int, int) -> seq<Quad>)
    requires WellFormed(sc) && BlocksOf(sc, blocks) && Valid(g) && g.nBrgh >= 0 && i + 1 < g.nRa && j + 1 < g.nDec
    requires IsQuadEncoder(encode)
    requires htable.Valid() && htable.Capacity() == htable.ptr
    modifies htable
    ensures htable.Valid() && htable.Capacity() == htable.ptr
    ensures var qs := blocks(g, i, j);
      && CatalogQuads(sc, qs) && AllEncode(sc, qs, encode)
      && htable.Contents() == old(htable.Contents()) + EncodeRows(sc, qs, encode)
  {
    var sub := HashBlock(sc, g, i, j, encode, blocks);
    htable.Append(sub);
  }

  /**
   * One iteration of the dec loop: block (i, j) appends its records after
   * those of the blocks before it.
   */
  method NextDec(sc: StarChart, g: Grid, i: nat, j: nat, htable: HashTable, encode: Encoder,
                 ghost blocks: (Grid, int, int) -> seq<Quad>, ghost start: seq<Row>)
    requires WellFormed(sc) && BlocksOf(sc, blocks) && Valid(g) && g.nBrgh >= 0 && i + 1 < g.nRa && j + 1 < g.nDec
    requires IsQuadEncoder(encode)
    requires htable.Valid() && htable.Capacity() == htable.ptr
    requires var part := DecLoopQuads(blocks, g, i, j);
      && CatalogQuads(sc, part) && AllEncode(sc, part, encode)
      && htable.Contents() == start + EncodeRows(sc, part, encode)
    modifies htable
    ensures htable.Valid() && htable.Capacity() == htable.ptr
    ensures var part := DecLoopQuads(blocks, g, i, j + 1);
      && CatalogQuads(sc, part) && AllEncode(sc, part, encode)
      && htable.Contents() == start + EncodeRows(sc, part, encode)
  {
    ghost var part := DecLoopQuads(blocks, g, i, j);
    AppendBlock(sc, g, i, j, htable, encode, blocks);
    EncodeConcat(sc, start, part, blocks(g, i, j), encode);
  }

  /**
   * The loop over dec indices for one ra index i: for every block (i, j),
   * a fresh _stars_in_subgrid table, permute_and_hash, and an append.
   */
  method HashDecLoop(sc: StarChart, g: Grid, i: nat, htable: HashTable, encode: Encoder,
                     ghost blocks: (Grid, int, int) -> seq<Quad>)
    requires WellFormed(sc) && BlocksOf(sc, blocks) && Valid(g) && g.nBrgh >= 0 && i + 1 < g.nRa
    requires IsQuadEncoder(encode)
    requires htable.Valid() && htable.Capacity() == htable.ptr
    modifies htable
    ensures htable.Valid() && htable.Capacity() == htable.ptr
    ensures var qs := DecLoopQuads(blocks, g, i, g.nDec - 1);
      && CatalogQuads(sc, qs) && AllEncode(sc, qs, encode)
      && htable.Contents() == old(htable.Contents()) + EncodeRows(sc, qs, encode)
  {
    ghost var start := htable.Contents();
    var j := 0;
    while j < g.nDec - 1
      invariant 0 <= j && (j <= g.nDec - 1 || j == 0)
      invariant htable.Valid() && htable.Capacity() == htable.ptr
      invariant var part := DecLoopQuads(blocks, g, i, j);
        && CatalogQuads(sc, part) && AllEncode(sc, part, encode)
        && htable.Contents() == start + EncodeRows(sc, part, encode)
    {
      NextDec(sc, g, i, j, htable, encode, blocks, start);
      j := j + 1;
    }
    if g.nDec - 1 < 0 {
      DecLoopNone(blocks, g, i, g.nDec - 1);
    }
  }

  /**
   * One iteration of the ra loop: the dec loop of index i appends its
   * records after those of the ra indices before it.
   */
  method AppendRa(sc: StarChart, g: Grid, i: nat, htable: HashTable, encode: Encoder,
                  ghost blocks: (Grid, int, int) -> seq<Quad>, ghost start: seq<Row>)
    requires WellFormed(sc) && BlocksOf(sc, blocks) && Valid(g) && g.nBrgh >= 0 && i + 1 < g.nRa
    requires IsQuadEncoder(encode)
    requires htable.Valid() && htable.Capacity() == htable.ptr
    requires var part := RaLoopQuads(blocks, g, i, g.nDec - 1);
      && CatalogQuads(sc, part) && AllEncode(sc, part, encode)
      && htable.Contents() == start + EncodeRows(sc, part, encode)
    modifies htable
    ensures htable.Valid() && htable.Capacity() == htable.ptr
    ensures var part := RaLoopQuads(blocks, g, i + 1, g.nDec - 1);
      && CatalogQuads(sc, part) && AllEncode(sc, part, encode)
      && htable.Contents() == start + EncodeRows(sc, part, encode)
  {
    ghost var part := RaLoopQuads(blocks, g, i, g.nDec - 1);
    HashDecLoop(sc, g, i, htable, encode, blocks);
    ghost var run := DecLoopQuads(blocks, g, i, g.nDec - 1);
    EncodeConcat(sc, start, part, run, encode);
    assert RaLoopQuads(blocks, g, i + 1, g.nDec - 1) == part + run;
  }

  /** One level: the ra indices 0 .. n_ra - 2, each with its dec loop. */
  method HashLevel(sc: StarChart, g: Grid, htable: HashTable, encode: Encoder, ghost blocks: (Grid, int, int) -> seq<Quad>)
    requires WellFormed(sc) && BlocksOf(sc, blocks) && Valid(g) && g.nBrgh >= 0 && IsQuadEncoder(encode)
    requires htable.Valid() && htable.Capacity() == htable.ptr
    modifies htable
    ensures htable.Valid() && htable.Capacity() == htable.ptr
    ensures var qs := LevelQuads(blocks, g);
      && CatalogQuads(sc, qs) && AllEncode(sc, qs, encode)
      && htable.Contents() == old(htable.Contents()) + EncodeRows(sc, qs, encode)
  {
    ghost var start := htable.Contents();
    var i := 0;
    while i < g.nRa - 1
      invariant 0 <= i && (i <= g.nRa - 1 || i == 0)
      invariant htable.Valid() && htable.Capacity() == htable.ptr
      invariant var part := RaLoopQuads(blocks, g, i, g.nDec - 1);
        && CatalogQuads(sc, part) && AllEncode(sc, part, encode)
        && htable.Contents() == start + EncodeRows(sc, part, encode)
    {
      AppendRa(sc, g, i, htable, encode, blocks, start);
      i := i + 1;
    }
    if g.nRa - 1 < 0 {
      RaLoopNone(blocks, g, g.nRa - 1, g.nDec - 1);
    }
  }

  /** Some level below k, level l being g descended l times, has a block. */
  ghost predicate SomeBlockBelow(g: Grid, k: nat)
    requires Valid(g)
  {
    k > 0 && (SomeBlockBelow(g, k - 1) || IsBlock(DescendN(g, k - 1), 0, 0))
  }

  /** SomeBlockBelow is the existence of a level l < k with a block. */
  lemma {:induction false} SomeBlockBelowIff(g: Grid, k: nat)
    requires Valid(g)
    ensures SomeBlockBelow(g, k) <==> exists l: nat :: l < k && IsBlock(DescendN(g, l), 0, 0)
  {
    if k > 0 {
      SomeBlockBelowIff(g, k - 1);
      if SomeBlockBelow(g, k - 1) {
        var l: nat :| l < k - 1 && IsBlock(DescendN(g, l), 0, 0);
        assert l < k && IsBlock(DescendN(g, l), 0, 0);
      }
      if IsBlock(DescendN(g, k - 1), 0, 0) {
        assert k - 1 < k && IsBlock(DescendN(g, k - 1), 0, 0);
      }
      if exists l: nat :: l < k && IsBlock(DescendN(g, l), 0, 0) {
        var l: nat :| l < k && IsBlock(DescendN(g, l), 0, 0);
        if l < k - 1 {
          assert l < k - 1 && IsBlock(DescendN(g, l), 0, 0);
        }
      }
    }
  }

  /** A block below k is a block below every n >= k. */
  lemma {:induction false} SomeBlockGrows(g: Grid, k: nat, n: nat)
    requires Valid(g) && k <= n && SomeBlockBelow(g, k)
    ensures SomeBlockBelow(g, n)
    decreases n
  {
    if k < n {
      SomeBlockGrows(g, k, n - 1);
    }
  }

  /**
   * The state of the depth loop after the levels below k: the table holds
   * exactly their records, its capacity trimmed to them; with n_brgh < 0,
   * no level below k had a block and the table is empty.
   */
  ghost predicate Filled(sc: StarChart, g: Grid, k: nat, htable: HashTable, encode: Encoder,
                         blocks: (Grid, int, int) -> seq<Quad>)
    reads htable, htable.codes, htable.origin, htable.alpha, htable.scale, htable.idc
    requires WellFormed(sc) && Valid(g)
  {
    && htable.Valid() && htable.Capacity() == htable.ptr
    && CatalogQuads(sc, TableQuads(blocks, g, k)) && AllEncode(sc, TableQuads(blocks, g, k), encode)
    && htable.Contents() == EncodeRows(sc, TableQuads(blocks, g, k), encode)
    && (g.nBrgh < 0 ==> TableQuads(blocks, g, k) == [] && !SomeBlockBelow(g, k))
  }

  /**
   * One iteration of the depth loop.  With n_brgh >= 0, level `level`
   * appends the records of its blocks after those of the levels before it.
   * With n_brgh < 0, the level stops the loop exactly when it has a block,
   * whose cell table cannot be allocated; otherwise it appends nothing.
   */
  method VisitLevel(sc: StarChart, g: Grid, level: nat, grid: Grid, htable: HashTable, encode: Encoder,
                    ghost blocks: (Grid, int, int) -> seq<Quad>) returns (stop: bool)
    requires WellFormed(sc) && BlocksOf(sc, blocks) && Valid(g) && IsQuadEncoder(encode)
    requires grid == DescendN(g, level) && Filled(sc, g, level, htable, encode, blocks)
    modifies htable
    ensures stop <==> g.nBrgh < 0 && IsBlock(grid, 0, 0)
    ensures htable.Valid() && htable.Capacity() == htable.ptr
    ensures !stop ==> Filled(sc, g, level + 1, htable, encode, blocks)
  {
    if grid.nBrgh < 0 {
      if grid.nRa - 1 > 0 && grid.nDec - 1 > 0 {
        return true;
      }
      LevelNone(blocks, grid);
    } else {
      ghost var done := TableQuads(blocks, g, level);
      HashLevel(sc, grid, htable, encode, blocks);
      EncodeConcat(sc, [], done, LevelQuads(blocks, grid), encode);
    }
    return false;
  }

  /**
   * The depth loop of build_hashtable on a valid grid g: `depth` levels
   * (none when depth is not positive), each appending the records of all
   * its blocks.  With n_brgh negative, the first block visited stops the
   * loop (its cell table cannot be allocated with a negative shape); when
   * no level has a block, the table stays empty.
   */
  method FillLevels(sc: StarChart, g: Grid, encode: Encoder, ghost blocks: (Grid, int, int) -> seq<Quad>)
    returns (htable: HashTable, stop: bool)
    requires WellFormed(sc) && BlocksOf(sc, blocks) && Valid(g) && IsQuadEncoder(encode)
    ensures fresh(htable) && htable.Valid() && htable.Capacity() == htable.ptr
    ensures var levels := if g.depth > 0 then g.depth else 0;
      && (stop <==> g.nBrgh < 0 && SomeBlockBelow(g, levels))
      && (!stop ==> var done := TableQuads(blocks, g, levels);
            && CatalogQuads(sc, done) && AllEncode(sc, done, encode)
            && htable.Contents() == EncodeRows(sc, done, encode))
      && (!stop && g.nBrgh < 0 ==> TableQuads(blocks, g, levels) == [])
  {
    var grid := g;
    htable := new HashTable(0);
    var level := 0;
    while level < g.depth
      invariant 0 <= level && (level <= g.depth || level == 0)
      invariant grid == DescendN(g, level)
      invariant fresh(htable) && Filled(sc, g, level, htable, encode, blocks)
    {
      stop := VisitLevel(sc, g, level, grid, htable, encode, blocks);
      if stop {
        SomeBlockGrows(g, level + 1, g.depth);
        return;
      }
      grid := Descend(grid);
      level := level + 1;
    }
    return htable, false;
  }

  /**
   * The depth loop of build_hashtable on a valid grid g, then the check for
   * an empty table.
   */
  method HashLevels(sc: StarChart, g: Grid, encode: Encoder, ghost blocks: (Grid, int, int) -> seq<Quad>)
    returns (r: Result<HashTable, BuildError>)
    requires WellFormed(sc) && BlocksOf(sc, blocks) && Valid(g) && IsQuadEncoder(encode)
    ensures var levels := if g.depth > 0 then g.depth else 0;
      && (g.nBrgh < 0 ==>
            r == Failure(if exists l: nat :: l < levels && IsBlock(DescendN(g, l), 0, 0)
                         then NegativeShape else NoHashcodes))
      && (g.nBrgh >= 0 ==>
            var qs := TableQuads(blocks, g, levels);
            && CatalogQuads(sc, qs) && AllEncode(sc, qs, encode)
            && (r.Success? <==> qs != [])
            && (r.Failure? ==> r.error == NoHashcodes)
            && (r.Success? ==> && fresh(r.value) && r.value.Valid()
                               && r.value.Contents() == EncodeRows(sc, qs, encode)
                               && r.value.Capacity() == |qs|))
  {
    var htable, stop := FillLevels(sc, g, encode, blocks);
    SomeBlockBelowIff(g, if g.depth > 0 then g.depth else 0);
    if stop {
      return Failure(NegativeShape);
    }
    if htable.Capacity() == 0 {
      return Failure(NoHashcodes);
    }
    return Success(htable);
  }

  /**
   * build_hashtable: the grid of the specification, then its depth loop.
   * A block's encoding never fails: its four stars lie in four different
   * cells.  The ghost argument `blocks` names the quads of every block
   * (CatalogBlocks is one such function).
   */
  method BuildHashtable(sc: StarChart, spec: GridSpec, encode: Encoder, ghost blocks: (Grid, int, int) -> seq<Quad>)
    returns (r: Result<HashTable, BuildError>)
    requires WellFormed(sc) && BlocksOf(sc, blocks) && IsQuadEncoder(encode)
    ensures var made := NewGrid(spec.raStart, spec.decStart, spec.raEnd, spec.decEnd,
                                spec.nRa, spec.nDec, spec.nBrgh, spec.depth);
      && (made.Failure? ==> r == Failure(BadGrid(made.error)))
      && (made.Success? && spec.nBrgh < 0 ==>
            var levels := if spec.depth > 0 then spec.depth else 0;
            r == Failure(if exists l: nat :: l < levels && IsBlock(DescendN(made.value, l), 0, 0)
                         then NegativeShape else NoHashcodes))
      && (made.Success? && spec.nBrgh >= 0 ==>
            var qs := TableQuads(blocks, made.value, if spec.depth > 0 then spec.depth else 0);
            && CatalogQuads(sc, qs) && AllEncode(sc, qs, encode)
            && (r.Success? <==> qs != [])
            && (r.Failure? ==> r.error == NoHashcodes)
            && (r.Success? ==> && fresh(r.value) && r.value.Valid()
                               && r.value.Contents() == EncodeRows(sc, qs, encode)
                               && r.value.Capacity() == |qs|))
  {
    var made := NewGrid(spec.raStart, spec.decStart, spec.raEnd, spec.decEnd,
                        spec.nRa, spec.nDec, spec.nBrgh, spec.depth);
    if made.Failure? {
      return Failure(BadGrid(made.error));
    }
    r := HashLevels(sc, made.value, encode, blocks);
  }
}

/**
 * The per-cell tables of catalog star ids.  BrightestInGrid and GridStars
 * are the same class under two names: a grid and an
 * n_ra x n_dec x n_brgh array of star ids, -1 marking an empty slot.  Both
 * are modelled by `CellTable`.
 */
module CellTables {
  import opened Grids

  /** The entries of `s` that are > 0, in their order: numpy's `s[s > 0]`. */
  function Positives(s: seq<int>): (r: seq<int>)
    ensures |r| <= |s|
    ensures forall x :: x in r <==> x in s && x > 0
  {
    if s == [] then [] else Positives(s[..|s| - 1]) + (if s[|s| - 1] > 0 then [s[|s| - 1]] else [])
  }

  /** Filtering distributes over concatenation, so it keeps the order of the kept entries. */
  lemma {:induction false} PositivesAppend(s: seq<int>, t: seq<int>)
    ensures Positives(s + t) == Positives(s) + Positives(t)
    decreases |t|
  {
    if t == [] {
      assert s + t == s;
    } else {
      var n := |t| - 1;
      PositivesAppend(s, t[..n]);
      assert (s + t)[..|s + t| - 1] == s + t[..n];
    }
  }

  /** A single entry is kept exactly when it is positive; in particular star id 0 is dropped. */
  lemma PositivesSingle(x: int)
    ensures Positives([x]) == if x > 0 then [x] else []
  {
    assert [x][..0] == [];
  }

  /** A slice with no positive entry, such as one still all -1, filters to nothing. */
  lemma {:induction false} PositivesNone(s: seq<int>)
    requires forall k :: 0 <= k < |s| ==> s[k] <= 0
    ensures Positives(s) == []
  {
    if s != [] {
      PositivesNone(s[..|s| - 1]);
    }
  }

  class CellTable {
    const grid: Grid
    const starId: array3<int>

    /** The array has the shape (n_ra, n_dec, n_brgh) of the grid. */
    predicate Valid()
      reads this
    {
      starId.Length0 == grid.nRa && starId.Length1 == grid.nDec && starId.Length2 == grid.nBrgh
    }

    /** __init__: every slot -1.  numpy refuses a negative dimension, so the counts are not negative. */
    constructor (grid: Grid)
      requires grid.nRa >= 0 && grid.nDec >= 0 && grid.nBrgh >= 0
      ensures this.grid == grid && Valid() && fresh(starId)
      ensures forall i, j, r :: 0 <= i < grid.nRa && 0 <= j < grid.nDec && 0 <= r < grid.nBrgh ==>
        starId[i, j, r] == -1
    {
      this.grid := grid;
      starId := new int[grid.nRa, grid.nDec, grid.nBrgh]((i, j, r) => -1);
    }

    /** add_star: slot (i, j, r) becomes `star`, every other slot keeps its value. */
    method AddStar(i: nat, j: nat, r: nat, star: int)
      requires Valid() && i < grid.nRa && j < grid.nDec && r < grid.nBrgh
      modifies starId
      ensures starId[i, j, r] == star
      ensures forall i', j', r' ::
        0 <= i' < grid.nRa && 0 <= j' < grid.nDec && 0 <= r' < grid.nBrgh && (i', j', r') != (i, j, r) ==>
          starId[i', j', r'] == old(starId[i', j', r'])
    {
      starId[i, j, r] := star;
    }

    /** The slice star_id[i, j, :]: the cell's slots in rank order. */
    function Cell(i: nat, j: nat): (s: seq<int>)
      reads this, starId
      requires Valid() && i < grid.nRa && j < grid.nDec
      ensures |s| == grid.nBrgh
      ensures forall r :: 0 <= r < grid.nBrgh ==> s[r] == starId[i, j, r]
    {
      seq(starId.Length2, r reads starId requires 0 <= r < starId.Length2 => starId[i, j, r])
    }

    /**
     * get_cell_stars: the positive ids of the cell in rank order.  The -1
     * sentinel is dropped, and so is a recorded star 0.
     */
    function GetCellStars(i: nat, j: nat): (stars: seq<int>)
      reads this, starId
      requires Valid() && i < grid.nRa && j < grid.nDec
      ensures stars == Positives(Cell(i, j))
      ensures |stars| <= grid.nBrgh
      ensures forall x :: x in stars <==> x > 0 && exists r :: 0 <= r < grid.nBrgh && starId[i, j, r] == x
    {
      var s := Cell(i, j);
      assert forall x :: x in s <==> exists r :: 0 <= r < grid.nBrgh && starId[i, j, r] == x;
      Positives(s)
    }

    /** A cell whose slots are all still -1, as in a fresh table, has no stars. */
    lemma UntouchedCellEmpty(i: nat, j: nat)
      requires Valid() && i < grid.nRa && j < grid.nDec
      requires forall r :: 0 <= r < grid.nBrgh ==> starId[i, j, r] == -1
      ensures GetCellStars(i, j) == []
    {
      PositivesNone(Cell(i, j));
    }
  }

  /** The two names of the source for the same table. */
  type BrightestInGrid = CellTable
  type GridStars = CellTable
}

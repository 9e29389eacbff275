# TelescopeNavigation reference hash table, modelled in Dafny

TelescopeNavigation finds where a telescope is pointing. It matches
geometric hash codes of star quads in an image against a reference table
built from a star catalog. This project models how that reference table is
built:

- **Hashing** (`hashing.py`) is the quad code of Lang et al. (2010). Among
  four stars, A and B are the most distant pair. The code holds the
  coordinates of the other two stars, C and D, in the frame that puts A at
  (0,0) and B at (1,1). The code is then rectified so that it does not
  depend on the order of the stars.
- **Grids** (`src/Grid.py`) is the grid of cells in right ascension and
  declination. Its constructor checks its corners. `descend` halves the
  cells in both directions.
- **CellTables** (`src/BrightestInGrid.py`, `src/GridStars.py`) holds, for
  each cell, the `n_brgh` brightest catalog stars. It is a three-dimensional
  `star_id` array filled with the sentinel -1.
- **HashTables** (`src/HashTable.py`) is five parallel record columns with a
  write cursor `ptr`. It supports `add_row` and `append`.
- **GridProcessing** (`src/grid_processing.py`):
  - `_stars_in_subgrid` buckets the catalog into cells;
  - `permute_and_hash` writes one record for every choice of one star from
    each cell of a 2x2 block;
  - `build_hashtable` appends the blocks of every level of the grid.
- **Utils** (`src/utils.py`) converts a right ascension given in hours,
  minutes and seconds to radians.

Coordinates are exact reals. Python's `norm(x) <= sqrt(2)` tests become
squared-norm tests, which are equivalent. `_sort_stars` takes the first
maximum of the pairwise distances. The model takes it over squared
distances instead. The square root is strictly increasing, so both
matrices have the same order and the same ties, and the same first
maximum. Each operation that changes state
in place is a Dafny method over a class:

- `CellTable` has an `array3<int>`;
- `HashTable` has five arrays and `ptr`.

Each such method is proved against a specification function.
`permute_and_hash` and `build_hashtable` are proved against the sequence of
quads their loops visit. The encoder behind `generate_quad_code(pos,
return_geometry=True)` is a function parameter, and so is the `atan2` behind
the rotation angle. Lemmas show that `QuadGeometry` is a valid encoder, and
that it never fails on a block of four distinct cells.

## Model

| member | source | states |
|---|---|---|
| Utils.HourAngleToRad | src/utils.py:4-9 | With hours only, the result is pi*h/12. With minutes and seconds, it is pi*(3600h+60m+s)/43200. With minutes but no seconds, it is an error. |
| Utils.FullTurn | src/utils.py:6-7 | 24 hours is a full turn, 2*pi. |
| Utils.ZeroMinutesSeconds | src/utils.py:6-9 | Passing m = s = 0 gives the same result as passing hours only. |
| Utils.TotalHours | src/utils.py:9 | The full form equals the hours-only form applied to h + m/60 + s/3600. |
| Utils.SixtyMinutes | src/utils.py:9 | 60 minutes count as one hour. |
| Utils.SixtySeconds | src/utils.py:9 | 60 seconds count as one minute. |
| Utils.Additive | src/utils.py:9 | The conversion is additive in (h, m, s) taken together. |
| Grids.NewGrid | src/Grid.py:29-49 | Succeeds iff all four corners lie in [0, 2pi], ra_start > ra_end, dec_start < dec_end, and neither cell count is zero (the width division). A success keeps every argument. Failing the ra order check is exactly "corners in range, but ra_start <= ra_end", since the assertions run in order. |
| Grids.Widths | src/Grid.py:48-49 | n_ra*ra_width spans ra_end-ra_start, and n_dec*dec_width spans dec_end-dec_start. With positive counts, ra_width < 0 and dec_width > 0. |
| Grids.Descend | src/Grid.py:51-59 | The result has twice the cells in each direction. It keeps the corners, n_brgh and depth, and it keeps validity. |
| Grids.DescendHalves | src/Grid.py:57-58 | Descending halves both cell widths. |
| Grids.DescendN | src/Grid.py:51-59 | Descending any number of times keeps the constructor's invariants and n_brgh. |
| Grids.DescendNShape | src/Grid.py:51-59 | k descents give n_ra*2^k by n_dec*2^k cells on the same corners. |
| CellTables.Positives | src/BrightestInGrid.py:27-28 | `stars[stars>0]`: the result is no longer than the input, and it holds exactly the input's elements that are > 0. |
| CellTables.PositivesAppend | src/BrightestInGrid.py:28 | The filter keeps order: filtering a concatenation concatenates the filtered parts. |
| CellTables.PositivesSingle | src/BrightestInGrid.py:28 | A single entry is kept iff it is > 0. Star id 0 is dropped along with the sentinel -1. |
| CellTables.PositivesNone | src/BrightestInGrid.py:28 | A slice of sentinels (or zeros) filters to nothing. |
| CellTables.CellTable.constructor | src/BrightestInGrid.py:7-18 | A fresh n_ra x n_dec x n_brgh table with every slot -1. |
| CellTables.CellTable.AddStar | src/BrightestInGrid.py:21-22 | Writes slot (i, j, r) and leaves every other slot unchanged. |
| CellTables.CellTable.Cell | src/BrightestInGrid.py:27 | The slice (i, j, :) in rank order, of length n_brgh. |
| CellTables.CellTable.GetCellStars | src/BrightestInGrid.py:25-28 | Reads the table only. The result is the slice filtered to entries > 0, in rank order, with at most n_brgh entries. A value is in the result iff it is > 0 and sits in some slot of the cell. |
| CellTables.CellTable.UntouchedCellEmpty | src/GridStars.py:24-27 | A cell whose slots all still hold -1 has no stars. |
| HashTables.Stack | src/HashTable.py:41-45 | vstack/concatenate of two slices is a fresh array holding the first slice followed by the second. |
| HashTables.RowsStacked | src/HashTable.py:41-45 | Stacking each of the five columns concatenates the rows they form. |
| HashTables.HashTable.Contents | src/HashTable.py:24-35 | The logical contents are the rows below ptr, so there are ptr of them. |
| HashTables.HashTable.constructor | src/HashTable.py:8-24 | `HashTable(L)`: five zeroed columns of capacity L, ptr = 0, no contents. |
| HashTables.HashTable.AddRow | src/HashTable.py:27-37 | Keeps the column arrays, advances ptr by one, appends exactly the given record to the contents, and leaves every row above the cursor unchanged. |
| HashTables.HashTable.Install | src/HashTable.py:41-45 | Rebinding the five columns to arrays of one length makes them the full contents. |
| HashTables.HashTable.Append | src/HashTable.py:39-47 | The contents become the old contents followed by the argument's contents. ptr becomes the sum of the two cursors and the capacity equals it. A distinct argument is unchanged. |
| Hashing.DistMat | hashing.py:23-25 | The distance matrix has 3x4 = 12 entries in row-major order. |
| Hashing.DistMatAt | hashing.py:23-25 | Entry (i, j) with i < j is the squared distance between stars i and j. |
| Hashing.DistMatBelow | hashing.py:23-25 | Entries on and below the diagonal are 0. |
| Hashing.ArgMax | hashing.py:27 | `argmax`: the index of a maximal entry, with every earlier entry strictly smaller (the first maximum). |
| Hashing.OthersFrom | hashing.py:30 | `~np.isin(...)`: exactly the indices in 0..3 other than the chosen pair. |
| Hashing.OthersOfPair | hashing.py:30 | For a pair i < j, two indices are left, in ascending order. |
| Hashing.MaxEntryAllEqual | hashing.py:23-29 | When all four positions coincide, argmax picks entry 0, that is the pair (0, 0). |
| Hashing.MaxEntryAbove | hashing.py:23-29 | Otherwise the maximum lies above the diagonal, and its two stars differ. |
| Hashing.LeftOver | hashing.py:27-30 | Exactly two stars are left for C and D iff the positions are not all equal. In that case they are ascending and A != B. |
| Hashing.SortIndices | hashing.py:7-32 | Roles A, B, C, D form a permutation of 0..3 with A != B iff the positions are not all equal. |
| Hashing.SortIndicesMaximal | hashing.py:23-29 | No pair of the four stars is farther apart than A and B. |
| Hashing.SortIndicesFirst | hashing.py:23-29 | (A, B) is the first maximal pair in row-major order. |
| Hashing.FrameScale | hashing.py:102 | `scale` times the squared length of B-A is exactly 1, so the division is defined. |
| Hashing.NormalizedA | hashing.py:88-105 | A normalises to (0, 0). |
| Hashing.NormalizedB | hashing.py:93-107 | B normalises to exactly (1, 1), which is what the commented assert on line 107 expects. |
| Hashing.NormalizedDistanceToA | hashing.py:88-105 | The normalised squared norm of v is 2\|v-A\|^2/\|B-A\|^2. |
| Hashing.NormalizedDistanceToB | hashing.py:88-105 | The normalised squared distance of v to (1,1) is 2\|v-B\|^2/\|B-A\|^2. |
| Hashing.NearAInDisk | hashing.py:112 | A star no farther from A than B is lies in the disk \|x\|^2 <= 2. |
| Hashing.NearBInDisk | hashing.py:112 | A star no farther from B than A is lies in the disk \|x-(1,1)\|^2 <= 2. |
| Hashing.InLensWhenClose | hashing.py:111-114 | A star within \|B-A\| of both A and B lands in the lens the guard tests. |
| Hashing.QuadInLens | hashing.py:111-114 | If C and D are within \|B-A\| of A and B, both halves of the raw code pass the guard. |
| Hashing.RawCodeInLens | hashing.py:111-149 | Because A, B is a most distant pair, the guard always holds, so the ValueError on line 149 is unreachable. |
| Hashing.Rectify | hashing.py:35-41 | The output satisfies code[0]+code[2] <= 1 and code[0] <= code[2]. It is the input, its reflection 1-c, its half-swap, or both. |
| Hashing.RectifyCanonical | hashing.py:35-41 | A code that is already canonical is left alone. |
| Hashing.RectifyIdempotent | hashing.py:35-41 | Rectifying twice is the same as rectifying once. |
| Hashing.RectifyReflect | hashing.py:36-38 | When c[0]+c[2] != 1, `_rectify_code(1-c) == _rectify_code(c)`. |
| Hashing.RectifySwap | hashing.py:39-40 | When c[0] != c[2], the half-swap (c2,c3,c0,c1) rectifies to the same code. |
| Hashing.GenerateQuadCode | hashing.py:44-154 | Succeeds iff the four positions are not all equal. Otherwise it fails with the tuple-unpack error of `_sort_stars`. A produced code is canonical. |
| Hashing.QuadCodeOfRoles | hashing.py:85-152 | The code is the rectified raw code of C and D in the frame of A and B. |
| Hashing.NormalizeSwap | hashing.py:88-105 | Exchanging A and B maps every normalised point x to (1,1)-x. |
| Hashing.RawCodeSwapAB | hashing.py:88-109 | Exchanging A and B reflects the raw code. |
| Hashing.RawCodeSwapCD | hashing.py:88-109 | Exchanging C and D swaps the halves of the raw code. |
| Hashing.NormalizeSimilar | hashing.py:88-105 | Normalisation is invariant under every rotation-with-scaling plus translation of the plane. |
| Hashing.AllEqualSimilar | hashing.py:23-30 | Such a map keeps "all four equal". |
| Hashing.SortIndicesSimilar | hashing.py:23-30 | Such a map keeps the roles A, B, C, D. |
| Hashing.QuadCodeSimilar | hashing.py:44-154 | The quad code is invariant under rotation, uniform scaling and translation. |
| Hashing.QuadCodeTranslation | hashing.py:88-90 | Translating all four stars by one vector leaves the code (or the error) unchanged. |
| Hashing.FarthestPermuted | hashing.py:23-30 | Relabelling stars with a unique farthest pair picks the same pair for A, B, possibly in the other order. |
| Hashing.RectifyRelabelled | hashing.py:35-41 | Exchanging A with B, or C with D, does not change the rectified code, away from the two lines where `_rectify_code` cannot tell the variants apart. |
| Hashing.QuadCodePermutation | hashing.py:7-41 | With a unique farthest pair, away from those two lines, the code does not depend on the order of the four stars. |
| Hashing.QuadGeometry | hashing.py:85-105 | The geometry the builder stores succeeds exactly when the code does, and carries the same code. The origin is A, the scale is the frame scale of A and B, and alpha is atan2 of B-A. |
| Hashing.QuadGeometryScale | hashing.py:102-103 | The stored scale times \|B-A\|^2 is 1: \|B-A\| becomes the frame's unit length. |
| Hashing.QuadGeometryEncodes | src/grid_processing.py:94 | QuadGeometry fails only on four coinciding positions, and then with the unpack error. |
| GridProcessing.Matches | src/grid_processing.py:37-40 | `argwhere`: exactly the catalog indices whose star lies in the cell (ra in (grid_ra[i+1], grid_ra[i]], dec in [grid_dec[j], grid_dec[j+1])), strictly ascending. |
| GridProcessing.Slot | src/grid_processing.py:37-42 | A slot holds -1 or the index of a catalog star inside that cell. |
| GridProcessing.CellSlots | src/grid_processing.py:41-42 | A cell has n_brgh slots. |
| GridProcessing.CellStars | src/grid_processing.py:37-42 | A cell contributes at most n_brgh stars, each a positive catalog index of a star inside the cell. |
| GridProcessing.StarsInSubgrid | src/grid_processing.py:11-43 | Builds a fresh table on the grid whose slot (i, j, r) holds the r-th catalog star of cell (i, j), or -1 past the end of the cell. |
| GridProcessing.GridRaDecreasing | src/grid_processing.py:31 | The ra grid lines decrease. |
| GridProcessing.GridDecIncreasing | src/grid_processing.py:32 | The dec grid lines increase. |
| GridProcessing.CellsDisjoint | src/grid_processing.py:38-39 | On a valid grid a position lies in at most one cell. |
| GridProcessing.RecordedOnce | src/grid_processing.py:35-42 | A catalog star is recorded in at most one slot of a level. |
| GridProcessing.RecordedAreBrightest | src/grid_processing.py:41-42 | In a catalog sorted by magnitude, each recorded star is at least as bright as any star of the cell that was not recorded. |
| GridProcessing.SmallCellComplete | src/grid_processing.py:41-42 | A cell with at most n_brgh stars records all of them in catalog order, followed by -1 sentinels. |
| GridProcessing.SubgridCell | src/grid_processing.py:11-43 | get_cell_stars on the table built by _stars_in_subgrid returns CellStars. |
| GridProcessing.Positions | src/grid_processing.py:90-93 | `pos` is the four (ra, dec) positions of a quad. |
| GridProcessing.QuadRow | src/grid_processing.py:94-96 | The record of a quad succeeds iff the encoder does. It carries the encoder's code and `idc = [i_a, i_b, i_c, i_d]`. |
| GridProcessing.EncodeRows | src/grid_processing.py:85-96 | One record per quad, in order, and the k-th record carries the k-th quad's ids. |
| GridProcessing.LoopLength | src/grid_processing.py:85-88 | Each pass of a loop level contributes the product of the lengths of the inner lists. |
| GridProcessing.QuadsLength | src/grid_processing.py:84-88 | The four nested loops visit \|a\|*\|b\|*\|c\|*\|d\| quads, which is the capacity allocated on line 84. |
| GridProcessing.LoopCount | src/grid_processing.py:84-88 | The number of quads visited so far equals the row count that Count tracks. |
| GridProcessing.CountGrows | src/grid_processing.py:85-88 | The rows written never decrease as a loop advances. |
| GridProcessing.LoopMembers | src/grid_processing.py:85-88 | A quad is visited iff each of its stars is taken from its own list, after the fixed prefix. |
| GridProcessing.QuadsMembers | src/grid_processing.py:85-88 | A quad is visited iff a, b, c and d come from the four cells respectively. |
| GridProcessing.EmptyListNoQuads | src/grid_processing.py:82-84 | If any of the four lists is empty, there are no quads. |
| GridProcessing.RunIncluded | src/grid_processing.py:85-88 | The quads of one pass are among the quads of the whole loop. |
| GridProcessing.CatalogConcat | src/grid_processing.py:90-93 | Two runs of catalog quads concatenate to one. |
| GridProcessing.EncodeConcat | src/grid_processing.py:96-127 | Encoding a concatenation concatenates the records. |
| GridProcessing.FailurePrefix | src/grid_processing.py:94 | The first encoder error in a run stays the first after more quads follow. |
| GridProcessing.FailureShift | src/grid_processing.py:94 | After a run that encodes, the first error moves by the run's length. |
| GridProcessing.LoopInCatalog | src/grid_processing.py:85-93 | Every quad the loops visit indexes the catalog. |
| GridProcessing.RunInCatalog | src/grid_processing.py:85-93 | Every quad of one pass indexes the catalog. |
| GridProcessing.ListsExtend | src/grid_processing.py:85-88 | Fixing one more star keeps all ids inside the catalog. |
| GridProcessing.RunRows | src/grid_processing.py:85-96 | A successful pass writes as many records as the inner loops visit. |
| GridProcessing.LoopRows | src/grid_processing.py:85-96 | A successful loop writes Count records. |
| GridProcessing.RunRowsMeaning | src/grid_processing.py:85-96 | A pass's records are exactly the encoded quads of the pass. An error is the first error the encoder gives on them. |
| GridProcessing.LoopRowsMeaning | src/grid_processing.py:85-96 | The loop's records are exactly the encoded quads it visits, in loop order. An error is the first one the encoder gives. |
| GridProcessing.CellStarsIn | src/grid_processing.py:77-80 | The star ids of a cell index the catalog. |
| GridProcessing.LoopRowsStays | src/grid_processing.py:94 | Once an error occurs, later iterations keep it. |
| GridProcessing.LoopStep | src/grid_processing.py:85-88 | One iteration of an outer loop appends the records of its inner loop, or ends the loop with the inner error, and stays within the capacity. |
| GridProcessing.NextD | src/grid_processing.py:88-96 | One iteration over d appends the record of its quad after those before it, or ends the loop over d with the encoder's error. |
| GridProcessing.HashD | src/grid_processing.py:88-96 | The innermost loop appends exactly the records of its quads to the table, or returns the first encoder error. |
| GridProcessing.NextC | src/grid_processing.py:87-96 | One iteration over c appends the records of the loop over d after those before it, or ends the loop over c with its error. |
| GridProcessing.HashCD | src/grid_processing.py:87-96 | The loop over c appends exactly its records, or returns the first error. |
| GridProcessing.NextB | src/grid_processing.py:86-96 | One iteration over b appends the records of the loop over c after those before it, or ends the loop over b with its error. |
| GridProcessing.HashBCD | src/grid_processing.py:86-96 | The loop over b appends exactly its records, or returns the first error. |
| GridProcessing.NewQuadTable | src/grid_processing.py:84 | The table allocated for a block is empty, with room for exactly as many records as there are quads. |
| GridProcessing.NextA | src/grid_processing.py:85-96 | One iteration over a appends the records of the loop over b after those before it, or ends the loop over a with its error. |
| GridProcessing.HashABCD | src/grid_processing.py:84-97 | The outer loop fills the table with exactly the loop's records, or fails with its first error. |
| GridProcessing.PermuteAndHash | src/grid_processing.py:75-97 | The table holds exactly the encoded quads of cells (i,j), (i+1,j), (i,j+1), (i+1,j+1), in nested loop order. Its capacity equals their number. It succeeds iff every quad encodes, and otherwise returns the first error. |
| GridProcessing.SeparateCells | src/grid_processing.py:38-39 | Stars in different cells of one level have different positions. |
| GridProcessing.BlockQuadSeparated | src/grid_processing.py:77-93 | The four stars of any quad of a block sit at four distinct positions. |
| GridProcessing.BlockEncodes | src/grid_processing.py:94 | An encoder that fails only on four coinciding positions never fails on a block. |
| GridProcessing.BlockQuadsEmpty | src/grid_processing.py:82-84 | A block has no quads iff one of its four cells has no star. |
| GridProcessing.CatalogBlocksOf | src/grid_processing.py:125-126 | The catalog's blocks are the blocks that permute_and_hash hashes. |
| GridProcessing.DecLoopNone | src/grid_processing.py:124 | `range(n_dec-1)` with n_dec <= 1 visits nothing. |
| GridProcessing.RaLoopNone | src/grid_processing.py:123 | `range(n_ra-1)` with n_ra <= 1 visits nothing. |
| GridProcessing.RaLoopNoDec | src/grid_processing.py:123-124 | With n_dec <= 1, every dec loop is empty and so is the ra loop. |
| GridProcessing.LevelNone | src/grid_processing.py:123-124 | A level without block (0, 0) visits no block and yields no quads. |
| GridProcessing.DecLoopMembers | src/grid_processing.py:124-127 | A quad is in the dec loop iff some visited block holds it. |
| GridProcessing.RaLoopMembers | src/grid_processing.py:123-127 | A quad is in the ra loop iff some visited block holds it. |
| GridProcessing.LevelMembers | src/grid_processing.py:123-127 | A quad is in a level iff some block of that level holds it. |
| GridProcessing.LevelsStep | src/grid_processing.py:120-129 | The levels below k+1 hold a quad iff the levels below k or level k hold it. |
| GridProcessing.LevelsIn | src/grid_processing.py:120-129 | A quad is in the table built over k levels iff one of those levels holds it. |
| GridProcessing.LevelsBlocks | src/grid_processing.py:120-129 | Some level below k holds a quad iff some block (i, j) of some level below k holds it. |
| GridProcessing.LevelsMembers | src/grid_processing.py:120-129 | A quad is in the table iff some block of some level below depth holds it. |
| GridProcessing.TableMembers | src/grid_processing.py:117-129 | The same for the catalog's own blocks: the table holds exactly the quads of the blocks of the descended grids. |
| GridProcessing.TableEmpty | src/grid_processing.py:120-131 | The table has no quads iff every visited block has none. |
| GridProcessing.CatalogBlocksEmpty | src/grid_processing.py:125-131 | Every visited block is empty iff every visited block has an empty cell. |
| GridProcessing.NoHashcodesIff | src/grid_processing.py:131-132 | The RuntimeError is raised iff every visited block has an empty cell, including when depth <= 0. |
| GridProcessing.BlockTable | src/grid_processing.py:125 | The _stars_in_subgrid table's ids index the catalog, and its four cells around block (i, j) yield exactly that block's quads. |
| GridProcessing.HashBlock | src/grid_processing.py:125-126 | Bucketing the grid and hashing block (i, j) gives exactly that block's encoded quads. |
| GridProcessing.AppendBlock | src/grid_processing.py:125-127 | Appending a block's table extends the contents by exactly its records and trims the capacity to ptr. |
| GridProcessing.NextDec | src/grid_processing.py:124-127 | One iteration of the dec loop appends block (i, j)'s records after those of the blocks before it. |
| GridProcessing.HashDecLoop | src/grid_processing.py:124-127 | The dec loop appends exactly the records of blocks (i, 0) .. (i, n_dec-2). |
| GridProcessing.AppendRa | src/grid_processing.py:123-127 | One iteration of the ra loop appends the records of its dec loop after those of the ra indices before it. |
| GridProcessing.HashLevel | src/grid_processing.py:123-127 | One level appends exactly the records of its blocks in ra-then-dec order. |
| GridProcessing.VisitLevel | src/grid_processing.py:120-129 | With n_brgh >= 0, one level appends the records of its blocks after those of the levels before it. With n_brgh < 0, it stops the loop iff the level has a block, and otherwise appends nothing. |
| GridProcessing.SomeBlockBelowIff | src/grid_processing.py:120-124 | Some level below k has a block iff some level l < k, the grid descended l times, has block (0, 0). |
| GridProcessing.SomeBlockGrows | src/grid_processing.py:120-124 | A level with a block below k is below every n >= k. |
| GridProcessing.FillLevels | src/grid_processing.py:120-129 | With n_brgh < 0 the loop stops iff some level visits a block, and otherwise leaves the table empty. Otherwise the table holds exactly the encoded quads of every level, in level, ra, dec order, with capacity equal to ptr. |
| GridProcessing.HashLevels | src/grid_processing.py:120-134 | On a valid grid: with n_brgh < 0 it fails with NegativeShape iff some level visits a block, and otherwise with NoHashcodes. Otherwise the table holds exactly the encoded quads of every level, in level, ra, dec order. Its capacity is their number, and it raises NoHashcodes iff there are none. |
| GridProcessing.BuildHashtable | src/grid_processing.py:100-134 | Fails with the grid's error when the grid is refused. With n_brgh < 0 it fails with NegativeShape iff some level visits a block, and otherwise with NoHashcodes. Otherwise the table holds exactly the encoded quads of every level, in level, ra, dec order. Its capacity is their number, and it raises NoHashcodes iff there are none. |

## Left out

- `HashTable.save` and `load` are pickle file I/O and are not modelled. `load` does not restore `ptr`.
- float32 storage of the columns and IEEE rounding in general are not modelled: coordinates are exact reals.
- `np.pi` is the decimal constant 3.141592653589793.
- The debug plotting and the `print` calls before the ValueError in `generate_quad_code`, and the progress `print` in `build_hashtable`, are output only and are not modelled.
- The `ValueError` itself is modelled as the `GeometryInvariant` error, and it is proved unreachable.
- `generate_hash_codes` (a test helper) and `brightest_star_per_cell` (it uses grid attributes that `src/Grid.py` does not define) are not modelled.
- `src/star_detection.py`, `src/plot.py`, the scripts and the CSV loading in `src/StarChart.py` are not part of this model. The catalog is a value with three columns of equal length. Sorting by magnitude is a precondition of `RecordedAreBrightest` only.
- numba and jitclass annotations have no effect on behaviour.
- `build_hashtable` calls `generate_quad_code(pos, return_geometry=True)`, but `hashing.py` has no such parameter. The encoder is therefore a function parameter. `Hashing.QuadGeometry` is one encoder, and its trigonometry (`atan2`) is itself a parameter.
- An encoder failure inside `permute_and_hash` or `build_hashtable` is an exception in Python, which loses the partly built table. It is modelled as a `Failure` result.
- HashTables.HashTable.AddRow: writing at `ptr == capacity` raises numpy's IndexError before the check on lines 36-37 can run, so `ptr < capacity` is a precondition.
- CellTables.CellTable.constructor, GridProcessing.StarsInSubgrid: numpy refuses a negative shape, so the cell counts and n_brgh are required to be non-negative. `build_hashtable` does not require this: there a negative n_brgh is the error NegativeShape, raised at the first block visited.
- GridProcessing.PermuteAndHash: callers must pass a table whose ids index the catalog (as `StarsInSubgrid` builds).
- Grids.NewGrid: a zero cell count is a ZeroDivisionError in the width computation, modelled as the errors ZeroRaCells and ZeroDecCells.
- CellTables.CellTable.GetCellStars: catalog star 0 is dropped like the sentinel, modelled as written (see `PositivesSingle`).
- HashTables.HashTable.Append: associativity, and appending an empty table, follow from its contents postcondition (old contents followed by the argument's) by sequence concatenation. They have no lemma of their own.
- Hashing.QuadCodePermutation: order invariance is proved only when the farthest pair is unique and the raw code avoids the two lines c0+c2 = 1 and c0 = c2. On those lines `_rectify_code` leaves the variants different.
